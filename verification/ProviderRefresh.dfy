/** One hosted provider refresh: the loops over the planned targets and dates that move checkpoints,
    backoffs and circuits. Times are milliseconds. */
module ProviderRefresh {
  import opened Options

  const MINUTE := 60_000
  const DAY := 86_400_000
  const CIRCUIT := 360 * MINUTE
  const FOTMOB := "fotmob-unofficial"

  datatype Checkpoint = Checkpoint(completedAt: Option<int>, etag: Option<string>, nextAttemptAt: Option<int>, failures: nat)
  datatype DateCheckpoint = DateCheckpoint(failureCount: nat, lastCheckedAt: Option<int>, nextAttemptAt: Option<int>, etag: Option<string>)
  datatype MatchCheckpoint = MatchCheckpoint(attemptCount: nat, nextCheckAt: Option<int>, terminalAt: Option<int>, exhaustedAt: Option<int>)

  datatype State = State(contractVersion: int, current: map<string, Checkpoint>, dates: map<string, DateCheckpoint>,
                         matches: map<string, MatchCheckpoint>, circuits: map<string, int>)

  datatype Target = Target(key: string, sourceId: string, requestEtag: Option<string>)
  datatype Group = Group(date: string, matches: seq<string>, etag: Option<string>)

  /** `blocked` tells an access block from other failures. */
  datatype Answer = Answered(etag: Option<string>) | AnswerFailed(blocked: bool)
  datatype DayAnswer = DayAnswered(etag: Option<string>, terminal: set<string>) | DayFailed(blocked: bool)

  datatype Outcome = Fresh | Refreshed | RunFailed

  /** A request that was made, the matches it was to check, whether it was answered, and how long it
      keeps the next one for its key away. */
  datatype Request = Request(key: string, sourceId: string, at: int, matches: seq<string>, answered: bool, blocked: bool, delay: int)

  datatype Progress = Progress(state: State, outcome: Outcome, requests: seq<Request>)

  function Doubled(n: nat): int { if n == 0 then 1 else 2 * Doubled(n - 1) }

  /** Minutes of backoff after some number of failures in a row: 15, 30, 60, ... up to 360. */
  function Backoff(failures: nat): int
    requires failures > 0
  {
    var minutes := 15 * Doubled(if failures - 1 <= 5 then failures - 1 else 5);
    (if minutes < 360 then minutes else 360) * MINUTE
  }

  predicate Until(t: Option<int>, now: int) { t.Some? && t.value > now }

  predicate Open(s: State, sourceId: string, now: int) { sourceId in s.circuits && s.circuits[sourceId] > now }

  function OrElse(a: Option<string>, b: Option<string>): Option<string> { if a.Some? then a else b }

  // ---------------------------------------------------------------- current seasons

  function CheckpointOf(s: State, key: string): Checkpoint {
    if key in s.current then s.current[key] else Checkpoint(None, None, None, 0)
  }

  function AfterAnswer(s: State, t: Target, a: Answer, now: int): State {
    match a
    case Answered(etag) => s.(current := s.current[t.key := Checkpoint(Some(now), OrElse(etag, t.requestEtag), None, 0)])
    case AnswerFailed(blocked) =>
      var c := CheckpointOf(s, t.key);
      s.(current := s.current[t.key := c.(failures := c.failures + 1, nextAttemptAt := Some(now + Backoff(c.failures + 1)))],
         circuits := if blocked then s.circuits[t.sourceId := now + CIRCUIT] else s.circuits)
  }

  function RequestFor(s: State, t: Target, a: Answer, now: int): Request {
    Request(t.key, t.sourceId, now, [], a.Answered?, a.AnswerFailed? && a.blocked,
            if a.AnswerFailed? then Backoff(CheckpointOf(s, t.key).failures + 1) else DAY)
  }

  /** The loop over the planned targets. It ends at an open circuit, after 95 seconds, or after the
      first failure. */
  function Current(p: Progress, targets: seq<Target>, now: int, clock: nat -> int, answer: Target -> Answer): Progress
    decreases |targets|
  {
    if targets == [] then p
    else
      var t := targets[0];
      if Open(p.state, t.sourceId, now) then p.(outcome := RunFailed)
      else if clock(|p.requests|) > now + 95_000 then p
      else
        var a := answer(t);
        var n := Progress(AfterAnswer(p.state, t, a, now), if a.Answered? then Refreshed else RunFailed,
                          p.requests + [RequestFor(p.state, t, a, now)]);
        if a.Answered? then Current(n, targets[1..], now, clock, answer) else n
  }

  method RunCurrent(state: State, targets: seq<Target>, blockedTier: bool, now: int, clock: nat -> int, answer: Target -> Answer)
      returns (p: Progress)
    ensures p == if blockedTier && targets == [] then Progress(state, RunFailed, [])
                 else Current(Progress(state, Fresh, []), targets, now, clock, answer)
  {
    p := Progress(state, Fresh, []);
    if blockedTier && targets == [] { return p.(outcome := RunFailed); }
    assert targets[0..] == targets;
    for i := 0 to |targets|
      invariant Current(p, targets[i..], now, clock, answer) == Current(Progress(state, Fresh, []), targets, now, clock, answer)
    {
      var t := targets[i];
      assert targets[i..][0] == t && targets[i..][1..] == targets[i + 1..];
      if t.sourceId in p.state.circuits && p.state.circuits[t.sourceId] > now { return p.(outcome := RunFailed); }
      if clock(|p.requests|) > now + 95_000 { return; }
      var a := answer(t);
      var request := RequestFor(p.state, t, a, now);
      if a.Answered? {
        var c := Checkpoint(Some(now), if a.etag.Some? then a.etag else t.requestEtag, None, 0);
        p := Progress(p.state.(current := p.state.current[t.key := c]), Refreshed, p.requests + [request]);
      } else {
        return Progress(AfterAnswer(p.state, t, a, now), RunFailed, p.requests + [request]);
      }
    }
  }

  // ---------------------------------------------------------------- terminal results

  function DateOf(s: State, date: string): DateCheckpoint {
    if date in s.dates then s.dates[date] else DateCheckpoint(0, None, None, None)
  }

  function AttemptsOf(s: State, id: string): nat { if id in s.matches then s.matches[id].attemptCount else 0 }

  function Checked(s: State, ids: seq<string>, terminal: set<string>, now: int): State {
    if ids == [] then s
    else
      var before, id := Checked(s, ids[..|ids| - 1], terminal, now), ids[|ids| - 1];
      var attempts := AttemptsOf(before, id) + 1;
      before.(matches := before.matches[id := if id in terminal then MatchCheckpoint(attempts, None, Some(now), None)
                                              else MatchCheckpoint(attempts, Some(now + 2 * MINUTE), None, None)])
  }

  function AfterDay(s: State, g: Group, a: DayAnswer, now: int): State {
    match a
    case DayAnswered(etag, terminal) =>
      var c := Checked(s, g.matches, terminal, now);
      c.(dates := c.dates[g.date := DateCheckpoint(0, Some(now), Some(now + 2 * MINUTE), OrElse(etag, g.etag))])
    case DayFailed(blocked) =>
      var d := DateOf(s, g.date);
      s.(dates := s.dates[g.date := d.(failureCount := d.failureCount + 1, nextAttemptAt := Some(now + Backoff(d.failureCount + 1)))],
         circuits := if blocked then s.circuits[FOTMOB := now + CIRCUIT] else s.circuits)
  }

  function DayRequest(s: State, g: Group, a: DayAnswer, now: int): Request {
    Request(g.date, FOTMOB, now, g.matches, a.DayAnswered?, a.DayFailed? && a.blocked,
            if a.DayFailed? then Backoff(DateOf(s, g.date).failureCount + 1) else 2 * MINUTE)
  }

  function Days(p: Progress, groups: seq<Group>, now: int, answer: Group -> DayAnswer): Progress
    decreases |groups|
  {
    if groups == [] then p
    else
      var g := groups[0];
      var a := answer(g);
      var n := Progress(AfterDay(p.state, g, a, now), if a.DayAnswered? then Refreshed else RunFailed,
                        p.requests + [DayRequest(p.state, g, a, now)]);
      if a.DayAnswered? then Days(n, groups[1..], now, answer) else n
  }

  /** A checkpoint of the former contract loses its etag, an unfinished match its attempts. */
  function Upgraded(s: State, base: set<string>): State {
    if s.contractVersion == 2 then s
    else
      s.(contractVersion := 2,
         dates := map d | d in s.dates :: s.dates[d].(etag := None),
         matches := map m | m in s.matches ::
           if m in base && s.matches[m].terminalAt.None? then MatchCheckpoint(0, s.matches[m].nextCheckAt, None, None) else s.matches[m])
  }

  function FirstOf(a: Option<int>, b: Option<int>): Option<int> { if a.Some? then a else b }

  /** An unparsable or missing time is never below the cutoff. */
  predicate Old(t: Option<int>, cutoff: int) { t.Some? && t.value < cutoff }

  function MatchTime(m: MatchCheckpoint): Option<int> { FirstOf(m.terminalAt, FirstOf(m.exhaustedAt, m.nextCheckAt)) }
  function DateTime(d: DateCheckpoint): Option<int> { FirstOf(d.nextAttemptAt, d.lastCheckedAt) }

  function Pruned(s: State, now: int): State {
    s.(matches := map m | m in s.matches && !Old(MatchTime(s.matches[m]), now - DAY) :: s.matches[m],
       dates := map d | d in s.dates && !Old(DateTime(s.dates[d]), now - DAY) :: s.dates[d])
  }

  /** `plan` is the planner, asked after the checkpoints were brought up to the current contract. */
  function Terminal(s: State, base: set<string>, plan: State -> seq<Group>, now: int, answer: Group -> DayAnswer): Progress {
    if Open(s, FOTMOB, now) then Progress(s, RunFailed, [])
    else
      var up := Upgraded(s, base);
      var p := Days(Progress(up, Fresh, []), plan(up), now, answer);
      p.(state := Pruned(p.state, now))
  }

  method PruneMatches(s: State, now: int) returns (matches: map<string, MatchCheckpoint>)
    ensures matches == Pruned(s, now).matches
  {
    matches := s.matches;
    var keys := s.matches.Keys;
    while keys != {}
      invariant keys <= s.matches.Keys
      invariant matches == map m | m in s.matches && (m in keys || !Old(MatchTime(s.matches[m]), now - DAY)) :: s.matches[m]
      decreases |keys|
    {
      var k :| k in keys;
      keys := keys - {k};
      if Old(MatchTime(s.matches[k]), now - DAY) { matches := map m | m in matches && m != k :: matches[m]; }
    }
  }

  method PruneDates(s: State, now: int) returns (dates: map<string, DateCheckpoint>)
    ensures dates == Pruned(s, now).dates
  {
    dates := s.dates;
    var keys := s.dates.Keys;
    while keys != {}
      invariant keys <= s.dates.Keys
      invariant dates == map d | d in s.dates && (d in keys || !Old(DateTime(s.dates[d]), now - DAY)) :: s.dates[d]
      decreases |keys|
    {
      var k :| k in keys;
      keys := keys - {k};
      if Old(DateTime(s.dates[k]), now - DAY) { dates := map d | d in dates && d != k :: dates[d]; }
    }
  }

  method CheckDay(s: State, g: Group, terminal: set<string>, now: int) returns (r: State)
    ensures r == Checked(s, g.matches, terminal, now)
  {
    r := s;
    for i := 0 to |g.matches|
      invariant r == Checked(s, g.matches[..i], terminal, now)
    {
      assert g.matches[..i + 1][..i] == g.matches[..i];
      var id := g.matches[i];
      var attempts := (if id in r.matches then r.matches[id].attemptCount else 0) + 1;
      r := r.(matches := r.matches[id := if id in terminal then MatchCheckpoint(attempts, None, Some(now), None)
                                         else MatchCheckpoint(attempts, Some(now + 2 * MINUTE), None, None)]);
    }
    assert g.matches[..|g.matches|] == g.matches;
  }

  method RunTerminal(s: State, base: set<string>, plan: State -> seq<Group>, now: int, answer: Group -> DayAnswer) returns (p: Progress)
    ensures p == Terminal(s, base, plan, now, answer)
  {
    hide Pruned;
    if FOTMOB in s.circuits && s.circuits[FOTMOB] > now { return Progress(s, RunFailed, []); }
    var up := Upgraded(s, base);
    var groups := plan(up);
    p := Progress(up, Fresh, []);
    assert groups[0..] == groups;
    var i := 0;
    var stopped := false;
    while i < |groups| && !stopped
      invariant 0 <= i <= |groups|
      invariant (if stopped then p else Days(p, groups[i..], now, answer)) == Days(Progress(up, Fresh, []), groups, now, answer)
      decreases |groups| - i, !stopped
    {
      var g := groups[i];
      assert groups[i..][0] == g && groups[i..][1..] == groups[i + 1..];
      var a := answer(g);
      var request := DayRequest(p.state, g, a, now);
      if a.DayAnswered? {
        var c := CheckDay(p.state, g, a.terminal, now);
        var d := DateCheckpoint(0, Some(now), Some(now + 2 * MINUTE), if a.etag.Some? then a.etag else g.etag);
        p := Progress(c.(dates := c.dates[g.date := d]), Refreshed, p.requests + [request]);
        i := i + 1;
      } else {
        p := Progress(AfterDay(p.state, g, a, now), RunFailed, p.requests + [request]);
        stopped := true;
      }
    }
    assert groups[|groups|..] == [] && groups[0..] == groups;
    var matches := PruneMatches(p.state, now);
    var dates := PruneDates(p.state, now);
    PrunedParts(p.state, now);
    p := p.(state := p.state.(matches := matches, dates := dates));
  }

  lemma PrunedParts(s: State, now: int)
    ensures Pruned(s, now) == s.(matches := Pruned(s, now).matches, dates := Pruned(s, now).dates)
  {
  }
}
