/** What one provider refresh leaves behind: the checkpoint of every season and day it asked for, why it
    stopped, and what it did not touch. */
module ProviderOutcomes {
  import opened Options
  import opened ProviderRefresh
  import opened ProviderPlans

  // ---------------------------------------------------------------- seasons

  /** A success starts the failures anew and keeps the etag that was sent unless a new one came; a failure
      counts one more, keeps what was known and waits 15 min times two to the failures before, at most 6 h. */
  ghost predicate CheckpointAfter(before: Option<Checkpoint>, t: Target, a: Answer, now: int, c: Checkpoint) {
    match a
    case Answered(etag) =>
      c.completedAt == Some(now) && c.failures == 0 && c.nextAttemptAt.None? && c.etag == (if etag.Some? then etag else t.requestEtag)
    case AnswerFailed(_) =>
      var failures := if before.Some? then before.value.failures else 0;
      && c.failures == failures + 1 && c.nextAttemptAt == Some(now + Wait(failures))
      && c.completedAt == (if before.Some? then before.value.completedAt else None)
      && c.etag == (if before.Some? then before.value.etag else None)
  }

  /** The wait after some number of earlier failures in a row. */
  function Wait(earlier: nat): int {
    match earlier case 0 => 900_000 case 1 => 1_800_000 case 2 => 3_600_000 case 3 => 7_200_000 case 4 => 14_400_000 case _ => 21_600_000
  }

  lemma WaitIsBackoff(earlier: nat)
    ensures Backoff(earlier + 1) == Wait(earlier)
  {
    assert Doubled(0) == 1 && Doubled(1) == 2 && Doubled(2) == 4 && Doubled(3) == 8 && Doubled(4) == 16 && Doubled(5) == 32;
  }

  function At<V>(m: map<string, V>, key: string): Option<V> { if key in m then Some(m[key]) else None }

  ghost predicate AskedSeason(t: Target, a: Answer, now: int, r: Request) {
    r.key == t.key && r.sourceId == t.sourceId && r.at == now && r.answered == a.Answered? && r.matches == []
  }

  /** Why the loop stopped after `k` requests, and what it reports. */
  ghost predicate SeasonStop(p: Progress, targets: seq<Target>, now: int, clock: nat -> int, answer: Target -> Answer, k: nat, n: Progress)
    requires k <= |targets|
  {
    if k > 0 && answer(targets[k - 1]).AnswerFailed? then n.outcome == RunFailed
    else if k < |targets| && targets[k].sourceId in p.state.circuits && p.state.circuits[targets[k].sourceId] > now then n.outcome == RunFailed
    else n.outcome == (if k > 0 then Refreshed else p.outcome) && (k == |targets| || clock(|p.requests| + k) > now + 95_000)
  }

  /** The first `k` targets were asked in order, all but the last with success. */
  ghost predicate SeasonRequests(p: Progress, targets: seq<Target>, now: int, answer: Target -> Answer, k: nat, n: Progress)
    requires k <= |targets|
  {
    && |n.requests| == |p.requests| + k && p.requests <= n.requests
    && (forall i :: 0 <= i < k ==> AskedSeason(targets[i], answer(targets[i]), now, n.requests[|p.requests| + i]))
    && (forall i :: 0 <= i < k - 1 ==> answer(targets[i]).Answered?)
  }

  /** Their checkpoints moved, no other did; only a blocked answer opens a circuit. */
  ghost predicate SeasonStates(s: State, targets: seq<Target>, now: int, answer: Target -> Answer, k: nat, n: State)
    requires k <= |targets|
  {
    && (forall i :: 0 <= i < k ==>
          targets[i].key in n.current
          && CheckpointAfter(At(s.current, targets[i].key), targets[i], answer(targets[i]), now, n.current[targets[i].key]))
    && (forall key :: (forall i :: 0 <= i < k ==> targets[i].key != key) ==> At(n.current, key) == At(s.current, key))
    && n.circuits == (if k > 0 && answer(targets[k - 1]).AnswerFailed? && answer(targets[k - 1]).blocked
                      then s.circuits[targets[k - 1].sourceId := now + 21_600_000] else s.circuits)
    && n.dates == s.dates && n.matches == s.matches && n.contractVersion == s.contractVersion
  }

  ghost predicate SeasonRan(p: Progress, targets: seq<Target>, now: int, clock: nat -> int, answer: Target -> Answer, k: nat, n: Progress)
    requires k <= |targets|
  {
    && SeasonRequests(p, targets, now, answer, k, n) && SeasonStop(p, targets, now, clock, answer, k, n)
    && SeasonStates(p.state, targets, now, answer, k, n.state)
  }

  lemma OneAnswer(s: State, t: Target, a: Answer, now: int)
    ensures var n := AfterAnswer(s, t, a, now);
      && t.key in n.current && CheckpointAfter(At(s.current, t.key), t, a, now, n.current[t.key])
      && (forall key :: key != t.key ==> At(n.current, key) == At(s.current, key))
      && n.circuits == (if a.AnswerFailed? && a.blocked then s.circuits[t.sourceId := now + 21_600_000] else s.circuits)
      && n.dates == s.dates && n.matches == s.matches && n.contractVersion == s.contractVersion
    ensures AskedSeason(t, a, now, RequestFor(s, t, a, now))
  {
    hide Backoff, Wait;
    WaitIsBackoff(CheckpointOf(s, t.key).failures);
  }

  /** The run of the rest, seen from before the first answer. */
  lemma StatesCons(s: State, mid: State, targets: seq<Target>, now: int, answer: Target -> Answer, k: nat, n: State)
    requires targets != [] && DistinctTargets(targets) && answer(targets[0]).Answered? && mid == AfterAnswer(s, targets[0], answer(targets[0]), now)
    requires k <= |targets[1..]| && SeasonStates(mid, targets[1..], now, answer, k, n)
    ensures SeasonStates(s, targets, now, answer, k + 1, n)
  {
    hide AfterAnswer, CheckpointAfter;
    OneAnswer(s, targets[0], answer(targets[0]), now);
    var rest := targets[1..];
    assert forall i :: 0 <= i < |rest| ==> rest[i] == targets[i + 1] && rest[i].key != targets[0].key;
    forall i | 0 <= i < k + 1
      ensures targets[i].key in n.current
              && CheckpointAfter(At(s.current, targets[i].key), targets[i], answer(targets[i]), now, n.current[targets[i].key])
    {
      if i > 0 { assert rest[i - 1] == targets[i]; } else { assert At(n.current, targets[0].key) == At(mid.current, targets[0].key); }
    }
    forall key | forall i :: 0 <= i < k + 1 ==> targets[i].key != key ensures At(n.current, key) == At(s.current, key) {
      assert targets[0].key != key;
      forall i | 0 <= i < k ensures rest[i].key != key { assert targets[i + 1].key != key; }
      assert At(n.current, key) == At(mid.current, key);
    }
  }

  lemma RequestsCons(p: Progress, mid: Progress, targets: seq<Target>, now: int, answer: Target -> Answer, k: nat, n: Progress)
    requires targets != [] && answer(targets[0]).Answered?
    requires mid.requests == p.requests + [RequestFor(p.state, targets[0], answer(targets[0]), now)]
    requires k <= |targets[1..]| && SeasonRequests(mid, targets[1..], now, answer, k, n)
    ensures SeasonRequests(p, targets, now, answer, k + 1, n)
  {
    hide RequestFor;
    OneAnswer(p.state, targets[0], answer(targets[0]), now);
    var rest := targets[1..];
    assert n.requests[|p.requests|] == mid.requests[|p.requests|];
    forall i | 0 <= i < k + 1 ensures AskedSeason(targets[i], answer(targets[i]), now, n.requests[|p.requests| + i]) {
      if i > 0 { assert rest[i - 1] == targets[i] && |mid.requests| + (i - 1) == |p.requests| + i; }
    }
    forall i | 0 <= i < k ensures answer(targets[i]).Answered? { if i > 0 { assert rest[i - 1] == targets[i]; } }
  }

  /** The season loop on distinct targets: how far it came, why it stopped, and every checkpoint after it. */
  lemma {:induction false} SeasonOutcome(p: Progress, targets: seq<Target>, now: int, clock: nat -> int, answer: Target -> Answer) returns (k: nat)
    requires DistinctTargets(targets)
    ensures k <= |targets| && SeasonRan(p, targets, now, clock, answer, k, Current(p, targets, now, clock, answer))
    decreases |targets|
  {
    hide AfterAnswer, RequestFor, CheckpointAfter, AskedSeason;
    k := 0;
    if targets != [] && !Open(p.state, targets[0].sourceId, now) && clock(|p.requests|) <= now + 95_000 {
      var t, a := targets[0], answer(targets[0]);
      OneAnswer(p.state, t, a, now);
      var mid := Progress(AfterAnswer(p.state, t, a, now), if a.Answered? then Refreshed else RunFailed,
                          p.requests + [RequestFor(p.state, t, a, now)]);
      if a.Answered? {
        var j := SeasonOutcome(mid, targets[1..], now, clock, answer);
        var n := Current(mid, targets[1..], now, clock, answer);
        StatesCons(p.state, mid.state, targets, now, answer, j, n.state);
        RequestsCons(p, mid, targets, now, answer, j, n);
        StopCons(p, mid, targets, now, clock, answer, j, n);
        k := j + 1;
      } else {
        k := 1;
      }
    }
  }

  lemma StopCons(p: Progress, mid: Progress, targets: seq<Target>, now: int, clock: nat -> int, answer: Target -> Answer, k: nat, n: Progress)
    requires targets != [] && answer(targets[0]).Answered? && k <= |targets[1..]| && SeasonStop(mid, targets[1..], now, clock, answer, k, n)
    requires mid.outcome == Refreshed && |mid.requests| == |p.requests| + 1 && mid.state.circuits == p.state.circuits
    ensures SeasonStop(p, targets, now, clock, answer, k + 1, n)
  {
    assert forall i :: 0 <= i < |targets[1..]| ==> targets[1..][i] == targets[i + 1];
    assert |mid.requests| + k == |p.requests| + (k + 1);
  }

  /** A season that fails at several times in a row. */
  function Failing(s: State, t: Target, times: seq<int>): State {
    if times == [] then s else AfterAnswer(Failing(s, t, times[..|times| - 1]), t, AnswerFailed(false), times[|times| - 1])
  }

  /** After some failures in a row as many more are counted, the last success and its etag are kept, and the
      wait has doubled with each up to six hours. */
  lemma {:induction false} FailuresInARow(s: State, t: Target, times: seq<int>)
    requires times != []
    ensures var c, n := CheckpointOf(s, t.key), Failing(s, t, times);
      && t.key in n.current
      && n.current[t.key] == Checkpoint(c.completedAt, c.etag, Some(times[|times| - 1] + Wait(c.failures + |times| - 1)), c.failures + |times|)
  {
    hide Backoff, Wait;
    var init, last := times[..|times| - 1], times[|times| - 1];
    if init == [] {
      assert Failing(s, t, init) == s;
    } else {
      FailuresInARow(s, t, init);
    }
    WaitIsBackoff(CheckpointOf(Failing(s, t, init), t.key).failures);
  }

  // ---------------------------------------------------------------- days

  ghost predicate DateAfter(before: Option<DateCheckpoint>, g: Group, a: DayAnswer, now: int, d: DateCheckpoint) {
    match a
    case DayAnswered(etag, _) =>
      d.failureCount == 0 && d.lastCheckedAt == Some(now) && d.nextAttemptAt == Some(now + 120_000) && d.etag == (if etag.Some? then etag else g.etag)
    case DayFailed(_) =>
      var failures := if before.Some? then before.value.failureCount else 0;
      && d.failureCount == failures + 1 && d.nextAttemptAt == Some(now + Wait(failures))
      && d.lastCheckedAt == (if before.Some? then before.value.lastCheckedAt else None)
      && d.etag == (if before.Some? then before.value.etag else None)
  }

  /** One check more; final for a terminal match, else due again in two minutes. */
  ghost predicate MatchAfter(before: Option<MatchCheckpoint>, terminal: bool, now: int, m: MatchCheckpoint) {
    && m.attemptCount == (if before.Some? then before.value.attemptCount else 0) + 1 && m.exhaustedAt.None?
    && (if terminal then m.terminalAt == Some(now) && m.nextCheckAt.None? else m.terminalAt.None? && m.nextCheckAt == Some(now + 120_000))
  }

  ghost predicate NoRepeats(ids: seq<string>) { forall i, j :: 0 <= i < j < |ids| ==> ids[i] != ids[j] }

  /** The listed matches were checked once, each from its own checkpoint, and nothing else changed. */
  ghost predicate ChecksLeft(s: State, ids: seq<string>, terminal: set<string>, now: int, n: State) {
    && (forall id :: id in ids ==> id in n.matches && MatchAfter(At(s.matches, id), id in terminal, now, n.matches[id]))
    && (forall id :: id !in ids ==> At(n.matches, id) == At(s.matches, id))
    && n.dates == s.dates && n.current == s.current && n.circuits == s.circuits && n.contractVersion == s.contractVersion
  }

  lemma LastChecked(s: State, ids: seq<string>, terminal: set<string>, now: int)
    requires ids != []
    ensures var id := ids[|ids| - 1];
      var before, n := Checked(s, ids[..|ids| - 1], terminal, now), Checked(s, ids, terminal, now);
      && id in n.matches && MatchAfter(At(before.matches, id), id in terminal, now, n.matches[id])
      && (forall k :: k != id ==> At(n.matches, k) == At(before.matches, k))
      && n.dates == before.dates && n.current == before.current && n.circuits == before.circuits
      && n.contractVersion == before.contractVersion
  {
  }

  lemma NotListed(ids: seq<string>)
    requires ids != [] && NoRepeats(ids)
    ensures var init, id := ids[..|ids| - 1], ids[|ids| - 1];
      NoRepeats(init) && id !in init && forall k :: k in ids <==> k in init || k == id
  {
    assert ids == ids[..|ids| - 1] + [ids[|ids| - 1]];
  }

  lemma {:induction false} CheckedEach(s: State, ids: seq<string>, terminal: set<string>, now: int)
    requires NoRepeats(ids)
    ensures ChecksLeft(s, ids, terminal, now, Checked(s, ids, terminal, now))
  {
    if ids == [] {
      assert Checked(s, ids, terminal, now) == s;
    } else {
      hide Checked, MatchAfter, NoRepeats;
      var init, id := ids[..|ids| - 1], ids[|ids| - 1];
      NotListed(ids);
      CheckedEach(s, init, terminal, now);
      LastChecked(s, ids, terminal, now);
      var before, n := Checked(s, init, terminal, now), Checked(s, ids, terminal, now);
      forall k | k in ids ensures k in n.matches && MatchAfter(At(s.matches, k), k in terminal, now, n.matches[k]) {
        if k != id { assert At(n.matches, k) == At(before.matches, k) && k in before.matches; }
      }
    }
  }

  /** What one day's answer leaves: its date's checkpoint, that of each match it asked for if it was
      answered, and a circuit if it was blocked; nothing else. */
  ghost predicate DayLeft(s: State, g: Group, a: DayAnswer, now: int, n: State) {
    && g.date in n.dates && DateAfter(At(s.dates, g.date), g, a, now, n.dates[g.date])
    && (forall date :: date != g.date ==> At(n.dates, date) == At(s.dates, date))
    && (forall id :: id in g.matches && a.DayAnswered? ==>
          id in n.matches && MatchAfter(At(s.matches, id), id in a.terminal, now, n.matches[id]))
    && (forall id :: (id !in g.matches || a.DayFailed?) ==> At(n.matches, id) == At(s.matches, id))
    && n.circuits == (if a.DayFailed? && a.blocked then s.circuits["fotmob-unofficial" := now + 21_600_000] else s.circuits)
    && n.current == s.current && n.contractVersion == s.contractVersion
  }

  lemma OneDay(s: State, g: Group, a: DayAnswer, now: int)
    requires NoRepeats(g.matches)
    ensures DayLeft(s, g, a, now, AfterDay(s, g, a, now))
  {
    hide Backoff, Wait, Checked;
    WaitIsBackoff(DateOf(s, g.date).failureCount);
    if a.DayAnswered? { CheckedEach(s, g.matches, a.terminal, now); }
  }

  ghost predicate DaysApart(groups: seq<Group>) {
    && DistinctDays(groups) && (forall g :: g in groups ==> NoRepeats(g.matches))
    && forall i, j, id :: 0 <= i < j < |groups| ==> !(id in groups[i].matches && id in groups[j].matches)
  }

  ghost predicate AskedDay(g: Group, a: DayAnswer, now: int, r: Request) {
    r.key == g.date && r.sourceId == "fotmob-unofficial" && r.at == now && r.matches == g.matches && r.answered == a.DayAnswered?
  }

  /** The day loop on distinct days: it stops after the first failure, and each asked day left what its own
      answer says. */
  ghost predicate DaysRan(p: Progress, groups: seq<Group>, now: int, answer: Group -> DayAnswer, k: nat, n: Progress)
    requires k <= |groups|
  {
    && |n.requests| == |p.requests| + k && p.requests <= n.requests
    && (forall i :: 0 <= i < k ==> AskedDay(groups[i], answer(groups[i]), now, n.requests[|p.requests| + i]))
    && (forall i :: 0 <= i < k - 1 ==> answer(groups[i]).DayAnswered?)
    && (k == |groups| || (k > 0 && answer(groups[k - 1]).DayFailed?))
    && n.outcome == (if k == 0 then p.outcome else if answer(groups[k - 1]).DayFailed? then RunFailed else Refreshed)
    && DaysLeft(p.state, groups, now, answer, k, n.state)
  }

  ghost predicate DaysLeft(s: State, groups: seq<Group>, now: int, answer: Group -> DayAnswer, k: nat, n: State)
    requires k <= |groups|
  {
    && (forall i :: 0 <= i < k ==> DayKept(s, groups[i], answer(groups[i]), now, n))
    && (forall date :: (forall i :: 0 <= i < k ==> groups[i].date != date) ==> At(n.dates, date) == At(s.dates, date))
    && (forall id :: (forall i :: 0 <= i < k ==> id !in groups[i].matches) ==> At(n.matches, id) == At(s.matches, id))
    && n.circuits == (if k > 0 && answer(groups[k - 1]).DayFailed? && answer(groups[k - 1]).blocked
                      then s.circuits["fotmob-unofficial" := now + 21_600_000] else s.circuits)
    && n.current == s.current && n.contractVersion == s.contractVersion
  }

  /** The checkpoints of one asked day and its matches at the end. */
  ghost predicate DayKept(s: State, g: Group, a: DayAnswer, now: int, n: State) {
    && g.date in n.dates && DateAfter(At(s.dates, g.date), g, a, now, n.dates[g.date])
    && (forall id :: id in g.matches ==>
          if a.DayAnswered? then id in n.matches && MatchAfter(At(s.matches, id), id in a.terminal, now, n.matches[id])
          else At(n.matches, id) == At(s.matches, id))
  }

  lemma DaysCons(s: State, mid: State, groups: seq<Group>, now: int, answer: Group -> DayAnswer, k: nat, n: State)
    requires groups != [] && DaysApart(groups) && answer(groups[0]).DayAnswered?
    requires DayLeft(s, groups[0], answer(groups[0]), now, mid)
    requires k <= |groups[1..]| && DaysLeft(mid, groups[1..], now, answer, k, n)
    ensures DaysLeft(s, groups, now, answer, k + 1, n)
  {
    hide DateAfter, MatchAfter;
    var rest := groups[1..];
    assert forall i :: 0 <= i < |rest| ==> rest[i] == groups[i + 1] && rest[i].date != groups[0].date;
    forall i | 0 <= i < k + 1 ensures DayKept(s, groups[i], answer(groups[i]), now, n) {
      if i > 0 {
        assert rest[i - 1] == groups[i];
        assert DayKept(mid, rest[i - 1], answer(rest[i - 1]), now, n);
      } else {
        assert At(n.dates, groups[0].date) == At(mid.dates, groups[0].date);
        forall id | id in groups[0].matches ensures At(n.matches, id) == At(mid.matches, id) {
          forall j | 0 <= j < k ensures id !in rest[j].matches { assert rest[j] == groups[j + 1]; }
        }
      }
    }
    forall date | forall i :: 0 <= i < k + 1 ==> groups[i].date != date ensures At(n.dates, date) == At(s.dates, date) {
      assert groups[0].date != date;
      forall i | 0 <= i < k ensures rest[i].date != date { assert groups[i + 1].date != date; }
    }
    forall id | forall i :: 0 <= i < k + 1 ==> id !in groups[i].matches ensures At(n.matches, id) == At(s.matches, id) {
      assert id !in groups[0].matches;
      forall i | 0 <= i < k ensures id !in rest[i].matches { assert id !in groups[i + 1].matches; }
    }
  }

  lemma TailApart(groups: seq<Group>)
    requires groups != [] && DaysApart(groups)
    ensures DaysApart(groups[1..]) && NoRepeats(groups[0].matches)
  {
    assert groups[0] in groups;
    assert forall i :: 0 <= i < |groups[1..]| ==> groups[1..][i] == groups[i + 1];
    forall g | g in groups[1..] ensures NoRepeats(g.matches) { assert g in groups; }
  }

  lemma {:induction false} DayOutcome(p: Progress, groups: seq<Group>, now: int, answer: Group -> DayAnswer) returns (k: nat)
    requires DaysApart(groups)
    ensures k <= |groups| && DaysRan(p, groups, now, answer, k, Days(p, groups, now, answer))
    decreases |groups|
  {
    hide AfterDay, DayRequest, DaysApart, DayLeft, DaysLeft;
    k := 0;
    if groups == [] {
      NoDays(p.state, groups, now, answer);
    } else {
      var g, a := groups[0], answer(groups[0]);
      TailApart(groups);
      OneDay(p.state, g, a, now);
      var mid := Progress(AfterDay(p.state, g, a, now), if a.DayAnswered? then Refreshed else RunFailed,
                          p.requests + [DayRequest(p.state, g, a, now)]);
      if a.DayAnswered? {
        var j := DayOutcome(mid, groups[1..], now, answer);
        AsksCons(p, mid, groups, now, answer, j, Days(mid, groups[1..], now, answer));
        assert forall i :: 0 <= i < |groups[1..]| ==> groups[1..][i] == groups[i + 1];
        DaysCons(p.state, mid.state, groups, now, answer, j, Days(mid, groups[1..], now, answer).state);
        k := j + 1;
      } else {
        FirstDayFails(p.state, groups, now, answer, mid.state);
        DayAsks(p.state, g, a, now);
        k := 1;
      }
    }
  }

  lemma DayAsks(s: State, g: Group, a: DayAnswer, now: int)
    ensures AskedDay(g, a, now, DayRequest(s, g, a, now))
  {
  }

  lemma AsksCons(p: Progress, mid: Progress, groups: seq<Group>, now: int, answer: Group -> DayAnswer, k: nat, n: Progress)
    requires groups != [] && mid.requests == p.requests + [DayRequest(p.state, groups[0], answer(groups[0]), now)]
    requires k <= |groups[1..]| && |n.requests| == |mid.requests| + k && mid.requests <= n.requests
    requires forall i :: 0 <= i < k ==> AskedDay(groups[1..][i], answer(groups[1..][i]), now, n.requests[|mid.requests| + i])
    ensures forall i :: 0 <= i < k + 1 ==> AskedDay(groups[i], answer(groups[i]), now, n.requests[|p.requests| + i])
  {
    hide AskedDay, DayRequest;
    DayAsks(p.state, groups[0], answer(groups[0]), now);
    assert n.requests[|p.requests|] == mid.requests[|p.requests|];
    forall i | 0 <= i < k + 1 ensures AskedDay(groups[i], answer(groups[i]), now, n.requests[|p.requests| + i]) {
      if i > 0 { assert groups[1..][i - 1] == groups[i] && |mid.requests| + (i - 1) == |p.requests| + i; }
    }
  }

  lemma NoDays(s: State, groups: seq<Group>, now: int, answer: Group -> DayAnswer)
    ensures DaysLeft(s, groups, now, answer, 0, s)
  {
  }

  lemma FirstDayFails(s: State, groups: seq<Group>, now: int, answer: Group -> DayAnswer, n: State)
    requires groups != [] && DayLeft(s, groups[0], answer(groups[0]), now, n) && answer(groups[0]).DayFailed?
    ensures DaysLeft(s, groups, now, answer, 1, n)
  {
    hide DateAfter, MatchAfter;
    assert groups[0] == groups[..1][0];
  }

  // ---------------------------------------------------------------- before and after the days

  /** The upgrade of a former contract forgets the etags, and the attempts of the unfinished matches of the
      base; under the present contract nothing changes. */
  lemma UpgradeLeaves(s: State, base: set<string>)
    ensures var n := Upgraded(s, base);
      && n.contractVersion == 2 && n.current == s.current && n.circuits == s.circuits
      && (s.contractVersion == 2 ==> n == s)
      && n.dates.Keys == s.dates.Keys && n.matches.Keys == s.matches.Keys
      && (s.contractVersion != 2 ==>
            && (forall d :: d in s.dates ==> n.dates[d] == DateCheckpoint(s.dates[d].failureCount, s.dates[d].lastCheckedAt, s.dates[d].nextAttemptAt, None))
            && (forall m :: m in s.matches ==>
                  n.matches[m] == if m in base && s.matches[m].terminalAt.None? then MatchCheckpoint(0, s.matches[m].nextCheckAt, None, None)
                                  else s.matches[m]))
  {
  }

  /** The time a match checkpoint is pruned by: its end, or its next check. */
  function MatchStamp(m: MatchCheckpoint): Option<int> {
    match m.terminalAt case Some(t) => Some(t) case None => match m.exhaustedAt case Some(t) => Some(t) case None => m.nextCheckAt
  }

  function DateStamp(d: DateCheckpoint): Option<int> { match d.nextAttemptAt case Some(t) => Some(t) case None => d.lastCheckedAt }

  /** Pruning removes exactly the checkpoints whose time is more than a day past, and changes no other. */
  lemma PruneLeaves(s: State, now: int, key: string)
    ensures var n := Pruned(s, now);
      && At(n.matches, key) == (if key in s.matches && (MatchStamp(s.matches[key]).Some? ==> now - 86_400_000 <= MatchStamp(s.matches[key]).value)
                                then Some(s.matches[key]) else None)
      && At(n.dates, key) == (if key in s.dates && (DateStamp(s.dates[key]).Some? ==> now - 86_400_000 <= DateStamp(s.dates[key]).value)
                              then Some(s.dates[key]) else None)
      && n.current == s.current && n.circuits == s.circuits && n.contractVersion == s.contractVersion
  {
  }
}
