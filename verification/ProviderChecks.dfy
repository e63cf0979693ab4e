/** How often and when one match is checked for its result, over every sequence of provider refreshes
    from any stored state, while its kickoff may move. */
module ProviderChecks {
  import opened Options
  import opened ProviderRefresh
  import opened ProviderPlans
  import opened ProviderRuns

  predicate Checks(e: Logged, id: string) { e.committed && e.kind.Day? && e.request.answered && id in e.request.matches }

  /** Answered and committed day requests that checked a match. */
  function ChecksOf(log: seq<Logged>, id: string): nat {
    if log == [] then 0 else ChecksOf(log[..|log| - 1], id) + if Checks(log[|log| - 1], id) then 1 else 0
  }

  /** The match as it is followed here: its kickoffs lie between `lo` and `hi`. */
  datatype Watch = Watch(id: string, lo: int, hi: int)

  /** A request asks for the match from 105 minutes after its first kickoff to 240 minutes after its last. */
  predicate InWindow(e: Logged, m: Watch) {
    m.id in e.request.matches ==> m.lo + FIRST_CHECK <= e.request.at < m.hi + HARD_CUTOFF
  }

  /** The earliest time of the n-th check: they are two minutes apart. */
  function Earliest(m: Watch, n: nat): int { m.lo + FIRST_CHECK + 2 * MINUTE * (if n == 0 then 0 else n - 1) }

  /** The same once a checkpoint was pruned in between, more than a day after it was written. */
  function EarliestAgain(m: Watch, n: nat): int { Earliest(m, n) + DAY - 2 * MINUTE + 1 }

  /** No stored time lies before the bounds: a final one before `settled`, a next check before `next`. */
  predicate Stamp(c: MatchCheckpoint, settled: int, next: int) {
    && (c.terminalAt.Some? ==> settled <= c.terminalAt.value)
    && (c.exhaustedAt.Some? ==> settled <= c.exhaustedAt.value)
    && (c.nextCheckAt.Some? ==> next <= c.nextCheckAt.value)
  }

  /** What a stored state must look like for the bounds to count from it: the times of the match are not
      before its first check. Any state does for `lo` early enough. */
  predicate Stamped(s: State, m: Watch) {
    m.id in s.matches ==> Stamp(s.matches[m.id], m.lo + FIRST_CHECK, m.lo + FIRST_CHECK)
  }

  /** The checkpoint counts all checks. */
  predicate Remembers(s: State, n: nat, m: Watch) {
    && n <= AttemptsOf(s, m.id) && n <= MAX_CHECKS
    && (m.id in s.matches ==> Stamp(s.matches[m.id], Earliest(m, n), Earliest(m, n + 1)) && (n > 0 ==> MatchTime(s.matches[m.id]).Some?))
  }

  /** A checkpoint was pruned, and the day that passed keeps the rest of the checks late. */
  predicate Forgot(s: State, now: int, n: nat, m: Watch) {
    && s.contractVersion == 2
    && if m.id in s.matches then MatchTime(s.matches[m.id]).Some? && Stamp(s.matches[m.id], EarliestAgain(m, n), EarliestAgain(m, n + 1))
       else EarliestAgain(m, n + 1) <= now
  }

  predicate Followed(s: State, now: int, n: nat, m: Watch) {
    (s.contractVersion != 2 ==> n == 0) && (Remembers(s, n, m) || Forgot(s, now, n, m))
  }

  /** As far as a moved kickoff can lie from the first one without a 46th check: a day less 47 minutes. */
  const FARTHEST := DAY - 47 * MINUTE + 1

  ghost predicate CheckInv(s: State, now: int, log: seq<Logged>, m: Watch) {
    && Followed(s, now, ChecksOf(log, m.id), m)
    && (m.hi - m.lo <= FARTHEST ==> ChecksOf(log, m.id) <= MAX_CHECKS)
    && (forall e :: e in log ==> InWindow(e, m))
  }

  // ---------------------------------------------------------------- what a plan asks for

  /** The planner's view of the match when it asks for it. */
  predicate Ready(s: State, now: int, m: Watch) {
    exists kickoff: int {:trigger BaseMatch(m.id, true, 1, kickoff)} :: m.lo <= kickoff <= m.hi
      && var b := BaseMatch(m.id, true, 1, kickoff); !Settled(s, m.id) && !Spent(s, b, now) && DueAt(s, b) <= now
  }

  ghost predicate ReadyDay(s: State, g: Group, now: int, m: Watch) { m.id in g.matches ==> Ready(s, now, m) }

  /** No two groups ask for the match. */
  ghost predicate AskedOnce(groups: seq<Group>, id: string) {
    forall i, j :: 0 <= i < j < |groups| ==> !(id in groups[i].matches && id in groups[j].matches)
  }

  /** The match occurs at most once in the base, with a kickoff between the two. */
  ghost predicate Within(base: seq<BaseMatch>, m: Watch) {
    && (forall b :: b in base && b.id == m.id ==> m.lo <= b.kickoff <= m.hi)
    && (forall a, b :: a in base && b in base && a.id == m.id && b.id == m.id ==> a == b)
  }

  lemma PlanAsks(base: seq<BaseMatch>, s: State, now: int, c: Locale, g: Group, m: Watch)
    requires Within(base, m) && ExactDay(base, s, now, c, g) && m.id in g.matches
    ensures Ready(s, now, m)
    ensures exists b :: b in base && b.id == m.id && c.dateOf(b.kickoff) == g.date
  {
    var b :| b in base && b.id == m.id && DueNow(s, b, now, c) && c.dateOf(b.kickoff) == g.date;
    assert b == BaseMatch(m.id, true, 1, b.kickoff);
  }

  lemma PlansReady(base: seq<BaseMatch>, s: State, maxDates: nat, now: int, c: Locale, m: Watch)
    requires Lawful(c) && Within(base, m)
    ensures var p := PlanDays(base, s, maxDates, now, c);
      AskedOnce(p, m.id) && forall g :: g in p ==> ReadyDay(s, g, now, m)
  {
    hide PlanDays, Lawful, LeavesLater, PlannedDay, ExactDay, Ready;
    var p := PlanDays(base, s, maxDates, now, c);
    DayPlanMeaning(base, s, maxDates, now, c);
    forall g | g in p && m.id in g.matches ensures Ready(s, now, m) { PlanAsks(base, s, now, c, g, m); }
    forall i, j | 0 <= i < j < |p| && m.id in p[i].matches ensures m.id !in p[j].matches {
      if m.id in p[j].matches {
        PlanAsks(base, s, now, c, p[i], m);
        PlanAsks(base, s, now, c, p[j], m);
      }
    }
  }

  /** A match that could be asked for is asked before 105 minutes after its kickoff exactly when a check
      stored for an earlier kickoff is due. */
  lemma EarlyIff(s: State, b: BaseMatch, now: int, c: Locale)
    requires Watched(s, b) && !Spent(s, b, now) && !Until(DateOf(s, c.dateOf(b.kickoff)).nextAttemptAt, now)
    ensures DueNow(s, b, now, c) && now < b.kickoff + FIRST_CHECK <==>
      b.id in s.matches && s.matches[b.id].nextCheckAt.Some? && s.matches[b.id].nextCheckAt.value <= now < b.kickoff + FIRST_CHECK
  {
  }

  // ---------------------------------------------------------------- one day

  /** Checking a list of matches raises the attempts of each and stamps it with the time. */
  lemma {:induction false} CheckedCounts(s: State, ids: seq<string>, terminal: set<string>, now: int, id: string)
    ensures var c := Checked(s, ids, terminal, now);
      && (id in ids ==> id in c.matches && AttemptsOf(s, id) + 1 <= AttemptsOf(c, id) && var k := c.matches[id];
            k == if id in terminal then MatchCheckpoint(k.attemptCount, None, Some(now), None)
                 else MatchCheckpoint(k.attemptCount, Some(now + 2 * MINUTE), None, None))
      && (id !in ids ==> (id in c.matches <==> id in s.matches) && (id in c.matches ==> c.matches[id] == s.matches[id]))
      && c.contractVersion == s.contractVersion
  {
    if ids != [] {
      CheckedCounts(s, ids[..|ids| - 1], terminal, now, id);
      assert ids == ids[..|ids| - 1] + [ids[|ids| - 1]];
    }
  }

  lemma LastCheck(log: seq<Logged>, e: Logged, id: string)
    ensures ChecksOf(log + [e], id) == ChecksOf(log, id) + if Checks(e, id) then 1 else 0
  {
    assert (log + [e])[..|log + [e]| - 1] == log;
  }

  /** A check of the match in its window, never the 46th unless its kickoff moved too far. */
  lemma OneCheck(s: State, t: State, terminal: bool, now: int, n: nat, m: Watch)
    requires Followed(s, now, n, m) && Ready(s, now, m) && s.contractVersion == 2 == t.contractVersion
    requires m.id in t.matches && AttemptsOf(s, m.id) + 1 <= AttemptsOf(t, m.id)
    requires var k := t.matches[m.id];
      k == if terminal then MatchCheckpoint(k.attemptCount, None, Some(now), None) else MatchCheckpoint(k.attemptCount, Some(now + 2 * MINUTE), None, None)
    ensures Followed(t, now, n + 1, m) && m.lo + FIRST_CHECK <= now < m.hi + HARD_CUTOFF
    ensures m.hi - m.lo <= FARTHEST ==> n + 1 <= MAX_CHECKS
  {
    var kickoff :| m.lo <= kickoff <= m.hi && var b := BaseMatch(m.id, true, 1, kickoff);
      !Settled(s, m.id) && !Spent(s, b, now) && DueAt(s, b) <= now;
    if Remembers(s, n, m) {
      assert Earliest(m, n + 1) <= now;
      assert Remembers(t, n + 1, m);
    } else {
      assert EarliestAgain(m, n + 1) <= now;
      assert Forgot(t, now, n + 1, m);
    }
  }

  /** The state of the match carries over when its checkpoint does. */
  lemma SameMatch(s: State, t: State, now: int, later: int, n: nat, m: Watch)
    requires Followed(s, now, n, m) && now <= later && s.contractVersion == t.contractVersion
    requires (m.id in t.matches <==> m.id in s.matches) && (m.id in t.matches ==> t.matches[m.id] == s.matches[m.id])
    ensures Followed(t, later, n, m)
    ensures forall at :: Ready(s, at, m) ==> Ready(t, at, m)
  {
    forall at | Ready(s, at, m) ensures Ready(t, at, m) {
      var kickoff :| m.lo <= kickoff <= m.hi && var b := BaseMatch(m.id, true, 1, kickoff);
        !Settled(s, m.id) && !Spent(s, b, at) && DueAt(s, b) <= at;
      var b := BaseMatch(m.id, true, 1, kickoff);
      assert !Settled(t, m.id) && !Spent(t, b, at) && DueAt(t, b) <= at;
    }
  }

  lemma DayChecked(s: State, g: Group, a: DayAnswer, now: int, log: seq<Logged>, m: Watch)
    requires CheckInv(s, now, log, m) && ReadyDay(s, g, now, m) && s.contractVersion == 2
    ensures var n := AfterDay(s, g, a, now);
      && n.contractVersion == 2
      && CheckInv(n, now, log + [Logged(Day, DayRequest(s, g, a, now), true)], m)
      && (m.id !in g.matches ==> forall h: Group :: ReadyDay(s, h, now, m) ==> ReadyDay(n, h, now, m))
  {
    hide Checked, Backoff, ChecksOf, DateOf, Followed, Ready, Settled;
    var n, e, count := AfterDay(s, g, a, now), Logged(Day, DayRequest(s, g, a, now), true), ChecksOf(log, m.id);
    if a.DayAnswered? { CheckedCounts(s, g.matches, a.terminal, now, m.id); }
    LastCheck(log, e, m.id);
    if m.id in g.matches { AskedInWindow(s, now, m); }
    if a.DayAnswered? && m.id in g.matches {
      OneCheck(s, n, m.id in a.terminal, now, count, m);
    } else {
      SameMatch(s, n, now, now, count, m);
    }
  }

  lemma AskedInWindow(s: State, now: int, m: Watch)
    requires Ready(s, now, m) && exists n: nat :: Followed(s, now, n, m)
    ensures m.lo + FIRST_CHECK <= now < m.hi + HARD_CUTOFF
  {
  }

  lemma {:induction false} DaysChecked(p: Progress, groups: seq<Group>, now: int, answer: Group -> DayAnswer, log: seq<Logged>, m: Watch)
    requires CheckInv(p.state, now, log + Entries(Day, p.requests, true), m) && p.state.contractVersion == 2
    requires AskedOnce(groups, m.id) && forall g :: g in groups ==> ReadyDay(p.state, g, now, m)
    ensures var n := Days(p, groups, now, answer);
      n.state.contractVersion == 2 && CheckInv(n.state, now, log + Entries(Day, n.requests, true), m)
    decreases |groups|
  {
    hide CheckInv, Ready, AfterDay, DayRequest;
    if groups != [] {
      var g, a := groups[0], answer(groups[0]);
      assert g in groups;
      var s, r := AfterDay(p.state, g, a, now), DayRequest(p.state, g, a, now);
      DayChecked(p.state, g, a, now, log + Entries(Day, p.requests, true), m);
      assert log + Entries(Day, p.requests + [r], true) == log + Entries(Day, p.requests, true) + [Logged(Day, r, true)];
      if a.DayAnswered? {
        forall h | h in groups[1..] ensures ReadyDay(s, h, now, m) {
          var i :| 0 <= i < |groups[1..]| && groups[1..][i] == h;
          assert groups[i + 1] == h && h in groups;
        }
        DaysChecked(Progress(s, Refreshed, p.requests + [r]), groups[1..], now, answer, log, m);
      }
    }
  }

  // ---------------------------------------------------------------- one run

  /** The contract upgrade resets attempts, but before it no check was counted. */
  lemma UpgradeChecks(s: State, base: set<string>, now: int, log: seq<Logged>, m: Watch)
    requires CheckInv(s, now, log, m)
    ensures Upgraded(s, base).contractVersion == 2 && CheckInv(Upgraded(s, base), now, log, m)
  {
    hide ChecksOf;
  }

  /** Pruning forgets a match only a day after its checkpoint was written. */
  lemma PruneChecks(s: State, now: int, log: seq<Logged>, m: Watch)
    requires CheckInv(s, now, log, m) && s.contractVersion == 2
    ensures CheckInv(Pruned(s, now), now, log, m)
  {
    hide ChecksOf;
    PruneFollows(s, now, ChecksOf(log, m.id), m);
  }

  lemma PruneFollows(s: State, now: int, n: nat, m: Watch)
    requires Followed(s, now, n, m) && s.contractVersion == 2
    ensures Followed(Pruned(s, now), now, n, m)
  {
    var t := Pruned(s, now);
    if m.id in s.matches && m.id !in t.matches {
      assert EarliestAgain(m, n + 1) <= now;
      assert Forgot(t, now, n, m);
    } else {
      SameMatch(s, t, now, now, n, m);
    }
  }

  lemma LaterChecks(s: State, now: int, later: int, log: seq<Logged>, m: Watch)
    requires CheckInv(s, now, log, m) && now <= later
    ensures CheckInv(s, later, log, m)
  {
    hide ChecksOf, Followed;
    SameMatch(s, s, now, later, ChecksOf(log, m.id), m);
  }

  /** The season loop touches no match checkpoint and checks no match. */
  lemma {:induction false} SeasonsCheckNothing(p: Progress, targets: seq<Target>, now: int, clock: nat -> int, answer: Target -> Answer)
    requires forall r :: r in p.requests ==> r.matches == []
    ensures var n := Current(p, targets, now, clock, answer);
      && n.state.matches == p.state.matches && n.state.contractVersion == p.state.contractVersion
      && (forall r :: r in n.requests ==> r.matches == [])
    decreases |targets|
  {
    hide Backoff;
    if targets != [] && !Open(p.state, targets[0].sourceId, now) && clock(|p.requests|) <= now + 95_000 {
      var t, a := targets[0], answer(targets[0]);
      var n := Progress(AfterAnswer(p.state, t, a, now), Refreshed, p.requests + [RequestFor(p.state, t, a, now)]);
      if a.Answered? { SeasonsCheckNothing(n, targets[1..], now, clock, answer); }
    }
  }

  lemma {:induction false} UncheckedEntries(log: seq<Logged>, es: seq<Logged>, id: string)
    requires forall e :: e in es ==> !Checks(e, id)
    ensures ChecksOf(log + es, id) == ChecksOf(log, id)
  {
    if es == [] {
      assert log + es == log;
    } else {
      var last := es[|es| - 1];
      UncheckedEntries(log, es[..|es| - 1], id);
      LastCheck(log + es[..|es| - 1], last, id);
      assert log + es == (log + es[..|es| - 1]) + [last];
    }
  }

  /** Entries that check nothing leave the invariant alone. */
  lemma LogUnchecked(s: State, n: State, now: int, log: seq<Logged>, es: seq<Logged>, m: Watch)
    requires CheckInv(s, now, log, m) && n.matches == s.matches && n.contractVersion == s.contractVersion
    requires forall e :: e in es ==> InWindow(e, m) && (!e.committed || e.request.matches == [])
    ensures CheckInv(n, now, log + es, m)
  {
    hide InWindow, Followed;
    UncheckedEntries(log, es, m.id);
    SameMatch(s, n, now, now, ChecksOf(log, m.id), m);
  }

  lemma SeasonRunChecks(w: World, r: Run, m: Watch)
    requires CheckInv(w.state, r.now, w.log, m) && r.SeasonRun? && Enabled(w, r)
    ensures CheckInv(Do(w, r).state, r.now, Do(w, r).log, m)
  {
    hide CheckInv, PlanSeasons, Current;
    var p := ResultOf(w, r);
    var plan := PlanSeasons(r.registry, w.state, r.cap, r.now);
    SeasonsCheckNothing(Progress(w.state, Fresh, []), plan.targets, r.now, r.clock, r.answer);
    LogUnchecked(w.state, if r.committed then p.state else w.state, r.now, w.log, Entries(Season, p.requests, r.committed), m);
  }

  lemma DayRunChecks(w: World, r: Run, m: Watch)
    requires CheckInv(w.state, r.now, w.log, m) && r.DayRun? && Within(r.base, m) && Lawful(r.locale)
    ensures var p := ResultOf(w, r); CheckInv(p.state, r.now, w.log + Entries(Day, p.requests, true), m)
  {
    hide CheckInv, PlanDays, Days, Lawful, Upgraded, Pruned, Within, ReadyDay, AskedOnce;
    assert w.log + Entries(Day, [], true) == w.log;
    if !Open(w.state, FOTMOB, r.now) {
      var up := Upgraded(w.state, IdsOf(r.base));
      var groups := PlanDays(r.base, up, 2, r.now, r.locale);
      UpgradeChecks(w.state, IdsOf(r.base), r.now, w.log, m);
      PlansReady(r.base, up, 2, r.now, r.locale, m);
      DaysChecked(Progress(up, Fresh, []), groups, r.now, r.dayAnswer, w.log, m);
      var n := Days(Progress(up, Fresh, []), groups, r.now, r.dayAnswer);
      PruneChecks(n.state, r.now, w.log + Entries(Day, n.requests, true), m);
    }
  }

  /** A run that is not committed adds requests in the window and nothing else. */
  lemma DayRunDropped(w: World, now: int, n: State, requests: seq<Request>, m: Watch)
    requires CheckInv(w.state, now, w.log, m) && CheckInv(n, now, w.log + Entries(Day, requests, true), m)
    ensures CheckInv(w.state, now, w.log + Entries(Day, requests, false), m)
  {
    var es := Entries(Day, requests, false);
    forall e | e in es ensures InWindow(e, m) && !e.committed {
      var i :| 0 <= i < |es| && es[i] == e;
      assert Entries(Day, requests, true)[i] in w.log + Entries(Day, requests, true);
      assert InWindow(Entries(Day, requests, true)[i], m);
    }
    hide CheckInv, InWindow;
    LogUnchecked(w.state, w.state, now, w.log, es, m);
  }

  /** In every run the match keeps its kickoff between the two. */
  ghost predicate KickoffsWithin(runs: seq<Run>, m: Watch) {
    forall r :: r in runs && r.DayRun? ==> Within(r.base, m)
  }

  lemma {:induction false} EveryRunChecks(w: World, runs: seq<Run>, m: Watch)
    requires w.log == [] && Stamped(w.state, m) && KickoffsWithin(runs, m)
    ensures var n := After(w, runs); CheckInv(n.state, n.now, n.log, m)
  {
    if runs == [] {
      assert Remembers(w.state, 0, m);
    } else {
      var r := runs[|runs| - 1];
      EveryRunChecks(w, runs[..|runs| - 1], m);
      assert r in runs;
      hide CheckInv, ResultOf, Within, Stamped;
      var before := After(w, runs[..|runs| - 1]);
      if Enabled(before, r) {
        LaterChecks(before.state, before.now, r.now, before.log, m);
        if r.SeasonRun? {
          SeasonRunChecks(before, r, m);
        } else {
          DayRunChecks(before, r, m);
          if !r.committed { DayRunDropped(before, r.now, ResultOf(before, r).state, ResultOf(before, r).requests, m); }
        }
      }
    }
  }

  /** From any stored state and over every sequence of refreshes, with failures, failed publications,
      pruning and the contract upgrade: the match is asked for only from 105 minutes after its first
      kickoff to 240 minutes after its last. If these are at most a day less 47 minutes apart, it is
      checked with success at most 45 times. */
  lemma ChecksBounded(w: World, runs: seq<Run>, m: Watch)
    requires w.log == [] && Stamped(w.state, m) && KickoffsWithin(runs, m)
    ensures m.hi - m.lo <= FARTHEST ==> ChecksOf(After(w, runs).log, m.id) <= 45
    ensures forall e :: e in After(w, runs).log && m.id in e.request.matches ==>
      m.lo + 6_300_000 <= e.request.at < m.hi + 14_400_000
  {
    EveryRunChecks(w, runs, m);
    assert forall e :: e in After(w, runs).log ==> InWindow(e, m);
  }
}
