/** Sequences of provider refreshes of both kinds. Each starts from the last committed state (a
    publication that fails commits nothing), and the clock does not go backwards. */
module ProviderRuns {
  import opened ProviderRefresh
  import opened ProviderPlans

  datatype Kind = Season | Day

  datatype Logged = Logged(kind: Kind, request: Request, committed: bool)

  datatype World = World(now: int, state: State, log: seq<Logged>)

  datatype Run =
    | SeasonRun(now: int, registry: seq<Entry>, cap: nat, clock: nat -> int, answer: Target -> Answer, committed: bool)
    | DayRun(now: int, base: seq<BaseMatch>, locale: Locale, dayAnswer: Group -> DayAnswer, committed: bool)

  ghost predicate Enabled(w: World, r: Run) {
    && w.now <= r.now
    && match r
       case SeasonRun(_, registry, cap, _, _, _) => SoundRegistry(registry) && 1 <= cap <= 9
       case DayRun(_, _, locale, _, _) => Lawful(locale)
  }

  function IdsOf(base: seq<BaseMatch>): set<string> { set m | m in base :: m.id }

  /** The planner of the days with the two dates of a refresh. */
  function TwoDates(base: seq<BaseMatch>, now: int, c: Locale): State -> seq<Group> { (s: State) => PlanDays(base, s, 2, now, c) }

  function ResultOf(w: World, r: Run): Progress {
    match r
    case SeasonRun(now, registry, cap, clock, answer, _) =>
      var plan := PlanSeasons(registry, w.state, cap, now);
      if plan.blockedTier && plan.targets == [] then Progress(w.state, RunFailed, [])
      else Current(Progress(w.state, Fresh, []), plan.targets, now, clock, answer)
    case DayRun(now, base, locale, answer, _) => Terminal(w.state, IdsOf(base), TwoDates(base, now, locale), now, answer)
  }

  function KindOf(r: Run): Kind { if r.SeasonRun? then Season else Day }

  function Entries(kind: Kind, requests: seq<Request>, committed: bool): seq<Logged> {
    seq(|requests|, i requires 0 <= i < |requests| => Logged(kind, requests[i], committed))
  }

  ghost function Do(w: World, r: Run): World {
    if !Enabled(w, r) then w
    else
      var p := ResultOf(w, r);
      World(r.now, if r.committed then p.state else w.state, w.log + Entries(KindOf(r), p.requests, r.committed))
  }

  ghost function After(w: World, runs: seq<Run>): World {
    if runs == [] then w else Do(After(w, runs[..|runs| - 1]), runs[|runs| - 1])
  }

  function Initial(now: int): World { World(now, State(0, map[], map[], map[], map[]), []) }

  // ---------------------------------------------------------------- the invariant

  /** The state still keeps requests away as a committed entry asks. */
  predicate Kept(s: State, now: int, e: Logged) {
    var until := e.request.at + e.request.delay;
    && (e.request.blocked ==> e.request.sourceId in s.circuits && e.request.at + CIRCUIT <= s.circuits[e.request.sourceId])
    && match e.kind
       case Season =>
         var c := CheckpointOf(s, e.request.key);
         (c.nextAttemptAt.Some? && until <= c.nextAttemptAt.value) || (c.completedAt.Some? && until <= c.completedAt.value + DAY)
       case Day =>
         var d := DateOf(s, e.request.key);
         until <= now || (d.nextAttemptAt.Some? && until <= d.nextAttemptAt.value)
  }

  /** A later request respects what an earlier committed one asked for. */
  predicate Apart(e: Logged, f: Logged) {
    e.committed ==>
      && (e.request.blocked && e.request.sourceId == f.request.sourceId ==> e.request.at + CIRCUIT <= f.request.at)
      && (e.kind == f.kind && e.request.key == f.request.key ==> e.request.at + e.request.delay <= f.request.at)
  }

  predicate Inv(s: State, now: int, log: seq<Logged>) {
    && (forall e :: e in log && e.committed ==> Kept(s, now, e))
    && (forall i, j :: 0 <= i < j < |log| ==> Apart(log[i], log[j]))
  }

  /** The backoff starts at a quarter of an hour and doubles with every failure, up to six hours. */
  lemma BackoffSchedule(failures: nat)
    requires failures > 0
    ensures 15 * MINUTE == Backoff(1) <= Backoff(failures) <= 360 * MINUTE
    ensures Backoff(failures + 1) == if 2 * Backoff(failures) <= 360 * MINUTE then 2 * Backoff(failures) else 360 * MINUTE
  {
    assert Doubled(0) == 1 && Doubled(1) == 2 && Doubled(2) == 4 && Doubled(3) == 8 && Doubled(4) == 16 && Doubled(5) == 32;
  }

  /** Another entry keeps being kept when a request is answered later. */
  lemma SeasonKeeps(s: State, t: Target, a: Answer, now: int, e: Logged)
    requires e.committed && Kept(s, now, e) && !Open(s, t.sourceId, now) && Planned(s, t, now)
    ensures Kept(AfterAnswer(s, t, a, now), now, e)
    ensures Apart(e, Logged(Season, RequestFor(s, t, a, now), true))
  {
    BackoffSchedule(CheckpointOf(s, t.key).failures + 1);
    hide Backoff;
  }

  lemma SeasonNew(s: State, t: Target, a: Answer, now: int)
    ensures Kept(AfterAnswer(s, t, a, now), now, Logged(Season, RequestFor(s, t, a, now), true))
  {
    hide Backoff;
  }

  lemma DayKeeps(s: State, g: Group, a: DayAnswer, now: int, e: Logged)
    requires e.committed && Kept(s, now, e) && !Open(s, FOTMOB, now) && PlannedDay(s, g, now)
    ensures Kept(AfterDay(s, g, a, now), now, e)
    ensures Apart(e, Logged(Day, DayRequest(s, g, a, now), true))
  {
    BackoffSchedule(DateOf(s, g.date).failureCount + 1);
    if a.DayAnswered? { CheckedKeeps(s, g.matches, a.terminal, now); }
    hide Backoff, Checked;
  }

  lemma DayNew(s: State, g: Group, a: DayAnswer, now: int)
    ensures Kept(AfterDay(s, g, a, now), now, Logged(Day, DayRequest(s, g, a, now), true))
  {
    if a.DayAnswered? { CheckedKeeps(s, g.matches, a.terminal, now); }
    hide Backoff, Checked;
  }

  lemma {:induction false} CheckedKeeps(s: State, ids: seq<string>, terminal: set<string>, now: int)
    ensures var c := Checked(s, ids, terminal, now); c == s.(matches := c.matches)
  {
    if ids != [] { CheckedKeeps(s, ids[..|ids| - 1], terminal, now); }
  }

  lemma Logs(s: State, n: State, now: int, log: seq<Logged>, e: Logged)
    requires Inv(s, now, log)
    requires forall f :: f in log && f.committed ==> Kept(n, now, f) && Apart(f, e)
    requires e.committed ==> Kept(n, now, e)
    ensures Inv(n, now, log + [e])
  {
    forall i | 0 <= i < |log| ensures Apart(log[i], e) { assert log[i] in log; }
  }

  /** The season loop keeps the invariant with its own requests taken as committed. */
  lemma {:induction false} SeasonLoop(p: Progress, targets: seq<Target>, now: int, clock: nat -> int, answer: Target -> Answer, log: seq<Logged>)
    requires Inv(p.state, now, log + Entries(Season, p.requests, true))
    requires DistinctTargets(targets) && forall i :: 0 <= i < |targets| ==> Planned(p.state, targets[i], now)
    ensures var n := Current(p, targets, now, clock, answer); Inv(n.state, now, log + Entries(Season, n.requests, true))
    decreases |targets|
  {
    hide Inv, Apart, Kept;
    if targets != [] && !Open(p.state, targets[0].sourceId, now) && clock(|p.requests|) <= now + 95_000 {
      var t, a := targets[0], answer(targets[0]);
      var s, r := AfterAnswer(p.state, t, a, now), RequestFor(p.state, t, a, now);
      SeasonRequest(p.state, t, a, now, log + Entries(Season, p.requests, true));
      assert log + Entries(Season, p.requests + [r], true) == log + Entries(Season, p.requests, true) + [Logged(Season, r, true)];
      if a.Answered? {
        var n := Progress(s, Refreshed, p.requests + [r]);
        forall i | 0 <= i < |targets[1..]| ensures Planned(s, targets[1..][i], now) { assert targets[i + 1].key != t.key; }
        SeasonLoop(n, targets[1..], now, clock, answer, log);
      }
    }
  }

  lemma SeasonRequest(s: State, t: Target, a: Answer, now: int, log: seq<Logged>)
    requires Inv(s, now, log) && !Open(s, t.sourceId, now) && Planned(s, t, now)
    ensures Inv(AfterAnswer(s, t, a, now), now, log + [Logged(Season, RequestFor(s, t, a, now), true)])
  {
    hide AfterAnswer, RequestFor, Kept, Apart, Planned, Open;
    forall f | f in log && f.committed ensures Kept(AfterAnswer(s, t, a, now), now, f) && Apart(f, Logged(Season, RequestFor(s, t, a, now), true)) {
      SeasonKeeps(s, t, a, now, f);
    }
    SeasonNew(s, t, a, now);
    Logs(s, AfterAnswer(s, t, a, now), now, log, Logged(Season, RequestFor(s, t, a, now), true));
  }

  lemma DayAsked(s: State, g: Group, a: DayAnswer, now: int, log: seq<Logged>)
    requires Inv(s, now, log) && !Open(s, FOTMOB, now) && PlannedDay(s, g, now)
    ensures Inv(AfterDay(s, g, a, now), now, log + [Logged(Day, DayRequest(s, g, a, now), true)])
  {
    hide AfterDay, DayRequest, Kept, Apart, PlannedDay, Open;
    forall f | f in log && f.committed ensures Kept(AfterDay(s, g, a, now), now, f) && Apart(f, Logged(Day, DayRequest(s, g, a, now), true)) {
      DayKeeps(s, g, a, now, f);
    }
    DayNew(s, g, a, now);
    Logs(s, AfterDay(s, g, a, now), now, log, Logged(Day, DayRequest(s, g, a, now), true));
  }

  lemma {:induction false} DayLoop(p: Progress, groups: seq<Group>, now: int, answer: Group -> DayAnswer, log: seq<Logged>)
    requires Inv(p.state, now, log + Entries(Day, p.requests, true)) && !Open(p.state, FOTMOB, now)
    requires DistinctDays(groups) && forall i :: 0 <= i < |groups| ==> PlannedDay(p.state, groups[i], now)
    ensures var n := Days(p, groups, now, answer); Inv(n.state, now, log + Entries(Day, n.requests, true))
    decreases |groups|
  {
    hide Inv, Apart, Kept;
    if groups != [] {
      var g, a := groups[0], answer(groups[0]);
      var s, r := AfterDay(p.state, g, a, now), DayRequest(p.state, g, a, now);
      DayAsked(p.state, g, a, now, log + Entries(Day, p.requests, true));
      assert log + Entries(Day, p.requests + [r], true) == log + Entries(Day, p.requests, true) + [Logged(Day, r, true)];
      if a.DayAnswered? {
        var n := Progress(s, Refreshed, p.requests + [r]);
        CheckedKeeps(p.state, g.matches, a.terminal, now);
        forall i | 0 <= i < |groups[1..]| ensures PlannedDay(s, groups[1..][i], now) { assert groups[i + 1].date != g.date; }
        DayLoop(n, groups[1..], now, answer, log);
      }
    }
  }

  lemma UpgradeKeeps(s: State, base: set<string>, now: int, log: seq<Logged>)
    requires Inv(s, now, log)
    ensures Inv(Upgraded(s, base), now, log) && Upgraded(s, base).circuits == s.circuits
  {
    hide Apart;
    var up := Upgraded(s, base);
    forall e | e in log && e.committed ensures Kept(up, now, e) { UpgradeKeepsOne(s, base, now, e); }
  }

  lemma UpgradeKeepsOne(s: State, base: set<string>, now: int, e: Logged)
    requires Kept(s, now, e)
    ensures Kept(Upgraded(s, base), now, e)
  {
  }

  /** Pruning removes only what no longer keeps anything away. */
  lemma PruneKeeps(s: State, now: int, log: seq<Logged>)
    requires Inv(s, now, log)
    ensures Inv(Pruned(s, now), now, log)
  {
    hide Apart;
    forall e | e in log && e.committed ensures Kept(Pruned(s, now), now, e) { PruneKeepsOne(s, now, e); }
  }

  lemma PruneKeepsOne(s: State, now: int, e: Logged)
    requires Kept(s, now, e)
    ensures Kept(Pruned(s, now), now, e)
  {
  }

  lemma TimePasses(s: State, now: int, later: int, log: seq<Logged>)
    requires Inv(s, now, log) && now <= later
    ensures Inv(s, later, log)
  {
    hide Apart;
  }

  /** Requests of a run that is not committed bind nobody. */
  lemma NotCommitted(s: State, n: State, now: int, log: seq<Logged>, kind: Kind, requests: seq<Request>)
    requires Inv(s, now, log) && Inv(n, now, log + Entries(kind, requests, true))
    ensures Inv(s, now, log + Entries(kind, requests, false))
  {
    hide Kept;
    var yes, no := log + Entries(kind, requests, true), log + Entries(kind, requests, false);
    forall i, j | 0 <= i < j < |no| ensures Apart(no[i], no[j]) {
      assert Apart(yes[i], yes[j]);
      assert no[j].request == yes[j].request && no[j].kind == yes[j].kind;
    }
  }

  lemma RunKeeps(w: World, r: Run)
    requires Inv(w.state, w.now, w.log)
    ensures Inv(Do(w, r).state, Do(w, r).now, Do(w, r).log)
  {
    hide Inv, Current, Days, Pruned, Upgraded, PlanSeasons, PlanDays, Lawful, SoundRegistry, LeavesLater, ExactDay;
    if Enabled(w, r) {
      var p := ResultOf(w, r);
      TimePasses(w.state, w.now, r.now, w.log);
      assert w.log + Entries(KindOf(r), [], true) == w.log;
      match r {
        case SeasonRun(now, registry, cap, clock, answer, _) =>
          var plan := PlanSeasons(registry, w.state, cap, now);
          SeasonPlanMeaning(registry, w.state, cap, now);
          if !(plan.blockedTier && plan.targets == []) {
            SeasonLoop(Progress(w.state, Fresh, []), plan.targets, now, clock, answer, w.log);
          }
        case DayRun(now, base, locale, answer, _) =>
          UpgradeKeeps(w.state, IdsOf(base), now, w.log);
          if !Open(w.state, FOTMOB, now) {
            var up := Upgraded(w.state, IdsOf(base));
            var groups := PlanDays(base, up, 2, now, locale);
            DayPlanMeaning(base, up, 2, now, locale);
            DayLoop(Progress(up, Fresh, []), groups, now, answer, w.log);
            var n := Days(Progress(up, Fresh, []), groups, now, answer);
            PruneKeeps(n.state, now, w.log + Entries(Day, n.requests, true));
          }
      }
      assert Inv(p.state, r.now, w.log + Entries(KindOf(r), p.requests, true));
      NotCommitted(w.state, p.state, r.now, w.log, KindOf(r), p.requests);
    }
  }

  lemma {:induction false} EveryRun(now: int, runs: seq<Run>)
    ensures var w := After(Initial(now), runs); Inv(w.state, w.now, w.log)
  {
    if runs != [] {
      EveryRun(now, runs[..|runs| - 1]);
      RunKeeps(After(Initial(now), runs[..|runs| - 1]), runs[|runs| - 1]);
    }
  }

  /** Whatever is answered and whichever publications fail: after a committed access block no request
      goes to that source for six hours, and after any committed request none repeats its key before
      its delay: the backoff of a failure, two minutes for a day, a day for a season. */
  lemma RequestsRespectCheckpoints(now: int, runs: seq<Run>, i: nat, j: nat)
    requires i < j < |After(Initial(now), runs).log| && After(Initial(now), runs).log[i].committed
    ensures var e, f := After(Initial(now), runs).log[i], After(Initial(now), runs).log[j];
      && (e.request.blocked && e.request.sourceId == f.request.sourceId ==> e.request.at + 21_600_000 <= f.request.at)
      && (e.kind == f.kind && e.request.key == f.request.key ==> e.request.at + e.request.delay <= f.request.at)
  {
    EveryRun(now, runs);
    assert Apart(After(Initial(now), runs).log[i], After(Initial(now), runs).log[j]);
  }

  /** One run asks at most its planned targets, in order, and stops at the first failure. */
  lemma {:induction false} RunBounded(p: Progress, targets: seq<Target>, now: int, clock: nat -> int, answer: Target -> Answer)
    ensures var k := |Current(p, targets, now, clock, answer).requests| - |p.requests|;
      && 0 <= k <= |targets|
      && (forall m :: 0 <= m < k - 1 ==> answer(targets[m]).Answered?)
    decreases |targets|
  {
    if targets != [] && !Open(p.state, targets[0].sourceId, now) && clock(|p.requests|) <= now + 95_000 && answer(targets[0]).Answered? {
      var t, a := targets[0], answer(targets[0]);
      var n := Progress(AfterAnswer(p.state, t, a, now), Refreshed, p.requests + [RequestFor(p.state, t, a, now)]);
      RunBounded(n, targets[1..], now, clock, answer);
      var k := |Current(n, targets[1..], now, clock, answer).requests| - |n.requests|;
      forall m | 0 < m < k ensures answer(targets[m]).Answered? { assert targets[1..][m - 1] == targets[m]; }
    }
  }
}
