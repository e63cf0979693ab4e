/** A match whose kickoff moves by more than a day less 47 minutes can be checked a 46th time: its
    checkpoint is pruned in between. With this the bound of 45 checks has its exact condition. */
module ProviderMoves {
  import opened Options
  import opened StableSort
  import opened Grouping
  import opened ProviderRefresh
  import opened ProviderPlans
  import opened ProviderRuns
  import opened ProviderChecks
  import JsMap

  function Unfinished(): Group -> DayAnswer { (g: Group) => DayAnswered(None, {}) }
  function Final(id: string): Group -> DayAnswer { (g: Group) => DayAnswered(None, {id}) }

  function At(id: string, kickoff: int): BaseMatch { BaseMatch(id, true, 1, kickoff) }

  /** A committed refresh in which every planned day is answered. */
  function CheckRun(id: string, kickoff: int, now: int, final: bool, c: Locale): Run {
    DayRun(now, [At(id, kickoff)], c, if final then Final(id) else Unfinished(), true)
  }

  function PruneRun(now: int, c: Locale): Run { DayRun(now, [], c, Unfinished(), true) }

  /** Nothing keeps requests away from `now` on. */
  predicate Quiet(s: State, now: int) {
    && s.contractVersion == 2 && s.circuits == map[]
    && forall d :: d in s.dates && s.dates[d].nextAttemptAt.Some? ==> s.dates[d].nextAttemptAt.value <= now
  }

  // ---------------------------------------------------------------- the plan of one match

  lemma OneDue(b: BaseMatch, s: State, now: int, c: Locale)
    requires DueNow(s, b, now, c)
    ensures DueMatches([b], s, now, c) == [b]
  {
    hide DueNow, Sort, Filter;
    SortOne(b, KickoffLeq(c));
    FilterUnit(b, IsDueNow(s, now, c));
  }

  lemma OneMatchPlan(b: BaseMatch, s: State, now: int, c: Locale)
    requires DueNow(s, b, now, c)
    ensures PlanDays([b], s, 2, now, c) == [GroupFor(s, JsMap.Entry(c.dateOf(b.kickoff), [b]))]
  {
    hide DueNow, DueMatches, Sort, GroupAll, GroupFor;
    OneDue(b, s, now, c);
    OneGroup(b, c);
    SortOne(JsMap.Entry(c.dateOf(b.kickoff), [b]), DayLeq(c));
  }

  lemma SortOne<T(!new)>(x: T, leq: (T, T) -> bool)
    ensures Sort([x], leq) == [x]
  {
    SortAscending([x], leq);
  }

  lemma OneGroup(b: BaseMatch, c: Locale)
    ensures GroupAll([b], DateIn(c)) == [JsMap.Entry(c.dateOf(b.kickoff), [b])]
  {
    assert [b][..0] == [];
    assert [b] == [] + [b];
    GroupLast([], b, DateIn(c));
  }

  lemma EmptyPlan(s: State, now: int, c: Locale)
    ensures PlanDays([], s, 2, now, c) == []
  {
  }

  // ---------------------------------------------------------------- one run

  predicate CheckedAt(s: State, id: string, attempts: nat, now: int, final: bool) {
    id in s.matches && s.matches[id] == if final then MatchCheckpoint(attempts, None, Some(now), None)
                                        else MatchCheckpoint(attempts, Some(now + 2 * MINUTE), None, None)
  }

  lemma UpToDate(s: State, base: set<string>)
    requires s.contractVersion == 2
    ensures Upgraded(s, base) == s
  {
  }

  lemma OneDay(s: State, g: Group, id: string, final: bool, now: int)
    requires g.matches == [id] && Quiet(s, now)
    ensures var a := (if final then Final(id) else Unfinished())(g);
      var n := AfterDay(s, g, a, now);
      CheckedAt(n, id, AttemptsOf(s, id) + 1, now, final) && Quiet(n, now + 2 * MINUTE)
  {
    var a := (if final then Final(id) else Unfinished())(g);
    assert Checked(s, [], a.terminal, now) == s;
    assert g.matches[..0] == [];
  }

  lemma PruneQuiet(s: State, id: string, attempts: nat, now: int, final: bool, later: int)
    requires Quiet(s, later)
    ensures Quiet(Pruned(s, now), later)
    ensures CheckedAt(s, id, attempts, now, final) ==> CheckedAt(Pruned(s, now), id, attempts, now, final)
  {
  }

  /** A refresh that finds the match due checks it. */
  lemma CheckOnce(w: World, id: string, kickoff: int, now: int, final: bool, c: Locale)
    requires Lawful(c) && w.now <= now && Quiet(w.state, now) && DueNow(w.state, At(id, kickoff), now, c)
    ensures var n := Do(w, CheckRun(id, kickoff, now, final, c));
      && n.now == now && CheckedAt(n.state, id, AttemptsOf(w.state, id) + 1, now, final) && Quiet(n.state, now + 2 * MINUTE)
      && ChecksOf(n.log, id) == ChecksOf(w.log, id) + 1
  {
    hide Lawful, DueNow, PlanDays, AfterDay, Pruned, Quiet, CheckedAt;
    var r, b, s := CheckRun(id, kickoff, now, final, c), At(id, kickoff), w.state;
    assert s.contractVersion == 2 && s.circuits == map[] by { QuietParts(s, now); }
    UpToDate(s, IdsOf([b]));
    OneMatchPlan(b, s, now, c);
    var g := GroupFor(s, JsMap.Entry(c.dateOf(kickoff), [b]));
    assert g.matches == [id];
    var answer := if final then Final(id) else Unfinished();
    var n := AfterDay(s, g, answer(g), now);
    OneDay(s, g, id, final, now);
    var request := DayRequest(s, g, answer(g), now);
    OneDayRun(Progress(s, Fresh, []), g, now, answer);
    PruneQuiet(n, id, AttemptsOf(s, id) + 1, now, final, now + 2 * MINUTE);
    assert ResultOf(w, r) == Progress(Pruned(n, now), Refreshed, [request]);
    assert Entries(Day, [request], true) == [Logged(Day, request, true)];
    LastCheck(w.log, Logged(Day, request, true), id);
  }

  lemma QuietParts(s: State, now: int)
    requires Quiet(s, now)
    ensures s.contractVersion == 2 && s.circuits == map[]
  {
  }

  lemma OneDayRun(p: Progress, g: Group, now: int, answer: Group -> DayAnswer)
    requires answer(g).DayAnswered?
    ensures Days(p, [g], now, answer) ==
      Progress(AfterDay(p.state, g, answer(g), now), Refreshed, p.requests + [DayRequest(p.state, g, answer(g), now)])
  {
    hide AfterDay;
    assert [g][1..] == [];
  }

  /** A refresh that finds nothing to ask prunes. */
  lemma PruneOnce(w: World, now: int, c: Locale)
    requires Lawful(c) && w.now <= now && w.state.contractVersion == 2 && w.state.circuits == map[]
    ensures Do(w, PruneRun(now, c)) == World(now, Pruned(w.state, now), w.log)
  {
    hide Lawful, PlanDays, Pruned;
    UpToDate(w.state, IdsOf([]));
    EmptyPlan(w.state, now, c);
    assert w.log + Entries(Day, [], true) == w.log;
  }

  // ---------------------------------------------------------------- forty-six checks

  function FirstCheck(lo: int): int { lo + FIRST_CHECK }

  function Start(lo: int): World { World(lo, State(2, map[], map[], map[], map[]), []) }

  /** Checks two minutes apart. */
  function Series(id: string, lo: int, n: nat, c: Locale): seq<Run> {
    if n == 0 then [] else Series(id, lo, n - 1, c) + [CheckRun(id, lo, FirstCheck(lo) + 2 * MINUTE * (n - 1), false, c)]
  }

  lemma AfterNext(w: World, runs: seq<Run>, r: Run)
    ensures After(w, runs + [r]) == Do(After(w, runs), r)
  {
    assert (runs + [r])[..|runs + [r]| - 1] == runs;
  }

  predicate SeriesState(w: World, id: string, lo: int, n: nat) {
    && w.now <= FirstCheck(lo) + 2 * MINUTE * n && Quiet(w.state, FirstCheck(lo) + 2 * MINUTE * n)
    && ChecksOf(w.log, id) == n && AttemptsOf(w.state, id) == n
    && (if n == 0 then id !in w.state.matches else CheckedAt(w.state, id, n, FirstCheck(lo) + 2 * MINUTE * (n - 1), false))
  }

  lemma SeriesDue(w: World, id: string, lo: int, n: nat, c: Locale)
    requires n <= 44 && SeriesState(w, id, lo, n)
    ensures DueNow(w.state, At(id, lo), FirstCheck(lo) + 2 * MINUTE * n, c)
  {
  }

  lemma SeriesStep(w: World, id: string, lo: int, n: nat, c: Locale)
    requires Lawful(c) && n <= 43 && SeriesState(w, id, lo, n)
    ensures SeriesState(Do(w, CheckRun(id, lo, FirstCheck(lo) + 2 * MINUTE * n, false, c)), id, lo, n + 1)
  {
    hide Lawful, Do, Quiet, CheckedAt, DueNow;
    var at := FirstCheck(lo) + 2 * MINUTE * n;
    SeriesDue(w, id, lo, n, c);
    CheckOnce(w, id, lo, at, false, c);
    CheckedAttempts(Do(w, CheckRun(id, lo, at, false, c)).state, id, n + 1, at, false);
  }

  lemma {:induction false} SeriesChecks(id: string, lo: int, n: nat, c: Locale)
    requires Lawful(c) && n <= 44
    ensures SeriesState(After(Start(lo), Series(id, lo, n, c)), id, lo, n)
  {
    hide Lawful, Do, SeriesState;
    if n == 0 {
      StartSeries(id, lo);
    } else {
      SeriesChecks(id, lo, n - 1, c);
      SeriesStep(After(Start(lo), Series(id, lo, n - 1, c)), id, lo, n - 1, c);
      AfterNext(Start(lo), Series(id, lo, n - 1, c), CheckRun(id, lo, FirstCheck(lo) + 2 * MINUTE * (n - 1), false, c));
    }
  }

  lemma StartSeries(id: string, lo: int)
    ensures SeriesState(Start(lo), id, lo, 0)
  {
  }

  lemma CheckedAttempts(s: State, id: string, attempts: nat, now: int, final: bool)
    requires CheckedAt(s, id, attempts, now, final)
    ensures AttemptsOf(s, id) == attempts
  {
  }

  /** The 45th check is final; a day later its checkpoint is pruned, and the match, now with another
      kickoff, is checked again. */
  function FortySix(m: Watch, c: Locale): seq<Run> {
    var last := FirstCheck(m.lo) + 88 * MINUTE;
    var prune := last + DAY + 1;
    var again := if prune < m.hi + FIRST_CHECK then m.hi + FIRST_CHECK else prune;
    Series(m.id, m.lo, 44, c) + [CheckRun(m.id, m.lo, last, true, c)] + [PruneRun(prune, c)] + [CheckRun(m.id, m.hi, again, false, c)]
  }

  lemma PrunedAway(s: State, id: string, last: int, now: int)
    requires CheckedAt(s, id, 45, last, true) && last + DAY < now
    ensures id !in Pruned(s, now).matches && AttemptsOf(Pruned(s, now), id) == 0
  {
  }

  lemma AgainDue(s: State, m: Watch, now: int, c: Locale)
    requires m.id !in s.matches && Quiet(s, now) && m.hi + FIRST_CHECK <= now < m.hi + HARD_CUTOFF
    ensures DueNow(s, At(m.id, m.hi), now, c)
  {
  }

  lemma QuietLater(s: State, now: int, later: int)
    requires Quiet(s, now) && now <= later
    ensures Quiet(s, later)
  {
  }

  lemma FortySixChecks(m: Watch, c: Locale)
    requires Lawful(c) && FARTHEST < m.hi - m.lo
    ensures ChecksOf(After(Start(m.lo), FortySix(m, c)).log, m.id) == 46
  {
    hide Lawful, Do, Quiet, CheckedAt, Pruned, DueNow, Series;
    var last := FirstCheck(m.lo) + 88 * MINUTE;
    var prune := last + DAY + 1;
    var again := if prune < m.hi + FIRST_CHECK then m.hi + FIRST_CHECK else prune;
    var runs := Series(m.id, m.lo, 44, c);
    var final, pruning, more := CheckRun(m.id, m.lo, last, true, c), PruneRun(prune, c), CheckRun(m.id, m.hi, again, false, c);
    SeriesChecks(m.id, m.lo, 44, c);
    var w := After(Start(m.lo), runs);
    SeriesDue(w, m.id, m.lo, 44, c);
    CheckOnce(w, m.id, m.lo, last, true, c);
    AfterNext(Start(m.lo), runs, final);
    var w1 := Do(w, final);
    QuietParts(w1.state, last + 2 * MINUTE);
    PruneOnce(w1, prune, c);
    AfterNext(Start(m.lo), runs + [final], pruning);
    var w2 := Do(w1, pruning);
    PrunedAway(w1.state, m.id, last, prune);
    QuietLater(w1.state, last + 2 * MINUTE, again);
    PruneQuiet(w1.state, m.id, 45, prune, true, again);
    AgainDue(w2.state, m, again, c);
    CheckOnce(w2, m.id, m.hi, again, false, c);
    AfterNext(Start(m.lo), runs + [final] + [pruning], more);
  }

  lemma {:induction false} SeriesWithin(id: string, lo: int, n: nat, c: Locale, m: Watch)
    requires m.id == id && m.lo == lo <= m.hi
    ensures KickoffsWithin(Series(id, lo, n, c), m)
  {
    if n > 0 {
      SeriesWithin(id, lo, n - 1, c, m);
      assert Within([At(id, lo)], m);
    }
  }

  lemma FortySixWithin(m: Watch, c: Locale)
    requires m.lo <= m.hi
    ensures KickoffsWithin(FortySix(m, c), m)
  {
    SeriesWithin(m.id, m.lo, 44, c, m);
    assert Within([At(m.id, m.lo)], m) && Within([At(m.id, m.hi)], m) && Within([], m);
    hide Within, Series;
  }

  /** Whatever is stored, answered and committed, the match is checked at most 45 times. */
  ghost predicate AtMost45(m: Watch) {
    forall w: World, runs: seq<Run> :: w.log == [] && Stamped(w.state, m) && KickoffsWithin(runs, m) ==> ChecksOf(After(w, runs).log, m.id) <= 45
  }

  /** The bound holds exactly when the first and the last kickoff of the match are at most a day less 47
      minutes apart. */
  lemma ChecksBoundedIff(m: Watch, c: Locale)
    requires m.lo <= m.hi && Lawful(c)
    ensures AtMost45(m) <==> m.hi - m.lo <= 83_580_001
  {
    hide Lawful, ChecksOf, After, KickoffsWithin, Stamped, FortySix;
    if m.hi - m.lo <= FARTHEST {
      forall w: World, runs: seq<Run> | w.log == [] && Stamped(w.state, m) && KickoffsWithin(runs, m) ensures ChecksOf(After(w, runs).log, m.id) <= 45 {
        ChecksBounded(w, runs, m);
      }
    } else {
      FortySixWithin(m, c);
      FortySixChecks(m, c);
      StartStamped(m);
      assert ChecksOf(After(Start(m.lo), FortySix(m, c)).log, m.id) == 46;
    }
  }

  lemma StartStamped(m: Watch)
    ensures Stamped(Start(m.lo).state, m)
  {
  }
}
