/** The two planners of the provider refresh: which seasons and which days are asked for. The season
    that an entry resolves to, the date of a kickoff and the collation are parameters. */
module ProviderPlans {
  import opened Options
  import opened StableSort
  import opened Grouping
  import opened ProviderRefresh
  import JsMap

  // ---------------------------------------------------------------- seasons

  /** A registry entry with the season it resolves to on the reference date; `usable` when its fixture
      binding is enabled and has that season. */
  datatype Entry = Entry(competitionId: string, sourceId: string, season: string, usable: bool)

  function KeyFor(e: Entry): string { e.sourceId + "|" + e.competitionId + "|" + e.season }

  function TargetFor(e: Entry): Target { Target(KeyFor(e), e.sourceId, None) }

  function Tier(registry: seq<Entry>): seq<Target> {
    if registry == [] then []
    else Tier(registry[..|registry| - 1]) + if registry[|registry| - 1].usable then [TargetFor(registry[|registry| - 1])] else []
  }

  predicate Stale(s: State, key: string, now: int) {
    var c := CheckpointOf(s, key);
    c.completedAt.Some? ==> c.completedAt.value + DAY <= now
  }

  function NonEmpty(etag: Option<string>): Option<string> { if etag == Some("") then None else etag }

  function WithEtag(s: State, t: Target): Target {
    var c := CheckpointOf(s, t.key);
    if c.completedAt.Some? then t.(requestEtag := NonEmpty(c.etag)) else t
  }

  /** The targets whose last success is at least a day old, with the etag of that success. */
  function DueTargets(s: State, tier: seq<Target>, now: int): seq<Target> {
    if tier == [] then []
    else (if Stale(s, tier[0].key, now) then [WithEtag(s, tier[0])] else []) + DueTargets(s, tier[1..], now)
  }

  predicate Blocked(s: State, t: Target, now: int) { Until(CheckpointOf(s, t.key).nextAttemptAt, now) }

  /** `findIndex` of the first blocked target, or the length. */
  function FirstBlocked(s: State, ts: seq<Target>, now: int): (i: nat)
    ensures i <= |ts| && (forall j :: 0 <= j < i ==> !Blocked(s, ts[j], now)) && (i < |ts| ==> Blocked(s, ts[i], now))
  {
    if ts == [] || Blocked(s, ts[0], now) then 0 else 1 + FirstBlocked(s, ts[1..], now)
  }

  datatype SeasonPlan = SeasonPlan(targets: seq<Target>, blockedTier: bool)

  function PlanSeasons(registry: seq<Entry>, s: State, cap: nat, now: int): SeasonPlan {
    var due := DueTargets(s, Tier(registry), now);
    var n := FirstBlocked(s, due, now);
    SeasonPlan(due[..if n <= cap then n else cap], n == 0 && due != [])
  }

  /** A planned target: neither backing off nor refreshed within a day. */
  predicate Planned(s: State, t: Target, now: int) { !Blocked(s, t, now) && Stale(s, t.key, now) }

  ghost predicate DistinctTargets(ts: seq<Target>) { forall i, j :: 0 <= i < j < |ts| ==> ts[i].key != ts[j].key }

  predicate NoBar(x: string) { forall i :: 0 <= i < |x| ==> x[i] != '|' }

  /** What the validation of the registry demands, and that ids are free of the separator. */
  ghost predicate SoundRegistry(registry: seq<Entry>) {
    && (forall i, j :: 0 <= i < j < |registry| ==> registry[i].competitionId != registry[j].competitionId)
    && (forall e :: e in registry ==> NoBar(e.competitionId) && NoBar(e.sourceId))
  }

  /** The text before the first bar is determined by the whole. */
  lemma BarSplits(a: string, x: string, b: string, y: string)
    requires NoBar(a) && NoBar(b) && a + "|" + x == b + "|" + y
    ensures a == b && x == y
  {
    var s, t := a + "|" + x, b + "|" + y;
    assert s[|a|] == '|' && t[|b|] == '|';
    assert forall i :: 0 <= i < |a| ==> s[i] == a[i];
    assert forall i :: 0 <= i < |b| ==> t[i] == b[i];
    assert |a| == |b|;
    assert a == s[..|a|] && b == t[..|b|];
    assert x == s[|a| + 1..] && y == t[|b| + 1..];
  }

  lemma KeysDiffer(d: Entry, e: Entry)
    requires NoBar(d.sourceId) && NoBar(e.sourceId) && NoBar(d.competitionId) && NoBar(e.competitionId)
    requires KeyFor(d) == KeyFor(e)
    ensures d.sourceId == e.sourceId && d.competitionId == e.competitionId && d.season == e.season
  {
    assert KeyFor(d) == d.sourceId + "|" + (d.competitionId + "|" + d.season);
    assert KeyFor(e) == e.sourceId + "|" + (e.competitionId + "|" + e.season);
    BarSplits(d.sourceId, d.competitionId + "|" + d.season, e.sourceId, e.competitionId + "|" + e.season);
    BarSplits(d.competitionId, d.season, e.competitionId, e.season);
  }

  lemma {:induction false} TierDistinct(registry: seq<Entry>)
    requires SoundRegistry(registry)
    ensures DistinctTargets(Tier(registry))
    ensures forall t :: t in Tier(registry) ==> exists e :: e in registry && e.usable && t == TargetFor(e)
  {
    if registry != [] {
      var init, last := registry[..|registry| - 1], registry[|registry| - 1];
      TierDistinct(init);
      assert last in registry;
      forall t | t in Tier(init) ensures t.key != KeyFor(last) && exists e :: e in registry && e.usable && t == TargetFor(e) {
        var e :| e in init && e.usable && t == TargetFor(e);
        var i :| 0 <= i < |init| && init[i] == e;
        assert registry[i] == e && e in registry;
        if t.key == KeyFor(last) { KeysDiffer(e, last); }
      }
    }
  }

  ghost predicate DueOf(s: State, tier: seq<Target>, now: int, d: Target) {
    exists t :: t in tier && Stale(s, t.key, now) && d == WithEtag(s, t)
  }

  lemma {:induction false} DueMeaning(s: State, tier: seq<Target>, now: int)
    requires DistinctTargets(tier)
    ensures var due := DueTargets(s, tier, now);
      && DistinctTargets(due)
      && (forall d :: d in due <==> DueOf(s, tier, now, d))
  {
    hide Stale;
    if tier != [] {
      DueMeaning(s, tier[1..], now);
      assert tier == [tier[0]] + tier[1..];
      var rest := DueTargets(s, tier[1..], now);
      forall d | d in rest ensures d.key != tier[0].key && DueOf(s, tier, now, d) {
        var t :| t in tier[1..] && Stale(s, t.key, now) && d == WithEtag(s, t);
        var i :| 0 <= i < |tier[1..]| && tier[1..][i] == t;
        assert tier[i + 1].key != tier[0].key;
      }
    }
  }

  /** The planned targets are distinct, at most `cap`, and each may be asked now. The plan is cut only at
      the cap or before a target that backs off, and the tier counts as blocked exactly when that is
      the first due one. */
  lemma SeasonPlanMeaning(registry: seq<Entry>, s: State, cap: nat, now: int)
    requires SoundRegistry(registry)
    ensures var p := PlanSeasons(registry, s, cap, now);
      var due := DueTargets(s, Tier(registry), now);
      && |p.targets| <= cap && DistinctTargets(p.targets) && p.targets <= due
      && (forall t :: t in p.targets ==> Planned(s, t, now))
      && (p.targets == due || |p.targets| == cap || Blocked(s, due[|p.targets|], now))
      && (p.blockedTier <==> due != [] && Blocked(s, due[0], now))
  {
    TierDistinct(registry);
    DueMeaning(s, Tier(registry), now);
    var p := PlanSeasons(registry, s, cap, now);
    var due := DueTargets(s, Tier(registry), now);
    forall t | t in p.targets ensures Planned(s, t, now) {
      var i :| 0 <= i < |p.targets| && p.targets[i] == t;
      assert t == due[i] && t in due;
    }
  }

  /** A usable entry that was not refreshed within a day, with the etag of its last success. */
  ghost predicate DueFrom(s: State, e: Entry, now: int, t: Target) {
    && e.usable && t.key == e.sourceId + "|" + e.competitionId + "|" + e.season && t.sourceId == e.sourceId
    && match (if t.key in s.current then s.current[t.key].completedAt else None)
       case None => t.requestEtag.None?
       case Some(at) =>
         && at + 86_400_000 <= now
         && t.requestEtag == if s.current[t.key].etag == Some("") then None else s.current[t.key].etag
  }

  lemma {:induction false} TierHolds(registry: seq<Entry>)
    ensures forall t :: t in Tier(registry) <==> exists e :: e in registry && e.usable && t == TargetFor(e)
  {
    if registry != [] {
      TierHolds(registry[..|registry| - 1]);
      assert registry == registry[..|registry| - 1] + [registry[|registry| - 1]];
    }
  }

  lemma DueFromEntry(s: State, e: Entry, now: int, t: Target)
    ensures e.usable && Stale(s, KeyFor(e), now) && t == WithEtag(s, TargetFor(e)) <==> DueFrom(s, e, now, t)
  {
  }

  /** The due seasons are exactly those of the usable entries without a success within a day. */
  lemma DueSeasons(registry: seq<Entry>, s: State, now: int)
    requires SoundRegistry(registry)
    ensures forall t :: t in DueTargets(s, Tier(registry), now) <==> exists e :: e in registry && DueFrom(s, e, now, t)
  {
    hide DueTargets, Stale, WithEtag, DueFrom, SoundRegistry;
    TierDistinct(registry);
    TierHolds(registry);
    DueMeaning(s, Tier(registry), now);
    forall t ensures t in DueTargets(s, Tier(registry), now) <==> exists e :: e in registry && DueFrom(s, e, now, t) {
      if DueOf(s, Tier(registry), now, t) {
        var u :| u in Tier(registry) && Stale(s, u.key, now) && t == WithEtag(s, u);
        var e :| e in registry && e.usable && u == TargetFor(e);
        DueFromEntry(s, e, now, t);
      }
      if e :| e in registry && DueFrom(s, e, now, t) {
        DueFromEntry(s, e, now, t);
        UsableOnly(s, e, now, t);
        assert TargetFor(e) in Tier(registry);
        assert Stale(s, TargetFor(e).key, now) && t == WithEtag(s, TargetFor(e));
      }
    }
  }

  lemma UsableOnly(s: State, e: Entry, now: int, t: Target)
    requires DueFrom(s, e, now, t)
    ensures e.usable
  {
  }

  /** The planner, with the loop of `buildTierTargets`. */
  method PlanSeasonBatch(registry: seq<Entry>, s: State, cap: nat, now: int) returns (p: SeasonPlan)
    requires SoundRegistry(registry) && 1 <= cap
    ensures |p.targets| <= cap && DistinctTargets(p.targets) && forall t :: t in p.targets ==> Planned(s, t, now)
    ensures p.blockedTier ==> p.targets == []
    ensures p == PlanSeasons(registry, s, cap, now)
  {
    var targets: seq<Target> := [];
    for i := 0 to |registry|
      invariant targets == Tier(registry[..i])
    {
      assert registry[..i + 1][..i] == registry[..i];
      var e := registry[i];
      if !e.usable { continue; }
      targets := targets + [Target(e.sourceId + "|" + e.competitionId + "|" + e.season, e.sourceId, None)];
    }
    assert registry[..|registry|] == registry;
    SeasonPlanMeaning(registry, s, cap, now);
    var due := DueTargets(s, targets, now);
    var firstBlocked := FirstBlocked(s, due, now);
    var runnable := due[..firstBlocked];
    return SeasonPlan(if |runnable| <= cap then runnable else runnable[..cap], runnable == [] && due != []);
  }

  // ---------------------------------------------------------------- days

  /** A canonical match; `providerIds` counts its distinct FotMob ids. */
  datatype BaseMatch = BaseMatch(id: string, scheduled: bool, providerIds: nat, kickoff: int)

  /** `dateOf` is the date of an instant in the planner's time zone, `leq` the collation. */
  datatype Locale = Locale(dateOf: int -> string, leq: (string, string) -> bool)

  ghost predicate Lawful(c: Locale) {
    TotalPreorder(c.leq) && forall a, b :: c.leq(a, b) && c.leq(b, a) ==> a == b
  }

  const FIRST_CHECK := 105 * MINUTE
  const HARD_CUTOFF := 240 * MINUTE
  const MAX_CHECKS := 45

  function KickoffLeq(c: Locale): (BaseMatch, BaseMatch) -> bool {
    (a: BaseMatch, b: BaseMatch) => a.kickoff < b.kickoff || (a.kickoff == b.kickoff && c.leq(a.id, b.id))
  }

  predicate Settled(s: State, id: string) { id in s.matches && (s.matches[id].terminalAt.Some? || s.matches[id].exhaustedAt.Some?) }

  /** A match that is still looked at: scheduled, with one provider id and no final result. */
  predicate Watched(s: State, m: BaseMatch) { m.scheduled && m.providerIds == 1 && !Settled(s, m.id) }

  /** Its checks are used up, or it is too late for another one. */
  predicate Spent(s: State, m: BaseMatch, now: int) { AttemptsOf(s, m.id) >= MAX_CHECKS || now >= m.kickoff + HARD_CUTOFF }

  function DueAt(s: State, m: BaseMatch): int {
    if m.id in s.matches && s.matches[m.id].nextCheckAt.Some? then s.matches[m.id].nextCheckAt.value else m.kickoff + FIRST_CHECK
  }

  predicate DueNow(s: State, m: BaseMatch, now: int, c: Locale) {
    Watched(s, m) && !Spent(s, m, now) && DueAt(s, m) <= now && !Until(DateOf(s, c.dateOf(m.kickoff)).nextAttemptAt, now)
  }

  function IsDueNow(s: State, now: int, c: Locale): BaseMatch -> bool { (m: BaseMatch) => DueNow(s, m, now, c) }
  function IsSpent(s: State, now: int): BaseMatch -> bool { (m: BaseMatch) => Watched(s, m) && Spent(s, m, now) }

  function DateIn(c: Locale): BaseMatch -> string { (m: BaseMatch) => c.dateOf(m.kickoff) }

  type DayEntry = JsMap.Entry<string, seq<BaseMatch>>

  function DayLeq(c: Locale): (DayEntry, DayEntry) -> bool { (a: DayEntry, b: DayEntry) => c.leq(a.key, b.key) }

  function Ids(ms: seq<BaseMatch>): seq<string> { seq(|ms|, i requires 0 <= i < |ms| => ms[i].id) }

  function GroupFor(s: State, e: DayEntry): ProviderRefresh.Group {
    ProviderRefresh.Group(e.key, Ids(e.value), NonEmpty(DateOf(s, e.key).etag))
  }

  function GroupsFor(s: State, es: seq<DayEntry>): seq<ProviderRefresh.Group> {
    seq(|es|, i requires 0 <= i < |es| => GroupFor(s, es[i]))
  }

  function DueMatches(base: seq<BaseMatch>, s: State, now: int, c: Locale): seq<BaseMatch> {
    Filter(Sort(base, KickoffLeq(c)), IsDueNow(s, now, c))
  }

  function DueDays(base: seq<BaseMatch>, s: State, now: int, c: Locale): seq<DayEntry> {
    Sort(GroupAll(DueMatches(base, s, now, c), DateIn(c)), DayLeq(c))
  }

  function PlanDays(base: seq<BaseMatch>, s: State, maxDates: nat, now: int, c: Locale): seq<ProviderRefresh.Group> {
    var days := DueDays(base, s, now, c);
    GroupsFor(s, if maxDates <= |days| then days[..maxDates] else days)
  }

  function SpentIds(base: seq<BaseMatch>, s: State, now: int, c: Locale): seq<string> {
    Ids(Filter(Sort(base, KickoffLeq(c)), IsSpent(s, now)))
  }

  ghost predicate DistinctDays(gs: seq<ProviderRefresh.Group>) { forall i, j :: 0 <= i < j < |gs| ==> gs[i].date != gs[j].date }

  predicate PlannedDay(s: State, g: ProviderRefresh.Group, now: int) { !Until(DateOf(s, g.date).nextAttemptAt, now) }

  lemma Orders(c: Locale)
    requires Lawful(c)
    ensures TotalPreorder(KickoffLeq(c)) && TotalPreorder(DayLeq(c))
  {
    var leq := c.leq;
    forall x: BaseMatch, y: BaseMatch ensures KickoffLeq(c)(x, y) || KickoffLeq(c)(y, x) { assert leq(x.id, y.id) || leq(y.id, x.id); }
    forall x: DayEntry, y: DayEntry ensures DayLeq(c)(x, y) || DayLeq(c)(y, x) { assert leq(x.key, y.key) || leq(y.key, x.key); }
    forall x: BaseMatch, y: BaseMatch, z: BaseMatch | KickoffLeq(c)(x, y) && KickoffLeq(c)(y, z) ensures KickoffLeq(c)(x, z) {
      assert leq(x.id, y.id) && leq(y.id, z.id) ==> leq(x.id, z.id);
    }
    forall x: DayEntry, y: DayEntry, z: DayEntry | DayLeq(c)(x, y) && DayLeq(c)(y, z) ensures DayLeq(c)(x, z) {
      assert leq(x.key, y.key) && leq(y.key, z.key) ==> leq(x.key, z.key);
    }
  }

  /** The due days: in order, each with its due matches by kickoff, none missing. */
  lemma DueDaysMeaning(base: seq<BaseMatch>, s: State, now: int, c: Locale)
    requires Lawful(c)
    ensures var days := DueDays(base, s, now, c);
      && Ascending(days, DayLeq(c)) && JsMap.UniqueKeys(days)
      && (forall i :: 0 <= i < |days| ==> days[i].value == Filter(DueMatches(base, s, now, c), WithKey(DateIn(c), days[i].key)) && days[i].value != [])
      && (forall m :: m in base && DueNow(s, m, now, c) ==> JsMap.Has(days, c.dateOf(m.kickoff)))
      && (forall m :: m in DueMatches(base, s, now, c) <==> m in base && DueNow(s, m, now, c))
  {
    Orders(c);
    hide Lawful, DueNow;
    var due := DueMatches(base, s, now, c);
    SortIsSorting(base, KickoffLeq(c));
    SortedGroups(due, DateIn(c), DayLeq(c));
    assert forall m :: m in due <==> m in base && IsDueNow(s, now, c)(m);
    hide Sort, Filter, GroupAll;
    forall m | m in base && DueNow(s, m, now, c) ensures JsMap.Has(DueDays(base, s, now, c), c.dateOf(m.kickoff)) {
      assert m in due && DateIn(c)(m) == c.dateOf(m.kickoff);
    }
  }

  /** A group asks for exactly the due matches of its date. */
  ghost predicate ExactDay(base: seq<BaseMatch>, s: State, now: int, c: Locale, g: ProviderRefresh.Group) {
    forall id :: id in g.matches <==> exists m :: m in base && m.id == id && DueNow(s, m, now, c) && c.dateOf(m.kickoff) == g.date
  }

  /** A due match whose date is left out comes after all planned dates, and the plan is full. */
  ghost predicate LeavesLater(base: seq<BaseMatch>, s: State, maxDates: nat, now: int, c: Locale, p: seq<ProviderRefresh.Group>) {
    forall m :: m in base && DueNow(s, m, now, c) && (forall i :: 0 <= i < |p| ==> p[i].date != c.dateOf(m.kickoff)) ==>
      |p| == maxDates && forall i :: 0 <= i < |p| ==> c.leq(p[i].date, c.dateOf(m.kickoff))
  }

  lemma DayHolds(base: seq<BaseMatch>, s: State, now: int, c: Locale, e: DayEntry)
    requires e.value == Filter(DueMatches(base, s, now, c), WithKey(DateIn(c), e.key)) && e.value != []
    requires forall m :: m in DueMatches(base, s, now, c) <==> m in base && DueNow(s, m, now, c)
    ensures ExactDay(base, s, now, c, GroupFor(s, e)) && PlannedDay(s, GroupFor(s, e), now)
  {
    var due := DueMatches(base, s, now, c);
    assert forall m :: m in e.value <==> m in due && WithKey(DateIn(c), e.key)(m);
    hide DueMatches, Filter;
    assert e.value[0] in e.value;
    forall id ensures id in Ids(e.value) <==> exists m :: m in base && m.id == id && DueNow(s, m, now, c) && c.dateOf(m.kickoff) == e.key {
      if id in Ids(e.value) {
        var i :| 0 <= i < |e.value| && e.value[i].id == id;
        assert e.value[i] in e.value;
      }
      if m :| m in base && m.id == id && DueNow(s, m, now, c) && c.dateOf(m.kickoff) == e.key {
        assert m in e.value;
        var i :| 0 <= i < |e.value| && e.value[i] == m;
        assert Ids(e.value)[i] == id;
      }
    }
  }

  lemma TakenDays(base: seq<BaseMatch>, s: State, maxDates: nat, now: int, c: Locale)
    ensures var days, p := DueDays(base, s, now, c), PlanDays(base, s, maxDates, now, c);
      && |p| <= maxDates && |p| <= |days| && (|p| == maxDates || |p| == |days|)
      && forall i :: 0 <= i < |p| ==> p[i] == GroupFor(s, days[i])
  {
    hide DueDays;
  }

  lemma LaterDate(days: seq<DayEntry>, n: nat, c: Locale, date: string)
    requires n <= |days| && Ascending(days, DayLeq(c)) && JsMap.Has(days, date)
    requires forall i :: 0 <= i < n ==> days[i].key != date
    ensures n < |days| && forall i :: 0 <= i < n ==> c.leq(days[i].key, date)
  {
    var k :| 0 <= k < |days| && days[k].key == date;
    forall i | 0 <= i < n ensures c.leq(days[i].key, date) { assert DayLeq(c)(days[i], days[k]); }
  }

  lemma LeftOutLater(base: seq<BaseMatch>, s: State, maxDates: nat, now: int, c: Locale)
    requires Lawful(c)
    ensures LeavesLater(base, s, maxDates, now, c, PlanDays(base, s, maxDates, now, c))
  {
    hide DueDays, PlanDays, Lawful, DueNow, Filter, DueMatches, Ascending, JsMap.Has;
    DueDaysMeaning(base, s, now, c);
    TakenDays(base, s, maxDates, now, c);
    var days, p := DueDays(base, s, now, c), PlanDays(base, s, maxDates, now, c);
    forall m | m in base && DueNow(s, m, now, c) && (forall i :: 0 <= i < |p| ==> p[i].date != c.dateOf(m.kickoff))
      ensures |p| == maxDates && forall i :: 0 <= i < |p| ==> c.leq(p[i].date, c.dateOf(m.kickoff))
    {
      forall i | 0 <= i < |p| ensures days[i].key != c.dateOf(m.kickoff) { assert p[i].date == days[i].key; }
      LaterDate(days, |p|, c, c.dateOf(m.kickoff));
    }
  }

  /** The plan of the days: distinct dates, none waiting for its next attempt; a day holds exactly the
      due matches of its date; only dates after all planned ones are left out, and only when the plan
      is full. */
  lemma DayPlanMeaning(base: seq<BaseMatch>, s: State, maxDates: nat, now: int, c: Locale)
    requires Lawful(c)
    ensures var p := PlanDays(base, s, maxDates, now, c);
      && |p| <= maxDates && DistinctDays(p)
      && (forall g :: g in p ==> PlannedDay(s, g, now) && ExactDay(base, s, now, c, g))
      && LeavesLater(base, s, maxDates, now, c, p)
  {
    LeftOutLater(base, s, maxDates, now, c);
    DueDaysMeaning(base, s, now, c);
    TakenDays(base, s, maxDates, now, c);
    var days, p := DueDays(base, s, now, c), PlanDays(base, s, maxDates, now, c);
    hide DueDays, PlanDays, Lawful, DueNow, ExactDay, LeavesLater, PlannedDay;
    forall g | g in p ensures PlannedDay(s, g, now) && ExactDay(base, s, now, c, g) {
      var i :| 0 <= i < |p| && p[i] == g;
      DayHolds(base, s, now, c, days[i]);
    }
  }

  /** Every planned day is asked with the etag of its date, if there is one. */
  lemma DayEtags(base: seq<BaseMatch>, s: State, maxDates: nat, now: int, c: Locale)
    ensures forall g :: g in PlanDays(base, s, maxDates, now, c) ==>
      g.etag == if g.date in s.dates && s.dates[g.date].etag != Some("") then s.dates[g.date].etag else None
  {
    hide DueDays;
    TakenDays(base, s, maxDates, now, c);
    var p := PlanDays(base, s, maxDates, now, c);
    forall g | g in p ensures g.etag == if g.date in s.dates && s.dates[g.date].etag != Some("") then s.dates[g.date].etag else None {
      var i :| 0 <= i < |p| && p[i] == g;
    }
  }

  /** The matches of every planned day stand by kickoff, and by id within one kickoff. */
  ghost predicate ByKickoff(base: seq<BaseMatch>, c: Locale, g: ProviderRefresh.Group) {
    exists ms: seq<BaseMatch> :: g.matches == Ids(ms) && (forall m :: m in ms ==> m in base) && InKickoffOrder(ms, c)
  }

  ghost predicate InKickoffOrder(ms: seq<BaseMatch>, c: Locale) {
    forall i, j :: 0 <= i < j < |ms| ==>
      ms[i].kickoff < ms[j].kickoff || (ms[i].kickoff == ms[j].kickoff && c.leq(ms[i].id, ms[j].id))
  }

  lemma DayOrder(base: seq<BaseMatch>, s: State, maxDates: nat, now: int, c: Locale)
    requires Lawful(c)
    ensures forall g :: g in PlanDays(base, s, maxDates, now, c) ==> ByKickoff(base, c, g)
  {
    var days, p := DueDays(base, s, now, c), PlanDays(base, s, maxDates, now, c);
    DueDaysMeaning(base, s, now, c);
    TakenDays(base, s, maxDates, now, c);
    Orders(c);
    SortIsSorting(base, KickoffLeq(c));
    FilterAscending(Sort(base, KickoffLeq(c)), KickoffLeq(c), IsDueNow(s, now, c));
    hide DueDays, PlanDays, Lawful, DueNow, Sort, Filter;
    forall g | g in p ensures ByKickoff(base, c, g) {
      var i :| 0 <= i < |p| && p[i] == g;
      FilterAscending(DueMatches(base, s, now, c), KickoffLeq(c), WithKey(DateIn(c), days[i].key));
      assert forall m :: m in days[i].value ==> m in DueMatches(base, s, now, c);
      assert InKickoffOrder(days[i].value, c);
    }
  }

  datatype DayPlan = DayPlan(groups: seq<ProviderRefresh.Group>, exhausted: seq<string>)

  /** `buildFotMobTerminalPlan`: one pass over the matches by kickoff, grouping by date on the way. */
  method BuildTerminalPlan(base: seq<BaseMatch>, s: State, maxDates: int, now: int, c: Locale) returns (p: Option<DayPlan>)
    requires Lawful(c)
    ensures p.Some? <==> 1 <= maxDates <= 31
    ensures p.Some? ==> |p.value.groups| <= maxDates && DistinctDays(p.value.groups)
                        && LeavesLater(base, s, maxDates, now, c, p.value.groups)
    ensures p.Some? ==> forall g :: g in p.value.groups ==> PlannedDay(s, g, now) && ExactDay(base, s, now, c, g)
    ensures p.Some? ==> GivenUp(base, s, now, p.value.exhausted)
    ensures p.Some? ==> p.value == DayPlan(PlanDays(base, s, maxDates, now, c), SpentIds(base, s, now, c))
  {
    hide Filter, Sort, GroupAll, Lawful, ExactDay, LeavesLater, PlannedDay, DistinctDays, GivenUp;
    if maxDates < 1 || maxDates > 31 { return None; }
    var ordered := Sort(base, KickoffLeq(c));
    var grouped: Groups<string, BaseMatch> := [];
    var exhausted: seq<string> := [];
    PlanStart(s, now, c);
    for i := 0 to |ordered|
      invariant grouped == GroupAll(Filter(ordered[..i], IsDueNow(s, now, c)), DateIn(c))
      invariant exhausted == Ids(Filter(ordered[..i], IsSpent(s, now)))
    {
      var m := ordered[i];
      PlanStep(ordered[..i], m, s, now, c);
      assert ordered[..i] + [m] == ordered[..i + 1];
      if !m.scheduled || m.providerIds != 1 { continue; }
      if m.id in s.matches && (s.matches[m.id].terminalAt.Some? || s.matches[m.id].exhaustedAt.Some?) { continue; }
      if (if m.id in s.matches then s.matches[m.id].attemptCount else 0) >= 45 || now >= m.kickoff + 240 * MINUTE {
        exhausted := exhausted + [m.id];
        continue;
      }
      var dueAt := if m.id in s.matches && s.matches[m.id].nextCheckAt.Some? then s.matches[m.id].nextCheckAt.value else m.kickoff + 105 * MINUTE;
      if dueAt > now { continue; }
      var date := c.dateOf(m.kickoff);
      if date in s.dates && Until(s.dates[date].nextAttemptAt, now) { continue; }
      grouped := JsMap.Set(grouped, date, ListAt(grouped, date) + [m]);
    }
    assert ordered[..|ordered|] == ordered;
    DayPlanMeaning(base, s, maxDates, now, c);
    SpentMeaning(base, s, now, c);
    assert exhausted == SpentIds(base, s, now, c);
    var days := Sort(grouped, DayLeq(c));
    days := if maxDates <= |days| then days[..maxDates] else days;
    return Some(DayPlan(GroupsFor(s, days), exhausted));
  }

  lemma PlanStart(s: State, now: int, c: Locale)
    ensures GroupAll(Filter([], IsDueNow(s, now, c)), DateIn(c)) == [] && Ids(Filter([], IsSpent(s, now))) == []
  {
  }

  lemma PlanStep(before: seq<BaseMatch>, m: BaseMatch, s: State, now: int, c: Locale)
    ensures GroupAll(Filter(before + [m], IsDueNow(s, now, c)), DateIn(c)) ==
      var g := GroupAll(Filter(before, IsDueNow(s, now, c)), DateIn(c));
      if DueNow(s, m, now, c) then JsMap.Set(g, c.dateOf(m.kickoff), ListAt(g, c.dateOf(m.kickoff)) + [m]) else g
    ensures Ids(Filter(before + [m], IsSpent(s, now))) ==
      Ids(Filter(before, IsSpent(s, now))) + if Watched(s, m) && Spent(s, m, now) then [m.id] else []
  {
    hide Filter, GroupAll, DueNow, Watched, Spent;
    var after := before + [m];
    assert after[..|after| - 1] == before;
    FilterLast(after, IsDueNow(s, now, c));
    FilterLast(after, IsSpent(s, now));
    GroupLast(Filter(before, IsDueNow(s, now, c)), m, DateIn(c));
    assert Filter(before, IsDueNow(s, now, c)) + [] == Filter(before, IsDueNow(s, now, c));
  }

  /** Exactly the watched matches that are not checked any more. */
  ghost predicate GivenUp(base: seq<BaseMatch>, s: State, now: int, ids: seq<string>) {
    forall id :: id in ids <==> exists m :: m in base && m.id == id && Watched(s, m) && Spent(s, m, now)
  }

  lemma SpentMeaning(base: seq<BaseMatch>, s: State, now: int, c: Locale)
    requires Lawful(c)
    ensures GivenUp(base, s, now, SpentIds(base, s, now, c))
  {
    Orders(c);
    SortIsSorting(base, KickoffLeq(c));
    var spent := Filter(Sort(base, KickoffLeq(c)), IsSpent(s, now));
    assert forall m :: m in spent <==> m in base && IsSpent(s, now)(m);
    hide Filter, Sort, Spent, Watched;
    forall id ensures id in SpentIds(base, s, now, c) <==> exists m :: m in base && m.id == id && Watched(s, m) && Spent(s, m, now) {
      if m :| m in base && m.id == id && Watched(s, m) && Spent(s, m, now) {
        assert m in spent;
        var i :| 0 <= i < |spent| && spent[i] == m;
        assert Ids(spent)[i] == id;
      }
      if id in Ids(spent) {
        var i :| 0 <= i < |spent| && Ids(spent)[i] == id;
        assert spent[i] in spent;
      }
    }
  }
}
