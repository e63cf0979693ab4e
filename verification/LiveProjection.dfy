/** The match feed: the serving repository's filtered and sorted list, seen through completed live
    overlays. A date in a time zone is computed by the parameter `localDate`. */
module LiveProjection {
  import opened Options
  import opened StableSort

  datatype Status = Scheduled | InPlay | Postponed | Cancelled | Completed

  datatype Identity = Identity(id: string, competitionId: string, kickoff: int, homeId: string, awayId: string)

  datatype Ref = Ref(sourceId: string, importedAt: int)

  datatype Match = Match(identity: Identity, status: Status, score: string, sourceRefs: seq<Ref>, updatedAt: int)

  datatype Overlay = Overlay(identity: Identity, completed: bool, score: string, sourceRefs: seq<Ref>, updatedAt: int)

  datatype Query = Query(date: Option<string>, timezone: Option<string>, competitionId: Option<string>, status: Option<Status>)

  // ---------------------------------------------------------------- the base repository

  /** `compareMatches(a, b) <= 0`: open matches first, by kickoff; completed ones latest first. */
  function MatchLeq(a: Match, b: Match): bool {
    if a.status != Completed && b.status == Completed then true
    else if a.status == Completed && b.status != Completed then false
    else if a.status != Completed then a.identity.kickoff <= b.identity.kickoff
    else b.identity.kickoff <= a.identity.kickoff
  }

  type LocalDate = (int, string) -> string

  function OnDate(date: string, timezone: string, localDate: LocalDate): Match -> bool {
    (m: Match) => localDate(m.identity.kickoff, timezone) == date
  }

  function InCompetition(id: string): Match -> bool { (m: Match) => m.identity.competitionId == id }
  function HasStatus(s: Status): Match -> bool { (m: Match) => m.status == s }

  function Zone(q: Query): string { if q.timezone.Some? then q.timezone.value else "UTC" }

  /** The matches of the asked day and competition, in stored order. */
  function Scoped(all: seq<Match>, q: Query, localDate: LocalDate): seq<Match> {
    var dated := if q.date.Some? then Filter(all, OnDate(q.date.value, Zone(q), localDate)) else all;
    if q.competitionId.Some? then Filter(dated, InCompetition(q.competitionId.value)) else dated
  }

  function ByStatus(ms: seq<Match>, s: Option<Status>): seq<Match> { if s.Some? then Filter(ms, HasStatus(s.value)) else ms }

  function BaseList(all: seq<Match>, q: Query, localDate: LocalDate): seq<Match> {
    Sort(ByStatus(Scoped(all, q, localDate), q.status), MatchLeq)
  }

  /** What a query asks for. */
  predicate Asked(m: Match, q: Query, localDate: LocalDate) {
    && (q.date.Some? ==> localDate(m.identity.kickoff, Zone(q)) == q.date.value)
    && (q.competitionId.Some? ==> m.identity.competitionId == q.competitionId.value)
    && (q.status.Some? ==> m.status == q.status.value)
  }

  function Asks(q: Query, localDate: LocalDate): Match -> bool { (m: Match) => Asked(m, q, localDate) }

  /** The list holds every match as often as it is stored if the query asks for it and not otherwise,
      open matches by kickoff, then completed ones latest first; matches that tie keep their stored
      order. */
  method ListBase(all: seq<Match>, q: Query, localDate: LocalDate) returns (matches: seq<Match>)
    ensures forall m :: multiset(matches)[m] == if Asked(m, q, localDate) then multiset(all)[m] else 0
    ensures Ascending(matches, MatchLeq)
    ensures forall m :: Ties(matches, m, MatchLeq) == Filter(Ties(all, m, MatchLeq), Asks(q, localDate))
    ensures matches == BaseList(all, q, localDate)
  {
    BaseListMeaning(all, q, localDate);
    hide Filter, Sort, Ties;
    matches := all;
    if q.date.Some? {
      var targetTz := if q.timezone.Some? then q.timezone.value else "UTC";
      matches := Filter(matches, OnDate(q.date.value, targetTz, localDate));
    }
    if q.competitionId.Some? { matches := Filter(matches, InCompetition(q.competitionId.value)); }
    if q.status.Some? { matches := Filter(matches, HasStatus(q.status.value)); }
    matches := Sort(matches, MatchLeq);
  }

  lemma {:induction false} FilterCounts(s: seq<Match>, p: Match -> bool, m: Match)
    ensures multiset(Filter(s, p))[m] == if p(m) then multiset(s)[m] else 0
  {
    if s != [] {
      FilterCounts(s[1..], p, m);
      assert s == [s[0]] + s[1..];
    }
  }

  /** The three filters in a row are the one filter of what is asked. */
  lemma FiltersAsk(all: seq<Match>, q: Query, localDate: LocalDate)
    ensures ByStatus(Scoped(all, q, localDate), q.status) == Filter(all, Asks(q, localDate))
  {
    hide Filter;
    var anything := Query(None, q.timezone, None, None);
    var dated := anything.(date := q.date);
    var scoped := dated.(competitionId := q.competitionId);
    FilterAll(all, Asks(anything, localDate));
    if q.date.Some? {
      FilterTwice(all, Asks(anything, localDate), OnDate(q.date.value, Zone(q), localDate), Asks(dated, localDate));
    }
    if q.competitionId.Some? {
      FilterTwice(all, Asks(dated, localDate), InCompetition(q.competitionId.value), Asks(scoped, localDate));
    }
    if q.status.Some? {
      FilterTwice(all, Asks(scoped, localDate), HasStatus(q.status.value), Asks(q, localDate));
    }
    assert q.date.None? ==> dated == anything;
    assert q.competitionId.None? ==> scoped == dated;
    assert q.status.None? ==> scoped == q;
    assert q.status.Some? ==> scoped.(status := q.status) == q;
  }

  lemma BaseListMeaning(all: seq<Match>, q: Query, localDate: LocalDate)
    ensures var ms := BaseList(all, q, localDate);
      && (forall m :: multiset(ms)[m] == if Asked(m, q, localDate) then multiset(all)[m] else 0)
      && Ascending(ms, MatchLeq)
      && (forall m :: Ties(ms, m, MatchLeq) == Filter(Ties(all, m, MatchLeq), Asks(q, localDate)))
  {
    var asked := Filter(all, Asks(q, localDate));
    FiltersAsk(all, q, localDate);
    MatchOrder();
    SortIsSorting(asked, MatchLeq);
    hide Sort, Filter, TotalPreorder;
    forall m ensures multiset(asked)[m] == if Asked(m, q, localDate) then multiset(all)[m] else 0 {
      FilterCounts(all, Asks(q, localDate), m);
    }
    forall m ensures Filter(Sort(asked, MatchLeq), Tied(m, MatchLeq)) == Filter(Filter(all, Tied(m, MatchLeq)), Asks(q, localDate)) {
      FilterSort(asked, MatchLeq, Tied(m, MatchLeq));
      TiedAsked(all, m, q, localDate);
    }
  }

  /** Sorting a group of matches that all tie changes nothing, and the filters commute. */
  lemma TiedAsked(all: seq<Match>, m: Match, q: Query, localDate: LocalDate)
    ensures Sort(Filter(Filter(all, Asks(q, localDate)), Tied(m, MatchLeq)), MatchLeq)
         == Filter(Filter(all, Tied(m, MatchLeq)), Asks(q, localDate))
  {
    var a, t := Asks(q, localDate), Tied(m, MatchLeq);
    var both := (x: Match) => a(x) && t(x);
    hide Filter, Sort;
    FilterTwice(all, a, t, both);
    FilterTwice(all, t, a, both);
    var f := Filter(Filter(all, a), t);
    forall i, j | 0 <= i < j < |f| ensures MatchLeq(f[i], f[j]) {
      assert f[i] in f && f[j] in f && t(f[i]) && t(f[j]);
      assert MatchLeq(f[i], m) && MatchLeq(m, f[j]);
    }
    SortAscending(f, MatchLeq);
  }

  /** The feed lists open matches by kickoff, then completed ones latest first, and nothing that the
      query does not ask for. */
  lemma FeedOrder(all: seq<Match>, q: Query, localDate: LocalDate, i: nat, j: nat)
    requires i < j < |BaseList(all, q, localDate)|
    ensures var a, b := BaseList(all, q, localDate)[i], BaseList(all, q, localDate)[j];
      && (a.status == Completed ==> b.status == Completed && b.identity.kickoff <= a.identity.kickoff)
      && (b.status != Completed ==> a.status != Completed && a.identity.kickoff <= b.identity.kickoff)
      && a in all && (q.status.Some? ==> a.status == q.status.value)
      && (q.competitionId.Some? ==> a.identity.competitionId == q.competitionId.value)
      && (q.date.Some? ==> localDate(a.identity.kickoff, Zone(q)) == q.date.value)
  {
    MatchOrder();
    SortIsSorting(ByStatus(Scoped(all, q, localDate), q.status), MatchLeq);
    hide Sort, TotalPreorder;
    assert MatchLeq(BaseList(all, q, localDate)[i], BaseList(all, q, localDate)[j]);
    assert BaseList(all, q, localDate)[i] in ByStatus(Scoped(all, q, localDate), q.status);
  }

  // ---------------------------------------------------------------- the projection

  function Applies(m: Match, o: Option<Overlay>): bool {
    o.Some? && o.value.completed && m.identity == o.value.identity && m.updatedAt <= o.value.updatedAt
  }

  function Project(m: Match, o: Option<Overlay>): Match {
    if Applies(m, o)
    then m.(status := Completed, score := o.value.score, sourceRefs := m.sourceRefs + o.value.sourceRefs, updatedAt := o.value.updatedAt)
    else m
  }

  /** `new Map(...)` keeps the last overlay of an id, `find` takes the first one. */
  function LastOverlay(os: seq<Overlay>, id: string): Option<Overlay> {
    if os == [] then None
    else if os[|os| - 1].identity.id == id then Some(os[|os| - 1])
    else LastOverlay(os[..|os| - 1], id)
  }

  function FirstOverlay(os: seq<Overlay>, id: string): Option<Overlay> {
    if os == [] then None else if os[0].identity.id == id then Some(os[0]) else FirstOverlay(os[1..], id)
  }

  function ProjectAll(ms: seq<Match>, os: seq<Overlay>): seq<Match> {
    if ms == [] then [] else [Project(ms[0], LastOverlay(os, ms[0].identity.id))] + ProjectAll(ms[1..], os)
  }

  /** The base query asks for no status when completed matches are wanted, as an overlay can
      complete any match. */
  function Pushed(q: Query): Query { if q.status == Some(Completed) then q.(status := None) else q }

  /** `overlays` is `None` when the live snapshot cannot be read. */
  function List(all: seq<Match>, overlays: Option<seq<Overlay>>, q: Query, localDate: LocalDate): seq<Match> {
    var base := BaseList(all, Pushed(q), localDate);
    ByStatus(if overlays.Some? then ProjectAll(base, overlays.value) else base, q.status)
  }

  function Find(all: seq<Match>, id: string): Option<Match> {
    if all == [] then None else if all[0].identity.id == id then Some(all[0]) else Find(all[1..], id)
  }

  function FindById(all: seq<Match>, overlays: Option<seq<Overlay>>, id: string): Option<Match> {
    var m := Find(all, id);
    if m.None? then None
    else if overlays.None? then m
    else Some(Project(m.value, FirstOverlay(overlays.value, id)))
  }

  // ---------------------------------------------------------------- filter pushdown

  lemma MatchOrder()
    ensures TotalPreorder(MatchLeq)
  {
  }

  /** A match that is not completed after the projection was not touched by it. */
  lemma ProjectedStatus(m: Match, o: Option<Overlay>)
    ensures Project(m, o).status != Completed ==> Project(m, o) == m
    ensures m.status == Completed ==> Project(m, o).status == Completed
    ensures Project(m, o).identity == m.identity && m.updatedAt <= Project(m, o).updatedAt
  {
  }

  lemma {:induction false} ProjectFiltered(ms: seq<Match>, os: seq<Overlay>, s: Status)
    requires s != Completed
    ensures Filter(ProjectAll(Filter(ms, HasStatus(s)), os), HasStatus(s)) == Filter(ProjectAll(ms, os), HasStatus(s))
  {
    hide Filter;
    FilterCons(ms, HasStatus(s));
    if ms != [] {
      var m := ms[0];
      var p := Project(m, LastOverlay(os, m.identity.id));
      ProjectFiltered(ms[1..], os, s);
      ProjectedStatus(m, LastOverlay(os, m.identity.id));
      var rest, all := Filter(ms[1..], HasStatus(s)), ProjectAll(ms[1..], os);
      assert ([m] + rest)[1..] == rest;
      assert ProjectAll([m] + rest, os) == [p] + ProjectAll(rest, os);
      assert ProjectAll(ms, os) == [p] + all;
      ConsFilter(p, ProjectAll(rest, os), HasStatus(s));
      ConsFilter(p, all, HasStatus(s));
      assert Filter(ms, HasStatus(s)) == if m.status == s then [m] + rest else rest;
    }
  }

  lemma ConsFilter(x: Match, s: seq<Match>, p: Match -> bool)
    ensures Filter([x] + s, p) == if p(x) then [x] + Filter(s, p) else Filter(s, p)
  {
    assert ([x] + s)[1..] == s;
  }

  /** For every query, base list and overlay set, listing with a status is listing without it and
      filtering afterwards, as sequences. */
  lemma FilterPushdown(all: seq<Match>, overlays: Option<seq<Overlay>>, q: Query, localDate: LocalDate)
    ensures List(all, overlays, q, localDate) == ByStatus(List(all, overlays, q.(status := None), localDate), q.status)
  {
    if q.status.Some? && q.status != Some(Completed) {
      var s, scoped := q.status.value, Scoped(all, q, localDate);
      MatchOrder();
      hide Filter, TotalPreorder;
      FilterSort(scoped, MatchLeq, HasStatus(s));
      var sorted := Sort(scoped, MatchLeq);
      assert BaseList(all, Pushed(q), localDate) == Filter(sorted, HasStatus(s));
      if overlays.Some? {
        ProjectFiltered(sorted, overlays.value, s);
      } else {
        FilterFilter(sorted, HasStatus(s), HasStatus(s));
      }
    }
  }

  // ---------------------------------------------------------------- order after the projection

  function Projected(m: Match, os: seq<Overlay>): Match { Project(m, LastOverlay(os, m.identity.id)) }

  predicate Wanted(m: Match, q: Query) { q.status.Some? ==> m.status == q.status.value }

  /** `a`, listed before `b`, is completed by an overlay, and `b` stays open or kicked off later; the query
      shows both. */
  predicate Misplaced(a: Match, b: Match, os: seq<Overlay>, q: Query) {
    && Wanted(Projected(a, os), q) && Wanted(Projected(b, os), q)
    && a.status != Completed && Projected(a, os).status == Completed
    && !(Projected(b, os).status == Completed && b.identity.kickoff <= a.identity.kickoff)
  }

  lemma PairOrder(a: Match, b: Match, os: seq<Overlay>, q: Query)
    requires MatchLeq(a, b) && Wanted(Projected(a, os), q) && Wanted(Projected(b, os), q)
    ensures MatchLeq(Projected(a, os), Projected(b, os)) <==> !Misplaced(a, b, os, q)
  {
    hide LastOverlay;
  }

  lemma {:induction false} ProjectAt(ms: seq<Match>, os: seq<Overlay>)
    ensures |ProjectAll(ms, os)| == |ms| && forall i :: 0 <= i < |ms| ==> ProjectAll(ms, os)[i] == Projected(ms[i], os)
  {
    if ms != [] { ProjectAt(ms[1..], os); }
  }

  /** The projected feed is in feed order exactly when no match completed by an overlay stands before one
      that is still open or kicked off later. Without overlays it always is. */
  lemma ListInOrderIff(all: seq<Match>, os: seq<Overlay>, q: Query, localDate: LocalDate)
    ensures var base := BaseList(all, Pushed(q), localDate);
      Ascending(List(all, Some(os), q, localDate), MatchLeq) <==>
        forall i, j :: 0 <= i < j < |base| ==> !Misplaced(base[i], base[j], os, q)
    ensures Ascending(List(all, None, q, localDate), MatchLeq)
  {
    hide Filter, Sort, TotalPreorder, Misplaced, MatchLeq, Ties;
    var base := BaseList(all, Pushed(q), localDate);
    BaseListMeaning(all, Pushed(q), localDate);
    hide BaseList;
    var p := ProjectAll(base, os);
    ProjectAt(base, os);
    forall i, j | 0 <= i < j < |base| && Wanted(p[i], q) && Wanted(p[j], q)
      ensures MatchLeq(p[i], p[j]) <==> !Misplaced(base[i], base[j], os, q)
    {
      PairOrder(base[i], base[j], os, q);
    }
    forall i, j | 0 <= i < j < |base| && Misplaced(base[i], base[j], os, q) ensures Wanted(p[i], q) && Wanted(p[j], q) {
      MisplacedShown(base[i], base[j], os, q);
    }
    if q.status.Some? {
      FilterAscendingIff(p, MatchLeq, HasStatus(q.status.value));
      FilterAscending(base, MatchLeq, HasStatus(q.status.value));
    }
  }

  lemma MisplacedShown(a: Match, b: Match, os: seq<Overlay>, q: Query)
    requires Misplaced(a, b, os, q)
    ensures Wanted(Projected(a, os), q) && Wanted(Projected(b, os), q)
  {
  }

  // ---------------------------------------------------------------- list and lookup agree

  ghost predicate UniqueOverlays(os: seq<Overlay>) {
    forall i, j :: 0 <= i < j < |os| ==> os[i].identity.id != os[j].identity.id
  }

  lemma {:induction false} OverlayInTail(os: seq<Overlay>, id: string)
    requires os != []
    ensures LastOverlay(os, id) == if LastOverlay(os[1..], id).Some? then LastOverlay(os[1..], id)
                                   else if os[0].identity.id == id then Some(os[0]) else None
  {
    if |os| > 1 {
      assert os[..|os| - 1][1..] == os[1..][..|os| - 2];
      OverlayInTail(os[..|os| - 1], id);
    }
  }

  lemma {:induction false} LastOverlayIn(os: seq<Overlay>, id: string)
    ensures LastOverlay(os, id).Some? ==> LastOverlay(os, id).value in os && LastOverlay(os, id).value.identity.id == id
  {
    if os != [] { LastOverlayIn(os[..|os| - 1], id); }
  }

  lemma {:induction false} FirstIsLast(os: seq<Overlay>, id: string)
    requires UniqueOverlays(os)
    ensures FirstOverlay(os, id) == LastOverlay(os, id)
  {
    if os != [] {
      FirstIsLast(os[1..], id);
      OverlayInTail(os, id);
      LastOverlayIn(os[1..], id);
      assert forall o :: o in os[1..] ==> o.identity.id != os[0].identity.id;
    }
  }

  ghost predicate UniqueMatches(ms: seq<Match>) {
    forall i, j :: 0 <= i < j < |ms| ==> ms[i].identity.id != ms[j].identity.id
  }

  lemma {:induction false} FindUnique(all: seq<Match>, m: Match)
    requires UniqueMatches(all) && m in all
    ensures Find(all, m.identity.id) == Some(m)
  {
    if all[0] != m {
      assert all == [all[0]] + all[1..];
      assert m in all[1..];
      var i :| 0 <= i < |all[1..]| && all[1..][i] == m;
      assert all[0].identity.id != all[i + 1].identity.id;
      FindUnique(all[1..], m);
    }
  }

  lemma {:induction false} ProjectedFrom(ms: seq<Match>, os: seq<Overlay>, p: Match)
    ensures p in ProjectAll(ms, os) <==> exists m :: m in ms && p == Project(m, LastOverlay(os, m.identity.id))
  {
    if ms != [] {
      ProjectedFrom(ms[1..], os, p);
      assert ms == [ms[0]] + ms[1..];
    }
  }

  /** With unique match ids and unique overlay ids, the unfiltered feed shows exactly the matches
      that looking each one up by its id shows. */
  lemma ListAgreesWithFind(all: seq<Match>, overlays: seq<Overlay>, localDate: LocalDate, p: Match)
    requires UniqueMatches(all) && UniqueOverlays(overlays)
    ensures p in List(all, Some(overlays), Query(None, None, None, None), localDate)
      <==> FindById(all, Some(overlays), p.identity.id) == Some(p)
  {
    MatchOrder();
    SortIsSorting(all, MatchLeq);
    hide TotalPreorder, Sort;
    ProjectedFrom(Sort(all, MatchLeq), overlays, p);
    FirstIsLast(overlays, p.identity.id);
    if p in ProjectAll(Sort(all, MatchLeq), overlays) {
      var m :| m in all && p == Project(m, LastOverlay(overlays, m.identity.id));
      FindUnique(all, m);
    }
    if Find(all, p.identity.id).Some? { FindIn(all, p.identity.id); }
  }

  lemma {:induction false} FindIn(all: seq<Match>, id: string)
    ensures Find(all, id).Some? ==> Find(all, id).value in all && Find(all, id).value.identity.id == id
  {
    if all != [] { FindIn(all[1..], id); }
  }

  // ---------------------------------------------------------------- what the feed shows

  /** An overlay that completes the match: same identity, completed, and not older. */
  predicate Completes(o: Overlay, m: Match) { o.completed && o.identity == m.identity && m.updatedAt <= o.updatedAt }

  /** How a stored match is shown: with the score, the time and the references of the overlay that completes
      it, else as it is. */
  ghost predicate ShownAs(m: Match, os: seq<Overlay>, p: Match) {
    && (forall o :: o in os && Completes(o, m) ==> p == Match(m.identity, Completed, o.score, m.sourceRefs + o.sourceRefs, o.updatedAt))
    && ((forall o :: o in os ==> !Completes(o, m)) ==> p == m)
  }

  lemma {:induction false} LastOverlayFinds(os: seq<Overlay>, o: Overlay)
    requires UniqueOverlays(os) && o in os
    ensures LastOverlay(os, o.identity.id) == Some(o)
  {
    var init, last := os[..|os| - 1], os[|os| - 1];
    assert os == init + [last];
    if o != last {
      var i :| 0 <= i < |os| && os[i] == o;
      assert os[i].identity.id != last.identity.id;
      LastOverlayFinds(init, o);
    }
  }

  lemma ProjectedIsShown(m: Match, os: seq<Overlay>, p: Match)
    requires UniqueOverlays(os)
    ensures p == Project(m, LastOverlay(os, m.identity.id)) <==> ShownAs(m, os, p)
  {
    hide LastOverlay;
    LastOverlayIn(os, m.identity.id);
    forall o | o in os && Completes(o, m) ensures LastOverlay(os, m.identity.id) == Some(o) { LastOverlayFinds(os, o); }
    var l := LastOverlay(os, m.identity.id);
    if l.Some? && Completes(l.value, m) { assert l.value in os; }
  }

  /** On the asked day and in the asked competition, whatever its status. */
  predicate InScope(m: Match, q: Query, localDate: LocalDate) {
    && (q.date.Some? ==> localDate(m.identity.kickoff, Zone(q)) == q.date.value)
    && (q.competitionId.Some? ==> m.identity.competitionId == q.competitionId.value)
  }

  ghost predicate Shows(all: seq<Match>, os: seq<Overlay>, q: Query, localDate: LocalDate, p: Match) {
    exists m :: m in all && ShownAs(m, os, p) && InScope(m, q, localDate)
  }

  lemma OpenFeedShows(all: seq<Match>, os: seq<Overlay>, q: Query, localDate: LocalDate, p: Match)
    requires UniqueOverlays(os) && q.status.None?
    ensures p in List(all, Some(os), q, localDate) <==> Shows(all, os, q, localDate, p)
  {
    hide Filter, Sort, ShownAs, UniqueOverlays, Project, LastOverlay, ProjectAll, Ties, BaseList;
    var base := BaseList(all, q, localDate);
    BaseListHolds(all, q, localDate);
    ProjectedFrom(base, os, p);
    forall m: Match ensures m in base <==> m in all && InScope(m, q, localDate) {}
    if p in ProjectAll(base, os) {
      var m :| m in base && p == Project(m, LastOverlay(os, m.identity.id));
      ProjectedIsShown(m, os, p);
    }
    if m :| m in all && ShownAs(m, os, p) && InScope(m, q, localDate) {
      ProjectedIsShown(m, os, p);
      assert m in base;
    }
  }

  /** With unique overlays the feed shows exactly the stored matches of the asked day and competition, each as
      its overlay says, if that has the asked status. */
  lemma FeedShows(all: seq<Match>, os: seq<Overlay>, q: Query, localDate: LocalDate, p: Match)
    requires UniqueOverlays(os)
    ensures p in List(all, Some(os), q, localDate) <==> Shows(all, os, q, localDate, p) && (q.status.Some? ==> p.status == q.status.value)
  {
    hide Filter, List, ShownAs, UniqueOverlays;
    var open_ := q.(status := None);
    FilterPushdown(all, Some(os), q, localDate);
    OpenFeedShows(all, os, open_, localDate, p);
    assert forall m: Match :: InScope(m, q, localDate) == InScope(m, open_, localDate);
    assert Shows(all, os, q, localDate, p) == Shows(all, os, open_, localDate, p);
  }

  lemma BaseListHolds(all: seq<Match>, q: Query, localDate: LocalDate)
    ensures forall m :: m in BaseList(all, q, localDate) <==> m in all && Asked(m, q, localDate)
  {
    hide Filter, Sort, Ties;
    BaseListMeaning(all, q, localDate);
    var base := BaseList(all, q, localDate);
    forall m ensures m in base <==> m in all && Asked(m, q, localDate) {
      assert m in base <==> multiset(base)[m] > 0;
      assert m in all <==> multiset(all)[m] > 0;
    }
  }
}
