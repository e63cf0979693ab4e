/** The SportScore path of `LiveRefreshCoordinator.refresh`: the next snapshot is made of the freshly
    mapped matches, up to five tracked matches checked one by one, and the tracked matches left over. */
module SportScoreSource {
  import opened Options
  import opened StableSort
  import opened LiveRefreshStore

  const MAX_TERMINAL_CHECKS := 5
  const UPSTREAM_LIMIT := 50

  /** What asking for one tracked match yields. `Blocked` stops the whole refresh. */
  datatype Check = Observed(status: MatchStatus, details: string) | Unusable | Errored | Blocked

  function Tracked(prev: Option<Snapshot>): seq<Overlay> {
    if prev.Some? then prev.value.matches else []
  }

  function Ids(ms: seq<Overlay>): (r: set<string>)
    ensures forall m :: m in ms ==> m.matchId in r
    ensures forall id :: id in r ==> exists m :: m in ms && m.matchId == id
  {
    set m | m in ms :: m.matchId
  }

  function IsMissing(current: set<string>): Overlay -> bool {
    (m: Overlay) => m.status != Completed && m.matchId !in current
  }

  function HasSlug(m: Overlay): bool { m.slug.Some? && m.slug.value != "" }

  function NotIn(ids: set<string>): Overlay -> bool { (m: Overlay) => m.matchId !in ids }

  function MissingTracked(prev: Option<Snapshot>, adapted: seq<Overlay>): seq<Overlay> {
    Filter(Tracked(prev), IsMissing(Ids(adapted)))
  }

  function ToCheck(missing: seq<Overlay>): seq<Overlay> {
    var slugged := Filter(missing, HasSlug);
    if |slugged| <= MAX_TERMINAL_CHECKS then slugged else slugged[..MAX_TERMINAL_CHECKS]
  }

  function Resolve(m: Overlay, check: Check, startedAt: int): Overlay {
    match check
    case Observed(status, details) => m.(status := status, details := details, updatedAt := startedAt)
    case _ => m
  }

  function Checked(ms: seq<Overlay>, check: Overlay -> Check, startedAt: int): seq<Overlay> {
    seq(|ms|, i requires 0 <= i < |ms| => Resolve(ms[i], check(ms[i]), startedAt))
  }

  function Carried(startedAt: int): Overlay -> bool { (m: Overlay) => m.updatedAt != startedAt }

  /** The first entry of every match id. */
  function FirstById(ms: seq<Overlay>): seq<Overlay> {
    if ms == [] then []
    else
      var rest := FirstById(ms[..|ms| - 1]);
      if ms[|ms| - 1].matchId in Ids(ms[..|ms| - 1]) then rest else rest + [ms[|ms| - 1]]
  }

  function Build(prev: Option<Snapshot>, adapted: seq<Overlay>, upstreamCount: int, check: Overlay -> Check, startedAt: int): Snapshot {
    var missing := MissingTracked(prev, adapted);
    var toCheck := ToCheck(missing);
    var checked := Checked(toCheck, check, startedAt);
    var unchecked := Filter(missing, NotIn(Ids(toCheck)));
    var merged := FirstById(adapted + checked + unchecked);
    Snapshot(startedAt,
             Coverage(UPSTREAM_LIMIT, upstreamCount, |adapted|, |merged|, |toCheck|,
                      |Filter(checked, Carried(startedAt))| + |unchecked|),
             merged)
  }

  /** The loop over the tracked matches to check, one request at a time. */
  method CheckTracked(toCheck: seq<Overlay>, check: Overlay -> Check, startedAt: int) returns (r: Option<seq<Overlay>>)
    ensures r.None? <==> exists m :: m in toCheck && check(m).Blocked?
    ensures r.Some? ==> |r.value| == |toCheck| && forall k :: 0 <= k < |toCheck| ==>
      match check(toCheck[k])
      case Observed(status, details) => r.value[k] == Overlay(toCheck[k].matchId, status, startedAt, toCheck[k].slug, details)
      case _ => r.value[k] == toCheck[k]
    ensures r.Some? ==> r.value == Checked(toCheck, check, startedAt)
  {
    var checked: seq<Overlay> := [];
    for i := 0 to |toCheck|
      invariant |checked| == i
      invariant forall k :: 0 <= k < i ==> checked[k] == Resolve(toCheck[k], check(toCheck[k]), startedAt) && !check(toCheck[k]).Blocked?
    {
      match check(toCheck[i]) {
        case Observed(status, details) => checked := checked + [toCheck[i].(status := status, details := details, updatedAt := startedAt)];
        case Blocked => assert toCheck[i] in toCheck; return None;
        case _ => checked := checked + [toCheck[i]];
      }
    }
    assert checked == Checked(toCheck, check, startedAt);
    return Some(checked);
  }

  // ---------------------------------------------------------------- what the next snapshot holds

  /** Tracked, not completed, and not among the freshly mapped matches. */
  ghost predicate Missing(m: Overlay, adapted: seq<Overlay>) {
    m.status != Completed && forall a :: a in adapted ==> a.matchId != m.matchId
  }

  ghost function NeedsCheck(adapted: seq<Overlay>): Overlay -> bool {
    (m: Overlay) => Missing(m, adapted) && m.slug.Some? && m.slug.value != ""
  }

  /** The tracked match at position `i` is one of the first five missing ones that have a slug. */
  ghost predicate HasTurn(tracked: seq<Overlay>, adapted: seq<Overlay>, i: nat)
    requires i < |tracked|
  {
    NeedsCheck(adapted)(tracked[i]) && CountBefore(tracked, NeedsCheck(adapted), i) < MAX_TERMINAL_CHECKS
  }

  /** How the tracked match at position `i` is published. */
  ghost predicate PublishedAs(tracked: seq<Overlay>, adapted: seq<Overlay>, check: Overlay -> Check, startedAt: int, i: nat, m: Overlay)
    requires i < |tracked|
  {
    if HasTurn(tracked, adapted, i) && check(tracked[i]).Observed?
    then m == Overlay(tracked[i].matchId, check(tracked[i]).status, startedAt, tracked[i].slug, check(tracked[i]).details)
    else m == tracked[i]
  }

  /** Every missing match is published. */
  ghost predicate HoldsMissing(tracked: seq<Overlay>, adapted: seq<Overlay>, check: Overlay -> Check, startedAt: int, ms: seq<Overlay>) {
    forall i :: 0 <= i < |tracked| && Missing(tracked[i], adapted) ==>
      exists m :: m in ms && PublishedAs(tracked, adapted, check, startedAt, i, m)
  }

  /** Only missing matches are. */
  ghost predicate OnlyMissing(tracked: seq<Overlay>, adapted: seq<Overlay>, check: Overlay -> Check, startedAt: int, ms: seq<Overlay>) {
    forall m :: m in ms ==>
      exists i :: 0 <= i < |tracked| && Missing(tracked[i], adapted) && PublishedAs(tracked, adapted, check, startedAt, i, m)
  }

  ghost predicate CountsRight(tracked: seq<Overlay>, adapted: seq<Overlay>, upstreamCount: int, startedAt: int, s: Snapshot) {
    var toCheck := CountBefore(tracked, NeedsCheck(adapted), |tracked|);
    && s.coverage.upstreamLimit == 50 && s.coverage.upstreamCount == upstreamCount && s.coverage.mappedCount == |adapted|
    && s.coverage.publishedCount == |s.matches| && s.coverage.terminalCheckCount == (if toCheck <= 5 then toCheck else 5)
    && s.coverage.retainedTrackedCount == |Filter(s.matches, Carried(startedAt))|
  }

  /** The mapped matches come first, as they are; then every missing one as observed, or unchanged when its
      check gave nothing or it had no turn. The snapshot holds nothing else, and the counts say so. */
  ghost predicate Holds(prev: Option<Snapshot>, adapted: seq<Overlay>, upstreamCount: int, check: Overlay -> Check, startedAt: int, s: Snapshot) {
    && s.generatedAt == startedAt && adapted <= s.matches && UniqueIds(s.matches)
    && HoldsMissing(Tracked(prev), adapted, check, startedAt, s.matches[|adapted|..])
    && OnlyMissing(Tracked(prev), adapted, check, startedAt, s.matches[|adapted|..])
    && CountsRight(Tracked(prev), adapted, upstreamCount, startedAt, s)
  }

  /** The body of `refresh` after the listing was mapped; `None` is the blocked error. */
  method ReadSnapshot(prev: Option<Snapshot>, adapted: seq<Overlay>, upstreamCount: int, check: Overlay -> Check, startedAt: int)
      returns (r: Option<Snapshot>)
    ensures r.None? <==> exists i :: 0 <= i < |Tracked(prev)| && HasTurn(Tracked(prev), adapted, i) && check(Tracked(prev)[i]).Blocked?
    ensures r.Some? && Inputs(prev, adapted, startedAt) ==> Holds(prev, adapted, upstreamCount, check, startedAt, r.value)
    ensures r == if exists m :: m in ToCheck(MissingTracked(prev, adapted)) && check(m).Blocked? then None
                 else Some(Build(prev, adapted, upstreamCount, check, startedAt))
  {
    hide Filter, FirstById, ToCheck, Ids, Checked, Holds, Inputs, HasTurn;
    BlockedIff(prev, adapted, check);
    if Inputs(prev, adapted, startedAt) { BuildHolds(prev, adapted, upstreamCount, check, startedAt); }
    var missing := Filter(Tracked(prev), IsMissing(Ids(adapted)));
    var toCheck := ToCheck(missing);
    var result := CheckTracked(toCheck, check, startedAt);
    if result.None? { return None; }
    var checked := result.value;
    var retainedUnchecked := Filter(missing, NotIn(Ids(toCheck)));
    var retainedCheckedCount := |Filter(checked, Carried(startedAt))|;
    var merged := FirstById(adapted + checked + retainedUnchecked);
    r := Some(Snapshot(startedAt,
                       Coverage(UPSTREAM_LIMIT, upstreamCount, |adapted|, |merged|, |toCheck|,
                                retainedCheckedCount + |retainedUnchecked|),
                       merged));
  }

  lemma ToCheckIsSlugged(prev: Option<Snapshot>, adapted: seq<Overlay>)
    ensures var all := Filter(Tracked(prev), NeedsCheck(adapted));
      ToCheck(MissingTracked(prev, adapted)) == if |all| <= MAX_TERMINAL_CHECKS then all else all[..MAX_TERMINAL_CHECKS]
  {
    FilterTwice(Tracked(prev), IsMissing(Ids(adapted)), HasSlug, NeedsCheck(adapted));
  }

  /** The matches to check are those that have a turn. */
  lemma TurnIsChecked(prev: Option<Snapshot>, adapted: seq<Overlay>, i: nat)
    requires i < |Tracked(prev)| && HasTurn(Tracked(prev), adapted, i)
    ensures Tracked(prev)[i] in ToCheck(MissingTracked(prev, adapted))
  {
    ToCheckIsSlugged(prev, adapted);
    FilterPosition(Tracked(prev), NeedsCheck(adapted), i);
  }

  lemma CheckedHasTurn(prev: Option<Snapshot>, adapted: seq<Overlay>, m: Overlay) returns (i: nat)
    requires m in ToCheck(MissingTracked(prev, adapted))
    ensures i < |Tracked(prev)| && Tracked(prev)[i] == m && HasTurn(Tracked(prev), adapted, i)
  {
    ToCheckIsSlugged(prev, adapted);
    var toCheck := ToCheck(MissingTracked(prev, adapted));
    var k :| 0 <= k < |toCheck| && toCheck[k] == m;
    i := FilterOrigin(Tracked(prev), NeedsCheck(adapted), k);
  }

  lemma BlockedIff(prev: Option<Snapshot>, adapted: seq<Overlay>, check: Overlay -> Check)
    ensures (exists m :: m in ToCheck(MissingTracked(prev, adapted)) && check(m).Blocked?) <==>
      exists i :: 0 <= i < |Tracked(prev)| && HasTurn(Tracked(prev), adapted, i) && check(Tracked(prev)[i]).Blocked?
  {
    hide ToCheck, MissingTracked, HasTurn, Tracked;
    if m :| m in ToCheck(MissingTracked(prev, adapted)) && check(m).Blocked? {
      var i := CheckedHasTurn(prev, adapted, m);
    }
    if i :| 0 <= i < |Tracked(prev)| && HasTurn(Tracked(prev), adapted, i) && check(Tracked(prev)[i]).Blocked? {
      TurnIsChecked(prev, adapted, i);
    }
  }

  /** A missing match is published as the check of its turn says. */
  lemma MissingPublished(prev: Option<Snapshot>, adapted: seq<Overlay>, check: Overlay -> Check, startedAt: int, i: nat) returns (m: Overlay)
    requires Inputs(prev, adapted, startedAt) && i < |Tracked(prev)| && Missing(Tracked(prev)[i], adapted)
    ensures var toCheck := ToCheck(MissingTracked(prev, adapted));
      m in Checked(toCheck, check, startedAt) + Filter(MissingTracked(prev, adapted), NotIn(Ids(toCheck)))
    ensures PublishedAs(Tracked(prev), adapted, check, startedAt, i, m)
  {
    hide HasTurn, ToCheck;
    var tracked := Tracked(prev);
    var missing := MissingTracked(prev, adapted);
    var toCheck := ToCheck(missing);
    m := tracked[i];
    assert m in missing;
    if m in toCheck {
      var j := CheckedHasTurn(prev, adapted, m);
      assert j == i by { assert UniqueIds(tracked); }
      var k :| 0 <= k < |toCheck| && toCheck[k] == m;
      assert Checked(toCheck, check, startedAt)[k] == Resolve(m, check(m), startedAt);
      m := Resolve(m, check(m), startedAt);
    } else {
      if HasTurn(tracked, adapted, i) { TurnIsChecked(prev, adapted, i); }
      forall o | o in toCheck ensures o.matchId != m.matchId {
        var j := CheckedHasTurn(prev, adapted, o);
        assert j != i && UniqueIds(tracked);
      }
    }
  }

  /** Whatever is published beyond the mapped matches is a missing one. */
  lemma PublishedMissing(prev: Option<Snapshot>, adapted: seq<Overlay>, check: Overlay -> Check, startedAt: int, m: Overlay) returns (i: nat)
    requires Inputs(prev, adapted, startedAt)
    requires var toCheck := ToCheck(MissingTracked(prev, adapted));
      m in Checked(toCheck, check, startedAt) + Filter(MissingTracked(prev, adapted), NotIn(Ids(toCheck)))
    ensures i < |Tracked(prev)| && Missing(Tracked(prev)[i], adapted) && PublishedAs(Tracked(prev), adapted, check, startedAt, i, m)
  {
    hide ToCheck;
    var tracked := Tracked(prev);
    var toCheck := ToCheck(MissingTracked(prev, adapted));
    var checked := Checked(toCheck, check, startedAt);
    if m in checked {
      var k :| 0 <= k < |checked| && checked[k] == m;
      assert toCheck[k] in toCheck;
      i := CheckedHasTurn(prev, adapted, toCheck[k]);
    } else {
      assert m in MissingTracked(prev, adapted);
      i :| i < |tracked| && tracked[i] == m;
      if HasTurn(tracked, adapted, i) { TurnIsChecked(prev, adapted, i); }
    }
  }

  function Rest(prev: Option<Snapshot>, adapted: seq<Overlay>, check: Overlay -> Check, startedAt: int): seq<Overlay> {
    var toCheck := ToCheck(MissingTracked(prev, adapted));
    Checked(toCheck, check, startedAt) + Filter(MissingTracked(prev, adapted), NotIn(Ids(toCheck)))
  }

  lemma RestHolds(prev: Option<Snapshot>, adapted: seq<Overlay>, check: Overlay -> Check, startedAt: int)
    requires Inputs(prev, adapted, startedAt)
    ensures HoldsMissing(Tracked(prev), adapted, check, startedAt, Rest(prev, adapted, check, startedAt))
    ensures OnlyMissing(Tracked(prev), adapted, check, startedAt, Rest(prev, adapted, check, startedAt))
  {
    hide Inputs, MissingTracked, ToCheck, Checked, Filter, Ids, Missing, PublishedAs, Tracked;
    forall i | 0 <= i < |Tracked(prev)| && Missing(Tracked(prev)[i], adapted)
      ensures exists m :: m in Rest(prev, adapted, check, startedAt) && PublishedAs(Tracked(prev), adapted, check, startedAt, i, m)
    {
      var m := MissingPublished(prev, adapted, check, startedAt, i);
    }
    forall m | m in Rest(prev, adapted, check, startedAt)
      ensures exists i :: 0 <= i < |Tracked(prev)| && Missing(Tracked(prev)[i], adapted) && PublishedAs(Tracked(prev), adapted, check, startedAt, i, m)
    {
      var i := PublishedMissing(prev, adapted, check, startedAt, m);
    }
  }

  lemma ChecksCounted(prev: Option<Snapshot>, adapted: seq<Overlay>)
    ensures var n := CountBefore(Tracked(prev), NeedsCheck(adapted), |Tracked(prev)|);
      |ToCheck(MissingTracked(prev, adapted))| == if n <= 5 then n else 5
  {
    hide Filter, Tracked, ToCheck, NeedsCheck;
    ToCheckIsSlugged(prev, adapted);
    FilterCount(Tracked(prev), NeedsCheck(adapted), |Tracked(prev)|);
    assert Tracked(prev)[..|Tracked(prev)|] == Tracked(prev);
  }

  lemma BuildIs(prev: Option<Snapshot>, adapted: seq<Overlay>, upstreamCount: int, check: Overlay -> Check, startedAt: int)
    requires Inputs(prev, adapted, startedAt)
    ensures var s := Build(prev, adapted, upstreamCount, check, startedAt);
      && s.generatedAt == startedAt && s.matches == adapted + Rest(prev, adapted, check, startedAt)
      && s.coverage.upstreamLimit == 50 && s.coverage.upstreamCount == upstreamCount && s.coverage.mappedCount == |adapted|
      && s.coverage.terminalCheckCount == |ToCheck(MissingTracked(prev, adapted))|
  {
    hide *;
    Parts(prev, adapted, check, startedAt);
    var missing := MissingTracked(prev, adapted);
    FirstByIdOfUnique(adapted + Checked(ToCheck(missing), check, startedAt) + Filter(missing, NotIn(Ids(ToCheck(missing)))));
    BuildFields(prev, adapted, upstreamCount, check, startedAt);
  }

  lemma BuildFields(prev: Option<Snapshot>, adapted: seq<Overlay>, upstreamCount: int, check: Overlay -> Check, startedAt: int)
    ensures var s := Build(prev, adapted, upstreamCount, check, startedAt);
      var missing := MissingTracked(prev, adapted);
      var merged := adapted + Checked(ToCheck(missing), check, startedAt) + Filter(missing, NotIn(Ids(ToCheck(missing))));
      && s.generatedAt == startedAt && s.matches == FirstById(merged) && merged == adapted + Rest(prev, adapted, check, startedAt)
      && s.coverage.upstreamLimit == 50 && s.coverage.upstreamCount == upstreamCount && s.coverage.mappedCount == |adapted|
      && s.coverage.terminalCheckCount == |ToCheck(missing)|
  {
    hide MissingTracked, ToCheck, Checked, Filter, Ids, FirstById;
  }

  lemma BuildHolds(prev: Option<Snapshot>, adapted: seq<Overlay>, upstreamCount: int, check: Overlay -> Check, startedAt: int)
    requires Inputs(prev, adapted, startedAt)
    ensures Holds(prev, adapted, upstreamCount, check, startedAt, Build(prev, adapted, upstreamCount, check, startedAt))
  {
    hide Inputs, MissingTracked, ToCheck, Filter, UniqueIds, Build, Rest, HoldsMissing, OnlyMissing, Occurrences, ValidSnapshot, Tracked;
    TrackedConserved(prev, adapted, upstreamCount, check, startedAt);
    BuildIs(prev, adapted, upstreamCount, check, startedAt);
    RestHolds(prev, adapted, check, startedAt);
    ChecksCounted(prev, adapted);
    var rest := Rest(prev, adapted, check, startedAt);
    assert (adapted + rest)[|adapted|..] == rest;
  }

  // ---------------------------------------------------------------- tracked matches are conserved

  function OtherId(a: Overlay, b: Overlay): bool { a.matchId != b.matchId }

  lemma UniqueFilter(ms: seq<Overlay>, p: Overlay -> bool)
    requires UniqueIds(ms)
    ensures UniqueIds(Filter(ms, p))
  {
    FilterAscending(ms, OtherId, p);
    var f := Filter(ms, p);
    assert forall i, j :: 0 <= i < j < |f| ==> OtherId(f[i], f[j]);
  }

  lemma {:induction false} FirstByIdOfUnique(ms: seq<Overlay>)
    requires UniqueIds(ms)
    ensures FirstById(ms) == ms
  {
    if ms != [] {
      var init := ms[..|ms| - 1];
      FirstByIdOfUnique(init);
      assert ms == init + [ms[|ms| - 1]];
    }
  }

  lemma TailIds(ms: seq<Overlay>)
    requires UniqueIds(ms) && ms != []
    ensures UniqueIds(ms[1..])
    ensures Ids(ms) == Ids(ms[1..]) + {ms[0].matchId} && ms[0].matchId !in Ids(ms[1..])
  {
    forall m | m in ms[1..] ensures m.matchId != ms[0].matchId {
      var i :| 0 <= i < |ms[1..]| && ms[1..][i] == m;
      assert ms[0].matchId != ms[i + 1].matchId;
    }
  }

  /** Among entries with unique ids, the ids of a sub-list pick out as many entries as it has. */
  lemma {:induction false} CountByIds(ms: seq<Overlay>, ids: set<string>)
    requires UniqueIds(ms) && ids <= Ids(ms)
    ensures |ms| == |ids| + |Filter(ms, NotIn(ids))|
  {
    hide Filter, UniqueIds, Ids;
    FilterCons(ms, NotIn(ids));
    if ms == [] {
      assert ids == {};
    } else {
      var rest := ids - {ms[0].matchId};
      TailIds(ms);
      CountByIds(ms[1..], rest);
      AgreeOnTail(ms[1..], ids, ms[0].matchId);
      RemoveSize(ids, ms[0].matchId);
    }
  }

  lemma AgreeOnTail(ms: seq<Overlay>, ids: set<string>, id: string)
    requires id !in Ids(ms)
    ensures Filter(ms, NotIn(ids)) == Filter(ms, NotIn(ids - {id}))
  {
    FilterAgrees(ms, NotIn(ids), NotIn(ids - {id}));
  }

  lemma RemoveSize(s: set<string>, x: string)
    ensures |s| == |s - {x}| + if x in s then 1 else 0
  {
    assert x !in s ==> s - {x} == s;
  }

  lemma {:induction false} CountIds(ms: seq<Overlay>)
    requires UniqueIds(ms)
    ensures |Ids(ms)| == |ms|
  {
    if ms == [] {
      assert Ids(ms) == {};
    } else {
      CountIds(ms[1..]);
      TailIds(ms);
    }
  }

  /** What the coordinator knows when it builds a snapshot: the adapter maps every match once and
      stamps it, and what it tracked was observed before this refresh started. */
  ghost predicate Inputs(prev: Option<Snapshot>, adapted: seq<Overlay>, startedAt: int) {
    && UniqueIds(adapted) && (forall m :: m in adapted ==> m.updatedAt == startedAt)
    && UniqueIds(Tracked(prev)) && (forall m :: m in Tracked(prev) ==> m.updatedAt < startedAt)
  }

  /** The three parts of the merged list, pairwise disjoint by id. */
  lemma Parts(prev: Option<Snapshot>, adapted: seq<Overlay>, check: Overlay -> Check, startedAt: int)
    requires Inputs(prev, adapted, startedAt)
    ensures var missing := MissingTracked(prev, adapted);
      var toCheck := ToCheck(missing);
      var checked := Checked(toCheck, check, startedAt);
      var unchecked := Filter(missing, NotIn(Ids(toCheck)));
      && UniqueIds(missing) && UniqueIds(toCheck) && UniqueIds(adapted + checked + unchecked)
      && Ids(checked) == Ids(toCheck) <= Ids(missing)
      && |missing| == |toCheck| + |unchecked|
  {
    var missing := MissingTracked(prev, adapted);
    var toCheck := ToCheck(missing);
    var checked := Checked(toCheck, check, startedAt);
    var unchecked := Filter(missing, NotIn(Ids(toCheck)));
    UniqueFilter(Tracked(prev), IsMissing(Ids(adapted)));
    UniqueFilter(missing, NotIn(Ids(toCheck)));
    SubList(missing);
    CheckedIds(toCheck, check, startedAt);
    CountIds(toCheck);
    CountByIds(missing, Ids(toCheck));
    assert Ids(adapted) !! Ids(missing) && Ids(unchecked) !! Ids(toCheck) && Ids(unchecked) <= Ids(missing);
    hide *;
    AppendUnique(adapted, checked);
    JoinIds(adapted, checked);
    AppendUnique(adapted + checked, unchecked);
  }

  lemma JoinIds(a: seq<Overlay>, b: seq<Overlay>)
    ensures Ids(a + b) == Ids(a) + Ids(b)
  {
    forall m | m in a || m in b ensures m.matchId in Ids(a + b) { assert m in a + b; }
  }

  lemma SubList(missing: seq<Overlay>)
    requires UniqueIds(missing)
    ensures UniqueIds(ToCheck(missing)) && Ids(ToCheck(missing)) <= Ids(missing)
  {
    UniqueFilter(missing, HasSlug);
    forall m | m in ToCheck(missing) ensures m in missing { assert m in Filter(missing, HasSlug); }
  }

  lemma CheckedIds(ms: seq<Overlay>, check: Overlay -> Check, startedAt: int)
    ensures Ids(Checked(ms, check, startedAt)) == Ids(ms)
    ensures UniqueIds(ms) ==> UniqueIds(Checked(ms, check, startedAt))
  {
    var c := Checked(ms, check, startedAt);
    assert forall i :: 0 <= i < |ms| ==> c[i].matchId == ms[i].matchId;
    hide Checked;
    SameIds(c, ms);
  }

  lemma SameIds(a: seq<Overlay>, b: seq<Overlay>)
    requires |a| == |b| && forall i :: 0 <= i < |a| ==> a[i].matchId == b[i].matchId
    ensures Ids(a) == Ids(b) && (UniqueIds(b) ==> UniqueIds(a))
  {
    forall i | 0 <= i < |a| ensures a[i].matchId in Ids(b) && b[i].matchId in Ids(a) {
      assert a[i] in a && b[i] in b;
    }
  }

  lemma AppendUnique(a: seq<Overlay>, b: seq<Overlay>)
    requires UniqueIds(a) && UniqueIds(b) && Ids(a) !! Ids(b)
    ensures UniqueIds(a + b)
  {
    forall i, j | 0 <= i < j < |a + b| ensures (a + b)[i].matchId != (a + b)[j].matchId {
      if i < |a| <= j {
        assert (a + b)[i] in a && (a + b)[j] in b;
      }
    }
  }

  /** How often a match id occurs in a snapshot. */
  function Occurrences(ms: seq<Overlay>, id: string): nat {
    if ms == [] then 0 else (if ms[0].matchId == id then 1 else 0) + Occurrences(ms[1..], id)
  }

  lemma {:induction false} OccursOnce(ms: seq<Overlay>, id: string)
    requires UniqueIds(ms)
    ensures Occurrences(ms, id) == if id in Ids(ms) then 1 else 0
  {
    if ms != [] {
      OccursOnce(ms[1..], id);
      TailIds(ms);
    }
  }

  /** Every tracked match that was not completed appears exactly once in the next snapshot, the
      counts add up, and the snapshot passes validation when the upstream counts do. */
  lemma TrackedConserved(prev: Option<Snapshot>, adapted: seq<Overlay>, upstreamCount: int, check: Overlay -> Check, startedAt: int)
    requires Inputs(prev, adapted, startedAt)
    ensures var next := Build(prev, adapted, upstreamCount, check, startedAt);
      && UniqueIds(next.matches)
      && (forall m :: m in Tracked(prev) && m.status != Completed ==> Occurrences(next.matches, m.matchId) == 1)
      && (forall m :: m in next.matches ==> m.updatedAt <= startedAt && (m.updatedAt == startedAt || m in Tracked(prev)))
      && next.coverage.publishedCount == |next.matches| == |adapted| + |MissingTracked(prev, adapted)|
      && next.coverage.retainedTrackedCount == |Filter(next.matches, Carried(startedAt))|
      && (|adapted| <= upstreamCount <= UPSTREAM_LIMIT ==> ValidSnapshot(next))
  {
    hide UniqueIds, Occurrences, Ids, Inputs, MissingTracked, ToCheck, Checked, Filter, Tracked;
    Parts(prev, adapted, check, startedAt);
    var missing := MissingTracked(prev, adapted);
    var toCheck := ToCheck(missing);
    var checked := Checked(toCheck, check, startedAt);
    var unchecked := Filter(missing, NotIn(Ids(toCheck)));
    var merged := adapted + checked + unchecked;
    FirstByIdOfUnique(merged);
    Ages(prev, adapted, check, startedAt);
    forall m | m in Tracked(prev) && m.status != Completed ensures Occurrences(merged, m.matchId) == 1 {
      OccursOnce(merged, m.matchId);
      StillListed(prev, adapted, check, startedAt, m);
    }
    FilterConcat(adapted + checked, unchecked, Carried(startedAt));
    FilterConcat(adapted, checked, Carried(startedAt));
    CheckedSize(missing, check, startedAt);
  }

  lemma CheckedSize(missing: seq<Overlay>, check: Overlay -> Check, startedAt: int)
    ensures |Checked(ToCheck(missing), check, startedAt)| == |ToCheck(missing)| <= MAX_TERMINAL_CHECKS
  {
  }

  lemma StillListed(prev: Option<Snapshot>, adapted: seq<Overlay>, check: Overlay -> Check, startedAt: int, m: Overlay)
    requires m in Tracked(prev) && m.status != Completed
    ensures var missing := MissingTracked(prev, adapted);
      var toCheck := ToCheck(missing);
      m.matchId in Ids(adapted + Checked(toCheck, check, startedAt) + Filter(missing, NotIn(Ids(toCheck))))
  {
    var missing := MissingTracked(prev, adapted);
    var toCheck := ToCheck(missing);
    var unchecked := Filter(missing, NotIn(Ids(toCheck)));
    CheckedIds(toCheck, check, startedAt);
    JoinIds(adapted + Checked(toCheck, check, startedAt), unchecked);
    JoinIds(adapted, Checked(toCheck, check, startedAt));
    if m.matchId !in Ids(adapted) {
      assert m in missing;
      assert m.matchId !in Ids(toCheck) ==> m in unchecked;
    }
  }

  lemma Ages(prev: Option<Snapshot>, adapted: seq<Overlay>, check: Overlay -> Check, startedAt: int)
    requires Inputs(prev, adapted, startedAt)
    ensures var missing := MissingTracked(prev, adapted);
      var toCheck := ToCheck(missing);
      var unchecked := Filter(missing, NotIn(Ids(toCheck)));
      && (forall m :: m in adapted + Checked(toCheck, check, startedAt) + unchecked ==>
           m.updatedAt <= startedAt && (m.updatedAt == startedAt || m in Tracked(prev)))
      && Filter(adapted, Carried(startedAt)) == []
      && Filter(unchecked, Carried(startedAt)) == unchecked
  {
    hide MissingTracked, ToCheck, Ids, UniqueIds, Filter, Tracked, Checked;
    FilterNone(adapted, Carried(startedAt));
    MissingTrackedOnly(prev, adapted);
    var missing := MissingTracked(prev, adapted);
    var toCheck := ToCheck(missing);
    var unchecked := Filter(missing, NotIn(Ids(toCheck)));
    FilterAll(unchecked, Carried(startedAt));
    CheckedAges(toCheck, check, startedAt);
  }

  lemma MissingTrackedOnly(prev: Option<Snapshot>, adapted: seq<Overlay>)
    ensures forall m :: m in MissingTracked(prev, adapted) ==> m in Tracked(prev)
    ensures forall m :: m in ToCheck(MissingTracked(prev, adapted)) ==> m in Tracked(prev)
  {
    var missing := MissingTracked(prev, adapted);
    forall m | m in ToCheck(missing) ensures m in missing { assert m in Filter(missing, HasSlug); }
  }

  lemma CheckedAges(ms: seq<Overlay>, check: Overlay -> Check, startedAt: int)
    ensures forall c :: c in Checked(ms, check, startedAt) ==> c.updatedAt == startedAt || c in ms
  {
    var checked := Checked(ms, check, startedAt);
    forall c | c in checked ensures c.updatedAt == startedAt || c in ms {
      var i :| 0 <= i < |checked| && checked[i] == c;
      assert ms[i] in ms;
    }
  }
}
