/** Deduplicating source references and normalizing matches for the serving store. Names are ordered
    by rank, which stands for `localeCompare`; times are milliseconds. */
module ServingMatches {
  import opened Options
  import opened StableSort
  import opened KeyedMerge
  import JsMap

  datatype Name = Name(rank: int)

  /** The rank of the empty string, which a missing id or URL counts as. */
  const EMPTY := Name(0)

  function OrEmpty(n: Option<Name>): Name { if n.Some? then n.value else EMPTY }

  datatype SourceRef = SourceRef(sourceId: Name, sourceMatchId: Option<Name>, sourceUrl: Option<Name>, importedAt: int, content: string)

  datatype RefKey = RefKey(group: RefGroup, url: Name)
  datatype RefGroup = RefGroup(sourceId: Name, sourceMatchId: Name)

  function KeyOfRef(r: SourceRef): RefKey { RefKey(RefGroup(r.sourceId, OrEmpty(r.sourceMatchId)), OrEmpty(r.sourceUrl)) }

  function NewerRef(x: SourceRef, y: SourceRef): SourceRef { if y.importedAt > x.importedAt then y else x }

  function RefLeq(a: SourceRef, b: SourceRef): bool {
    a.sourceId.rank < b.sourceId.rank
    || (a.sourceId == b.sourceId && OrEmpty(a.sourceMatchId).rank <= OrEmpty(b.sourceMatchId).rank)
  }

  function GroupOfKey(k: RefKey): RefGroup { k.group }

  function Same(r: SourceRef): SourceRef { r }

  function RefRule(): Rule<SourceRef, RefKey> { Rule(KeyOfRef, Same, NewerRef) }

  /** The newest reference of every key, ordered by source and match id. */
  function Dedupe(refs: seq<SourceRef>): seq<SourceRef> { Normal(refs, RefRule(), RefLeq) }

  datatype LocalMatch = LocalMatch(id: Name, competitionId: Name, season: Name, kickoff: int, updatedAt: int,
                                   sourceRefs: seq<SourceRef>, valid: bool, content: string)

  function IdOf(m: LocalMatch): Name { m.id }

  function FirstMatch(m: LocalMatch): LocalMatch { m.(sourceRefs := Dedupe(m.sourceRefs)) }

  function JoinMatch(existing: LocalMatch, m: LocalMatch): LocalMatch {
    (if m.updatedAt >= existing.updatedAt then m else existing).(sourceRefs := Dedupe(existing.sourceRefs + m.sourceRefs))
  }

  function MatchLeq(a: LocalMatch, b: LocalMatch): bool {
    a.kickoff < b.kickoff || (a.kickoff == b.kickoff && a.id.rank <= b.id.rank)
  }

  function MatchRule(): Rule<LocalMatch, Name> { Rule(IdOf, FirstMatch, JoinMatch) }

  /** One match per id, in storage order. */
  function Normalize(ms: seq<LocalMatch>): seq<LocalMatch> { Normal(ms, MatchRule(), MatchLeq) }

  function Self(n: Name): Name { n }

  // ---------------------------------------------------------------- the loops

  /** The Map of a merging loop, and the list of its values. */
  ghost predicate MapOf<X, K>(m: JsMap.JsMap<K, X>, r: Rule<X, K>) {
    JsMap.UniqueKeys(m) && forall i :: 0 <= i < |m| ==> r.key(m[i].value) == m[i].key
  }

  /** Reading, joining and setting an entry is one step of the merge. */
  lemma SetIsAdd<X(!new), K>(m: JsMap.JsMap<K, X>, x: X, r: Rule<X, K>)
    requires MapOf(m, r) && Lawful(r)
    ensures var before := JsMap.Lookup(m, r.key(x));
      var after := JsMap.Set(m, r.key(x), if before.None? then r.first(x) else r.join(before.value, x));
      MapOf(after, r) && JsMap.Values(after) == Add(JsMap.Values(m), x, r)
  {
    hide Lawful;
    LawFirst(r, x);
    var vs := JsMap.Values(m);
    if JsMap.Has(m, r.key(x)) {
      var i := JsMap.LookupIndex(m, r.key(x));
      LawJoin(r, m[i].value, x);
      JsMap.SetAt(m, r.key(x), r.join(m[i].value, x), i);
      forall j | 0 <= j < i ensures r.key(vs[j]) != r.key(x) { assert m[j].key != m[i].key; }
      AddAt(vs, x, r, i);
    } else {
      JsMap.SetFresh(m, r.key(x), r.first(x));
      forall j | 0 <= j < |vs| ensures r.key(vs[j]) != r.key(x) { assert m[j].key != r.key(x); }
      AddFresh(vs, x, r);
    }
  }

  method DedupeSourceRefs(refs: seq<SourceRef>) returns (out: seq<SourceRef>)
    ensures out == Dedupe(refs)
  {
    hide Normal;
    RefsLawful();
    hide Lawful;
    var byKey: JsMap.JsMap<RefKey, SourceRef> := [];
    for i := 0 to |refs|
      invariant MapOf(byKey, RefRule()) && JsMap.Values(byKey) == AddAll([], refs[..i], RefRule())
    {
      assert refs[..i + 1][..i] == refs[..i];
      SetIsAdd(byKey, refs[i], RefRule());
      var key := KeyOfRef(refs[i]);
      var existing := JsMap.Lookup(byKey, key);
      if existing.None? || refs[i].importedAt > existing.value.importedAt {
        byKey := JsMap.Set(byKey, key, refs[i]);
      } else {
        SetSame(byKey, key);
      }
    }
    assert refs[..|refs|] == refs;
    NormalIsSorted(refs);
    return Sort(JsMap.Values(byKey), RefLeq);
  }

  lemma SetSame<K, V>(m: JsMap.JsMap<K, V>, k: K)
    requires JsMap.UniqueKeys(m) && JsMap.Lookup(m, k).Some?
    ensures JsMap.Set(m, k, JsMap.Lookup(m, k).value) == m
  {
    var i := JsMap.LookupIndex(m, k);
    JsMap.SetAt(m, k, m[i].value, i);
  }

  lemma NormalIsSorted(refs: seq<SourceRef>)
    ensures Dedupe(refs) == Sort(AddAll([], refs, RefRule()), RefLeq)
  {
  }

  datatype NormalizeResult = Invalid(index: nat) | Valid(matches: seq<LocalMatch>)

  ghost predicate FirstInvalid(ms: seq<LocalMatch>, i: nat) {
    i < |ms| && !ms[i].valid && forall j :: 0 <= j < i ==> ms[j].valid
  }

  method NormalizeAndValidateMatches(ms: seq<LocalMatch>) returns (r: NormalizeResult)
    ensures r.Valid? ==> (forall m :: m in ms ==> m.valid) && r.matches == Normalize(ms)
    ensures r.Invalid? ==> FirstInvalid(ms, r.index)
  {
    for i := 0 to |ms|
      invariant forall j :: 0 <= j < i ==> ms[j].valid
    {
      if !ms[i].valid { return Invalid(i); }
    }
    var out := MergeById(ms);
    return Valid(out);
  }

  method MergeById(ms: seq<LocalMatch>) returns (out: seq<LocalMatch>)
    ensures out == Normalize(ms)
  {
    hide Dedupe;
    MatchesLawful();
    hide Lawful;
    var byId: JsMap.JsMap<Name, LocalMatch> := [];
    for i := 0 to |ms|
      invariant MapOf(byId, MatchRule()) && JsMap.Values(byId) == AddAll([], ms[..i], MatchRule())
    {
      assert ms[..i + 1][..i] == ms[..i];
      SetIsAdd(byId, ms[i], MatchRule());
      var existing := JsMap.Lookup(byId, ms[i].id);
      if existing.None? {
        var refs := DedupeSourceRefs(ms[i].sourceRefs);
        byId := JsMap.Set(byId, ms[i].id, ms[i].(sourceRefs := refs));
      } else {
        var refs := DedupeSourceRefs(existing.value.sourceRefs + ms[i].sourceRefs);
        var chosen := if ms[i].updatedAt >= existing.value.updatedAt then ms[i] else existing.value;
        byId := JsMap.Set(byId, ms[i].id, chosen.(sourceRefs := refs));
      }
    }
    assert ms[..|ms|] == ms;
    return Sort(JsMap.Values(byId), MatchLeq);
  }

  // ---------------------------------------------------------------- the rules are lawful

  lemma RefJoin(x: SourceRef, y: SourceRef, z: SourceRef)
    ensures KeyOfRef(x) == KeyOfRef(y) ==> KeyOfRef(NewerRef(x, y)) == KeyOfRef(x)
    ensures NewerRef(x, NewerRef(y, z)) == NewerRef(NewerRef(x, y), z)
  {
  }

  lemma RefsLawful()
    ensures Lawful(RefRule()) && Associative(RefRule())
  {
    hide KeyOfRef, NewerRef;
    var r := RefRule();
    forall x, y ensures r.key(x) == r.key(y) ==> r.key(r.join(x, y)) == r.key(x) { RefJoin(x, y, y); }
    forall x, y, z ensures r.join(x, r.join(y, z)) == r.join(r.join(x, y), z) { RefJoin(x, y, z); }
  }

  lemma RefsSorting()
    ensures Sorting(RefRule(), RefLeq, GroupOfKey)
  {
    RefsLawful();
    assert TotalPreorder(RefLeq);
    forall s: seq<SourceRef>, c | OneGroup(s, RefRule(), GroupOfKey, c) ensures Sort(s, RefLeq) == s {
      forall x, y | x in s && y in s ensures RefLeq(x, y) {
        assert GroupOfKey(KeyOfRef(x)) == c && GroupOfKey(KeyOfRef(y)) == c;
      }
      TiedInOrder(s, RefLeq);
    }
  }

  /** Deduplicating either part of a list first makes no difference. */
  lemma DedupeAbsorbs(a: seq<SourceRef>, b: seq<SourceRef>)
    ensures Dedupe(Dedupe(a) + b) == Dedupe(a + b) == Dedupe(a + Dedupe(b))
  {
    RefsLawful();
    RefsSorting();
    hide Lawful, Associative, Sorting, Normal;
    NormalLeft(a, b, RefRule(), RefLeq, GroupOfKey);
    NormalRight(a, b, RefRule(), RefLeq, GroupOfKey);
  }

  lemma DedupeTwice(a: seq<SourceRef>)
    ensures Dedupe(Dedupe(a)) == Dedupe(a)
  {
    DedupeAbsorbs(a, []);
    assert Dedupe(a) + [] == Dedupe(a) && a + [] == a;
  }

  lemma MatchesLawful()
    ensures Lawful(MatchRule()) && Associative(MatchRule())
  {
    hide Dedupe;
    var r := MatchRule();
    forall x ensures FirstMatch(FirstMatch(x)) == FirstMatch(x) { DedupeTwice(x.sourceRefs); }
    forall x, y ensures FirstMatch(JoinMatch(x, y)) == JoinMatch(x, y) { DedupeTwice(x.sourceRefs + y.sourceRefs); }
    forall x, y ensures JoinMatch(x, FirstMatch(y)) == JoinMatch(x, y) { DedupeAbsorbs(x.sourceRefs, y.sourceRefs); }
    forall x, y, z ensures JoinMatch(x, JoinMatch(y, z)) == JoinMatch(JoinMatch(x, y), z) {
      DedupeAbsorbs(x.sourceRefs, y.sourceRefs + z.sourceRefs);
      DedupeAbsorbs(x.sourceRefs + y.sourceRefs, z.sourceRefs);
      assert x.sourceRefs + (y.sourceRefs + z.sourceRefs) == x.sourceRefs + y.sourceRefs + z.sourceRefs;
    }
  }

  lemma MatchesSorting()
    ensures Sorting(MatchRule(), MatchLeq, Self)
  {
    MatchesLawful();
    hide Lawful, Dedupe;
    assert TotalPreorder(MatchLeq);
    forall s: seq<LocalMatch>, c | Settled(s, MatchRule()) && OneGroup(s, MatchRule(), Self, c) ensures Sort(s, MatchLeq) == s {
      assert |s| > 0 ==> s[0] in s && IdOf(s[0]) == c;
      assert |s| > 1 ==> s[1] in s && IdOf(s[1]) == c;
      assert |s| <= 1;
    }
  }

  /** Normalizing either part of an import first makes no difference. */
  lemma NormalizeAbsorbs(a: seq<LocalMatch>, b: seq<LocalMatch>)
    ensures Normalize(Normalize(a) + b) == Normalize(a + b) == Normalize(a + Normalize(b))
  {
    MatchesLawful();
    MatchesSorting();
    hide Lawful, Associative, Sorting, Normal;
    NormalLeft(a, b, MatchRule(), MatchLeq, Self);
    NormalRight(a, b, MatchRule(), MatchLeq, Self);
  }

  // ---------------------------------------------------------------- what the lists contain

  /** Of several references the first one among the most recently imported. */
  function Newest(refs: seq<SourceRef>): (r: SourceRef)
    requires refs != []
    ensures r in refs && forall o :: o in refs ==> o.importedAt <= r.importedAt
  {
    var last := refs[|refs| - 1];
    if |refs| == 1 then last
    else
      var before := Newest(refs[..|refs| - 1]);
      assert forall o :: o in refs ==> o in refs[..|refs| - 1] || o == last;
      NewerRef(before, last)
  }

  lemma {:induction false} FoldNewest(refs: seq<SourceRef>)
    requires refs != []
    ensures Fold(refs, RefRule()) == Newest(refs)
  {
    if |refs| > 1 { FoldNewest(refs[..|refs| - 1]); }
  }

  function HasKeyOf(key: RefKey): SourceRef -> bool { KeyIn(IsKey(key), RefRule()) }

  /** `Dedupe` keeps, for every key, its newest reference and nothing else, in order. */
  lemma DedupeMeaning(refs: seq<SourceRef>, key: RefKey)
    ensures Ascending(Dedupe(refs), RefLeq)
    ensures var own := Filter(refs, HasKeyOf(key));
      Filter(Dedupe(refs), HasKeyOf(key)) == if own == [] then [] else [Newest(own)]
  {
    RefsSorting();
    hide Lawful, TotalPreorder, Normal, Filter;
    NormalKey(refs, RefRule(), RefLeq, key);
    NormalSettled(refs, RefRule(), RefLeq);
    var own := Filter(refs, HasKeyOf(key));
    if own != [] { FoldNewest(own); }
  }

  lemma NewestAbsorbs(refs: seq<SourceRef>, x: SourceRef)
    requires x in refs
    ensures Absorbs(Merged(refs, RefRule()), x, RefRule())
  {
    var p := HasKeyOf(KeyOfRef(x));
    var own := Filter(refs, p);
    assert x in own;
    RefsLawful();
    hide Lawful, Associative, Filter, KeyOfRef;
    MergedFilter(refs, RefRule(), IsKey(KeyOfRef(x)));
    OneKey(own, RefRule(), KeyOfRef(x));
    FoldNewest(own);
    var m := Merged(refs, RefRule());
    assert Newest(own) in Filter(m, p);
    var j :| 0 <= j < |m| && m[j] == Newest(own);
  }

  lemma DedupeDouble(b: seq<SourceRef>)
    ensures Dedupe(b + b) == Dedupe(b)
  {
    RefsLawful();
    AddAllSettled([], b, RefRule());
    hide Lawful, Associative, Absorbs;
    forall x | x in b ensures Absorbs(Merged(b, RefRule()), x, RefRule()) { NewestAbsorbs(b, x); }
    AbsorbAll(Merged(b, RefRule()), b, RefRule());
    AddAllConcat([], b, b, RefRule());
  }

  /** Adding references that are already there changes nothing. */
  lemma DedupeAgain(a: seq<SourceRef>, b: seq<SourceRef>)
    ensures Dedupe(a + b + b) == Dedupe(a + b) && Dedupe(b + b + a) == Dedupe(b + a)
  {
    hide Dedupe;
    DedupeDouble(b);
    DedupeAbsorbs(a, b + b);
    DedupeAbsorbs(a, b);
    DedupeAbsorbs(b + b, a);
    DedupeAbsorbs(b, a);
    assert a + b + b == a + (b + b);
  }

  /** Of several versions of a match the last one among the most recently updated. */
  function Latest(ms: seq<LocalMatch>): (r: LocalMatch)
    requires ms != []
    ensures r in ms && forall m :: m in ms ==> m.updatedAt <= r.updatedAt
  {
    var last := ms[|ms| - 1];
    if |ms| == 1 then last
    else
      var before := Latest(ms[..|ms| - 1]);
      assert forall m :: m in ms ==> m in ms[..|ms| - 1] || m == last;
      if last.updatedAt >= before.updatedAt then last else before
  }

  function AllRefs(ms: seq<LocalMatch>): seq<SourceRef> {
    if ms == [] then [] else AllRefs(ms[..|ms| - 1]) + ms[|ms| - 1].sourceRefs
  }

  lemma {:induction false} FoldLatest(ms: seq<LocalMatch>)
    requires ms != []
    ensures Fold(ms, MatchRule()) == Latest(ms).(sourceRefs := Dedupe(AllRefs(ms)))
  {
    hide Dedupe;
    var init, last := ms[..|ms| - 1], ms[|ms| - 1];
    if |ms| == 1 {
      assert AllRefs(init) + last.sourceRefs == last.sourceRefs;
    } else {
      FoldLatest(init);
      DedupeAbsorbs(AllRefs(init), last.sourceRefs);
    }
  }

  function HasId(id: Name): LocalMatch -> bool { KeyIn(IsKey(id), MatchRule()) }

  /** Normalizing yields, for every id, its latest version with all its references, and nothing
      else, ordered by kickoff and id. */
  lemma NormalizeMeaning(ms: seq<LocalMatch>, id: Name)
    ensures Ascending(Normalize(ms), MatchLeq)
    ensures var versions := Filter(ms, HasId(id));
      Filter(Normalize(ms), HasId(id)) ==
        if versions == [] then [] else [Latest(versions).(sourceRefs := Dedupe(AllRefs(versions)))]
  {
    hide Dedupe, Latest, AllRefs;
    MatchesSorting();
    hide Lawful, TotalPreorder, Normal, Filter;
    NormalKey(ms, MatchRule(), MatchLeq, id);
    NormalSettled(ms, MatchRule(), MatchLeq);
    var versions := Filter(ms, HasId(id));
    if versions != [] { FoldLatest(versions); }
  }

  lemma {:induction false} MergedValid(ms: seq<LocalMatch>)
    requires forall m :: m in ms ==> m.valid
    ensures forall m :: m in Merged(ms, MatchRule()) ==> m.valid
  {
    hide Dedupe;
    if ms != [] {
      MergedValid(ms[..|ms| - 1]);
      assert ms[|ms| - 1] in ms;
      AddValid(Merged(ms[..|ms| - 1], MatchRule()), ms[|ms| - 1]);
    }
  }

  lemma {:induction false} AddValid(ms: seq<LocalMatch>, x: LocalMatch)
    requires x.valid && forall m :: m in ms ==> m.valid
    ensures forall m :: m in Add(ms, x, MatchRule()) ==> m.valid
  {
    hide Dedupe;
    if ms != [] {
      assert ms[0] in ms;
      AddValid(ms[1..], x);
    }
  }

  ghost predicate UniqueIds(ms: seq<LocalMatch>) {
    forall i, j :: 0 <= i < j < |ms| ==> ms[i].id != ms[j].id
  }

  /** The shape of every normalized list; merging it again changes nothing. */
  lemma NormalizeShape(ms: seq<LocalMatch>)
    ensures Ascending(Normalize(ms), MatchLeq) && UniqueIds(Normalize(ms))
    ensures (forall m :: m in ms ==> m.valid) ==> forall m :: m in Normalize(ms) ==> m.valid
    ensures Settled(Normalize(ms), MatchRule())
  {
    hide Dedupe;
    MatchesSorting();
    hide Lawful, TotalPreorder, Normal;
    NormalSettled(ms, MatchRule(), MatchLeq);
    var n := Normalize(ms);
    assert forall i :: 0 <= i < |n| ==> MatchRule().key(n[i]) == n[i].id;
    if forall x :: x in ms ==> x.valid { MergedValid(ms); }
  }
}
