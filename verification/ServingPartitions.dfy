/** What a written version holds: two partitions and an index that agree with the plain list, and a
    reader that gets the list back. */
module ServingPartitions {
  import opened Options
  import opened StableSort
  import opened KeyedMerge
  import opened ServingMatches
  import opened Grouping
  import opened ServingStore
  import JsMap

  /** Strictly before in storage order. */
  function Before(a: LocalMatch, b: LocalMatch): bool { MatchLeq(a, b) && a != b }

  /** A list as normalizing leaves it. */
  ghost predicate Stored(ms: seq<LocalMatch>) {
    Ascending(ms, MatchLeq) && UniqueIds(ms)
  }

  lemma StoredBefore(ms: seq<LocalMatch>)
    requires Stored(ms)
    ensures Ascending(ms, Before) && NoDuplicates(ms) && Separates(MatchLeq, ms)
  {
    forall x, y | x in ms && y in ms && x.id == y.id ensures x == y {
      var i :| 0 <= i < |ms| && ms[i] == x;
      var j :| 0 <= j < |ms| && ms[j] == y;
      assert i == j;
    }
  }

  // ---------------------------------------------------------------- days

  function Flatten(es: seq<DayEntry>): seq<LocalMatch> {
    if es == [] then [] else Flatten(es[..|es| - 1]) + es[|es| - 1].value
  }

  /** Day entries as the builder sorts them. */
  ghost predicate DayEntries(ms: seq<LocalMatch>, es: seq<DayEntry>) {
    && (forall i, j :: 0 <= i < j < |es| ==> es[i].key < es[j].key)
    && (forall i :: 0 <= i < |es| ==> es[i].value == Filter(ms, WithKey(DayOf, es[i].key)))
  }

  lemma DaysAreEntries(ms: seq<LocalMatch>)
    ensures DayEntries(ms, Days(ms)) && forall m :: m in ms ==> JsMap.Has(Days(ms), DayOf(m))
  {
    hide Filter, GroupAll;
    assert TotalPreorder(DayLeq);
    SortedGroups(ms, DayOf, DayLeq);
    var es := Days(ms);
    forall i, j | 0 <= i < j < |es| ensures es[i].key < es[j].key { assert DayLeq(es[i], es[j]); }
  }

  lemma {:induction false} FlattenAscending(ms: seq<LocalMatch>, es: seq<DayEntry>)
    requires Ascending(ms, Before) && DayEntries(ms, es)
    ensures Ascending(Flatten(es), Before)
    ensures forall m :: m in Flatten(es) ==> m in ms && exists i :: 0 <= i < |es| && es[i].key == DayOf(m)
  {
    if es != [] {
      var init, last := es[..|es| - 1], es[|es| - 1];
      FlattenAscending(ms, init);
      FilterAscending(ms, Before, WithKey(DayOf, last.key));
      forall m | m in Flatten(init) ensures m in ms && (exists i :: 0 <= i < |es| && es[i].key == DayOf(m)) && DayOf(m) < last.key {
        var i :| 0 <= i < |init| && init[i].key == DayOf(m);
        assert es[i].key == DayOf(m);
      }
      forall m | m in last.value ensures DayOf(m) == last.key && m in ms {}
      assert es[|es| - 1].key == last.key;
      DaysApart(Flatten(init), last.value, last.key);
    }
  }

  lemma DaysApart(a: seq<LocalMatch>, b: seq<LocalMatch>, day: int)
    requires Ascending(a, Before) && Ascending(b, Before)
    requires (forall m :: m in a ==> DayOf(m) < day) && forall m :: m in b ==> DayOf(m) == day
    ensures Ascending(a + b, Before)
  {
    forall i, j | 0 <= i < |a| && 0 <= j < |b| ensures Before(a[i], b[j]) {
      assert DayOf(a[i]) < DayOf(b[j]);
    }
  }

  lemma {:induction false} FlattenHas(ms: seq<LocalMatch>, es: seq<DayEntry>, i: nat)
    requires DayEntries(ms, es) && i < |es|
    ensures forall m :: m in es[i].value ==> m in Flatten(es)
  {
    if i < |es| - 1 { FlattenHas(ms, es[..|es| - 1], i); }
  }

  /** The day partitions, put one after the other, are the list itself. */
  lemma DaysCover(ms: seq<LocalMatch>)
    requires Stored(ms)
    ensures Flatten(Days(ms)) == ms
  {
    var es := Days(ms);
    StoredBefore(ms);
    DaysAreEntries(ms);
    hide Days, Filter;
    FlattenAscending(ms, es);
    var f := Flatten(es);
    forall m | m in ms ensures m in f {
      var i :| 0 <= i < |es| && es[i].key == DayOf(m);
      assert m in Filter(ms, WithKey(DayOf, es[i].key));
      FlattenHas(ms, es, i);
    }
    AscendingDistinct(ms, f, MatchLeq);
  }

  lemma {:induction false} DayFile(ms: seq<LocalMatch>, es: seq<DayEntry>, i: nat)
    requires DayEntries(ms, es) && i < |es| && Ascending(ms, MatchLeq)
    ensures es[i].key in WriteDays(es) && WriteDays(es)[es[i].key] == es[i].value
  {
    hide Filter;
    if i == |es| - 1 {
      FilterAscending(ms, MatchLeq, WithKey(DayOf, es[i].key));
      SortAscending(es[i].value, MatchLeq);
    } else {
      assert es[i].key < es[|es| - 1].key;
      DayFile(ms, es[..|es| - 1], i);
    }
  }

  lemma EntryWithin(ms: seq<LocalMatch>, es: seq<DayEntry>, i: nat)
    requires DayEntries(ms, es) && i < |es|
    ensures forall m :: m in es[i].value ==> m in ms
  {
  }

  lemma {:induction false} ReadBack(ms: seq<LocalMatch>, es: seq<DayEntry>, k: nat)
    requires DayEntries(ms, es) && k <= |es| && Ascending(ms, MatchLeq) && forall m :: m in ms ==> m.valid
    ensures ReadDays(WriteDays(es), DayPaths(es)[..k]) == Some(Flatten(es[..k]))
  {
    hide WriteDays, Filter, DayEntries, Ascending;
    if k > 0 {
      ReadBack(ms, es, k - 1);
      assert DayPaths(es)[..k][..k - 1] == DayPaths(es)[..k - 1];
      assert es[..k][..k - 1] == es[..k - 1];
      DayFile(ms, es, k - 1);
      EntryWithin(ms, es, k - 1);
    }
  }

  /** Reading the day files of a stored list in manifest order gives the list. */
  lemma ReadsAllDays(ms: seq<LocalMatch>)
    requires Stored(ms) && forall m :: m in ms ==> m.valid
    ensures ReadDays(WriteDays(Days(ms)), DayPaths(Days(ms))) == Some(ms)
  {
    DaysAreEntries(ms);
    DaysCover(ms);
    var es := Days(ms);
    hide Days, Flatten, WriteDays;
    ReadBack(ms, es, |es|);
    assert es[..|es|] == es && DayPaths(es)[..|es|] == DayPaths(es);
  }

  /** Setting every match of a stored list by id, then sorting, gives the list. */
  lemma SetAllStored(ms: seq<LocalMatch>)
    requires Stored(ms)
    ensures Sort(Merged(ms, SetRule()), MatchLeq) == ms
  {
    forall i, j | 0 <= i < j < |ms| ensures SetRule().key(ms[i]) != SetRule().key(ms[j]) {}
    assert Settled(ms, SetRule());
    MergedFixed(ms, SetRule());
    SortAscending(ms, MatchLeq);
  }

  /** The reader merges nothing away: it returns the normalized list. */
  lemma RoundTrip(input: seq<LocalMatch>, version: Name, meta: Meta, sources: seq<SourceRef>, segment: Name -> string,
                  versions: map<Name, VersionDir>)
    requires forall m :: m in input ==> m.valid
    ensures var ms := Normalize(input);
      Read(Disk(Some(ManifestFor(version, meta, sources, ms, segment)), versions[version := VersionFor(ms, segment)]))
        == Snapshot(meta, Dedupe(sources), ms)
  {
    hide Dedupe, Days, Competitions, ReadDays, Merged, Sort;
    NormalizeShape(input);
    var ms := Normalize(input);
    hide Normalize, Settled;
    ReadsAllDays(ms);
    SetAllStored(ms);
  }

  // ---------------------------------------------------------------- index

  lemma {:induction false} IndexHas(ms: seq<LocalMatch>, i: nat)
    requires UniqueIds(ms) && i < |ms|
    ensures ms[i].id in WriteIndex(ms) && WriteIndex(ms)[ms[i].id] == EntryFor(ms[i])
  {
    if i < |ms| - 1 { IndexHas(ms[..|ms| - 1], i); }
  }

  lemma {:induction false} IndexOnly(ms: seq<LocalMatch>, id: Name)
    requires id in WriteIndex(ms)
    ensures exists m :: m in ms && m.id == id
  {
    if ms[|ms| - 1].id == id {
      assert ms[|ms| - 1] in ms;
    } else {
      IndexOnly(ms[..|ms| - 1], id);
    }
  }

  /** Every entry of the index names the day file that holds the match, and every match has one. */
  lemma IndexAgrees(ms: seq<LocalMatch>, segment: Name -> string, id: Name)
    requires Stored(ms)
    ensures var v := VersionFor(ms, segment);
      && (id in v.index <==> exists m :: m in ms && m.id == id)
      && (id in v.index ==>
            && v.index[id].partition in v.byDate
            && exists m :: m in v.byDate[v.index[id].partition] && m.id == id && m in ms && v.index[id] == EntryFor(m))
  {
    if exists m :: m in ms && m.id == id {
      var i :| 0 <= i < |ms| && ms[i].id == id;
      IndexHas(ms, i);
      DaysAreEntries(ms);
      var es := Days(ms);
      assert ms[i] in ms;
      var k :| 0 <= k < |es| && es[k].key == DayOf(ms[i]);
      DayFile(ms, es, k);
      assert ms[i] in Filter(ms, WithKey(DayOf, es[k].key));
    }
    if id in WriteIndex(ms) { IndexOnly(ms, id); }
  }

  // ---------------------------------------------------------------- competitions

  /** The competition keys in use. */
  ghost predicate Used(ms: seq<LocalMatch>, k: CompetitionKey) { exists m :: m in ms && CompetitionOf(m) == k }

  /** Every competition of the list has a file with exactly its matches, in storage order. */
  ghost predicate CompetitionFiles(ms: seq<LocalMatch>, files: map<CompetitionPath, seq<LocalMatch>>, segment: Name -> string) {
    forall k :: Used(ms, k) ==>
      PathOf(k, segment) in files && files[PathOf(k, segment)] == Filter(ms, WithKey(CompetitionOf, k))
  }

  ghost predicate InjectivePaths(ms: seq<LocalMatch>, segment: Name -> string) {
    forall a, b :: Used(ms, a) && Used(ms, b) && PathOf(a, segment) == PathOf(b, segment) ==> a == b
  }

  lemma {:induction false} CompetitionFile(es: seq<CompetitionEntry>, segment: Name -> string, i: nat)
    requires i < |es|
    requires forall j :: 0 <= j < |es| && j != i ==> PathOf(es[j].key, segment) != PathOf(es[i].key, segment)
    ensures PathOf(es[i].key, segment) in WriteCompetitions(es, segment)
    ensures WriteCompetitions(es, segment)[PathOf(es[i].key, segment)] == Sort(es[i].value, MatchLeq)
  {
    if i < |es| - 1 {
      assert PathOf(es[|es| - 1].key, segment) != PathOf(es[i].key, segment);
      CompetitionFile(es[..|es| - 1], segment, i);
    }
  }

  lemma CompetitionsSorted(ms: seq<LocalMatch>)
    requires Ascending(ms, MatchLeq)
    ensures var es := Competitions(ms);
      && JsMap.UniqueKeys(es)
      && (forall i :: 0 <= i < |es| ==> Used(ms, es[i].key) && Sort(es[i].value, MatchLeq) == Filter(ms, WithKey(CompetitionOf, es[i].key)))
      && (forall k :: Used(ms, k) ==> JsMap.Has(es, k))
  {
    assert TotalPreorder(CompetitionLeq);
    SortedGroups(ms, CompetitionOf, CompetitionLeq);
    var es := Competitions(ms);
    hide Filter, Competitions;
    forall i | 0 <= i < |es|
      ensures Used(ms, es[i].key) && Sort(es[i].value, MatchLeq) == Filter(ms, WithKey(CompetitionOf, es[i].key))
    {
      FilterAscending(ms, MatchLeq, WithKey(CompetitionOf, es[i].key));
      SortAscending(es[i].value, MatchLeq);
      var m := es[i].value[0];
      assert m in Filter(ms, WithKey(CompetitionOf, es[i].key));
    }
  }

  /** The competition files are right exactly when no two competitions in use share a path. */
  lemma CompetitionsCoverIffInjective(ms: seq<LocalMatch>, segment: Name -> string)
    requires Stored(ms)
    ensures CompetitionFiles(ms, VersionFor(ms, segment).byCompetition, segment) <==> InjectivePaths(ms, segment)
  {
    CompetitionsSorted(ms);
    var es := Competitions(ms);
    var files := WriteCompetitions(es, segment);
    hide Competitions, Filter, WriteCompetitions;
    if InjectivePaths(ms, segment) {
      forall k | Used(ms, k)
        ensures PathOf(k, segment) in files && files[PathOf(k, segment)] == Filter(ms, WithKey(CompetitionOf, k))
      {
        var i :| 0 <= i < |es| && es[i].key == k;
        CompetitionFile(es, segment, i);
      }
    }
    if CompetitionFiles(ms, files, segment) {
      forall a, b | Used(ms, a) && Used(ms, b) && PathOf(a, segment) == PathOf(b, segment) ensures a == b {
        var m :| m in ms && CompetitionOf(m) == a;
        assert m in Filter(ms, WithKey(CompetitionOf, a));
        assert Filter(ms, WithKey(CompetitionOf, a)) == Filter(ms, WithKey(CompetitionOf, b));
      }
    }
  }
}
