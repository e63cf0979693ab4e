/** Grouping a list by a key in a JavaScript `Map`: groups in the order in which their keys first
    occur, each with its elements in order. */
module Grouping {
  import opened Options
  import opened StableSort
  import JsMap

  type Groups<K, V> = JsMap.JsMap<K, seq<V>>

  function ListAt<K(==), V>(g: Groups<K, V>, k: K): seq<V> {
    match JsMap.Lookup(g, k) case Some(ms) => ms case None => []
  }

  function Group<K(==), V>(g: Groups<K, V>, m: V, key: V -> K): Groups<K, V> {
    JsMap.Set(g, key(m), ListAt(g, key(m)) + [m])
  }

  function GroupAll<K(==), V>(ms: seq<V>, key: V -> K): Groups<K, V> {
    if ms == [] then [] else Group(GroupAll(ms[..|ms| - 1], key), ms[|ms| - 1], key)
  }

  lemma GroupLast<K, V>(ms: seq<V>, m: V, key: V -> K)
    ensures GroupAll(ms + [m], key) == Group(GroupAll(ms, key), m, key)
  {
    assert (ms + [m])[..|ms + [m]| - 1] == ms;
  }

  method GroupMatches<K(==), V>(ms: seq<V>, key: V -> K) returns (g: Groups<K, V>)
    ensures g == GroupAll(ms, key)
  {
    g := [];
    for i := 0 to |ms|
      invariant g == GroupAll(ms[..i], key)
    {
      assert ms[..i + 1][..i] == ms[..i];
      var current := ListAt(g, key(ms[i]));
      g := JsMap.Set(g, key(ms[i]), current + [ms[i]]);
    }
    assert ms[..|ms|] == ms;
  }

  function WithKey<K(==), V>(key: V -> K, k: K): V -> bool { m => key(m) == k }

  /** A group holds the elements of its key, in order; a key without elements has no group. */
  lemma {:induction false} GroupIsFilter<K(!new), V(!new)>(ms: seq<V>, key: V -> K)
    ensures JsMap.UniqueKeys(GroupAll(ms, key))
    ensures forall k :: ListAt(GroupAll(ms, key), k) == Filter(ms, WithKey(key, k))
    ensures forall k :: JsMap.Has(GroupAll(ms, key), k) <==> Filter(ms, WithKey(key, k)) != []
  {
    hide Filter;
    if ms == [] {
      forall k: K ensures Filter(ms, WithKey(key, k)) == [] { FilterCons(ms, WithKey(key, k)); }
    } else {
      var init, last := ms[..|ms| - 1], ms[|ms| - 1];
      GroupIsFilter(init, key);
      var g := GroupAll(init, key);
      JsMap.SetLookup(g, key(last), ListAt(g, key(last)) + [last]);
      forall k ensures ListAt(GroupAll(ms, key), k) == Filter(ms, WithKey(key, k))
                       && (JsMap.Has(GroupAll(ms, key), k) <==> Filter(ms, WithKey(key, k)) != [])
      {
        FilterLast(ms, WithKey(key, k));
        assert JsMap.Lookup(GroupAll(ms, key), k)
            == if k == key(last) then Some(ListAt(g, key(last)) + [last]) else JsMap.Lookup(g, k);
        assert JsMap.Has(GroupAll(ms, key), k) <==> JsMap.Lookup(GroupAll(ms, key), k).Some?;
        assert JsMap.Has(g, k) <==> JsMap.Lookup(g, k).Some?;
      }
    }
  }

  lemma GroupEntry<K(!new), V(!new)>(ms: seq<V>, key: V -> K, i: nat)
    requires i < |GroupAll(ms, key)|
    ensures var e := GroupAll(ms, key)[i]; e.value == Filter(ms, WithKey(key, e.key)) && e.value != []
  {
    GroupIsFilter(ms, key);
    var g := GroupAll(ms, key);
    JsMap.LookupAt(g, i);
    assert JsMap.Has(g, g[i].key);
    assert ListAt(g, g[i].key) == g[i].value;
  }

  function OtherEntry<K(==), V>(a: JsMap.Entry<K, seq<V>>, b: JsMap.Entry<K, seq<V>>): bool { a.key != b.key }

  /** Sorting the groups keeps them: every entry is the filter of its key, keys are distinct. */
  lemma SortedGroups<K(!new), V(!new)>(ms: seq<V>, key: V -> K,
                              leq: (JsMap.Entry<K, seq<V>>, JsMap.Entry<K, seq<V>>) -> bool)
    requires TotalPreorder(leq)
    ensures var es := Sort(GroupAll(ms, key), leq);
      && Ascending(es, leq) && JsMap.UniqueKeys(es)
      && (forall i :: 0 <= i < |es| ==> es[i].value == Filter(ms, WithKey(key, es[i].key)) && es[i].value != [])
      && (forall m :: m in ms ==> JsMap.Has(es, key(m)))
  {
    var g := GroupAll(ms, key);
    var es := Sort(g, leq);
    GroupIsFilter(ms, key);
    SortIsSorting(g, leq);
    hide Filter, Sort, GroupAll, ListAt;
    forall i, j | 0 <= i < j < |g| ensures OtherEntry(g[i], g[j]) {}
    SortPairwise(g, leq, OtherEntry);
    forall i, j | 0 <= i < j < |es| ensures es[i].key != es[j].key { assert OtherEntry(es[i], es[j]); }
    forall i | 0 <= i < |es| ensures es[i].value == Filter(ms, WithKey(key, es[i].key)) && es[i].value != [] {
      assert es[i] in g;
      var k :| 0 <= k < |g| && g[k] == es[i];
      GroupEntry(ms, key, k);
    }
    forall m | m in ms ensures JsMap.Has(es, key(m)) {
      HasGroup(ms, key, m);
      var k :| 0 <= k < |g| && g[k].key == key(m);
      assert g[k] in es;
    }
  }

  lemma HasGroup<K(!new), V(!new)>(ms: seq<V>, key: V -> K, m: V)
    requires m in ms
    ensures JsMap.Has(GroupAll(ms, key), key(m))
  {
    GroupIsFilter(ms, key);
    assert m in Filter(ms, WithKey(key, key(m)));
  }
}
