/** A JavaScript `Map` as the sequence of its entries in insertion order. Setting a key that is
    already present replaces the value and keeps the position. */
module JsMap {
  import opened Options

  datatype Entry<K, V> = Entry(key: K, value: V)
  type JsMap<K, V> = seq<Entry<K, V>>

  predicate Has<K(==), V>(m: JsMap<K, V>, k: K) {
    exists i :: 0 <= i < |m| && m[i].key == k
  }

  function Lookup<K(==), V>(m: JsMap<K, V>, k: K): (r: Option<V>)
    ensures r.Some? <==> Has(m, k)
  {
    if m == [] then None
    else if m[0].key == k then Some(m[0].value)
    else
      assert Has(m, k) ==> Has(m[1..], k);
      assert Has(m[1..], k) ==> Has(m, k) by { if Has(m[1..], k) { var i :| 0 <= i < |m[1..]| && m[1..][i].key == k; assert m[i + 1].key == k; } }
      Lookup(m[1..], k)
  }

  function Set<K(==), V>(m: JsMap<K, V>, k: K, v: V): JsMap<K, V> {
    if m == [] then [Entry(k, v)]
    else if m[0].key == k then [Entry(k, v)] + m[1..]
    else [m[0]] + Set(m[1..], k, v)
  }

  ghost predicate UniqueKeys<K, V>(m: JsMap<K, V>) {
    forall i, j :: 0 <= i < j < |m| ==> m[i].key != m[j].key
  }

  function Keys<K, V>(m: JsMap<K, V>): seq<K> {
    seq(|m|, i requires 0 <= i < |m| => m[i].key)
  }

  function Values<K, V>(m: JsMap<K, V>): seq<V> {
    seq(|m|, i requires 0 <= i < |m| => m[i].value)
  }

  lemma {:induction false} SetFresh<K, V>(m: JsMap<K, V>, k: K, v: V)
    requires !Has(m, k)
    ensures Set(m, k, v) == m + [Entry(k, v)]
  {
    if m != [] {
      assert m[0].key != k;
      forall i | 0 <= i < |m[1..]| ensures m[1..][i].key != k { assert m[i + 1].key != k; }
      SetFresh(m[1..], k, v);
      assert m == [m[0]] + m[1..];
    }
  }

  /** Replacing an existing key changes one value in place. */
  lemma {:induction false} SetAt<K, V>(m: JsMap<K, V>, k: K, v: V, i: nat)
    requires UniqueKeys(m) && i < |m| && m[i].key == k
    ensures Set(m, k, v) == m[i := Entry(k, v)]
  {
    if i > 0 {
      assert m[0].key != k;
      SetAt(m[1..], k, v, i - 1);
      assert m == [m[0]] + m[1..];
    }
  }

  lemma {:induction false} LookupAt<K, V>(m: JsMap<K, V>, i: nat)
    requires UniqueKeys(m) && i < |m|
    ensures Lookup(m, m[i].key) == Some(m[i].value)
  {
    if i > 0 {
      assert m[0].key != m[i].key;
      LookupAt(m[1..], i - 1);
    }
  }

  lemma LookupIndex<K, V>(m: JsMap<K, V>, k: K) returns (i: nat)
    requires UniqueKeys(m) && Has(m, k)
    ensures i < |m| && m[i].key == k && Lookup(m, k) == Some(m[i].value)
  {
    i :| i < |m| && m[i].key == k;
    LookupAt(m, i);
  }

  /** `set` keeps keys unique and changes the lookup of that key only. */
  lemma SetLookup<K, V>(m: JsMap<K, V>, k: K, v: V)
    requires UniqueKeys(m)
    ensures UniqueKeys(Set(m, k, v))
    ensures forall j :: Lookup(Set(m, k, v), j) == if j == k then Some(v) else Lookup(m, j)
  {
    var s := Set(m, k, v);
    var p: nat := |m|;
    if Has(m, k) {
      p := LookupIndex(m, k);
      SetAt(m, k, v, p);
    } else {
      SetFresh(m, k, v);
    }
    assert s[p] == Entry(k, v) && forall i :: 0 <= i < |m| && i != p ==> s[i] == m[i] && s[i].key != k;
    forall j ensures Lookup(s, j) == if j == k then Some(v) else Lookup(m, j) {
      if j == k {
        LookupAt(s, p);
      } else if Has(m, j) {
        var i := LookupIndex(m, j);
        LookupAt(s, i);
      } else {
        assert !Has(s, j);
      }
    }
  }

  /** `set` and `get`, whatever the entries. */
  lemma {:induction false} SetFound<K, V>(m: JsMap<K, V>, k: K, v: V, j: K)
    ensures Lookup(Set(m, k, v), j) == if j == k then Some(v) else Lookup(m, j)
  {
    if m != [] && m[0].key != k {
      SetFound(m[1..], k, v, j);
      assert Set(m, k, v)[1..] == Set(m[1..], k, v);
    }
  }

  function Remove<K(==), V>(m: JsMap<K, V>, k: K): JsMap<K, V> {
    if m == [] then [] else if m[0].key == k then Remove(m[1..], k) else [m[0]] + Remove(m[1..], k)
  }

  lemma {:induction false} RemoveAbsent<K, V>(m: JsMap<K, V>, k: K)
    requires !Has(m, k)
    ensures Remove(m, k) == m
  {
    if m != [] {
      assert m[0].key != k;
      forall i | 0 <= i < |m[1..]| ensures m[1..][i].key != k { assert m[i + 1].key != k; }
      RemoveAbsent(m[1..], k);
      assert m == [m[0]] + m[1..];
    }
  }

  lemma {:induction false} RemoveIn<K, V>(m: JsMap<K, V>, k: K, e: Entry<K, V>)
    ensures e in Remove(m, k) <==> e in m && e.key != k
  {
    if m != [] {
      RemoveIn(m[1..], k, e);
      assert m == [m[0]] + m[1..];
    }
  }

  lemma {:induction false} RemoveLookup<K, V>(m: JsMap<K, V>, k: K)
    requires UniqueKeys(m)
    ensures UniqueKeys(Remove(m, k))
    ensures forall e: Entry<K, V> :: e in Remove(m, k) <==> e in m && e.key != k
    ensures forall j :: Lookup(Remove(m, k), j) == if j == k then None else Lookup(m, j)
  {
    forall e: Entry<K, V> ensures e in Remove(m, k) <==> e in m && e.key != k { RemoveIn(m, k, e); }
    if m != [] {
      var r := Remove(m[1..], k);
      RemoveLookup(m[1..], k);
      forall i | 0 <= i < |r| ensures r[i].key != m[0].key {
        RemoveIn(m[1..], k, r[i]);
        var p :| 0 <= p < |m[1..]| && m[1..][p] == r[i];
        assert m[p + 1].key != m[0].key;
      }
      if m[0].key == k {
        assert !Has(m[1..], k) by {
          forall i | 0 <= i < |m[1..]| ensures m[1..][i].key != k { assert m[i + 1].key != m[0].key; }
        }
      }
    }
  }
}
