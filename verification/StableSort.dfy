/** JavaScript's `Array.prototype.sort` with a consistent comparator: a stable sort.
    A comparator is given by `leq(a, b)`, meaning `compare(a, b) <= 0`. */
module StableSort {

  ghost predicate TotalPreorder<T(!new)>(leq: (T, T) -> bool) {
    && (forall a, b :: leq(a, b) || leq(b, a))
    && (forall a, b, c :: leq(a, b) && leq(b, c) ==> leq(a, c))
  }

  ghost predicate Ascending<T>(s: seq<T>, leq: (T, T) -> bool) {
    forall i, j :: 0 <= i < j < |s| ==> leq(s[i], s[j])
  }

  ghost predicate NoDuplicates<T>(s: seq<T>) {
    forall i, j :: 0 <= i < j < |s| ==> s[i] != s[j]
  }

  function Filter<T(!new)>(s: seq<T>, p: T -> bool): (r: seq<T>)
    ensures |r| <= |s|
    ensures forall x :: x in r <==> x in s && p(x)
  {
    if s == [] then []
    else if p(s[0]) then [s[0]] + Filter(s[1..], p)
    else Filter(s[1..], p)
  }

  function Insert<T>(x: T, s: seq<T>, leq: (T, T) -> bool): seq<T> {
    if s == [] || leq(x, s[0]) then [x] + s else [s[0]] + Insert(x, s[1..], leq)
  }

  function Sort<T>(s: seq<T>, leq: (T, T) -> bool): seq<T> {
    if s == [] then [] else Insert(s[0], Sort(s[1..], leq), leq)
  }

  function Tied<T>(x: T, leq: (T, T) -> bool): T -> bool {
    y => leq(x, y) && leq(y, x)
  }

  /** The elements of `s` that the comparator does not tell apart from `x`, in order. */
  function Ties<T(!new)>(s: seq<T>, x: T, leq: (T, T) -> bool): seq<T> {
    Filter(s, Tied(x, leq))
  }

  lemma {:induction false} InsertMultiset<T>(x: T, s: seq<T>, leq: (T, T) -> bool)
    ensures multiset(Insert(x, s, leq)) == multiset(s) + multiset{x}
  {
    if s == [] || leq(x, s[0]) {
    } else {
      InsertMultiset(x, s[1..], leq);
      assert s == [s[0]] + s[1..];
    }
  }

  lemma {:induction false} InsertAscending<T(!new)>(x: T, s: seq<T>, leq: (T, T) -> bool)
    requires TotalPreorder(leq) && Ascending(s, leq)
    ensures Ascending(Insert(x, s, leq), leq)
  {
    if s == [] || leq(x, s[0]) {
    } else {
      InsertAscending(x, s[1..], leq);
      var r := Insert(x, s[1..], leq);
      InsertMultiset(x, s[1..], leq);
      forall k | 0 <= k < |r| ensures leq(s[0], r[k]) {
        assert r[k] in multiset(r);
        assert r[k] == x || r[k] in s[1..];
      }
    }
  }

  lemma {:induction false} SortIsSorting<T(!new)>(s: seq<T>, leq: (T, T) -> bool)
    requires TotalPreorder(leq)
    ensures Ascending(Sort(s, leq), leq)
    ensures multiset(Sort(s, leq)) == multiset(s)
    ensures |Sort(s, leq)| == |s|
    ensures forall x :: x in Sort(s, leq) <==> x in s
  {
    if s == [] {
    } else {
      SortIsSorting(s[1..], leq);
      InsertAscending(s[0], Sort(s[1..], leq), leq);
      InsertMultiset(s[0], Sort(s[1..], leq), leq);
      assert s == [s[0]] + s[1..];
    }
    var r := Sort(s, leq);
    assert |r| == |multiset(r)| == |s|;
    forall x ensures x in r <==> x in s { assert x in multiset(r) <==> x in multiset(s); }
  }

  lemma {:induction false} FilterAscending<T(!new)>(s: seq<T>, leq: (T, T) -> bool, p: T -> bool)
    requires Ascending(s, leq)
    ensures Ascending(Filter(s, p), leq)
  {
    if s != [] {
      FilterAscending(s[1..], leq, p);
      var r := Filter(s[1..], p);
      forall k | 0 <= k < |r| ensures leq(s[0], r[k]) { assert r[k] in s[1..]; }
    }
  }

  lemma AscendingCons<T(!new)>(x: T, r: seq<T>, leq: (T, T) -> bool)
    ensures Ascending([x] + r, leq) <==> Ascending(r, leq) && forall y :: y in r ==> leq(x, y)
  {
    var f := [x] + r;
    assert forall i :: 0 <= i < |r| ==> f[i + 1] == r[i];
    if Ascending(f, leq) {
      forall y | y in r ensures leq(x, y) { var k :| 0 <= k < |r| && r[k] == y; assert leq(f[0], f[k + 1]); }
      forall i, j | 0 <= i < j < |r| ensures leq(r[i], r[j]) { assert leq(f[i + 1], f[j + 1]); }
    }
  }

  /** The elements that pass are in order. */
  ghost predicate AscendingWhere<T>(s: seq<T>, leq: (T, T) -> bool, p: T -> bool) {
    forall i, j :: 0 <= i < j < |s| && p(s[i]) && p(s[j]) ==> leq(s[i], s[j])
  }

  lemma AscendingWhereCons<T(!new)>(s: seq<T>, leq: (T, T) -> bool, p: T -> bool)
    requires s != []
    ensures AscendingWhere(s, leq, p) <==>
      AscendingWhere(s[1..], leq, p) && (p(s[0]) ==> forall y :: y in s[1..] && p(y) ==> leq(s[0], y))
  {
    assert forall i :: 0 <= i < |s[1..]| ==> s[1..][i] == s[i + 1];
    if AscendingWhere(s, leq, p) && p(s[0]) {
      forall y | y in s[1..] && p(y) ensures leq(s[0], y) { var k :| 0 <= k < |s[1..]| && s[1..][k] == y; assert s[k + 1] == y; }
    }
    if AscendingWhere(s, leq, p) {
      forall i, j | 0 <= i < j < |s[1..]| && p(s[1..][i]) && p(s[1..][j]) ensures leq(s[1..][i], s[1..][j]) {
        assert leq(s[i + 1], s[j + 1]);
      }
    }
  }

  /** A filtered list is in order exactly when the elements that pass are. */
  lemma {:induction false} FilterAscendingIff<T(!new)>(s: seq<T>, leq: (T, T) -> bool, p: T -> bool)
    ensures Ascending(Filter(s, p), leq) <==> AscendingWhere(s, leq, p)
  {
    hide Ascending, AscendingWhere;
    if s == [] {
      NothingAscends(s, leq, p);
    } else {
      FilterAscendingIff(s[1..], leq, p);
      AscendingCons(s[0], Filter(s[1..], p), leq);
      AscendingWhereCons(s, leq, p);
    }
  }

  lemma NothingAscends<T>(s: seq<T>, leq: (T, T) -> bool, p: T -> bool)
    requires s == []
    ensures Ascending(s, leq) && AscendingWhere(s, leq, p)
  {
  }

  lemma {:induction false} FilterInsert<T(!new)>(x: T, s: seq<T>, leq: (T, T) -> bool, p: T -> bool)
    requires TotalPreorder(leq) && Ascending(s, leq)
    ensures Filter(Insert(x, s, leq), p) == if p(x) then Insert(x, Filter(s, p), leq) else Filter(s, p)
  {
    if s == [] {
    } else if leq(x, s[0]) {
      assert ([x] + s)[1..] == s;
      var f := Filter(s, p);
      if f != [] {
        assert f[0] in s;
        assert leq(x, f[0]);
      }
    } else {
      FilterInsert(x, s[1..], leq, p);
      assert ([s[0]] + Insert(x, s[1..], leq))[1..] == Insert(x, s[1..], leq);
    }
  }

  /** Stability: sorting commutes with filtering, as sequences. */
  lemma {:induction false} FilterSort<T(!new)>(s: seq<T>, leq: (T, T) -> bool, p: T -> bool)
    requires TotalPreorder(leq)
    ensures Filter(Sort(s, leq), p) == Sort(Filter(s, p), leq)
  {
    if s != [] {
      FilterSort(s[1..], leq, p);
      SortIsSorting(s[1..], leq);
      FilterInsert(s[0], Sort(s[1..], leq), leq, p);
      assert p(s[0]) ==> ([s[0]] + Filter(s[1..], p))[1..] == Filter(s[1..], p);
    }
  }

  /** An ascending sequence is determined by its groups of tied elements. */
  lemma {:induction false} AscendingDetermined<T(!new)>(a: seq<T>, b: seq<T>, leq: (T, T) -> bool)
    requires TotalPreorder(leq) && Ascending(a, leq) && Ascending(b, leq)
    requires forall x :: Ties(a, x, leq) == Ties(b, x, leq)
    ensures a == b
  {
    forall x | x in b ensures x in a { assert x in Ties(b, x, leq); }
    assert |b| > 0 ==> b[0] in a;
    if a == [] {
    } else {
      assert a[0] in Ties(a, a[0], leq);
      assert a[0] in Ties(b, a[0], leq);
      assert b[0] in Ties(b, b[0], leq);
      assert b[0] in Ties(a, b[0], leq);
      assert leq(a[0], b[0]) && leq(b[0], a[0]);
      assert Ties(a, a[0], leq)[0] == a[0];
      assert Ties(b, a[0], leq)[0] == b[0];
      forall x ensures Ties(a[1..], x, leq) == Ties(b[1..], x, leq) {
        assert Ties(a, x, leq) == Ties(b, x, leq);
        var p := Tied(x, leq);
        assert p(a[0]) == p(b[0]);
        assert Filter(a, p) == (if p(a[0]) then [a[0]] else []) + Filter(a[1..], p);
        assert Filter(b, p) == (if p(b[0]) then [b[0]] else []) + Filter(b[1..], p);
        if p(a[0]) {
          assert Filter(a[1..], p) == Filter(a, p)[1..];
          assert Filter(b[1..], p) == Filter(b, p)[1..];
        }
      }
      AscendingDetermined(a[1..], b[1..], leq);
      assert a == [a[0]] + a[1..] && b == [b[0]] + b[1..];
    }
  }

  /** Two sequences whose tied groups agree have the same stable sort. */
  lemma SortDetermined<T(!new)>(a: seq<T>, b: seq<T>, leq: (T, T) -> bool)
    requires TotalPreorder(leq)
    requires forall x :: Ties(a, x, leq) == Ties(b, x, leq)
    ensures Sort(a, leq) == Sort(b, leq)
  {
    SortIsSorting(a, leq);
    SortIsSorting(b, leq);
    forall x ensures Ties(Sort(a, leq), x, leq) == Ties(Sort(b, leq), x, leq) {
      FilterSort(a, leq, Tied(x, leq));
      FilterSort(b, leq, Tied(x, leq));
      assert Ties(a, x, leq) == Ties(b, x, leq);
    }
    AscendingDetermined(Sort(a, leq), Sort(b, leq), leq);
  }

  ghost predicate Separates<T>(leq: (T, T) -> bool, s: seq<T>) {
    forall x, y :: x in s && y in s && leq(x, y) && leq(y, x) ==> x == y
  }

  lemma {:induction false} TiesOfDistinct<T(!new)>(s: seq<T>, x: T, leq: (T, T) -> bool)
    requires TotalPreorder(leq) && NoDuplicates(s) && Separates(leq, s)
    ensures |Ties(s, x, leq)| <= 1
  {
    if s != [] {
      TiesOfDistinct(s[1..], x, leq);
      var t := Ties(s[1..], x, leq);
      assert Ties(s, x, leq) == (if Tied(x, leq)(s[0]) then [s[0]] else []) + t;
      forall y | y in t ensures !(leq(x, s[0]) && leq(s[0], x)) {
        assert y in s[1..] && y in s && s[0] in s;
        assert y != s[0];
      }
      assert t != [] ==> t[0] in t;
    }
  }

  /** Ascending sequences without ties are equal when they have the same elements. */
  lemma AscendingDistinct<T(!new)>(a: seq<T>, b: seq<T>, leq: (T, T) -> bool)
    requires TotalPreorder(leq) && Ascending(a, leq) && Ascending(b, leq)
    requires NoDuplicates(a) && NoDuplicates(b) && Separates(leq, a)
    requires forall x :: x in a <==> x in b
    ensures a == b
  {
    TiesAgree(a, b, leq);
    AscendingDetermined(a, b, leq);
  }

  lemma TiesAgree<T(!new)>(a: seq<T>, b: seq<T>, leq: (T, T) -> bool)
    requires TotalPreorder(leq) && NoDuplicates(a) && NoDuplicates(b) && Separates(leq, a)
    requires forall x :: x in a <==> x in b
    ensures forall x :: Ties(a, x, leq) == Ties(b, x, leq)
  {
    assert Separates(leq, b);
    forall x ensures Ties(a, x, leq) == Ties(b, x, leq) {
      TiesOfDistinct(a, x, leq);
      TiesOfDistinct(b, x, leq);
      if Ties(a, x, leq) != [] { assert Ties(a, x, leq)[0] in Ties(b, x, leq); }
      if Ties(b, x, leq) != [] { assert Ties(b, x, leq)[0] in Ties(a, x, leq); }
    }
  }

  /** When no two elements tie, the sorted sequence depends on the set of elements only. */
  lemma SortDistinct<T(!new)>(a: seq<T>, b: seq<T>, leq: (T, T) -> bool)
    requires TotalPreorder(leq) && NoDuplicates(a) && NoDuplicates(b) && Separates(leq, a)
    requires forall x :: x in a <==> x in b
    ensures Sort(a, leq) == Sort(b, leq)
  {
    TiesAgree(a, b, leq);
    SortDetermined(a, b, leq);
  }

  lemma {:induction false} InsertPairwise<T(!new)>(x: T, s: seq<T>, leq: (T, T) -> bool, rel: (T, T) -> bool)
    requires Ascending(s, rel) && forall a, b :: rel(a, b) ==> rel(b, a)
    requires forall y :: y in s ==> rel(x, y)
    ensures Ascending(Insert(x, s, leq), rel)
  {
    if s == [] || leq(x, s[0]) {
    } else {
      InsertPairwise(x, s[1..], leq, rel);
      var r := Insert(x, s[1..], leq);
      InsertMultiset(x, s[1..], leq);
      forall k | 0 <= k < |r| ensures rel(s[0], r[k]) {
        assert r[k] in multiset(r);
        assert r[k] == x || r[k] in s[1..];
      }
    }
  }

  /** A symmetric relation between all elements survives sorting. */
  lemma {:induction false} SortPairwise<T(!new)>(s: seq<T>, leq: (T, T) -> bool, rel: (T, T) -> bool)
    requires TotalPreorder(leq) && Ascending(s, rel) && forall a, b :: rel(a, b) ==> rel(b, a)
    ensures Ascending(Sort(s, leq), rel)
  {
    if s != [] {
      SortPairwise(s[1..], leq, rel);
      SortIsSorting(s[1..], leq);
      InsertPairwise(s[0], Sort(s[1..], leq), leq, rel);
    }
  }

  lemma {:induction false} FilterPair<T(!new)>(s: seq<T>, p: T -> bool, i: nat, j: nat)
    requires i < j < |s| && forall k :: 0 <= k < |s| ==> (p(s[k]) <==> k == i || k == j)
    ensures Filter(s, p) == [s[i], s[j]]
  {
    if i > 0 {
      FilterPair(s[1..], p, i - 1, j - 1);
    } else {
      FilterSingle(s[1..], p, j - 1);
    }
  }

  lemma {:induction false} FilterSingle<T(!new)>(s: seq<T>, p: T -> bool, j: nat)
    requires j < |s| && forall k :: 0 <= k < |s| ==> (p(s[k]) <==> k == j)
    ensures Filter(s, p) == [s[j]]
  {
    if j > 0 {
      FilterSingle(s[1..], p, j - 1);
    } else {
      FilterNone(s[1..], p);
    }
  }

  lemma FilterNone<T(!new)>(s: seq<T>, p: T -> bool)
    requires forall x :: x in s ==> !p(x)
    ensures Filter(s, p) == []
  {
  }

  lemma {:induction false} FilterFilter<T(!new)>(s: seq<T>, q: T -> bool, p: T -> bool)
    requires forall x :: p(x) ==> q(x)
    ensures Filter(Filter(s, q), p) == Filter(s, p)
  {
    if s != [] {
      FilterFilter(s[1..], q, p);
      assert q(s[0]) ==> Filter(s, q)[1..] == Filter(s[1..], q);
    }
  }

  lemma {:induction false} FilterAgrees<T(!new)>(s: seq<T>, p: T -> bool, q: T -> bool)
    requires forall x :: x in s ==> p(x) == q(x)
    ensures Filter(s, p) == Filter(s, q)
  {
    if s != [] { FilterAgrees(s[1..], p, q); }
  }

  lemma {:induction false} FilterAll<T(!new)>(s: seq<T>, p: T -> bool)
    requires forall x :: x in s ==> p(x)
    ensures Filter(s, p) == s
  {
    if s != [] {
      FilterAll(s[1..], p);
      assert s == [s[0]] + s[1..];
    }
  }

  lemma FilterCons<T(!new)>(s: seq<T>, p: T -> bool)
    ensures s == [] ==> Filter(s, p) == []
    ensures s != [] ==> Filter(s, p) == (if p(s[0]) then [s[0]] else []) + Filter(s[1..], p)
  {
  }

  lemma {:induction false} FilterConcat<T(!new)>(a: seq<T>, b: seq<T>, p: T -> bool)
    ensures Filter(a + b, p) == Filter(a, p) + Filter(b, p)
  {
    hide Filter;
    FilterCons(a, p);
    if a == [] {
      assert a + b == b;
    } else {
      FilterConcat(a[1..], b, p);
      FilterCons(a + b, p);
      assert (a + b)[0] == a[0] && (a + b)[1..] == a[1..] + b;
    }
  }

  /** One filter after the other takes what satisfies both. */
  lemma {:induction false} FilterTwice<T(!new)>(s: seq<T>, p: T -> bool, q: T -> bool, both: T -> bool)
    requires forall x :: both(x) <==> p(x) && q(x)
    ensures Filter(Filter(s, p), q) == Filter(s, both)
  {
    hide Filter;
    FilterCons(s, p);
    FilterCons(s, both);
    if s == [] {
      FilterCons(s, q);
    } else {
      FilterTwice(s[1..], p, q, both);
      var f := Filter(s[1..], p);
      FilterCons([s[0]] + f, q);
      assert ([s[0]] + f)[1..] == f;
      assert Filter(s, p) == if p(s[0]) then [s[0]] + f else f;
    }
  }

  /** How many elements before position `i` pass. */
  function CountBefore<T>(s: seq<T>, p: T -> bool, i: nat): nat
    requires i <= |s|
  {
    if i == 0 then 0 else CountBefore(s, p, i - 1) + if p(s[i - 1]) then 1 else 0
  }

  lemma {:induction false} FilterCount<T(!new)>(s: seq<T>, p: T -> bool, i: nat)
    requires i <= |s|
    ensures |Filter(s[..i], p)| == CountBefore(s, p, i)
  {
    hide Filter;
    if i > 0 {
      FilterCount(s, p, i - 1);
      FilterLast(s[..i], p);
      assert s[..i][..i - 1] == s[..i - 1];
    } else {
      FilterCons(s[..0], p);
    }
  }

  /** Where an element that passes stands in the filtered list. */
  lemma FilterPosition<T(!new)>(s: seq<T>, p: T -> bool, i: nat)
    requires i < |s| && p(s[i])
    ensures CountBefore(s, p, i) < |Filter(s, p)| && Filter(s, p)[CountBefore(s, p, i)] == s[i]
  {
    hide Filter;
    FilterCount(s, p, i);
    FilterConcat(s[..i], s[i..], p);
    FilterCons(s[i..], p);
    assert s == s[..i] + s[i..];
  }

  /** Every position of the filtered list comes from one of the list. */
  lemma {:induction false} FilterOrigin<T(!new)>(s: seq<T>, p: T -> bool, k: nat) returns (i: nat)
    requires k < |Filter(s, p)|
    ensures i < |s| && p(s[i]) && s[i] == Filter(s, p)[k] && CountBefore(s, p, i) == k
  {
    hide Filter;
    FilterLastOrNone(s, p);
    var init := s[..|s| - 1];
    FilterCount(s, p, |s| - 1);
    if k < |Filter(init, p)| {
      i := FilterOrigin(init, p, k);
      CountPrefix(s, init, p, i);
    } else {
      i := |s| - 1;
    }
  }

  lemma FilterLastOrNone<T(!new)>(s: seq<T>, p: T -> bool)
    ensures s == [] ==> Filter(s, p) == []
    ensures s != [] ==> Filter(s, p) == Filter(s[..|s| - 1], p) + if p(s[|s| - 1]) then [s[|s| - 1]] else []
  {
    if s != [] { FilterLast(s, p); }
  }

  lemma {:induction false} CountPrefix<T>(s: seq<T>, t: seq<T>, p: T -> bool, i: nat)
    requires t <= s && i <= |t|
    ensures CountBefore(s, p, i) == CountBefore(t, p, i)
  {
    if i > 0 { CountPrefix(s, t, p, i - 1); }
  }

  lemma FilterUnit<T(!new)>(x: T, p: T -> bool)
    ensures Filter([x], p) == if p(x) then [x] else []
  {
  }

  lemma FilterLast<T(!new)>(s: seq<T>, p: T -> bool)
    requires s != []
    ensures Filter(s, p) == Filter(s[..|s| - 1], p) + if p(s[|s| - 1]) then [s[|s| - 1]] else []
  {
    hide Filter;
    var init, last := s[..|s| - 1], s[|s| - 1];
    FilterConcat(init, [last], p);
    FilterUnit(last, p);
    assert s == init + [last];
  }

  /** A finer order sorts alike when the elements that only it tells apart are listed in its order. */
  lemma {:induction false} SortRefined<T(!new)>(s: seq<T>, leq: (T, T) -> bool, finer: (T, T) -> bool)
    requires TotalPreorder(leq) && TotalPreorder(finer) && forall a, b :: finer(a, b) ==> leq(a, b)
    requires forall i, j :: 0 <= i < j < |s| && leq(s[i], s[j]) && leq(s[j], s[i]) ==> finer(s[i], s[j])
    ensures Sort(s, leq) == Sort(s, finer)
  {
    if s != [] {
      SortRefined(s[1..], leq, finer);
      SortIsSorting(s[1..], leq);
      var r := Sort(s[1..], leq);
      forall y | y in r ensures leq(s[0], y) == finer(s[0], y) {
        var j :| 0 <= j < |s[1..]| && s[1..][j] == y;
        assert s[j + 1] == y;
      }
      InsertAgrees(s[0], r, leq, finer);
    }
  }

  lemma {:induction false} InsertAgrees<T(!new)>(x: T, s: seq<T>, leq: (T, T) -> bool, other: (T, T) -> bool)
    requires forall y :: y in s ==> leq(x, y) == other(x, y)
    ensures Insert(x, s, leq) == Insert(x, s, other)
  {
    if s != [] && !leq(x, s[0]) { InsertAgrees(x, s[1..], leq, other); }
  }

  /** Sorting what is in order changes nothing. */
  lemma {:induction false} SortAscending<T(!new)>(s: seq<T>, leq: (T, T) -> bool)
    requires Ascending(s, leq)
    ensures Sort(s, leq) == s
  {
    if s != [] { SortAscending(s[1..], leq); }
  }
}
