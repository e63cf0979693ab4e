/** Loops of the shape "for each element: if the Map has its key, join, else set; then sort the
    values". The Map is the list of its values, whose keys are distinct. */
module KeyedMerge {
  import opened StableSort

  /** How elements are keyed, entered for the first time, and joined with the value already there. */
  datatype Rule<!X, !K> = Rule(key: X -> K, first: X -> X, join: (X, X) -> X)

  ghost predicate Lawful<X(!new), K>(r: Rule<X, K>) {
    && (forall x :: r.key(r.first(x)) == r.key(x) && r.first(r.first(x)) == r.first(x))
    && (forall x, y :: r.key(x) == r.key(y) ==> r.key(r.join(x, y)) == r.key(x))
    && (forall x, y :: r.key(x) == r.key(y) && r.first(x) == x ==> r.first(r.join(x, y)) == r.join(x, y))
  }

  ghost predicate Associative<X(!new), K>(r: Rule<X, K>) {
    && (forall x, y :: r.key(x) == r.key(y) && r.first(x) == x ==> r.join(x, r.first(y)) == r.join(x, y))
    && (forall x, y, z :: r.key(x) == r.key(y) == r.key(z) && r.first(x) == x && r.first(y) == y ==>
          r.join(x, r.join(y, z)) == r.join(r.join(x, y), z))
  }

  lemma LawFirst<X(!new), K>(r: Rule<X, K>, x: X)
    requires Lawful(r)
    ensures r.key(r.first(x)) == r.key(x) && r.first(r.first(x)) == r.first(x)
  {
  }

  lemma LawJoin<X(!new), K>(r: Rule<X, K>, x: X, y: X)
    requires Lawful(r) && r.key(x) == r.key(y)
    ensures r.key(r.join(x, y)) == r.key(x)
    ensures r.first(x) == x ==> r.first(r.join(x, y)) == r.join(x, y)
  {
  }

  lemma JoinFirst<X(!new), K>(r: Rule<X, K>, x: X, y: X)
    requires Associative(r) && r.key(x) == r.key(y) && r.first(x) == x
    ensures r.join(x, r.first(y)) == r.join(x, y)
  {
  }

  lemma JoinJoin<X(!new), K>(r: Rule<X, K>, x: X, y: X, z: X)
    requires Associative(r) && r.key(x) == r.key(y) == r.key(z) && r.first(x) == x && r.first(y) == y
    ensures r.join(x, r.join(y, z)) == r.join(r.join(x, y), z)
  {
  }

  function Add<X, K(==)>(m: seq<X>, x: X, r: Rule<X, K>): seq<X> {
    if m == [] then [r.first(x)]
    else if r.key(m[0]) == r.key(x) then [r.join(m[0], x)] + m[1..]
    else [m[0]] + Add(m[1..], x, r)
  }

  function AddAll<X, K(==)>(m: seq<X>, s: seq<X>, r: Rule<X, K>): seq<X> {
    if s == [] then m else Add(AddAll(m, s[..|s| - 1], r), s[|s| - 1], r)
  }

  function Merged<X, K(==)>(s: seq<X>, r: Rule<X, K>): seq<X> { AddAll([], s, r) }

  /** Distinct keys, and every element as it is after being entered. */
  ghost predicate Settled<X, K>(m: seq<X>, r: Rule<X, K>) {
    && (forall i, j :: 0 <= i < j < |m| ==> r.key(m[i]) != r.key(m[j]))
    && (forall i :: 0 <= i < |m| ==> r.first(m[i]) == m[i])
  }

  ghost predicate HasKey<X, K>(m: seq<X>, k: K, r: Rule<X, K>) {
    exists i :: 0 <= i < |m| && r.key(m[i]) == k
  }

  lemma {:induction false} AddFresh<X, K>(m: seq<X>, x: X, r: Rule<X, K>)
    requires !HasKey(m, r.key(x), r)
    ensures Add(m, x, r) == m + [r.first(x)]
  {
    if m != [] {
      assert r.key(m[0]) != r.key(x);
      forall i | 0 <= i < |m[1..]| ensures r.key(m[1..][i]) != r.key(x) { assert r.key(m[i + 1]) != r.key(x); }
      AddFresh(m[1..], x, r);
    }
  }

  lemma {:induction false} AddAt<X, K>(m: seq<X>, x: X, r: Rule<X, K>, i: nat)
    requires i < |m| && r.key(m[i]) == r.key(x) && forall j :: 0 <= j < i ==> r.key(m[j]) != r.key(x)
    ensures Add(m, x, r) == m[i := r.join(m[i], x)]
  {
    if i > 0 {
      assert r.key(m[0]) != r.key(x);
      AddAt(m[1..], x, r, i - 1);
    }
  }

  lemma AddSettled<X(!new), K>(m: seq<X>, x: X, r: Rule<X, K>)
    requires Lawful(r) && Settled(m, r)
    ensures Settled(Add(m, x, r), r)
    ensures forall k :: HasKey(Add(m, x, r), k, r) <==> HasKey(m, k, r) || k == r.key(x)
  {
    hide Lawful;
    LawFirst(r, x);
    var n := Add(m, x, r);
    if HasKey(m, r.key(x), r) {
      var i :| 0 <= i < |m| && r.key(m[i]) == r.key(x);
      AddAt(m, x, r, i);
      LawJoin(r, m[i], x);
      forall j | 0 <= j < |m| ensures r.key(n[j]) == r.key(m[j]) {}
    } else {
      AddFresh(m, x, r);
      forall j | 0 <= j < |m| ensures n[j] == m[j] {}
      assert n[|m|] == r.first(x);
    }
  }

  lemma {:induction false} AddAllSettled<X(!new), K>(m: seq<X>, s: seq<X>, r: Rule<X, K>)
    requires Lawful(r) && Settled(m, r)
    ensures Settled(AddAll(m, s, r), r)
    ensures forall k :: HasKey(AddAll(m, s, r), k, r) <==> HasKey(m, k, r) || HasKey(s, k, r)
  {
    hide Lawful, Settled;
    if s != [] {
      var init, last := s[..|s| - 1], s[|s| - 1];
      AddAllSettled(m, init, r);
      AddSettled(AddAll(m, init, r), last, r);
      forall k ensures HasKey(s, k, r) <==> HasKey(init, k, r) || k == r.key(last) {
        if HasKey(s, k, r) { var i :| 0 <= i < |s| && r.key(s[i]) == k; assert i < |init| ==> init[i] == s[i]; }
        if HasKey(init, k, r) { var i :| 0 <= i < |init| && r.key(init[i]) == k; assert init[i] == s[i]; }
      }
    }
  }

  lemma {:induction false} AddAllConcat<X, K>(m: seq<X>, a: seq<X>, b: seq<X>, r: Rule<X, K>)
    ensures AddAll(m, a + b, r) == AddAll(AddAll(m, a, r), b, r)
  {
    if b == [] {
      assert a + b == a;
    } else {
      assert (a + b)[..|a + b| - 1] == a + b[..|b| - 1];
      AddAllConcat(m, a, b[..|b| - 1], r);
    }
  }

  /** Merging what is already merged changes nothing. */
  lemma {:induction false} MergedFixed<X(!new), K>(m: seq<X>, r: Rule<X, K>)
    requires Settled(m, r)
    ensures Merged(m, r) == m
  {
    if m != [] {
      var init, last := m[..|m| - 1], m[|m| - 1];
      MergedFixed(init, r);
      AddFresh(init, last, r);
      assert m == init + [last];
    }
  }

  lemma MergedLeft<X(!new), K>(a: seq<X>, b: seq<X>, r: Rule<X, K>)
    requires Lawful(r)
    ensures Merged(Merged(a, r) + b, r) == Merged(a + b, r)
  {
    AddAllSettled([], a, r);
    MergedFixed(Merged(a, r), r);
    AddAllConcat([], Merged(a, r), b, r);
    AddAllConcat([], a, b, r);
  }

  // ---------------------------------------------------------------- merging on the right

  lemma AddTwice<X(!new), K>(m: seq<X>, x: X, y: X, r: Rule<X, K>)
    requires Lawful(r) && Associative(r) && Settled(m, r) && r.first(x) == x && r.key(x) == r.key(y)
    ensures Add(Add(m, x, r), y, r) == Add(m, r.join(x, y), r)
  {
    hide Lawful, Associative, Add;
    LawJoin(r, x, y);
    if HasKey(m, r.key(x), r) {
      var i :| 0 <= i < |m| && r.key(m[i]) == r.key(x);
      var e := m[i];
      LawJoin(r, e, x);
      JoinJoin(r, e, x, y);
      AddAt(m, x, r, i);
      AddAt(m[i := r.join(e, x)], y, r, i);
      AddAt(m, r.join(x, y), r, i);
    } else {
      AddFresh(m, x, r);
      AddAt(m + [x], y, r, |m|);
      AddFresh(m, r.join(x, y), r);
    }
  }

  lemma AddCommutes<X(!new), K>(m: seq<X>, x: X, y: X, r: Rule<X, K>)
    requires Lawful(r) && Settled(m, r) && HasKey(m, r.key(x), r) && r.key(x) != r.key(y)
    ensures Add(Add(m, y, r), x, r) == Add(Add(m, x, r), y, r)
  {
    hide Lawful, Add;
    var i :| 0 <= i < |m| && r.key(m[i]) == r.key(x);
    AddAt(m, x, r, i);
    LawJoin(r, m[i], x);
    var mx := m[i := r.join(m[i], x)];
    if HasKey(m, r.key(y), r) {
      var j :| 0 <= j < |m| && r.key(m[j]) == r.key(y);
      AddAt(m, y, r, j);
      LawJoin(r, m[j], y);
      AddAt(m[j := r.join(m[j], y)], x, r, i);
      AddAt(mx, y, r, j);
    } else {
      AddFresh(m, y, r);
      AddAt(m + [r.first(y)], x, r, i);
      AddFresh(mx, y, r);
    }
  }

  lemma {:induction false} AddThrough<X(!new), K>(m: seq<X>, rest: seq<X>, x: X, r: Rule<X, K>)
    requires Lawful(r) && Settled(m, r) && HasKey(m, r.key(x), r) && !HasKey(rest, r.key(x), r)
    ensures AddAll(Add(m, x, r), rest, r) == Add(AddAll(m, rest, r), x, r)
  {
    hide Lawful, Settled, Add;
    if rest != [] {
      var init, last := rest[..|rest| - 1], rest[|rest| - 1];
      assert r.key(last) != r.key(x);
      forall i | 0 <= i < |init| ensures r.key(init[i]) != r.key(x) { assert r.key(rest[i]) != r.key(x); }
      AddThrough(m, init, x, r);
      AddAllSettled(m, init, r);
      assert HasKey(AddAll(m, init, r), r.key(x), r);
      AddCommutes(AddAll(m, init, r), x, last, r);
    }
  }

  lemma AddAllCons<X, K>(m: seq<X>, x: X, rest: seq<X>, r: Rule<X, K>)
    ensures AddAll(m, [x] + rest, r) == AddAll(Add(m, x, r), rest, r)
  {
    AddAllConcat(m, [x], rest, r);
    assert [x][..0] == [] && AddAll(m, [], r) == m;
    assert AddAll(m, [x], r) == Add(AddAll(m, [x][..0], r), x, r);
  }

  lemma AddFirst<X(!new), K>(m: seq<X>, x: X, r: Rule<X, K>)
    requires Lawful(r) && Associative(r) && Settled(m, r)
    ensures Add(m, r.first(x), r) == Add(m, x, r)
  {
    hide Lawful, Associative, Add;
    LawFirst(r, x);
    if HasKey(m, r.key(x), r) {
      var i :| 0 <= i < |m| && r.key(m[i]) == r.key(x);
      JoinFirst(r, m[i], x);
      AddAt(m, x, r, i);
      AddAt(m, r.first(x), r, i);
    } else {
      AddFresh(m, x, r);
      AddFresh(m, r.first(x), r);
    }
  }

  lemma {:induction false} AddAllAdd<X(!new), K>(m: seq<X>, n: seq<X>, x: X, r: Rule<X, K>)
    requires Lawful(r) && Associative(r) && Settled(m, r) && Settled(n, r)
    ensures AddAll(m, Add(n, x, r), r) == Add(AddAll(m, n, r), x, r)
    decreases |n|
  {
    hide Lawful, Associative, AddAll;
    if n == [] {
      AddAllCons(m, r.first(x), [], r);
      assert [r.first(x)] + [] == [r.first(x)];
      AddAllNone(m, r);
      AddAllNone(Add(m, r.first(x), r), r);
      AddFirst(m, x, r);
    } else {
      var rest := n[1..];
      assert n == [n[0]] + rest;
      forall i | 0 <= i < |rest| ensures rest[i] == n[i + 1] && r.key(rest[i]) != r.key(n[0]) {}
      AddAllCons(m, n[0], rest, r);
      AddSettled(m, n[0], r);
      if r.key(n[0]) == r.key(x) {
        AddAllCons(m, r.join(n[0], x), rest, r);
        AddTwice(m, n[0], x, r);
        assert HasKey(Add(m, n[0], r), r.key(n[0]), r);
        AddThrough(Add(m, n[0], r), rest, x, r);
      } else {
        AddAllCons(m, n[0], Add(rest, x, r), r);
        AddAllAdd(Add(m, n[0], r), rest, x, r);
      }
    }
  }

  lemma AddAllNone<X, K>(m: seq<X>, r: Rule<X, K>)
    ensures AddAll(m, [], r) == m
  {
  }

  lemma {:induction false} MergedRight<X(!new), K>(a: seq<X>, b: seq<X>, r: Rule<X, K>)
    requires Lawful(r) && Associative(r)
    ensures Merged(a + Merged(b, r), r) == Merged(a + b, r)
  {
    hide Lawful, Associative;
    AddAllConcat([], a, Merged(b, r), r);
    AddAllConcat([], a, b, r);
    if b != [] {
      var init, last := b[..|b| - 1], b[|b| - 1];
      MergedRight(a, init, r);
      AddAllConcat([], a, Merged(init, r), r);
      AddAllConcat([], a, init, r);
      AddAllSettled([], a, r);
      AddAllSettled([], init, r);
      AddAllAdd(Merged(a, r), Merged(init, r), last, r);
    }
  }

  // ---------------------------------------------------------------- filtering by key

  function KeyIn<X, K>(q: K -> bool, r: Rule<X, K>): X -> bool { x => q(r.key(x)) }

  lemma {:induction false} AddFilter<X(!new), K>(m: seq<X>, x: X, r: Rule<X, K>, q: K -> bool)
    requires Lawful(r)
    ensures Filter(Add(m, x, r), KeyIn(q, r)) ==
      if q(r.key(x)) then Add(Filter(m, KeyIn(q, r)), x, r) else Filter(m, KeyIn(q, r))
  {
    hide Filter, Lawful;
    var p := KeyIn(q, r);
    var n := Add(m, x, r);
    FilterCons(m, p);
    FilterCons(n, p);
    LawFirst(r, x);
    if m == [] {
      FilterCons(n[1..], p);
    } else {
      var f := Filter(m[1..], p);
      assert ([m[0]] + f)[1..] == f;
      if r.key(m[0]) == r.key(x) {
        LawJoin(r, m[0], x);
        assert n[1..] == m[1..];
      } else {
        assert n[0] == m[0] && n[1..] == Add(m[1..], x, r);
        AddFilter(m[1..], x, r, q);
        assert p(m[0]) == q(r.key(m[0])) && p(x) == q(r.key(x));
        var g := Filter(Add(m[1..], x, r), p);
        assert Filter(n, p) == if p(m[0]) then [m[0]] + g else g;
        assert Filter(m, p) == if p(m[0]) then [m[0]] + f else f;
        assert Add([m[0]] + f, x, r) == [m[0]] + Add(f, x, r);
      }
    }
  }

  /** Merging commutes with selecting by key. */
  lemma {:induction false} MergedFilter<X(!new), K>(s: seq<X>, r: Rule<X, K>, q: K -> bool)
    requires Lawful(r)
    ensures Filter(Merged(s, r), KeyIn(q, r)) == Merged(Filter(s, KeyIn(q, r)), r)
  {
    hide Filter, Lawful, Add;
    var p := KeyIn(q, r);
    if s == [] {
      FilterCons(s, p);
    } else {
      var init, last := s[..|s| - 1], s[|s| - 1];
      MergedFilter(init, r, q);
      AddFilter(Merged(init, r), last, r, q);
      FilterLast(s, p);
      var f := Filter(init, p);
      assert (f + [last])[..|f|] == f && p(last) == q(r.key(last));
      assert AddAll([], f + [last], r) == Add(AddAll([], f, r), last, r);
      assert Filter(s, p) == if p(last) then f + [last] else f;
    }
  }

  // ---------------------------------------------------------------- merged and sorted

  function Normal<X, K(==)>(s: seq<X>, r: Rule<X, K>, leq: (X, X) -> bool): seq<X> { Sort(Merged(s, r), leq) }

  function InGroup<K, C(==)>(group: K -> C, c: C): K -> bool { k => group(k) == c }

  /** Elements that the comparator does not tell apart are in one group of keys. */
  ghost predicate TiesInGroup<X(!new), K, C>(r: Rule<X, K>, leq: (X, X) -> bool, group: K -> C) {
    forall x, y :: leq(x, y) && leq(y, x) ==> group(r.key(x)) == group(r.key(y))
  }

  /** Sorting does not rearrange the merged elements of one group. */
  ghost predicate GroupsInOrder<X(!new), K, C(!new)>(r: Rule<X, K>, leq: (X, X) -> bool, group: K -> C) {
    forall s: seq<X>, c :: Settled(s, r) && OneGroup(s, r, group, c) ==> Sort(s, leq) == s
  }

  ghost predicate OneGroup<X(!new), K, C>(s: seq<X>, r: Rule<X, K>, group: K -> C, c: C) {
    forall x :: x in s ==> group(r.key(x)) == c
  }

  ghost predicate Sorting<X(!new), K, C(!new)>(r: Rule<X, K>, leq: (X, X) -> bool, group: K -> C) {
    TotalPreorder(leq) && Lawful(r) && TiesInGroup(r, leq, group) && GroupsInOrder(r, leq, group)
  }

  lemma NormalGroup<X(!new), K, C(!new)>(s: seq<X>, r: Rule<X, K>, leq: (X, X) -> bool, group: K -> C, c: C)
    requires Sorting(r, leq, group)
    ensures Filter(Normal(s, r, leq), KeyIn(InGroup(group, c), r)) == Merged(Filter(s, KeyIn(InGroup(group, c), r)), r)
  {
    var p := KeyIn(InGroup(group, c), r);
    FilterSort(Merged(s, r), leq, p);
    MergedFilter(s, r, InGroup(group, c));
    AddAllSettled([], Filter(s, p), r);
    var g := Filter(Merged(s, r), p);
    assert OneGroup(g, r, group, c);
  }

  /** Two lists that agree on every group of keys have the same normal form. */
  lemma NormalDetermined<X(!new), K, C(!new)>(a: seq<X>, b: seq<X>, r: Rule<X, K>, leq: (X, X) -> bool, group: K -> C)
    requires Sorting(r, leq, group)
    requires forall c :: Merged(Filter(a, KeyIn(InGroup(group, c), r)), r) == Merged(Filter(b, KeyIn(InGroup(group, c), r)), r)
    ensures Normal(a, r, leq) == Normal(b, r, leq)
  {
    forall x ensures Ties(Merged(a, r), x, leq) == Ties(Merged(b, r), x, leq) {
      var q := InGroup(group, group(r.key(x)));
      MergedFilter(a, r, q);
      MergedFilter(b, r, q);
      assert Filter(Merged(a, r), KeyIn(q, r)) == Filter(Merged(b, r), KeyIn(q, r));
      FilterFilter(Merged(a, r), KeyIn(q, r), Tied(x, leq));
      FilterFilter(Merged(b, r), KeyIn(q, r), Tied(x, leq));
    }
    SortDetermined(Merged(a, r), Merged(b, r), leq);
  }

  /** Normalizing a prefix first changes nothing. */
  lemma NormalLeft<X(!new), K, C(!new)>(a: seq<X>, b: seq<X>, r: Rule<X, K>, leq: (X, X) -> bool, group: K -> C)
    requires Sorting(r, leq, group)
    ensures Normal(Normal(a, r, leq) + b, r, leq) == Normal(a + b, r, leq)
  {
    forall c ensures Merged(Filter(Normal(a, r, leq) + b, KeyIn(InGroup(group, c), r)), r) == Merged(Filter(a + b, KeyIn(InGroup(group, c), r)), r) {
      var p := KeyIn(InGroup(group, c), r);
      FilterConcat(Normal(a, r, leq), b, p);
      FilterConcat(a, b, p);
      NormalGroup(a, r, leq, group, c);
      MergedLeft(Filter(a, p), Filter(b, p), r);
    }
    NormalDetermined(Normal(a, r, leq) + b, a + b, r, leq, group);
  }

  /** Nor does normalizing a suffix, when joining is associative. */
  lemma NormalRight<X(!new), K, C(!new)>(a: seq<X>, b: seq<X>, r: Rule<X, K>, leq: (X, X) -> bool, group: K -> C)
    requires Sorting(r, leq, group) && Associative(r)
    ensures Normal(a + Normal(b, r, leq), r, leq) == Normal(a + b, r, leq)
  {
    forall c ensures Merged(Filter(a + Normal(b, r, leq), KeyIn(InGroup(group, c), r)), r) == Merged(Filter(a + b, KeyIn(InGroup(group, c), r)), r) {
      var p := KeyIn(InGroup(group, c), r);
      FilterConcat(a, Normal(b, r, leq), p);
      FilterConcat(a, b, p);
      NormalGroup(b, r, leq, group, c);
      MergedRight(Filter(a, p), Filter(b, p), r);
    }
    NormalDetermined(a + Normal(b, r, leq), a + b, r, leq, group);
  }

  /** Two elements of a group tie or there is only one: either way sorting keeps their order. */
  lemma {:induction false} TiedInOrder<X(!new)>(s: seq<X>, leq: (X, X) -> bool)
    requires forall x, y :: x in s && y in s ==> leq(x, y)
    ensures Sort(s, leq) == s
  {
    if s != [] { TiedInOrder(s[1..], leq); }
  }

  // ---------------------------------------------------------------- one key at a time

  /** The value one key ends up with, given its elements in order. */
  function Fold<X, K>(s: seq<X>, r: Rule<X, K>): X
    requires s != []
  {
    if |s| == 1 then r.first(s[0]) else r.join(Fold(s[..|s| - 1], r), s[|s| - 1])
  }

  function IsKey<K(==)>(k: K): K -> bool { x => x == k }

  lemma {:induction false} OneKey<X(!new), K>(s: seq<X>, r: Rule<X, K>, k: K)
    requires Lawful(r) && s != [] && forall x :: x in s ==> r.key(x) == k
    ensures Merged(s, r) == [Fold(s, r)] && r.key(Fold(s, r)) == k
  {
    hide Lawful;
    var init, last := s[..|s| - 1], s[|s| - 1];
    assert last in s;
    if |s| == 1 {
      LawFirst(r, last);
      AddAllNone([], r);
    } else {
      OneKey(init, r, k);
      LawJoin(r, Fold(init, r), last);
    }
  }

  /** The normal form holds exactly one element per key: the fold of that key's elements. */
  lemma NormalKey<X(!new), K(!new)>(s: seq<X>, r: Rule<X, K>, leq: (X, X) -> bool, k: K)
    requires TotalPreorder(leq) && Lawful(r)
    ensures var own := Filter(s, KeyIn(IsKey(k), r));
      Filter(Normal(s, r, leq), KeyIn(IsKey(k), r)) == if own == [] then [] else [Fold(own, r)]
  {
    var p := KeyIn(IsKey(k), r);
    var own := Filter(s, p);
    assert forall x :: x in own ==> r.key(x) == k;
    hide Lawful, Filter, TotalPreorder;
    FilterSort(Merged(s, r), leq, p);
    MergedFilter(s, r, IsKey(k));
    if own != [] { OneKey(own, r, k); }
  }

  /** The normal form is in order and has distinct keys, and its elements are settled. */
  lemma NormalSettled<X(!new), K(!new)>(s: seq<X>, r: Rule<X, K>, leq: (X, X) -> bool)
    requires TotalPreorder(leq) && Lawful(r)
    ensures Ascending(Normal(s, r, leq), leq) && Settled(Normal(s, r, leq), r)
    ensures |Normal(s, r, leq)| == |Merged(s, r)|
    ensures forall x :: x in Normal(s, r, leq) <==> x in Merged(s, r)
  {
    hide Lawful;
    var m := Merged(s, r);
    AddAllSettled([], s, r);
    SortIsSorting(m, leq);
    SortSettled(m, r, leq);
  }

  function OtherKey<X, K(==)>(r: Rule<X, K>): (X, X) -> bool { (x, y) => r.key(x) != r.key(y) }

  lemma SortSettled<X(!new), K(!new)>(m: seq<X>, r: Rule<X, K>, leq: (X, X) -> bool)
    requires TotalPreorder(leq) && Settled(m, r)
    ensures Settled(Sort(m, leq), r)
  {
    var n := Sort(m, leq);
    assert forall i, j :: 0 <= i < j < |m| ==> OtherKey(r)(m[i], m[j]);
    SortPairwise(m, leq, OtherKey(r));
    SortIsSorting(m, leq);
    assert forall i, j :: 0 <= i < j < |n| ==> OtherKey(r)(n[i], n[j]);
    forall i | 0 <= i < |n| ensures r.first(n[i]) == n[i] {
      assert n[i] in m;
      var j :| 0 <= j < |m| && m[j] == n[i];
    }
  }

  // ---------------------------------------------------------------- merging again

  /** The list holds a value of this key that joining with `x` does not change. */
  ghost predicate Absorbs<X, K>(m: seq<X>, x: X, r: Rule<X, K>) {
    exists j :: 0 <= j < |m| && r.key(m[j]) == r.key(x) && r.join(m[j], x) == m[j]
  }

  lemma AbsorbOne<X(!new), K>(m: seq<X>, x: X, r: Rule<X, K>)
    requires Settled(m, r) && Absorbs(m, x, r)
    ensures Add(m, x, r) == m
  {
    var j :| 0 <= j < |m| && r.key(m[j]) == r.key(x) && r.join(m[j], x) == m[j];
    AddAt(m, x, r, j);
  }

  /** Adding what the list already accounts for changes nothing. */
  lemma {:induction false} AbsorbAll<X(!new), K>(m: seq<X>, s: seq<X>, r: Rule<X, K>)
    requires Settled(m, r) && forall x :: x in s ==> Absorbs(m, x, r)
    ensures AddAll(m, s, r) == m
  {
    if s != [] {
      AbsorbAll(m, s[..|s| - 1], r);
      AbsorbOne(m, s[|s| - 1], r);
    }
  }
}
