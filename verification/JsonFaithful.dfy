/** Equal canonical texts mean equal JSON values, and exactly when the converse holds. */
module JsonFaithful {
  import opened StableSort
  import opened CanonicalJson
  import opened JsonParser

  predicate AllDigits(t: Text) { forall i :: 0 <= i < |t| ==> IsDigit(t[i]) }

  /** An array index: a decimal number below 2^32 - 1, written as JavaScript writes it. */
  predicate IsIndex(t: Text) {
    t != [] && AllDigits(t) && 0 <= DigitsValue(t) < 0xFFFF_FFFF && Digits(DigitsValue(t)) == t
  }

  /** A JavaScript object lists array indexes first, by value, and other names as they were added. */
  function Place(t: Text): int { if IsIndex(t) then DigitsValue(t) else 0xFFFF_FFFF }

  function ByPlace(a: Field, b: Field): bool { Place(a.name) <= Place(b.name) }

  /** At every level the fields are listed as a JavaScript object lists them. */
  ghost predicate InJsOrder(v: Value) {
    match v
    case Arr(items) => forall x :: x in items ==> InJsOrder(x)
    case Obj(fields) => Ascending(fields, ByPlace) && forall f :: f in fields && IsDefined(f) ==> InJsOrder(f.value)
    case _ => true
  }

  /** Only array indexes are told apart by their place. */
  lemma PlacesDiffer(m: Text, n: Text)
    requires m != n && IsIndex(m)
    ensures Place(m) != Place(n)
  {
  }

  /** Names that differ, compare as equal and are told apart by no place. */
  predicate Confused(f: Field, g: Field, col: Collation) {
    f.name != g.name && Place(f.name) == Place(g.name) && col(f.name) == col(g.name)
  }

  /** At every level, no two printed names of one object that are not array indexes compare as equal. */
  ghost predicate Separated(v: Value, col: Collation) {
    match v
    case Arr(items) => forall x :: x in items ==> Separated(x, col)
    case Obj(fields) =>
      && (forall f, g :: f in fields && g in fields && IsDefined(f) && IsDefined(g) ==> !Confused(f, g, col))
      && (forall f :: f in fields && IsDefined(f) ==> Separated(f.value, col))
    case _ => true
  }

  function OtherName(a: Field, b: Field): bool { a.name != b.name }

  lemma EntriesDistinct(fields: seq<Field>, col: Collation)
    requires DistinctNames(fields)
    ensures DistinctNames(Entries(fields, col)) && Ascending(Entries(fields, col), ByName(col))
  {
    ByNameIsOrder(col);
    FilterAscending(fields, OtherName, IsDefined);
    SortIsSorting(Filter(fields, IsDefined), ByName(col));
    SortPairwise(Filter(fields, IsDefined), ByName(col), OtherName);
    assert Ascending(Entries(fields, col), OtherName);
  }

  ghost function MembersOf(fields: seq<Field>): map<Text, Data>
    requires Printable(Obj(fields))
  {
    Members(Obj(fields), |fields|)
  }

  lemma {:induction false} MembersPrefix(v: Value, n: nat)
    requires Printable(v) && v.Obj? && n <= |v.fields|
    ensures forall i :: 0 <= i < n && IsDefined(v.fields[i]) ==>
      v.fields[i].name in Members(v, n) && Members(v, n)[v.fields[i].name] == Denote(v.fields[i].value)
    ensures forall k :: k in Members(v, n) ==> exists i :: 0 <= i < n && IsDefined(v.fields[i]) && v.fields[i].name == k
  {
    if n > 0 {
      MembersPrefix(v, n - 1);
      assert DistinctNames(v.fields);
      assert IsDefined(v.fields[n - 1]) ==> Printable(v.fields[n - 1].value);
    }
  }

  lemma MemberOf(fields: seq<Field>, f: Field)
    requires Printable(Obj(fields)) && f in fields && IsDefined(f)
    ensures f.name in MembersOf(fields) && MembersOf(fields)[f.name] == Denote(f.value)
  {
    MembersPrefix(Obj(fields), |fields|);
    assert Obj(fields).fields == fields;
  }

  lemma NamesOf(fields: seq<Field>, n: Text)
    requires Printable(Obj(fields))
    ensures n in MembersOf(fields) <==> exists f :: f in fields && IsDefined(f) && f.name == n
  {
    MembersPrefix(Obj(fields), |fields|);
    if n in MembersOf(fields) {
      var i :| 0 <= i < |fields| && IsDefined(fields[i]) && fields[i].name == n;
      assert fields[i] in fields;
    }
  }

  /** Dropping undefined fields and reordering the others does not change the meaning. */
  lemma {:induction false} NormalMeansSame(v: Value, col: Collation)
    requires Printable(v)
    ensures Printable(Normal(v, col)) && Denote(Normal(v, col)) == Denote(v)
    decreases v
  {
    match v
    case Arr(items) =>
      forall i | 0 <= i < |items| ensures Printable(Normal(items[i], col)) && Denote(Normal(items[i], col)) == Denote(items[i]) {
        NormalMeansSame(items[i], col);
      }
    case Obj(fields) =>
      var es := Entries(fields, col);
      forall f | f in es ensures Printable(Normal(f.value, col)) && Denote(Normal(f.value, col)) == Denote(f.value) {
        assert InFields(f, fields);
        NormalMeansSame(f.value, col);
      }
      NormalObject(fields, col);
    case _ =>
  }

  lemma NormalObject(fields: seq<Field>, col: Collation)
    requires Printable(Obj(fields))
    requires forall f :: f in Entries(fields, col) ==>
      Printable(Normal(f.value, col)) && Denote(Normal(f.value, col)) == Denote(f.value)
    ensures Printable(Normal(Obj(fields), col)) && Denote(Normal(Obj(fields), col)) == Denote(Obj(fields))
  {
    var es := Entries(fields, col);
    EntriesDistinct(fields, col);
    var ns := Normal(Obj(fields), col).fields;
    assert |ns| == |es| && forall i :: 0 <= i < |es| ==> ns[i] == Field(es[i].name, Normal(es[i].value, col));
    assert forall i :: 0 <= i < |es| ==> es[i] in es && Printable(ns[i].value);
    assert Printable(Obj(ns));
    hide Normal, Printable, Denote;
    SameMembers(fields, es, ns);
    MembersDenote(ns);
    MembersDenote(fields);
  }

  /** Listing the defined fields in another order, with values of the same meaning. */
  lemma SameMembers(fields: seq<Field>, es: seq<Field>, ns: seq<Field>)
    requires Printable(Obj(fields)) && Printable(Obj(ns)) && |ns| == |es|
    requires forall f :: f in es <==> f in fields && IsDefined(f)
    requires forall i :: 0 <= i < |es| ==> ns[i].name == es[i].name && Printable(es[i].value)
                                           && Printable(ns[i].value) && Denote(ns[i].value) == Denote(es[i].value)
    ensures MembersOf(ns) == MembersOf(fields)
  {
    hide Printable, Denote, MembersOf;
    forall i | 0 <= i < |es|
      ensures es[i].name in MembersOf(ns) && es[i].name in MembersOf(fields)
      ensures MembersOf(ns)[es[i].name] == MembersOf(fields)[es[i].name]
    {
      assert es[i] in fields && ns[i] in ns;
      PrintableDefined(ns[i].value);
      MemberOf(ns, ns[i]);
      MemberOf(fields, es[i]);
    }
    forall n | n in MembersOf(fields) ensures exists i :: 0 <= i < |es| && es[i].name == n {
      NamesOf(fields, n);
      var f :| f in fields && IsDefined(f) && f.name == n;
      assert f in es;
    }
    forall n | n in MembersOf(ns) ensures exists i :: 0 <= i < |es| && es[i].name == n {
      NamesOf(ns, n);
      var f :| f in ns && IsDefined(f) && f.name == n;
      var i :| 0 <= i < |ns| && ns[i] == f;
      assert es[i].name == n;
    }
  }

  lemma MembersDenote(fields: seq<Field>)
    requires Printable(Obj(fields))
    ensures Denote(Obj(fields)) == DObj(MembersOf(fields))
  {
  }

  lemma PrintableDefined(v: Value)
    requires Printable(v)
    ensures !v.Undefined?
  {
  }

  /** Equal texts mean equal values, whatever the collation does. */
  lemma SameTextSameData(a: Value, b: Value, col: Collation)
    requires Printable(a) && Printable(b) && Print(a, col) == Print(b, col)
    ensures Normal(a, col) == Normal(b, col) && Denote(a) == Denote(b)
  {
    ParseUndoesPrint(a, col);
    ParseUndoesPrint(b, col);
    NormalMeansSame(a, col);
    NormalMeansSame(b, col);
  }

  function NamesInOrder(fields: seq<Field>): seq<Text> {
    seq(|fields|, i requires 0 <= i < |fields| => fields[i].name)
  }

  predicate NameLeq(m: Text, n: Text, col: Collation) { col(m) < col(n) || (col(m) == col(n) && Place(m) <= Place(n)) }

  function ByRank(col: Collation): (Text, Text) -> bool { (m: Text, n: Text) => NameLeq(m, n, col) }

  function ByNameThenPlace(col: Collation): (Field, Field) -> bool { (a: Field, b: Field) => NameLeq(a.name, b.name, col) }

  lemma NameOrders(col: Collation)
    ensures TotalPreorder(ByName(col)) && TotalPreorder(ByNameThenPlace(col)) && TotalPreorder(ByRank(col))
  {
    hide Place;
    assert forall a, b :: NameLeq(a, b, col) || NameLeq(b, a, col);
    assert forall a, b, c :: NameLeq(a, b, col) && NameLeq(b, c, col) ==> NameLeq(a, c, col);
    hide NameLeq;
  }

  /** The entries of a JavaScript object are printed by name, and names that compare as equal by place. */
  lemma EntriesByPlace(fields: seq<Field>, col: Collation)
    requires Ascending(fields, ByPlace)
    ensures Ascending(Entries(fields, col), ByNameThenPlace(col))
  {
    hide IsIndex, Place;
    var es := Filter(fields, IsDefined);
    FilterAscending(fields, ByPlace, IsDefined);
    NameOrders(col);
    assert forall i, j :: 0 <= i < j < |es| ==> ByPlace(es[i], es[j]);
    SortRefined(es, ByName(col), ByNameThenPlace(col));
    SortIsSorting(es, ByNameThenPlace(col));
  }

  /** With separated names, the entries of equal objects come in the same order. */
  lemma SameOrder(a: seq<Field>, b: seq<Field>, col: Collation)
    requires Printable(Obj(a)) && Printable(Obj(b)) && Separated(Obj(a), col) && Denote(Obj(a)) == Denote(Obj(b))
    requires Ascending(a, ByPlace) && Ascending(b, ByPlace)
    ensures NamesInOrder(Entries(a, col)) == NamesInOrder(Entries(b, col))
  {
    var ea, eb := Entries(a, col), Entries(b, col);
    var na, nb := NamesInOrder(ea), NamesInOrder(eb);
    EntriesDistinct(a, col);
    EntriesDistinct(b, col);
    EntriesByPlace(a, col);
    EntriesByPlace(b, col);
    assert MembersOf(a) == MembersOf(b);
    NamesSeparated(a, col);
    hide MembersOf, Denote, Separated, Printable, Entries, Place;
    forall n ensures n in na <==> n in nb {
      NamesOf(a, n);
      NamesOf(b, n);
      NameListed(a, n, col);
      NameListed(b, n, col);
    }
    NameOrders(col);
    NamesAscend(ea, col);
    NamesAscend(eb, col);
    AscendingDistinct(na, nb, ByRank(col));
  }

  lemma NamesAscend(es: seq<Field>, col: Collation)
    requires Ascending(es, ByNameThenPlace(col)) && DistinctNames(es)
    ensures Ascending(NamesInOrder(es), ByRank(col)) && NoDuplicates(NamesInOrder(es))
  {
    hide Place;
    var ns := NamesInOrder(es);
    forall i, j | 0 <= i < j < |ns| ensures ByRank(col)(ns[i], ns[j]) { assert ByNameThenPlace(col)(es[i], es[j]); }
  }

  lemma NamesSeparated(a: seq<Field>, col: Collation)
    requires Separated(Obj(a), col)
    ensures Separates(ByRank(col), NamesInOrder(Entries(a, col)))
  {
    hide IsIndex;
    var na := NamesInOrder(Entries(a, col));
    forall m, n | m in na && n in na && ByRank(col)(m, n) && ByRank(col)(n, m) ensures m == n {
      NameListed(a, m, col);
      NameListed(a, n, col);
    }
  }

  lemma NameListed(fields: seq<Field>, n: Text, col: Collation)
    ensures n in NamesInOrder(Entries(fields, col)) <==> exists f :: f in fields && IsDefined(f) && f.name == n
  {
    var es := Entries(fields, col);
    if n in NamesInOrder(es) {
      var i :| 0 <= i < |es| && es[i].name == n;
      assert es[i] in fields;
    }
    if f :| f in fields && IsDefined(f) && f.name == n {
      var i :| 0 <= i < |es| && es[i] == f;
      assert NamesInOrder(es)[i] == n;
    }
  }

  /** With separated names, equal values print the same text. */
  lemma {:induction false} SameDataSameText(a: Value, b: Value, col: Collation)
    requires Printable(a) && Printable(b) && InJsOrder(a) && InJsOrder(b) && Separated(a, col) && Denote(a) == Denote(b)
    ensures Print(a, col) == Print(b, col)
    decreases a
  {
    match a
    case Arr(items) => SameItemsSameText(a, b, col);
    case Obj(fields) => SameMembersSameText(a, b, col);
    case _ =>
  }

  lemma {:induction false} SameItemsSameText(a: Value, b: Value, col: Collation)
    requires a.Arr? && Printable(a) && Printable(b) && InJsOrder(a) && InJsOrder(b) && Separated(a, col) && Denote(a) == Denote(b)
    ensures Print(a, col) == Print(b, col)
    decreases a, 0
  {
    ItemsMatch(a, b, col);
    hide Denote, Separated, Printable, InJsOrder;
    var x, y := a.items, b.items;
    forall i | 0 <= i < |x| ensures Printable(x[i]) && Printable(y[i]) && Print(x[i], col) == Print(y[i], col) {
      SameDataSameText(x[i], y[i], col);
    }
    assert seq(|x|, i requires 0 <= i < |x| => Print(x[i], col)) == seq(|y|, i requires 0 <= i < |y| => Print(y[i], col));
  }

  lemma ItemsMatch(a: Value, b: Value, col: Collation)
    requires a.Arr? && Printable(a) && Printable(b) && InJsOrder(a) && InJsOrder(b) && Separated(a, col) && Denote(a) == Denote(b)
    ensures b.Arr? && |a.items| == |b.items|
    ensures forall i :: 0 <= i < |a.items| ==>
      && Printable(a.items[i]) && Printable(b.items[i]) && Separated(a.items[i], col)
      && InJsOrder(a.items[i]) && InJsOrder(b.items[i])
      && Denote(a.items[i]) == Denote(b.items[i])
  {
    forall i | 0 <= i < |a.items| ensures Denote(a.items[i]) == Denote(b.items[i]) {
      assert Denote(a).items[i] == Denote(b).items[i];
    }
  }

  lemma {:induction false} SameMembersSameText(a: Value, b: Value, col: Collation)
    requires a.Obj? && Printable(a) && Printable(b) && InJsOrder(a) && InJsOrder(b) && Separated(a, col) && Denote(a) == Denote(b)
    ensures Print(a, col) == Print(b, col)
    decreases a, 0
  {
    var ea, eb := Entries(a.fields, col), Entries(b.fields, col);
    assert a == Obj(a.fields) && b == Obj(b.fields);
    EntriesMatch(a.fields, b.fields, col);
    hide Denote, Separated, Printable, InJsOrder, Entries, Print;
    forall i | 0 <= i < |ea| ensures Print(ea[i].value, col) == Print(eb[i].value, col) {
      EntryInFields(a.fields, col, i);
      SameDataSameText(ea[i].value, eb[i].value, col);
    }
    SameEntriesSameText(a.fields, b.fields, col);
  }

  lemma SameEntriesSameText(a: seq<Field>, b: seq<Field>, col: Collation)
    requires Printable(Obj(a)) && Printable(Obj(b)) && |Entries(a, col)| == |Entries(b, col)|
    requires forall i :: 0 <= i < |Entries(a, col)| ==>
      && Printable(Entries(a, col)[i].value) && Printable(Entries(b, col)[i].value)
      && Entries(a, col)[i].name == Entries(b, col)[i].name
      && Print(Entries(a, col)[i].value, col) == Print(Entries(b, col)[i].value, col)
    ensures Print(Obj(a), col) == Print(Obj(b), col)
  {
    hide Printable, Entries, Quote;
    var ea, eb := Entries(a, col), Entries(b, col);
    assert seq(|ea|, i requires 0 <= i < |ea| => Quote(ea[i].name) + [COLON] + Print(ea[i].value, col))
        == seq(|eb|, i requires 0 <= i < |eb| => Quote(eb[i].name) + [COLON] + Print(eb[i].value, col));
  }

  lemma EntriesMatch(a: seq<Field>, b: seq<Field>, col: Collation)
    requires Printable(Obj(a)) && Printable(Obj(b)) && Separated(Obj(a), col) && Denote(Obj(a)) == Denote(Obj(b))
    requires InJsOrder(Obj(a)) && InJsOrder(Obj(b))
    ensures var ea, eb := Entries(a, col), Entries(b, col);
      |ea| == |eb| && forall i :: 0 <= i < |ea| ==>
        && ea[i].name == eb[i].name
        && Printable(ea[i].value) && Printable(eb[i].value) && Separated(ea[i].value, col)
        && InJsOrder(ea[i].value) && InJsOrder(eb[i].value)
        && Denote(ea[i].value) == Denote(eb[i].value)
  {
    var ea, eb := Entries(a, col), Entries(b, col);
    SameOrder(a, b, col);
    assert MembersOf(a) == MembersOf(b);
    assert |NamesInOrder(ea)| == |ea| && |NamesInOrder(eb)| == |eb|;
    hide MembersOf, Denote;
    forall i | 0 <= i < |ea|
      ensures ea[i].name == eb[i].name && Denote(ea[i].value) == Denote(eb[i].value)
    {
      assert NamesInOrder(ea)[i] == NamesInOrder(eb)[i];
      assert ea[i] in a && eb[i] in b;
      MemberOf(a, ea[i]);
      MemberOf(b, eb[i]);
    }
    forall i | 0 <= i < |ea|
      ensures Printable(ea[i].value) && Printable(eb[i].value) && Separated(ea[i].value, col)
      ensures InJsOrder(ea[i].value) && InJsOrder(eb[i].value)
    {
      assert ea[i] in a && eb[i] in b;
    }
  }

  /** Two separated values print the same text exactly when they are the same JSON value. */
  lemma Faithful(a: Value, b: Value, col: Collation)
    requires Printable(a) && Printable(b) && InJsOrder(a) && InJsOrder(b) && Separated(a, col)
    ensures Print(a, col) == Print(b, col) <==> Denote(a) == Denote(b)
  {
    if Print(a, col) == Print(b, col) { SameTextSameData(a, b, col); }
    if Denote(a) == Denote(b) { SameDataSameText(a, b, col); }
  }

  // ---------------------------------------------------------------- names that compare as equal

  /** Two names of the object at the top level compare as equal. */
  ghost predicate Tied(fields: seq<Field>, i: nat, j: nat, col: Collation) {
    && i < j < |fields| && IsDefined(fields[i]) && IsDefined(fields[j])
    && fields[i].name != fields[j].name && col(fields[i].name) == col(fields[j].name)
  }

  function Among(m: Text, n: Text): Field -> bool {
    (f: Field) => IsDefined(f) && (f.name == m || f.name == n)
  }

  /** Tied entries are printed in the order in which the object lists them. */
  lemma TiedOrder(fields: seq<Field>, i: nat, j: nat, col: Collation)
    requires DistinctNames(fields) && Tied(fields, i, j, col)
    ensures Filter(Entries(fields, col), Among(fields[i].name, fields[j].name)) == [fields[i], fields[j]]
  {
    var p := Among(fields[i].name, fields[j].name);
    ByNameIsOrder(col);
    FilterSort(Filter(fields, IsDefined), ByName(col), p);
    FilterFilter(fields, IsDefined, p);
    FilterPair(fields, p, i, j);
    var two := [fields[i], fields[j]];
    assert two[1..] == [fields[j]] && two[1..][1..] == [];
    assert Sort([fields[j]], ByName(col)) == [fields[j]];
    assert Sort(two, ByName(col)) == two;
  }

  lemma {:induction false} FilterNames(a: seq<Field>, b: seq<Field>, m: Text, n: Text)
    requires NamesInOrder(a) == NamesInOrder(b)
    requires forall f :: f in a || f in b ==> IsDefined(f)
    ensures NamesInOrder(Filter(a, Among(m, n))) == NamesInOrder(Filter(b, Among(m, n)))
  {
    assert |NamesInOrder(a)| == |a| && |NamesInOrder(b)| == |b|;
    if a != [] {
      NamesCons(a[0], a[1..]);
      NamesCons(b[0], b[1..]);
      assert a == [a[0]] + a[1..] && b == [b[0]] + b[1..];
      assert NamesInOrder(a)[1..] == NamesInOrder(b)[1..];
      FilterNames(a[1..], b[1..], m, n);
      NamesCons(a[0], Filter(a[1..], Among(m, n)));
      NamesCons(b[0], Filter(b[1..], Among(m, n)));
      hide NamesInOrder;
    }
  }

  lemma NamesCons(f: Field, s: seq<Field>)
    ensures NamesInOrder([f] + s) == [f.name] + NamesInOrder(s)
    ensures NamesInOrder([f] + s)[0] == f.name && NamesInOrder([f] + s)[1..] == NamesInOrder(s)
  {
  }

  lemma NormalNames(fields: seq<Field>, col: Collation)
    requires Printable(Obj(fields))
    ensures NamesInOrder(Normal(Obj(fields), col).fields) == NamesInOrder(Entries(fields, col))
  {
  }

  /** Swapping two tied fields keeps the value and changes its print order. */
  lemma SwapTied(fields: seq<Field>, i: nat, j: nat, col: Collation)
    requires Printable(Obj(fields)) && Tied(fields, i, j, col)
    ensures var b := fields[i := fields[j]][j := fields[i]];
      && Printable(Obj(b)) && Denote(Obj(b)) == Denote(Obj(fields))
      && Normal(Obj(b), col) != Normal(Obj(fields), col)
  {
    var b := fields[i := fields[j]][j := fields[i]];
    var m, n := fields[i].name, fields[j].name;
    SwapElements(fields, i, j);
    assert Printable(Obj(b));
    SameFieldsSameMembers(fields, b);
    TiedOrder(fields, i, j, col);
    assert Tied(b, i, j, col);
    TiedOrder(b, i, j, col);
    AmongSymmetric(Entries(b, col), m, n);
    NormalNames(fields, col);
    NormalNames(b, col);
    assert NamesInOrder([fields[i], fields[j]])[0] == m;
    assert NamesInOrder([fields[j], fields[i]])[0] == n;
    if Normal(Obj(b), col) == Normal(Obj(fields), col) {
      FilterNames(Entries(fields, col), Entries(b, col), m, n);
      assert false;
    }
  }

  lemma {:induction false} AmongSymmetric(s: seq<Field>, m: Text, n: Text)
    ensures Filter(s, Among(m, n)) == Filter(s, Among(n, m))
  {
    if s != [] { AmongSymmetric(s[1..], m, n); }
  }

  lemma SwapElements(fields: seq<Field>, i: nat, j: nat)
    requires i < j < |fields| && DistinctNames(fields)
    ensures var b := fields[i := fields[j]][j := fields[i]];
      DistinctNames(b) && forall f :: f in b <==> f in fields
  {
    var b := fields[i := fields[j]][j := fields[i]];
    forall f | f in fields ensures f in b {
      var k :| 0 <= k < |fields| && fields[k] == f;
      assert k == i ==> b[j] == f;
      assert k == j ==> b[i] == f;
      assert k != i && k != j ==> b[k] == f;
    }
  }

  lemma SameFieldsSameMembers(a: seq<Field>, b: seq<Field>)
    requires Printable(Obj(a)) && Printable(Obj(b)) && forall f :: f in a <==> f in b
    ensures Denote(Obj(a)) == Denote(Obj(b))
  {
    hide Printable, Denote, MembersOf;
    forall n | n in MembersOf(a) || n in MembersOf(b)
      ensures n in MembersOf(a) && n in MembersOf(b) && MembersOf(a)[n] == MembersOf(b)[n]
    {
      NamesOf(a, n);
      NamesOf(b, n);
      var f :| f in a && IsDefined(f) && f.name == n;
      MemberOf(a, f);
      MemberOf(b, f);
    }
    assert MembersOf(a) == MembersOf(b);
    MembersDenote(a);
    MembersDenote(b);
  }

  /** Replacing the value of one field by another of the same meaning. */
  lemma ReplaceField(fields: seq<Field>, k: nat, w: Value, col: Collation)
    requires Printable(Obj(fields)) && k < |fields| && IsDefined(fields[k])
    requires Printable(w) && Denote(w) == Denote(fields[k].value) && Normal(w, col) != Normal(fields[k].value, col)
    ensures var b := fields[k := Field(fields[k].name, w)];
      && Printable(Obj(b)) && Denote(Obj(b)) == Denote(Obj(fields))
      && Normal(Obj(b), col) != Normal(Obj(fields), col)
  {
    var g := Field(fields[k].name, w);
    var b := fields[k := g];
    PrintableDefined(w);
    assert Printable(Obj(b)) by {
      forall f | f in b && IsDefined(f) ensures Printable(f.value) {
        var i :| 0 <= i < |b| && b[i] == f;
        assert i != k ==> fields[i] == f;
      }
    }
    assert b[k] == g;
    ReplaceMembers(fields, k, w);
    var na, nb := Normal(Obj(fields), col).fields, Normal(Obj(b), col).fields;
    NormalLookup(fields, fields[k], col);
    NormalLookup(b, g, col);
    NormalDistinct(fields, col);
    assert Field(g.name, Normal(w, col)) in nb && Field(g.name, Normal(fields[k].value, col)) in na;
  }

  lemma ReplaceMembers(fields: seq<Field>, k: nat, w: Value)
    requires k < |fields| && IsDefined(fields[k]) && Printable(w)
    requires Printable(Obj(fields)) && Printable(Obj(fields[k := Field(fields[k].name, w)]))
    requires Printable(fields[k].value) && Denote(w) == Denote(fields[k].value)
    ensures Denote(Obj(fields[k := Field(fields[k].name, w)])) == Denote(Obj(fields))
  {
    hide Denote, Printable, Filter;
    var b := fields[k := Field(fields[k].name, w)];
    PrintableDefined(w);
    var es, ns := Filter(fields, IsDefined), Filter(b, IsDefined);
    FilterReplace(fields, k, Field(fields[k].name, w));
    DefinedPrintable(fields);
    DefinedPrintable(b);
    SameMembers(fields, es, ns);
    SameMembers(b, ns, ns);
    MembersDenote(b);
    MembersDenote(fields);
  }

  /** The defined fields of a printable object are an object of the same kind. */
  lemma DefinedPrintable(fields: seq<Field>)
    requires Printable(Obj(fields))
    ensures Printable(Obj(Filter(fields, IsDefined)))
    ensures forall f :: f in fields && IsDefined(f) ==> Printable(f.value)
  {
    var es := Filter(fields, IsDefined);
    assert Ascending(fields, OtherName);
    FilterAscending(fields, OtherName, IsDefined);
    assert DistinctNames(es) by { assert forall i, j :: 0 <= i < j < |es| ==> OtherName(es[i], es[j]); }
  }

  lemma {:induction false} FilterReplace(fields: seq<Field>, k: nat, g: Field)
    requires k < |fields| && IsDefined(fields[k]) && IsDefined(g)
    ensures var es, ns := Filter(fields, IsDefined), Filter(fields[k := g], IsDefined);
      |es| == |ns| && exists m: nat :: m < |es| && es[m] == fields[k] && ns == es[m := g]
  {
    hide Filter;
    var b := fields[k := g];
    FilterCons(fields, IsDefined);
    FilterCons(b, IsDefined);
    if k == 0 {
      assert b[1..] == fields[1..];
      var es, ns := Filter(fields, IsDefined), Filter(b, IsDefined);
      assert es[0] == fields[0] && ns == es[0 := g];
    } else {
      FilterReplace(fields[1..], k - 1, g);
      assert b[1..] == fields[1..][k - 1 := g];
      var es, ns := Filter(fields[1..], IsDefined), Filter(b[1..], IsDefined);
      var m: nat :| m < |es| && es[m] == fields[1..][k - 1] && ns == es[m := g];
      if IsDefined(fields[0]) {
        assert ([fields[0]] + es)[m + 1] == fields[k] && [fields[0]] + ns == ([fields[0]] + es)[m + 1 := g];
      } else {
        assert [] + es == es && [] + ns == ns;
      }
    }
  }

  lemma NormalLookup(fields: seq<Field>, f: Field, col: Collation)
    requires Printable(Obj(fields)) && f in fields && IsDefined(f)
    ensures Field(f.name, Normal(f.value, col)) in Normal(Obj(fields), col).fields
  {
    var es := Entries(fields, col);
    var i :| 0 <= i < |es| && es[i] == f;
    assert Normal(Obj(fields), col).fields[i] == Field(f.name, Normal(f.value, col));
  }

  lemma NormalDistinct(fields: seq<Field>, col: Collation)
    requires Printable(Obj(fields))
    ensures forall f, g :: f in Normal(Obj(fields), col).fields && g in Normal(Obj(fields), col).fields && f.name == g.name ==> f == g
  {
    NormalMeansSame(Obj(fields), col);
    assert DistinctNames(Normal(Obj(fields), col).fields);
  }

  lemma ReplaceItem(items: seq<Value>, i: nat, w: Value, col: Collation)
    requires Printable(Arr(items)) && i < |items|
    requires Printable(w) && Denote(w) == Denote(items[i]) && Normal(w, col) != Normal(items[i], col)
    ensures var b := Arr(items[i := w]);
      Printable(b) && Denote(b) == Denote(Arr(items)) && Normal(b, col) != Normal(Arr(items), col)
  {
    var a, b := Arr(items), Arr(items[i := w]);
    assert Printable(b) by {
      forall z | z in b.items ensures Printable(z) { assert z == w || z in items; }
    }
    assert Denote(b).items == Denote(a).items;
    assert Normal(b, col).items[i] != Normal(a, col).items[i];
  }

  lemma FieldPrintable(fields: seq<Field>, f: Field)
    requires Printable(Obj(fields)) && f in fields && IsDefined(f)
    ensures Printable(f.value)
  {
  }

  lemma SwapTwin(fields: seq<Field>, f: Field, g: Field, col: Collation) returns (b: Value)
    requires Printable(Obj(fields)) && f in fields && g in fields && IsDefined(f) && IsDefined(g)
    requires Confused(f, g, col)
    ensures Printable(b) && Denote(b) == Denote(Obj(fields)) && Normal(b, col) != Normal(Obj(fields), col)
    ensures InJsOrder(Obj(fields)) ==> InJsOrder(b)
  {
    hide Printable, Denote, Normal;
    var i :| 0 <= i < |fields| && fields[i] == f;
    var j :| 0 <= j < |fields| && fields[j] == g;
    var lo, hi := if i < j then i else j, if i < j then j else i;
    b := Obj(fields[lo := fields[hi]][hi := fields[lo]]);
    SwapTied(fields, lo, hi, col);
    PrintableDistinct(fields);
    SwapListed(fields, lo, hi);
  }

  lemma PrintableDistinct(fields: seq<Field>)
    requires Printable(Obj(fields))
    ensures DistinctNames(fields)
  {
  }

  lemma SwapListed(fields: seq<Field>, i: nat, j: nat)
    requires i < j < |fields| && Place(fields[i].name) == Place(fields[j].name) && DistinctNames(fields)
    ensures InJsOrder(Obj(fields)) ==> InJsOrder(Obj(fields[i := fields[j]][j := fields[i]]))
  {
    hide IsIndex, Place;
    var b := fields[i := fields[j]][j := fields[i]];
    SwapElements(fields, i, j);
    assert forall k :: 0 <= k < |b| ==> Place(b[k].name) == Place(fields[k].name);
    if Ascending(fields, ByPlace) {
      forall p, q | 0 <= p < q < |b| ensures ByPlace(b[p], b[q]) { assert ByPlace(fields[p], fields[q]); }
    }
  }

  lemma ReplaceListed(fields: seq<Field>, k: nat, w: Value)
    requires k < |fields| && InJsOrder(Obj(fields)) && InJsOrder(w)
    ensures InJsOrder(Obj(fields[k := Field(fields[k].name, w)]))
  {
    hide IsIndex, Place;
    var b := fields[k := Field(fields[k].name, w)];
    forall p, q | 0 <= p < q < |b| ensures ByPlace(b[p], b[q]) { assert ByPlace(fields[p], fields[q]); }
    forall f | f in b && IsDefined(f) ensures InJsOrder(f.value) { assert f.value == w || f in fields; }
  }

  lemma ReplaceListedItem(items: seq<Value>, i: nat, w: Value)
    requires i < |items| && InJsOrder(Arr(items)) && InJsOrder(w)
    ensures InJsOrder(Arr(items[i := w]))
  {
    forall x | x in items[i := w] ensures InJsOrder(x) { assert x == w || x in items; }
  }

  /** A value that is not separated has a twin: the same JSON value, but with another text. */
  lemma {:induction false} Twin(a: Value, col: Collation) returns (b: Value)
    requires Printable(a) && !Separated(a, col)
    ensures Printable(b) && Denote(b) == Denote(a) && Normal(b, col) != Normal(a, col)
    ensures InJsOrder(a) ==> InJsOrder(b)
    decreases a
  {
    if a.Arr? {
      var x :| x in a.items && !Separated(x, col);
      var i :| 0 <= i < |a.items| && a.items[i] == x;
      var y := Twin(a.items[i], col);
      if InJsOrder(a) { ReplaceListedItem(a.items, i, y); }
      hide Printable, Denote, Normal, Separated;
      b := Arr(a.items[i := y]);
      ReplaceItem(a.items, i, y, col);
    } else if f, g :| f in a.fields && g in a.fields && IsDefined(f) && IsDefined(g) && Confused(f, g, col) {
      b := SwapTwin(a.fields, f, g, col);
    } else {
      var f :| f in a.fields && IsDefined(f) && !Separated(f.value, col);
      var k :| 0 <= k < |a.fields| && a.fields[k] == f;
      FieldPrintable(a.fields, f);
      var w := Twin(a.fields[k].value, col);
      if InJsOrder(a) { ReplaceListed(a.fields, k, w); }
      hide Printable, Denote, Normal, Separated;
      b := Obj(a.fields[k := Field(f.name, w)]);
      ReplaceField(a.fields, k, w, col);
    }
  }

  /** Exactly when the text of a JavaScript value is the same for every JavaScript value of the same
      meaning. */
  lemma TextDeterminedIffSeparated(a: Value, col: Collation)
    requires Printable(a) && InJsOrder(a)
    ensures Separated(a, col) <==>
      forall b :: Printable(b) && InJsOrder(b) && Denote(b) == Denote(a) ==> Print(b, col) == Print(a, col)
  {
    if Separated(a, col) {
      forall b | Printable(b) && InJsOrder(b) && Denote(b) == Denote(a) ensures Print(b, col) == Print(a, col) {
        SameDataSameText(a, b, col);
      }
    } else {
      var b := Twin(a, col);
      if Print(b, col) == Print(a, col) { SameTextSameData(a, b, col); }
    }
  }

  // ---------------------------------------------------------------- printing a printed value again

  lemma NormalEntries(fields: seq<Field>, col: Collation)
    requires Printable(Obj(fields))
    ensures var ns := Normal(Obj(fields), col).fields;
      |ns| == |Entries(fields, col)| && Entries(ns, col) == ns
  {
    var es, ns := Entries(fields, col), Normal(Obj(fields), col).fields;
    forall f | f in es ensures Printable(f.value) { assert InFields(f, fields); }
    forall i | 0 <= i < |es| ensures ns[i].name == es[i].name && IsDefined(ns[i]) {
      assert es[i] in es;
      NormalMeansSame(es[i].value, col);
    }
    FilterAll(ns, IsDefined);
    ByNameIsOrder(col);
    SortIsSorting(Filter(fields, IsDefined), ByName(col));
    forall i, j | 0 <= i < j < |ns| ensures ByName(col)(ns[i], ns[j]) { assert ByName(col)(es[i], es[j]); }
    SortAscending(ns, ByName(col));
  }

  /** Parsing a canonical text and printing the result gives the text again. */
  lemma {:induction false} PrintNormal(v: Value, col: Collation)
    requires Printable(v)
    ensures Printable(Normal(v, col)) && Print(Normal(v, col), col) == Print(v, col)
    decreases v, 1
  {
    match v
    case Arr(items) => PrintNormalArray(v, col);
    case Obj(fields) => PrintNormalObject(v, col);
    case _ =>
  }

  lemma {:induction false} PrintNormalArray(v: Value, col: Collation)
    requires v.Arr? && Printable(v)
    ensures Printable(Normal(v, col)) && Print(Normal(v, col), col) == Print(v, col)
    decreases v, 0
  {
    hide Join, Number, Quote;
    NormalMeansSame(v, col);
    var items, ns := v.items, Normal(v, col).items;
    forall i | 0 <= i < |items| ensures Printable(ns[i]) && Print(ns[i], col) == Print(items[i], col) {
      assert ns[i] in ns;
      PrintNormal(items[i], col);
    }
    hide Print;
    EqualItems(ns, items, col);
  }

  lemma {:induction false} PrintNormalObject(v: Value, col: Collation)
    requires v.Obj? && Printable(v)
    ensures Printable(Normal(v, col)) && Print(Normal(v, col), col) == Print(v, col)
    decreases v, 0
  {
    hide Print, Sort, Filter;
    NormalMeansSame(v, col);
    var fields := v.fields;
    var es, ns := Entries(fields, col), Normal(v, col).fields;
    NormalEntries(fields, col);
    forall i | 0 <= i < |es|
      ensures ns[i].name == es[i].name && Printable(es[i].value) && Printable(ns[i].value) && Print(ns[i].value, col) == Print(es[i].value, col)
    {
      assert InFields(es[i], fields) && es[i] in es;
      PrintNormal(es[i].value, col);
    }
    EqualMembers(fields, ns, es, col);
  }

  lemma EqualItems(ns: seq<Value>, items: seq<Value>, col: Collation)
    requires Printable(Arr(ns)) && Printable(Arr(items)) && |ns| == |items|
    requires forall i :: 0 <= i < |ns| ==> Printable(ns[i]) && Printable(items[i]) && Print(ns[i], col) == Print(items[i], col)
    ensures Print(Arr(ns), col) == Print(Arr(items), col)
  {
    assert seq(|ns|, i requires 0 <= i < |ns| => Print(ns[i], col)) == seq(|items|, i requires 0 <= i < |items| => Print(items[i], col));
  }

  lemma EqualMembers(fields: seq<Field>, ns: seq<Field>, es: seq<Field>, col: Collation)
    requires Printable(Obj(fields)) && Printable(Obj(ns)) && es == Entries(fields, col) && ns == Entries(ns, col) && |ns| == |es|
    requires forall i :: 0 <= i < |es| ==>
      ns[i].name == es[i].name && Printable(es[i].value) && Printable(ns[i].value) && Print(ns[i].value, col) == Print(es[i].value, col)
    ensures Print(Obj(ns), col) == Print(Obj(fields), col)
  {
    var a := seq(|es|, i requires 0 <= i < |es| =>
      assert es[i] in es && InFields(es[i], fields); Quote(es[i].name) + [COLON] + Print(es[i].value, col));
    var b := seq(|ns|, i requires 0 <= i < |ns| =>
      assert InFields(ns[i], ns); Quote(ns[i].name) + [COLON] + Print(ns[i].value, col));
    assert a == b;
  }

  /** Normalizing twice is normalizing once. */
  lemma NormalTwice(v: Value, col: Collation)
    requires Printable(v)
    ensures Printable(Normal(v, col)) && Normal(Normal(v, col), col) == Normal(v, col)
  {
    PrintNormal(v, col);
    ParseUndoesPrint(v, col);
    ParseUndoesPrint(Normal(v, col), col);
  }
}
