/** Which owner backups one retention pass keeps (`planBackupRetention`).

    The specification is on sets of objects: an object is retained when it is the newest of its
    day among the 30 latest days, or the newest of its month among the 12 latest months. */
module BackupRetention {
  import opened StableSort
  import opened Calendar

  const DAILY_CAP := 30
  const MONTHLY_CAP := 12

  /** An object key, given by its rank in `localeCompare` order. */
  datatype ObjectKey = ObjectKey(rank: int)

  /** `body` stands for the stored bytes. */
  datatype Backup = Backup(key: ObjectKey, uploadedAt: int, size: int,
                           ciphertextSha: string, metadataSha: string, body: string)

  datatype PlanError = DuplicateKeys | FutureTimestamp | InvalidObject
  datatype Plan = Plan(keep: seq<Backup>, remove: seq<Backup>, projectedBytes: int)
  datatype PlanResult = Planned(plan: Plan) | Refused(error: PlanError)

  type Grouping = Backup -> int

  function Day(b: Backup): int { DayOf(b.uploadedAt) }
  function Month(b: Backup): int { MonthOf(b.uploadedAt) }

  function NewestFirst(a: Backup, b: Backup): bool {
    a.uploadedAt > b.uploadedAt || (a.uploadedAt == b.uploadedAt && a.key.rank <= b.key.rank)
  }

  ghost predicate Before(a: Backup, b: Backup) {
    a.uploadedAt > b.uploadedAt || (a.uploadedAt == b.uploadedAt && a.key.rank < b.key.rank)
  }

  ghost predicate UniqueKeys(s: set<Backup>) {
    forall a, b :: a in s && b in s && a.key == b.key ==> a == b
  }

  ghost function Groups(s: set<Backup>, group: Grouping): set<int> {
    set o | o in s :: group(o)
  }

  ghost function Above(d: set<int>, x: int): set<int> {
    set y | y in d && y > x
  }

  /** `b` is the newest object of its group, and its group is one of the `cap` latest. */
  ghost predicate Wins(s: set<Backup>, b: Backup, group: Grouping, cap: nat) {
    && b in s
    && (forall o :: o in s && o != b && group(o) == group(b) ==> Before(b, o))
    && |Above(Groups(s, group), group(b))| < cap
  }

  ghost predicate Retained(s: set<Backup>, b: Backup) {
    Wins(s, b, Day, DAILY_CAP) || Wins(s, b, Month, MONTHLY_CAP)
  }

  ghost function Keep(s: set<Backup>): set<Backup> {
    set b | b in s && Retained(s, b)
  }

  // ---------------------------------------------------------------- finite sets

  lemma SubsetSize<T>(a: set<T>, b: set<T>)
    requires a <= b
    ensures |a| <= |b|
  {
    assert b == a + (b - a);
  }

  lemma Pick<T>(s: set<T>) returns (x: T)
    requires s != {}
    ensures x in s
  {
    x :| x in s;
  }

  lemma {:induction false} Smallest(d: set<int>) returns (m: int)
    requires d != {}
    ensures m in d && forall y :: y in d ==> m <= y
  {
    var x := Pick(d);
    m := x;
    if d != {x} {
      var r := Smallest(d - {x});
      if r < x { m := r; }
      assert forall y :: y in d ==> y == x || y in d - {x};
    }
  }

  ghost function Top(d: set<int>, cap: nat): set<int> {
    set x | x in d && |Above(d, x)| < cap
  }

  /** The `cap` largest elements of a set number `cap`, or all of them when there are fewer. */
  lemma {:induction false} TopSize(d: set<int>, cap: nat)
    ensures |Top(d, cap)| == if |d| < cap then |d| else cap
    decreases |d|
  {
    if d == {} {
      assert Top(d, cap) == {};
    } else if |d| <= cap {
      forall x | x in d ensures |Above(d, x)| < cap {
        SubsetSize(Above(d, x), d - {x});
      }
      assert Top(d, cap) == d;
    } else {
      var m := Smallest(d);
      var e := d - {m};
      TopSize(e, cap);
      assert Above(d, m) == e;
      forall x | x in e ensures Above(d, x) == Above(e, x) {}
      assert Top(d, cap) == Top(e, cap);
    }
  }

  lemma {:induction false} FirstOfGroup(s: set<Backup>, group: Grouping, g: int) returns (b: Backup)
    requires UniqueKeys(s) && exists o :: o in s && group(o) == g
    ensures b in s && group(b) == g
    ensures forall o :: o in s && o != b && group(o) == g ==> Before(b, o)
    decreases s
  {
    b :| b in s && group(b) == g;
    if exists o :: o in s - {b} && group(o) == g {
      var c := FirstOfGroup(s - {b}, group, g);
      if Before(c, b) { b := c; }
    }
  }

  // ---------------------------------------------------------------- the choice is path independent

  /** An object that wins among more objects wins among fewer. */
  lemma WinsInSubset(s: set<Backup>, t: set<Backup>, b: Backup, group: Grouping, cap: nat)
    requires t <= s && b in t && Wins(s, b, group, cap)
    ensures Wins(t, b, group, cap)
  {
    SubsetSize(Above(Groups(t, group), group(b)), Above(Groups(s, group), group(b)));
  }

  lemma KeepInSubset(s: set<Backup>, t: set<Backup>)
    requires t <= s
    ensures Keep(s) * t <= Keep(t)
  {
    forall b | b in Keep(s) && b in t ensures b in Keep(t) {
      if Wins(s, b, Day, DAILY_CAP) { WinsInSubset(s, t, b, Day, DAILY_CAP); }
      else { WinsInSubset(s, t, b, Month, MONTHLY_CAP); }
    }
  }

  /** Removing objects that do not win lets no other object win. */
  lemma WinsInSuperset(s: set<Backup>, t: set<Backup>, b: Backup, group: Grouping, cap: nat)
    requires UniqueKeys(s) && t <= s && Wins(t, b, group, cap)
    requires forall o :: Wins(s, o, group, cap) ==> o in t
    ensures Wins(s, b, group, cap)
  {
    var g := group(b);
    var above := Above(Groups(s, group), g);
    // The `cap` latest groups above `g` all keep their winner in `t`.
    forall x | x in Top(above, cap) ensures x in Above(Groups(t, group), g) {
      var o := FirstOfGroup(s, group, x);
      assert Above(above, x) == Above(Groups(s, group), x);
      assert Wins(s, o, group, cap);
    }
    SubsetSize(Top(above, cap), Above(Groups(t, group), g));
    TopSize(above, cap);
    assert |above| < cap;
    var first := FirstOfGroup(s, group, g);
    assert Wins(s, first, group, cap);
    assert first == b;
  }

  /** Replanning anything between `Keep(s)` and `s` keeps the same objects. */
  lemma ReplanStable(s: set<Backup>, t: set<Backup>)
    requires UniqueKeys(s) && Keep(s) <= t <= s
    ensures Keep(t) == Keep(s)
  {
    KeepInSubset(s, t);
    forall b | b in Keep(t) ensures b in Keep(s) {
      if Wins(t, b, Day, DAILY_CAP) { WinsInSuperset(s, t, b, Day, DAILY_CAP); }
      else { WinsInSuperset(s, t, b, Month, MONTHLY_CAP); }
    }
  }

  // ---------------------------------------------------------------- bounds

  lemma {:induction false} WinnersPerGroup(w: set<Backup>, group: Grouping)
    requires forall a, b :: a in w && b in w && group(a) == group(b) ==> a == b
    ensures |w| == |Groups(w, group)|
    decreases w
  {
    if w == {} {
      assert Groups(w, group) == {};
    } else {
      var b :| b in w;
      WinnersPerGroup(w - {b}, group);
      assert Groups(w, group) == Groups(w - {b}, group) + {group(b)};
      assert group(b) !in Groups(w - {b}, group);
    }
  }

  ghost function Winners(s: set<Backup>, group: Grouping, cap: nat): set<Backup> {
    set b | b in s && Wins(s, b, group, cap)
  }

  lemma WinnersBounded(s: set<Backup>, group: Grouping, cap: nat)
    ensures |Winners(s, group, cap)| <= cap
  {
    var w := Winners(s, group, cap);
    forall a, b | a in w && b in w && group(a) == group(b) ensures a == b {
      assert a != b ==> Before(a, b) && Before(b, a);
    }
    WinnersPerGroup(w, group);
    var d := Groups(s, group);
    forall x | x in Groups(w, group) ensures x in Top(d, cap) {}
    TopSize(d, cap);
    SubsetSize(Groups(w, group), Top(d, cap));
  }

  lemma LaterDayLaterMonth(a: Backup, b: Backup)
    requires NewestFirst(a, b)
    ensures Day(a) >= Day(b) && Month(a) >= Month(b)
  {
    MonthOfMonotone(b.uploadedAt, a.uploadedAt);
  }

  /** The newest object of all is kept on both counts. */
  lemma NewestServesBoth(s: set<Backup>) returns (n: Backup)
    requires UniqueKeys(s) && s != {}
    ensures Wins(s, n, Day, DAILY_CAP) && Wins(s, n, Month, MONTHLY_CAP)
  {
    var any :| any in s;
    var one: Grouping := (_: Backup) => 0;
    assert one(any) == 0;
    n := FirstOfGroup(s, one, 0);
    forall o | o in s ensures Day(o) <= Day(n) && Month(o) <= Month(n) && (o != n ==> Before(n, o)) {
      assert o != n ==> one(o) == 0;
      LaterDayLaterMonth(n, o);
    }
    assert Above(Groups(s, Day), Day(n)) == {} && Above(Groups(s, Month), Month(n)) == {};
  }

  /** At most 41 objects are kept, and a non-empty store keeps something. */
  lemma KeepBounded(s: set<Backup>)
    requires UniqueKeys(s)
    ensures |Keep(s)| <= DAILY_CAP + MONTHLY_CAP - 1
    ensures s != {} ==> Keep(s) != {}
  {
    var d, m := Winners(s, Day, DAILY_CAP), Winners(s, Month, MONTHLY_CAP);
    WinnersBounded(s, Day, DAILY_CAP);
    WinnersBounded(s, Month, MONTHLY_CAP);
    assert Keep(s) == d + m;
    assert forall b :: Wins(s, b, Day, DAILY_CAP) ==> b in d;
    assert forall b :: Wins(s, b, Month, MONTHLY_CAP) ==> b in m;
    if s != {} {
      var n := NewestServesBoth(s);
      hide *;
      assert n in d * m;
      assert |d * m| >= 1;
      assert |d + m| + |d * m| == |d| + |m|;
    } else {
      assert Keep(s) == {};
    }
  }

  // ---------------------------------------------------------------- the loop

  ghost function Elements(s: seq<Backup>): set<Backup> {
    set o | o in s
  }

  ghost function KeysOf(s: set<Backup>): set<ObjectKey> {
    set o | o in s :: o.key
  }

  lemma KeysInsert(s: set<Backup>, x: Backup)
    ensures KeysOf(s + {x}) == KeysOf(s) + {x.key}
  {
  }

  function Total(s: seq<Backup>): int {
    if s == [] then 0 else s[0].size + Total(s[1..])
  }

  ghost predicate Admissible(o: Backup, now: int) {
    o.uploadedAt <= now && o.size >= 0 && o.metadataSha == o.ciphertextSha
  }

  lemma NewestFirstIsOrder()
    ensures TotalPreorder(NewestFirst)
  {
  }

  /** Scanning newest first, a new object never changes who won before it. */
  lemma ScanStep(p: set<Backup>, x: Backup, group: Grouping, cap: nat)
    requires x !in p && forall o :: o in p ==> Before(o, x) && group(o) >= group(x)
    ensures forall b :: b in p ==> (Wins(p + {x}, b, group, cap) <==> Wins(p, b, group, cap))
    ensures Wins(p + {x}, x, group, cap) <==> group(x) !in Groups(p, group) && |Groups(p, group)| < cap
  {
    var q := p + {x};
    forall b | b in p ensures Above(Groups(q, group), group(b)) == Above(Groups(p, group), group(b)) {}
    if group(x) !in Groups(p, group) {
      assert Above(Groups(q, group), group(x)) == Groups(p, group);
    }
  }

  /** The first loop: rejects duplicate keys, future timestamps and broken metadata. */
  method CheckObjects(objects: seq<Backup>, now: int) returns (ok: bool, error: PlanError)
    ensures ok <==> (forall j, k :: 0 <= j < k < |objects| ==> objects[j].key != objects[k].key)
                    && forall o :: o in objects ==> Admissible(o, now)
  {
    var keys: set<ObjectKey> := {};
    for i := 0 to |objects|
      invariant keys == set o | o in objects[..i] :: o.key
      invariant forall j, k :: 0 <= j < k < i ==> objects[j].key != objects[k].key
      invariant forall j :: 0 <= j < i ==> Admissible(objects[j], now)
    {
      var item := objects[i];
      if item.key in keys { return false, DuplicateKeys; }
      keys := keys + {item.key};
      assert item in objects;
      if item.uploadedAt > now { return false, FutureTimestamp; }
      if item.size < 0 || item.metadataSha != item.ciphertextSha { return false, InvalidObject; }
    }
    return true, InvalidObject;
  }

  /** The second loop, over objects sorted newest first: the keys of the retained objects. */
  method ScanRetained(sorted: seq<Backup>) returns (retainedKeys: set<ObjectKey>)
    requires forall j, k :: 0 <= j < k < |sorted| ==> Before(sorted[j], sorted[k])
    ensures retainedKeys == KeysOf(Keep(Elements(sorted)))
  {
    var daily: set<int>, monthly: set<int> := {}, {};
    retainedKeys := {};
    for i := 0 to |sorted|
      invariant ScanCovers(daily, Groups(Elements(sorted[..i]), Day), DAILY_CAP)
      invariant ScanCovers(monthly, Groups(Elements(sorted[..i]), Month), MONTHLY_CAP)
      invariant retainedKeys == KeysOf(Keep(Elements(sorted[..i])))
    {
      var item := sorted[i];
      var day, month := Day(item), Month(item);
      ghost var p := Elements(sorted[..i]);
      assert Elements(sorted[..i + 1]) == p + {item};
      ScanExtends(p, item, daily, monthly);
      KeysInsert(Keep(p), item);
      hide ScanCovers, Keep, Groups, KeysOf;
      if |daily| < 30 && day !in daily {
        daily := daily + {day};
        retainedKeys := retainedKeys + {item.key};
      }
      if |monthly| < 12 && month !in monthly {
        monthly := monthly + {month};
        retainedKeys := retainedKeys + {item.key};
      }
    }
    assert sorted[..|sorted|] == sorted;
  }

  method PlanBackupRetention(objects: seq<Backup>, now: int) returns (r: PlanResult)
    ensures r.Planned? <==> (forall j, k :: 0 <= j < k < |objects| ==> objects[j].key != objects[k].key)
                            && forall o :: o in objects ==> Admissible(o, now)
    ensures r.Planned? ==>
      && r.plan.keep == Filter(Sort(objects, NewestFirst), o => o in Keep(Elements(objects)))
      && r.plan.remove == Filter(Sort(objects, NewestFirst), o => o !in Keep(Elements(objects)))
      && r.plan.projectedBytes == Total(r.plan.keep)
  {
    var ok, error := CheckObjects(objects, now);
    if !ok { return Refused(error); }
    var sorted := Sort(objects, NewestFirst);
    NewestFirstIsOrder();
    SortIsSorting(objects, NewestFirst);
    SortedBefore(objects, sorted);
    var retainedKeys := ScanRetained(sorted);
    var isRetained := (o: Backup) => o.key in retainedKeys;
    var isRemoved := (o: Backup) => o.key !in retainedKeys;
    var keep, remove := Filter(sorted, isRetained), Filter(sorted, isRemoved);
    KeysIdentify(Elements(objects), Keep(Elements(objects)), retainedKeys);
    FilterAgrees(sorted, isRetained, o => o in Keep(Elements(objects)));
    FilterAgrees(sorted, isRemoved, o => o !in Keep(Elements(objects)));
    return Planned(Plan(keep, remove, Total(keep)));
  }

  lemma KeysIdentify(s: set<Backup>, kept: set<Backup>, keys: set<ObjectKey>)
    requires UniqueKeys(s) && kept <= s && keys == KeysOf(kept)
    ensures forall o :: o in s ==> (o.key in keys <==> o in kept)
  {
  }

  lemma ScanOne(p: set<Backup>, x: Backup, seen: set<int>, group: Grouping, cap: nat)
    requires x !in p && forall o :: o in p ==> Before(o, x) && group(o) >= group(x)
    requires ScanCovers(seen, Groups(p, group), cap)
    ensures ScanCovers(Seen(seen, group(x), cap), Groups(p + {x}, group), cap)
    ensures Wins(p + {x}, x, group, cap) <==> |seen| < cap && group(x) !in seen
    ensures forall b :: b in p ==> (Wins(p + {x}, b, group, cap) <==> Wins(p, b, group, cap))
  {
    GroupsInsert(p, x, group);
    hide Wins;
    ScanStep(p, x, group, cap);
    ScanGuard(seen, Groups(p, group), cap, group(x));
  }

  lemma GroupsInsert(p: set<Backup>, x: Backup, group: Grouping)
    ensures Groups(p + {x}, group) == Groups(p, group) + {group(x)}
  {
  }

  lemma ScanExtends(p: set<Backup>, x: Backup, daily: set<int>, monthly: set<int>)
    requires x !in p && forall o :: o in p ==> Before(o, x)
    requires ScanCovers(daily, Groups(p, Day), DAILY_CAP) && ScanCovers(monthly, Groups(p, Month), MONTHLY_CAP)
    ensures ScanCovers(Seen(daily, Day(x), DAILY_CAP), Groups(p + {x}, Day), DAILY_CAP)
    ensures ScanCovers(Seen(monthly, Month(x), MONTHLY_CAP), Groups(p + {x}, Month), MONTHLY_CAP)
    ensures Keep(p + {x}) == Keep(p) +
      if (|daily| < DAILY_CAP && Day(x) !in daily) || (|monthly| < MONTHLY_CAP && Month(x) !in monthly) then {x} else {}
  {
    forall o | o in p ensures Day(o) >= Day(x) && Month(o) >= Month(x) { LaterDayLaterMonth(o, x); }
    hide *;
    ScanOne(p, x, daily, Day, DAILY_CAP);
    ScanOne(p, x, monthly, Month, MONTHLY_CAP);
    KeepByWins(p, x);
  }

  lemma KeepByWins(p: set<Backup>, x: Backup)
    requires x !in p
    requires forall b :: b in p ==> (Wins(p + {x}, b, Day, DAILY_CAP) <==> Wins(p, b, Day, DAILY_CAP))
    requires forall b :: b in p ==> (Wins(p + {x}, b, Month, MONTHLY_CAP) <==> Wins(p, b, Month, MONTHLY_CAP))
    ensures Keep(p + {x}) == Keep(p) + if Retained(p + {x}, x) then {x} else {}
  {
    hide Wins;
  }

  /** What the scan's bounded set knows about the groups it has seen. */
  ghost predicate ScanCovers(seen: set<int>, groups: set<int>, cap: nat) {
    seen <= groups && |seen| <= cap && (|seen| < cap ==> seen == groups)
  }

  ghost function Seen(seen: set<int>, g: int, cap: nat): set<int> {
    if |seen| < cap && g !in seen then seen + {g} else seen
  }

  lemma ScanGuard(seen: set<int>, groups: set<int>, cap: nat, g: int)
    requires ScanCovers(seen, groups, cap)
    ensures (|seen| < cap && g !in seen) <==> (g !in groups && |groups| < cap)
    ensures ScanCovers(Seen(seen, g, cap), groups + {g}, cap)
  {
    SubsetSize(seen, groups);
    if g in groups { assert groups + {g} == groups; }
  }

  lemma SortedBefore(objects: seq<Backup>, sorted: seq<Backup>)
    requires forall j, k :: 0 <= j < k < |objects| ==> objects[j].key != objects[k].key
    requires Ascending(sorted, NewestFirst) && multiset(sorted) == multiset(objects)
    ensures forall j, k :: 0 <= j < k < |sorted| ==> Before(sorted[j], sorted[k])
    ensures UniqueKeys(Elements(objects)) && Elements(sorted) == Elements(objects)
  {
    forall x ensures x in sorted <==> x in objects {
      assert x in multiset(sorted) <==> x in multiset(objects);
    }
    forall j, k | 0 <= j < k < |sorted| ensures Before(sorted[j], sorted[k]) {
      assert NewestFirst(sorted[j], sorted[k]);
      if sorted[j].key == sorted[k].key {
        assert sorted[j] in objects && sorted[k] in objects;
        assert sorted[j] == sorted[k];
        DuplicateCounted(sorted, j, k);
        CountedOnce(objects, sorted[j]);
      }
    }
  }

  lemma DuplicateCounted(s: seq<Backup>, j: nat, k: nat)
    requires j < k < |s| && s[j] == s[k]
    ensures multiset(s)[s[j]] >= 2
  {
    assert s == s[..k] + [s[k]] + s[k + 1..];
    assert s[j] in s[..k];
  }

  lemma {:induction false} CountedOnce(s: seq<Backup>, x: Backup)
    requires forall j, k :: 0 <= j < k < |s| ==> s[j].key != s[k].key
    ensures multiset(s)[x] <= 1
  {
    if s != [] {
      CountedOnce(s[1..], x);
      assert s == [s[0]] + s[1..];
      if s[0] == x { assert x !in s[1..]; }
    }
  }
}
