/** The owner backup store (`createR2OwnerBackupStore`): `put` uploads one object, reads it back and
    then deletes what the retention plan lets go, one object at a time. A remote call may fail. */
module OwnerBackupStore {
  import opened StableSort
  import opened BackupRetention

  const BYTE_CEILING := 1_000_000_000
  const OBJECT_BYTE_CEILING := 16_000_000
  const OBJECT_COUNT_CEILING := 100

  /** Which remote call fails: the upload itself (`stored` tells whether the object landed anyway),
      the read-back, or the delete after `done` successful ones. */
  datatype Fault = NoFault | UploadFails(stored: bool) | ReadBackFails | DeleteFails(done: nat)

  datatype PutError =
    | TooLarge | ListingTooLong | IdempotencyMismatch | CountCeilingReached
    | BadPlan(error: PlanError) | ByteCeilingExceeded | StorageFailed

  datatype PutResult = Stored(o: Backup) | AlreadyStored(o: Backup) | Rejected(error: PutError)

  ghost function Bytes(s: set<Backup>): int {
    if s == {} then 0 else var b :| b in s; b.size + Bytes(s - {b})
  }

  lemma {:induction false} BytesRemove(s: set<Backup>, b: Backup)
    requires b in s
    ensures Bytes(s) == b.size + Bytes(s - {b})
    decreases s
  {
    var c :| c in s && Bytes(s) == c.size + Bytes(s - {c});
    if c != b {
      BytesRemove(s - {c}, b);
      BytesRemove(s - {b}, c);
      assert s - {c} - {b} == s - {b} - {c};
    }
  }

  lemma {:induction false} TotalIsBytes(s: seq<Backup>)
    requires NoDuplicates(s)
    ensures Total(s) == Bytes(Elements(s))
  {
    if s == [] {
      assert Elements(s) == {};
    } else {
      TotalIsBytes(s[1..]);
      assert Elements(s) - {s[0]} == Elements(s[1..]);
      BytesRemove(Elements(s), s[0]);
    }
  }

  /** The plan can be made: keys are unique and every object is well formed and not from the future. */
  ghost predicate Plannable(s: set<Backup>, now: int) {
    UniqueKeys(s) && forall o :: o in s ==> Admissible(o, now)
  }

  /** All guards that `put` checks before it uploads a new object. */
  ghost predicate Accepts(before: set<Backup>, x: Backup, now: int) {
    && x.size <= OBJECT_BYTE_CEILING
    && (forall o :: o in before ==> o.key != x.key)
    && |before| < OBJECT_COUNT_CEILING
    && Plannable(before + {x}, now)
    && Bytes(Keep(before + {x})) <= BYTE_CEILING
  }

  /** One upload that landed: deletes may have stopped early, but only removable objects are gone. */
  ghost predicate PutStep(before: set<Backup>, x: Backup, after: set<Backup>, completed: bool) {
    && Keep(before + {x}) <= after <= before + {x}
    && (completed ==> after == Keep(before + {x}))
  }

  /** The objects of `before` whose keys are not among the deleted ones. */
  ghost predicate DeletedKeys(before: map<ObjectKey, Backup>, after: map<ObjectKey, Backup>, deleted: seq<Backup>) {
    && (forall k :: k in after <==> k in before && forall j :: 0 <= j < |deleted| ==> deleted[j].key != k)
    && (forall k :: k in after ==> after[k] == before[k])
  }

  lemma NoneDeleted(before: map<ObjectKey, Backup>)
    ensures DeletedKeys(before, before, [])
  {
  }

  lemma DeletedOne(before: map<ObjectKey, Backup>, after: map<ObjectKey, Backup>, deleted: seq<Backup>, x: Backup)
    requires DeletedKeys(before, after, deleted)
    ensures DeletedKeys(before, after - {x.key}, deleted + [x]) && |after - {x.key}| <= |after|
  {
    var all := deleted + [x];
    assert all[|deleted|] == x && forall j :: 0 <= j < |deleted| ==> all[j] == deleted[j];
    SubsetSize((after - {x.key}).Keys, after.Keys);
    assert |after| == |after.Keys| && |after - {x.key}| == |(after - {x.key}).Keys|;
  }

  lemma PrefixElements(s: seq<Backup>, n: nat)
    requires n <= |s|
    ensures Elements(s[..n]) <= Elements(s)
  {
  }

  lemma Deleted(before: map<ObjectKey, Backup>, after: map<ObjectKey, Backup>, deleted: seq<Backup>)
    requires DeletedKeys(before, after, deleted) && (forall k :: k in before ==> before[k].key == k)
    requires Elements(deleted) <= before.Values
    ensures after.Values == before.Values - Elements(deleted)
  {
    assert forall j :: 0 <= j < |deleted| ==> deleted[j] in Elements(deleted);
    forall o ensures o in after.Values <==> o in before.Values - Elements(deleted) {
      if o in before.Values && o !in Elements(deleted) {
        forall j | 0 <= j < |deleted| ensures deleted[j].key != o.key { assert deleted[j] in Elements(deleted); }
        assert o.key in after;
      }
    }
  }

  /** What becomes of a new object once the count allows it. */
  ghost predicate NewOutcome(before: set<Backup>, after: set<Backup>, changed: bool, x: Backup, now: int, fault: Fault, r: PutResult) {
    var plannable, fits := Plannable(before + {x}, now), Bytes(Keep(before + {x})) <= BYTE_CEILING;
    && (r == Stored(x) || r == Rejected(StorageFailed) || r == Rejected(ByteCeilingExceeded) || (r.Rejected? && r.error.BadPlan?))
    && (r.Rejected? && r.error.BadPlan? <==> !plannable)
    && (r == Rejected(ByteCeilingExceeded) <==> plannable && !fits)
    && (r == Rejected(StorageFailed) ==> !fault.NoFault?)
    && (changed ==> plannable && fits)
    && (changed || r.Stored? ==> PutStep(before, x, after, r.Stored?))
  }

  class Store {
    var objects: map<ObjectKey, Backup>

    ghost predicate Valid() reads this {
      && (forall k :: k in objects ==> objects[k].key == k)
      && |objects| <= OBJECT_COUNT_CEILING
    }

    ghost function Contents(): set<Backup> reads this { objects.Values }

    constructor ()
      ensures Valid() && Contents() == {}
    {
      objects := map[];
    }

    lemma KeysAreUnique()
      requires Valid()
      ensures UniqueKeys(Contents())
      ensures |Contents()| == |objects|
      ensures forall o :: o in Contents() ==> o.key in objects && objects[o.key] == o
      ensures objects.Keys == KeysOf(Contents())
    {
      KeysCount(Contents());
      assert objects.Keys == KeysOf(Contents());
      assert |objects| == |objects.Keys|;
    }

    /** All stored objects in key order (the listing plus one `head` per key). */
    method List() returns (all: seq<Backup>)
      requires Valid()
      ensures Elements(all) == Contents() && NoDuplicates(all) && |all| == |objects|
      ensures Ascending(all, DistinctKeys)
    {
      all := [];
      var rest := objects.Keys;
      while rest != {}
        invariant rest <= objects.Keys
        invariant forall i :: 0 <= i < |all| ==> all[i].key in objects && objects[all[i].key] == all[i]
        invariant forall i, j :: 0 <= i < j < |all| ==> all[i].key != all[j].key
        invariant forall k :: k in objects ==> (k in rest <==> objects[k] !in all)
        invariant |all| + |rest| == |objects|
        decreases rest
      {
        var k :| k in rest;
        all := all + [objects[k]];
        rest := rest - {k};
      }
      assert forall o :: o in Contents() ==> o in all;
    }

    /** Deletes the planned objects one by one; a failing delete stops the loop. */
    method DeleteAll(remove: seq<Backup>, fault: Fault) returns (i: nat)
      requires Valid()
      requires Elements(remove) <= Contents()
      requires Ascending(remove, DistinctKeys)
      modifies this
      ensures Valid()
      ensures i == if fault.DeleteFails? && fault.done < |remove| then fault.done else |remove|
      ensures Contents() == old(Contents()) - Elements(remove[..i])
    {
      hide DeletedKeys, Ascending, Elements;
      i := 0;
      NoneDeleted(objects);
      while i < |remove|
        invariant 0 <= i <= |remove|
        invariant fault.DeleteFails? ==> i <= fault.done || |remove| <= fault.done
        invariant Valid()
        invariant DeletedKeys(old(objects), objects, remove[..i])
      {
        if fault.DeleteFails? && fault.done == i { break; }
        DeletedOne(old(objects), objects, remove[..i], remove[i]);
        assert remove[..i + 1] == remove[..i] + [remove[i]];
        objects := objects - {remove[i].key};
        i := i + 1;
      }
      PrefixElements(remove, i);
      Deleted(old(objects), objects, remove[..i]);
    }

    /** The retention plan over the listing and the candidate. */
    method PlanWith(existing: seq<Backup>, x: Backup, now: int) returns (r: PlanResult)
      requires Ascending(existing, DistinctKeys) && forall o :: o in existing ==> o.key != x.key
      ensures var s := Elements(existing) + {x};
        && (r.Planned? <==> Plannable(s, now))
        && (r.Planned? ==> Elements(r.plan.remove) == s - Keep(s) && Ascending(r.plan.remove, DistinctKeys)
                           && r.plan.projectedBytes == Bytes(Keep(s)))
    {
      PlanChecks(existing, x, now);
      r := PlanBackupRetention(existing + [x], now);
      hide Keep, Plannable;
      if r.Planned? { PlanMeaning(existing + [x], r.plan.keep, r.plan.remove); }
    }

    method Upload(x: Backup)
      requires Valid() && x.key !in objects && |objects| < OBJECT_COUNT_CEILING
      modifies this
      ensures Valid() && Contents() == old(Contents()) + {x}
    {
      Appended(objects, x);
      objects := objects[x.key := x];
    }

    /** Uploads the object, reads it back and deletes what the plan lets go. */
    method Commit(x: Backup, remove: seq<Backup>, fault: Fault) returns (ok: bool)
      requires Valid() && x.key !in objects && |objects| < OBJECT_COUNT_CEILING
      requires Ascending(remove, DistinctKeys)
      requires Elements(remove) == (Contents() + {x}) - Keep(Contents() + {x})
      modifies this
      ensures Valid()
      ensures ok || objects != old(objects) ==> PutStep(old(Contents()), x, Contents(), ok)
      ensures fault.NoFault? ==> ok
    {
      if fault == UploadFails(false) { return false; }
      ghost var before := Contents();
      Upload(x);
      hide *;
      assert Contents() == before + {x} - {};
      PartialPrune(before, x, {});
      if fault.UploadFails? || fault.ReadBackFails? { return false; }
      var done := DeleteAll(remove, fault);
      ok := done == |remove|;
      ghost var gone := Elements(remove[..done]);
      ElementsOfPrefix(remove, done);
      PartialPrune(before, x, gone);
    }

    /** `put`: `x` is the object to store, stamped by the first clock reading; `now` is the second. */
    method Put(x: Backup, now: int, fault: Fault) returns (r: PutResult)
      requires Valid()
      modifies this
      ensures Valid()
      // A known key is only read, and must hold the same bytes.
      ensures x.size <= OBJECT_BYTE_CEILING && x.key in old(objects) ==>
                var o := old(objects)[x.key];
                objects == old(objects) && r == if o.body == x.body then AlreadyStored(o) else Rejected(IdempotencyMismatch)
      ensures r.AlreadyStored? ==> x.key in old(objects)
      // A new object is stored only past every guard; without a failure it is stored and pruned.
      ensures r.Stored? ==> r.o == x
      ensures objects != old(objects) || r.Stored? ==>
                Accepts(old(Contents()), x, now) && PutStep(old(Contents()), x, Contents(), r.Stored?)
      ensures Accepts(old(Contents()), x, now) && fault.NoFault? ==> r.Stored?
      ensures r == Rejected(StorageFailed) ==> Accepts(old(Contents()), x, now) && !fault.NoFault?
      // Every refusal names the guard that failed first, and stores nothing.
      ensures r == Rejected(TooLarge) <==> x.size > OBJECT_BYTE_CEILING
      ensures r == Rejected(CountCeilingReached) <==>
                x.size <= OBJECT_BYTE_CEILING && x.key !in old(objects) && |old(objects)| == OBJECT_COUNT_CEILING
      ensures r.Rejected? && r.error.BadPlan? <==>
                x.size <= OBJECT_BYTE_CEILING && x.key !in old(objects) && |old(objects)| < OBJECT_COUNT_CEILING
                && !Plannable(old(Contents()) + {x}, now)
      ensures r == Rejected(ByteCeilingExceeded) <==>
                x.size <= OBJECT_BYTE_CEILING && x.key !in old(objects) && |old(objects)| < OBJECT_COUNT_CEILING
                && Plannable(old(Contents()) + {x}, now) && Bytes(Keep(old(Contents()) + {x})) > BYTE_CEILING
      ensures r.Rejected? && r.error != StorageFailed ==> objects == old(objects)
    {
      hide Plannable, Keep, Bytes, PutStep, Elements, Ascending;
      KeysAreUnique();
      if x.size > OBJECT_BYTE_CEILING { return Rejected(TooLarge); }
      var existing := List();
      if |existing| > OBJECT_COUNT_CEILING { return Rejected(ListingTooLong); }
      if x.key in objects {
        assert objects[x.key] in Contents();
        if objects[x.key].body != x.body { return Rejected(IdempotencyMismatch); }
        return AlreadyStored(objects[x.key]);
      }
      if |existing| >= OBJECT_COUNT_CEILING { return Rejected(CountCeilingReached); }
      r := PutNew(existing, x, now, fault);
    }

    lemma NotAmong(existing: seq<Backup>, x: Backup)
      requires Valid() && x.key !in objects && Elements(existing) == Contents()
      ensures forall o :: o in existing ==> o.key != x.key
    {
      forall o | o in existing ensures o.key != x.key { assert o in Elements(existing); }
    }

    /** The part of `put` after the checks that need no plan. */
    method PutNew(existing: seq<Backup>, x: Backup, now: int, fault: Fault) returns (r: PutResult)
      requires Valid() && x.key !in objects && |objects| < OBJECT_COUNT_CEILING
      requires Elements(existing) == Contents() && Ascending(existing, DistinctKeys)
      modifies this
      ensures Valid()
      ensures NewOutcome(old(Contents()), Contents(), objects != old(objects), x, now, fault, r)
    {
      hide Plannable, Keep, Bytes, PutStep, Elements, Ascending;
      NotAmong(existing, x);
      var retention := PlanWith(existing, x, now);
      if retention.Refused? { return Rejected(BadPlan(retention.error)); }
      if retention.plan.projectedBytes > BYTE_CEILING { return Rejected(ByteCeilingExceeded); }
      var ok := Commit(x, retention.plan.remove, fault);
      if !ok { return Rejected(StorageFailed); }
      return Stored(x);
    }
  }

  /** Deleting removable objects only, whether or not all of them, is a legal step. */
  lemma PartialPrune(before: set<Backup>, x: Backup, gone: set<Backup>)
    requires gone <= before + {x} - Keep(before + {x})
    ensures PutStep(before, x, before + {x} - gone, gone == before + {x} - Keep(before + {x}))
    ensures PutStep(before, x, before + {x} - gone, false)
  {
    KeepIsSubset(before + {x});
    hide Keep;
  }

  lemma ElementsOfPrefix(s: seq<Backup>, n: nat)
    requires n <= |s|
    ensures Elements(s[..n]) <= Elements(s) && (n == |s| ==> Elements(s[..n]) == Elements(s))
  {
    assert n == |s| ==> s[..n] == s;
  }

  lemma Appended(m: map<ObjectKey, Backup>, x: Backup)
    requires x.key !in m
    ensures m[x.key := x].Values == m.Values + {x}
  {
    var n := m[x.key := x];
    assert n[x.key] == x;
    forall o | o in m.Values ensures o in n.Values {
      var k :| k in m && m[k] == o;
      assert n[k] == o;
    }
  }

  lemma {:induction false} KeysCount(s: set<Backup>)
    requires UniqueKeys(s)
    ensures |KeysOf(s)| == |s|
    decreases s
  {
    if s == {} {
      assert KeysOf(s) == {};
    } else {
      var b :| b in s;
      KeysCount(s - {b});
      assert KeysOf(s) == KeysOf(s - {b}) + {b.key};
      assert b.key !in KeysOf(s - {b});
    }
  }

  function DistinctKeys(a: Backup, b: Backup): bool { a.key != b.key }

  /** What a plan over a listing with unique keys says about the set of objects. */
  lemma PlanMeaning(all: seq<Backup>, keep: seq<Backup>, remove: seq<Backup>)
    requires Ascending(all, DistinctKeys)
    requires keep == Filter(Sort(all, NewestFirst), o => o in Keep(Elements(all)))
    requires remove == Filter(Sort(all, NewestFirst), o => o !in Keep(Elements(all)))
    ensures Elements(keep) == Keep(Elements(all)) && Elements(remove) == Elements(all) - Keep(Elements(all))
    ensures Ascending(remove, DistinctKeys) && Total(keep) == Bytes(Keep(Elements(all)))
  {
    var sorted := Sort(all, NewestFirst);
    NewestFirstIsOrder();
    SortIsSorting(all, NewestFirst);
    SortedBefore(all, sorted);
    hide Keep;
    assert Ascending(sorted, DistinctKeys) by {
      forall j, k | 0 <= j < k < |sorted| ensures DistinctKeys(sorted[j], sorted[k]) {
        assert Before(sorted[j], sorted[k]);
        assert sorted[j] in Elements(all) && sorted[k] in Elements(all);
      }
    }
    FilterAscending(sorted, DistinctKeys, o => o in Keep(Elements(all)));
    FilterAscending(sorted, DistinctKeys, o => o !in Keep(Elements(all)));
    KeepIsSubset(Elements(all));
    TotalIsBytes(keep);
  }

  lemma KeepIsSubset(s: set<Backup>)
    ensures Keep(s) <= s
  {
  }

  /** The checks of the plan, for a listing with the candidate appended. */
  lemma PlanChecks(existing: seq<Backup>, x: Backup, now: int)
    requires Ascending(existing, DistinctKeys)
    requires forall o :: o in existing ==> o.key != x.key
    ensures Ascending(existing + [x], DistinctKeys)
    ensures Elements(existing + [x]) == Elements(existing) + {x}
    ensures UniqueKeys(Elements(existing + [x]))
    ensures (forall o :: o in existing + [x] ==> Admissible(o, now)) <==> Plannable(Elements(existing) + {x}, now)
  {
    var all := existing + [x];
    assert Ascending(all, DistinctKeys);
    forall a, b | a in all && b in all && a.key == b.key ensures a == b {
      var i, j :| 0 <= i < |all| && 0 <= j < |all| && all[i] == a && all[j] == b;
    }
    assert Elements(all) == Elements(existing) + {x};
  }
}
