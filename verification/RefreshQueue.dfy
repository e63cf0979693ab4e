/** The match detail refresh queue: a status machine per item, due items in (time, id) order, and a
    visibility lease for items being processed. The stored state is read and written as a whole under
    the queue's lock, so a method works on the items directly. Times are milliseconds. */
module RefreshQueue {
  import opened Options
  import opened StableSort
  import JsMap

  /** A safe match id; the rank stands for `localeCompare`. */
  datatype Id = Id(rank: int)

  datatype Status = Pending | Processing | Completed | Failed | QuotaDeferred

  datatype Item = Item(matchId: Id, status: Status, attempts: nat, maxAttempts: int, nextAttemptAt: int,
                       lastAttemptAt: Option<int>, lastError: Option<string>, createdAt: int, updatedAt: int)

  type Items = JsMap.JsMap<Id, Item>

  predicate Due(i: Item, now: int) {
    (i.status.Pending? || i.status.QuotaDeferred? || i.status.Processing?) && i.nextAttemptAt <= now
  }

  function IsDue(now: int): Item -> bool { (i: Item) => Due(i, now) }

  function DueLeq(a: Item, b: Item): bool {
    a.nextAttemptAt < b.nextAttemptAt || (a.nextAttemptAt == b.nextAttemptAt && a.matchId.rank <= b.matchId.rank)
  }

  function AllDue(items: Items, now: int): seq<Item> { Sort(Filter(JsMap.Values(items), IsDue(now)), DueLeq) }

  function Take(s: seq<Item>, n: nat): seq<Item> { if n <= |s| then s[..n] else s }

  // ---------------------------------------------------------------- what each operation does to an item

  function NewItem(id: Id, maxAttempts: int, now: int): Item { Item(id, Pending, 0, maxAttempts, now, None, None, now, now) }

  /** A quota deferral becomes pending again only after its due time; nothing else is touched. */
  function Requeue(i: Item, maxAttempts: int, now: int): Item {
    if i.status.QuotaDeferred? && i.nextAttemptAt <= now
    then i.(status := Pending, attempts := 0, maxAttempts := maxAttempts, nextAttemptAt := now, lastError := None, updatedAt := now)
    else i
  }

  function Start(i: Item, now: int, leaseMs: int): Item {
    i.(status := Processing, attempts := i.attempts + 1, lastAttemptAt := Some(now), nextAttemptAt := now + leaseMs,
       lastError := None, updatedAt := now)
  }

  function Complete(i: Item, now: int): Item { i.(status := Completed, lastError := None, updatedAt := now) }

  function Defer(i: Item, reason: Option<string>, next: Option<int>, now: int): Item {
    i.(status := QuotaDeferred, lastError := if reason.Some? then reason else i.lastError,
       nextAttemptAt := if next.Some? then next.value else i.nextAttemptAt, updatedAt := now)
  }

  function Fail(i: Item, error: string, next: Option<int>, terminal: bool, now: int): Item {
    i.(lastError := Some(error), updatedAt := now, nextAttemptAt := if next.Some? then next.value else i.nextAttemptAt,
       status := if terminal || i.attempts >= i.maxAttempts then Failed else Pending)
  }

  /** Applies `f` to every listed item that exists, in order, once per listing. */
  function UpdateAll(items: Items, ids: seq<Id>, f: Item -> Item): Items {
    if ids == [] then items
    else
      var before := UpdateAll(items, ids[..|ids| - 1], f);
      var id := ids[|ids| - 1];
      match JsMap.Lookup(before, id)
      case None => before
      case Some(i) => JsMap.Set(before, id, f(i))
  }

  function Starting(now: int, leaseMs: int): Item -> Item { (i: Item) => Start(i, now, leaseMs) }
  function Completing(now: int): Item -> Item { (i: Item) => Complete(i, now) }
  function Deferring(reason: Option<string>, next: Option<int>, now: int): Item -> Item { (i: Item) => Defer(i, reason, next, now) }
  function Failing(error: string, next: Option<int>, terminal: bool, now: int): Item -> Item {
    (i: Item) => Fail(i, error, next, terminal, now)
  }

  function Enqueue(items: Items, id: Id, maxAttempts: int, now: int): Items {
    match JsMap.Lookup(items, id)
    case None => JsMap.Set(items, id, NewItem(id, maxAttempts, now))
    case Some(i) => JsMap.Set(items, id, Requeue(i, maxAttempts, now))
  }

  function Stays(cutoff: int): JsMap.Entry<Id, Item> -> bool {
    (e: JsMap.Entry<Id, Item>) => !(e.value.status.Completed? && e.value.updatedAt <= cutoff)
  }

  function Prune(items: Items, cutoff: int): Items { Filter(items, Stays(cutoff)) }

  // ---------------------------------------------------------------- what every operation keeps

  /** A pending item has attempts left. */
  predicate SoundItem(i: Item) {
    0 < i.maxAttempts && (i.status.Pending? ==> i.attempts < i.maxAttempts)
  }

  ghost predicate Sound(items: Items) {
    JsMap.UniqueKeys(items) && forall e :: e in items ==> e.key == e.value.matchId && SoundItem(e.value)
  }

  class Queue {
    var items: Items
    const leaseMs: int

    ghost predicate Valid() reads this { Sound(items) && 0 < leaseMs }

    constructor (leaseMs: int)
      requires 0 < leaseMs
      ensures Valid() && items == [] && this.leaseMs == leaseMs
    {
      this.leaseMs := leaseMs;
      items := [];
    }

    method EnqueueItem(id: Id, maxAttempts: int, now: int) returns (r: Option<Item>)
      requires Valid()
      modifies this`items
      ensures Valid()
      ensures maxAttempts <= 0 ==> r.None? && items == old(items)
      ensures 0 < maxAttempts ==>
        && JsMap.Lookup(items, id).Some? && EnqueuedAs(JsMap.Lookup(old(items), id), id, maxAttempts, now, JsMap.Lookup(items, id).value)
        && forall other :: other != id ==> JsMap.Lookup(items, other) == JsMap.Lookup(old(items), other)
      ensures 0 < maxAttempts ==> items == Enqueue(old(items), id, maxAttempts, now)
                                  && r.Some? && JsMap.Lookup(items, id) == Some(r.value)
    {
      if maxAttempts <= 0 { return None; }
      EnqueueSound(items, id, maxAttempts, now);
      EnqueueLookup(items, id, maxAttempts, now);
      var existing := JsMap.Lookup(items, id);
      var item: Item;
      if existing.Some? {
        item := existing.value;
        if item.status.Pending? || item.status.Processing? || item.status.Completed? || item.status.Failed? || item.nextAttemptAt > now {
          SetLooked(items, id);
          return Some(item);
        }
        item := item.(status := Pending, attempts := 0, maxAttempts := maxAttempts, nextAttemptAt := now, lastError := None, updatedAt := now);
      } else {
        item := Item(id, Pending, 0, maxAttempts, now, None, None, now, now);
      }
      JsMap.SetLookup(items, id, item);
      items := JsMap.Set(items, id, item);
      return Some(item);
    }

    /** Hands out due items in due order, and leaves out only what comes after all of them. */
    method GetDueItems(limit: int, now: int) returns (r: Option<seq<Item>>)
      requires Valid()
      ensures r.None? <==> limit <= 0
      ensures r.Some? ==> |r.value| <= limit && DistinctItems(r.value) && Ascending(r.value, DueLeq)
      ensures r.Some? ==> forall i :: i in r.value ==> Due(i, now) && JsMap.Lookup(items, i.matchId) == Some(i)
      ensures r.Some? ==> forall e :: e in items && Due(e.value, now) && e.value !in r.value ==>
                |r.value| == limit && forall i :: i in r.value ==> DueLeq(i, e.value)
      ensures r.Some? ==> r.value == Take(AllDue(items, now), limit)
    {
      if limit <= 0 { return None; }
      var due := Sort(Filter(JsMap.Values(items), IsDue(now)), DueLeq);
      DueDistinct(items, now);
      assert due == AllDue(items, now);
      hide Sort, Filter, AllDue, Sound;
      r := Some(if limit <= |due| then due[..limit] else due);
      TakenFirst(due, limit);
    }

    /** The loop that all marking operations share. */
    method Mark(ids: seq<Id>, f: Item -> Item)
      requires Valid() && KeepsSound(f)
      modifies this`items
      ensures Valid() && items == UpdateAll(old(items), ids, f)
    {
      for k := 0 to |ids|
        invariant Sound(items) && items == UpdateAll(old(items), ids[..k], f)
      {
        assert ids[..k + 1][..k] == ids[..k];
        var item := JsMap.Lookup(items, ids[k]);
        if item.Some? {
          SetSound(items, ids[k], f);
          items := JsMap.Set(items, ids[k], f(item.value));
        }
      }
      assert ids[..|ids|] == ids;
    }

    method MarkProcessing(ids: seq<Id>, now: int)
      requires Valid()
      modifies this`items
      ensures NoDuplicates(ids) ==> Marks(old(items), items, ids, StartStep(now, leaseMs))
      ensures Valid() && items == UpdateAll(old(items), ids, Starting(now, leaseMs))
    {
      if NoDuplicates(ids) { UpdatesMark(items, ids, Starting(now, leaseMs), StartStep(now, leaseMs)); }
      Mark(ids, Starting(now, leaseMs));
    }

    method MarkCompleted(ids: seq<Id>, now: int)
      requires Valid()
      modifies this`items
      ensures NoDuplicates(ids) ==> Marks(old(items), items, ids, CompleteStep(now))
      ensures Valid() && items == UpdateAll(old(items), ids, Completing(now))
    {
      if NoDuplicates(ids) { UpdatesMark(items, ids, Completing(now), CompleteStep(now)); }
      Mark(ids, Completing(now));
    }

    method MarkDeferred(ids: seq<Id>, reason: Option<string>, next: Option<int>, now: int)
      requires Valid()
      modifies this`items
      ensures NoDuplicates(ids) ==> Marks(old(items), items, ids, DeferStep(reason, next, now))
      ensures Valid() && items == UpdateAll(old(items), ids, Deferring(reason, next, now))
    {
      if NoDuplicates(ids) { UpdatesMark(items, ids, Deferring(reason, next, now), DeferStep(reason, next, now)); }
      Mark(ids, Deferring(reason, next, now));
    }

    method MarkFailed(ids: seq<Id>, error: string, next: Option<int>, terminal: bool, now: int)
      requires Valid()
      modifies this`items
      ensures NoDuplicates(ids) ==> Marks(old(items), items, ids, FailStep(error, next, terminal, now))
      ensures Valid() && items == UpdateAll(old(items), ids, Failing(error, next, terminal, now))
    {
      if NoDuplicates(ids) { UpdatesMark(items, ids, Failing(error, next, terminal, now), FailStep(error, next, terminal, now)); }
      Mark(ids, Failing(error, next, terminal, now));
    }

    method PruneCompleted(olderThanSeconds: int, now: int) returns (r: Option<nat>)
      requires Valid()
      modifies this`items
      ensures Valid()
      ensures olderThanSeconds < 0 ==> r.None? && items == old(items)
      ensures 0 <= olderThanSeconds ==> OldCompletedGone(old(items), items, now - olderThanSeconds * 1000)
      ensures 0 <= olderThanSeconds ==> items == Prune(old(items), now - olderThanSeconds * 1000) && r == Some(|old(items)| - |items|)
    {
      if olderThanSeconds < 0 { return None; }
      var cutoff := now - olderThanSeconds * 1000;
      var kept: Items := [];
      var pruned := 0;
      hide Filter, JsMap.UniqueKeys;
      FilterNone([], Stays(cutoff));
      for k := 0 to |items|
        invariant items == old(items)
        invariant kept == Filter(items[..k], Stays(cutoff)) && pruned == k - |kept|
      {
        FilterLast(items[..k + 1], Stays(cutoff));
        assert items[..k + 1][..k] == items[..k];
        var item := items[k].value;
        if item.status.Completed? && item.updatedAt <= cutoff {
          pruned := pruned + 1;
        } else {
          kept := kept + [items[k]];
        }
      }
      assert items[..|items|] == items;
      PruneSound(items, cutoff);
      PruneLookup(items, cutoff);
      items := kept;
      return Some(pruned);
    }
  }

  // ---------------------------------------------------------------- the due list

  ghost predicate DistinctItems(s: seq<Item>) {
    forall i, j :: 0 <= i < j < |s| ==> s[i].matchId != s[j].matchId
  }

  function OtherItem(a: Item, b: Item): bool { a.matchId != b.matchId }

  /** What is due, in due order: exactly the due items, each once. */
  lemma DueDistinct(items: Items, now: int)
    requires Sound(items)
    ensures DistinctItems(AllDue(items, now)) && Ascending(AllDue(items, now), DueLeq)
    ensures forall i :: i in AllDue(items, now) ==> Due(i, now) && JsMap.Lookup(items, i.matchId) == Some(i)
    ensures forall e :: e in items && Due(e.value, now) ==> e.value in AllDue(items, now)
  {
    var vs := JsMap.Values(items);
    forall i | 0 <= i < |items| ensures items[i].key == vs[i].matchId { assert items[i] in items; }
    assert Ascending(vs, OtherItem);
    FilterAscending(vs, OtherItem, IsDue(now));
    var due := Filter(vs, IsDue(now));
    assert TotalPreorder(DueLeq);
    SortPairwise(due, DueLeq, OtherItem);
    SortIsSorting(due, DueLeq);
    var s := AllDue(items, now);
    assert forall i, j :: 0 <= i < j < |s| ==> OtherItem(s[i], s[j]);
    forall i | i in s ensures Due(i, now) && JsMap.Lookup(items, i.matchId) == Some(i) {
      assert i in due && i in vs;
      var k :| 0 <= k < |items| && vs[k] == i;
      JsMap.LookupAt(items, k);
    }
    forall e | e in items && Due(e.value, now) ensures e.value in s {
      var k :| 0 <= k < |items| && items[k] == e;
      assert vs[k] == e.value && e.value in vs && e.value in due;
    }
  }

  /** A first part of an ordered list: what is left out comes after it. */
  lemma TakenFirst(due: seq<Item>, n: nat)
    requires Ascending(due, DueLeq) && DistinctItems(due)
    ensures var t := Take(due, n);
      && |t| <= n && Ascending(t, DueLeq) && DistinctItems(t) && (forall i :: i in t ==> i in due)
      && (forall x :: x in due && x !in t ==> |t| == n && forall i :: i in t ==> DueLeq(i, x))
  {
    var t := Take(due, n);
    forall x, i | x in due && x !in t && i in t ensures |t| == n && DueLeq(i, x) {
      var k :| 0 <= k < |due| && due[k] == x;
      var j :| 0 <= j < |t| && t[j] == i;
      assert k < n ==> t[k] == x;
    }
  }

  ghost predicate KeepsSound(f: Item -> Item) {
    forall i :: SoundItem(i) ==> SoundItem(f(i)) && f(i).matchId == i.matchId
  }

  lemma SetLooked(items: Items, id: Id)
    requires JsMap.UniqueKeys(items) && JsMap.Has(items, id)
    ensures JsMap.Set(items, id, JsMap.Lookup(items, id).value) == items
  {
    var k := JsMap.LookupIndex(items, id);
    JsMap.SetAt(items, id, items[k].value, k);
  }

  lemma PutSound(items: Items, id: Id, i: Item)
    requires Sound(items) && i.matchId == id && SoundItem(i)
    ensures Sound(JsMap.Set(items, id, i))
  {
    JsMap.SetLookup(items, id, i);
    if JsMap.Has(items, id) {
      var k := JsMap.LookupIndex(items, id);
      JsMap.SetAt(items, id, i, k);
    } else {
      JsMap.SetFresh(items, id, i);
    }
  }

  lemma LookedSound(items: Items, id: Id)
    requires Sound(items) && JsMap.Has(items, id)
    ensures var i := JsMap.Lookup(items, id).value; i.matchId == id && SoundItem(i)
  {
    var k := JsMap.LookupIndex(items, id);
    assert items[k] in items;
  }

  lemma SetSound(items: Items, id: Id, f: Item -> Item)
    requires Sound(items) && JsMap.Has(items, id) && KeepsSound(f)
    ensures Sound(JsMap.Set(items, id, f(JsMap.Lookup(items, id).value)))
  {
    LookedSound(items, id);
    PutSound(items, id, f(JsMap.Lookup(items, id).value));
  }

  lemma EnqueueSound(items: Items, id: Id, maxAttempts: int, now: int)
    requires Sound(items) && 0 < maxAttempts
    ensures Sound(Enqueue(items, id, maxAttempts, now))
  {
    if JsMap.Has(items, id) {
      LookedSound(items, id);
      PutSound(items, id, Requeue(JsMap.Lookup(items, id).value, maxAttempts, now));
    } else {
      PutSound(items, id, NewItem(id, maxAttempts, now));
    }
  }

  lemma {:induction false} LookupKept(items: Items, p: JsMap.Entry<Id, Item> -> bool, id: Id)
    requires JsMap.UniqueKeys(items)
    ensures JsMap.Lookup(Filter(items, p), id) ==
      var i := JsMap.Lookup(items, id); if i.Some? && p(JsMap.Entry(id, i.value)) then i else None
  {
    hide Filter;
    FilterCons(items, p);
    if items != [] {
      var rest := Filter(items[1..], p);
      LookupKept(items[1..], p, id);
      assert ([items[0]] + rest)[1..] == rest;
      assert Filter(items, p) == if p(items[0]) then [items[0]] + rest else rest;
      if items[0].key == id {
        assert items[0] == JsMap.Entry(id, items[0].value);
        forall i | 0 <= i < |items[1..]| ensures items[1..][i].key != id { assert items[i + 1].key != items[0].key; }
        assert JsMap.Lookup(items[1..], id).None?;
      }
    }
  }

  // ---------------------------------------------------------------- what a call leaves

  /** Every listed item that is stored changed as `step` says; nothing else changed. */
  ghost predicate Marks(before: Items, after: Items, ids: seq<Id>, step: (Item, Item) -> bool) {
    forall id :: match JsMap.Lookup(before, id)
      case None => JsMap.Lookup(after, id).None?
      case Some(b) => JsMap.Lookup(after, id).Some? && if id in ids then step(b, JsMap.Lookup(after, id).value) else JsMap.Lookup(after, id) == Some(b)
  }

  lemma {:induction false} UpdatedLookup(items: Items, ids: seq<Id>, f: Item -> Item, id: Id)
    requires NoDuplicates(ids)
    ensures var i := JsMap.Lookup(items, id);
      JsMap.Lookup(UpdateAll(items, ids, f), id) == if i.Some? && id in ids then Some(f(i.value)) else i
  {
    hide JsMap.Set, JsMap.Lookup;
    if ids != [] {
      var init, last := ids[..|ids| - 1], ids[|ids| - 1];
      UpdatedLookup(items, init, f, id);
      UpdatedLookup(items, init, f, last);
      assert ids == init + [last] && last !in init;
      var before := UpdateAll(items, init, f);
      if JsMap.Has(before, last) { JsMap.SetFound(before, last, f(JsMap.Lookup(before, last).value), id); }
    }
  }

  lemma UpdatesMark(items: Items, ids: seq<Id>, f: Item -> Item, step: (Item, Item) -> bool)
    requires NoDuplicates(ids) && forall i :: step(i, f(i))
    ensures Marks(items, UpdateAll(items, ids, f), ids, step)
  {
    hide JsMap.Lookup, UpdateAll;
    forall id ensures var i := JsMap.Lookup(items, id);
      JsMap.Lookup(UpdateAll(items, ids, f), id) == if i.Some? && id in ids then Some(f(i.value)) else i
    {
      UpdatedLookup(items, ids, f, id);
    }
  }

  /** The id, the creation and the limit of an item do not change. */
  predicate SameItem(b: Item, a: Item) { a.matchId == b.matchId && a.createdAt == b.createdAt && a.maxAttempts == b.maxAttempts }

  function StartStep(now: int, leaseMs: int): (Item, Item) -> bool {
    (b: Item, a: Item) => SameItem(b, a) && a.status == Processing && a.attempts == b.attempts + 1 && a.lastAttemptAt == Some(now)
      && a.nextAttemptAt == now + leaseMs && a.lastError.None? && a.updatedAt == now
  }

  function CompleteStep(now: int): (Item, Item) -> bool {
    (b: Item, a: Item) => SameItem(b, a) && a.status == Completed && a.attempts == b.attempts && a.lastAttemptAt == b.lastAttemptAt
      && a.nextAttemptAt == b.nextAttemptAt && a.lastError.None? && a.updatedAt == now
  }

  function DeferStep(reason: Option<string>, next: Option<int>, now: int): (Item, Item) -> bool {
    (b: Item, a: Item) => SameItem(b, a) && a.status == QuotaDeferred && a.attempts == b.attempts && a.lastAttemptAt == b.lastAttemptAt
      && a.nextAttemptAt == (if next.Some? then next.value else b.nextAttemptAt)
      && a.lastError == (if reason.Some? then reason else b.lastError) && a.updatedAt == now
  }

  function FailStep(error: string, next: Option<int>, terminal: bool, now: int): (Item, Item) -> bool {
    (b: Item, a: Item) => SameItem(b, a) && a.status == (if terminal || b.maxAttempts <= b.attempts then Failed else Pending)
      && a.attempts == b.attempts && a.lastAttemptAt == b.lastAttemptAt
      && a.nextAttemptAt == (if next.Some? then next.value else b.nextAttemptAt) && a.lastError == Some(error) && a.updatedAt == now
  }

  /** How an item stands after it was enqueued: new, restarted after its deferral, or as it was. */
  predicate EnqueuedAs(before: Option<Item>, id: Id, maxAttempts: int, now: int, a: Item) {
    match before
    case None => a == Item(id, Pending, 0, maxAttempts, now, None, None, now, now)
    case Some(b) =>
      if b.status == QuotaDeferred && b.nextAttemptAt <= now
      then a == Item(b.matchId, Pending, 0, maxAttempts, now, b.lastAttemptAt, None, b.createdAt, now)
      else a == b
  }

  lemma EnqueueLookup(items: Items, id: Id, maxAttempts: int, now: int)
    ensures var after := Enqueue(items, id, maxAttempts, now);
      && JsMap.Lookup(after, id).Some? && EnqueuedAs(JsMap.Lookup(items, id), id, maxAttempts, now, JsMap.Lookup(after, id).value)
      && forall other :: other != id ==> JsMap.Lookup(after, other) == JsMap.Lookup(items, other)
  {
    hide JsMap.Set, JsMap.Lookup;
    var found := JsMap.Lookup(items, id);
    var item := if found.None? then NewItem(id, maxAttempts, now) else Requeue(found.value, maxAttempts, now);
    forall other ensures JsMap.Lookup(JsMap.Set(items, id, item), other) == if other == id then Some(item) else JsMap.Lookup(items, other) {
      JsMap.SetFound(items, id, item, other);
    }
  }

  /** Completed items last changed at or before the cutoff are gone, all others are as they were. */
  ghost predicate OldCompletedGone(before: Items, after: Items, cutoff: int) {
    forall id :: JsMap.Lookup(after, id) == Unless(JsMap.Lookup(before, id), cutoff)
  }

  function Unless(i: Option<Item>, cutoff: int): Option<Item> {
    if i.Some? && i.value.status == Completed && i.value.updatedAt <= cutoff then None else i
  }

  lemma PruneLookup(items: Items, cutoff: int)
    requires JsMap.UniqueKeys(items)
    ensures OldCompletedGone(items, Prune(items, cutoff), cutoff)
  {
    hide Filter, JsMap.Lookup;
    forall id ensures JsMap.Lookup(Prune(items, cutoff), id) == Unless(JsMap.Lookup(items, id), cutoff) {
      LookupKept(items, Stays(cutoff), id);
    }
  }

  function OtherKey(a: JsMap.Entry<Id, Item>, b: JsMap.Entry<Id, Item>): bool { a.key != b.key }

  lemma PruneSound(items: Items, cutoff: int)
    requires Sound(items)
    ensures Sound(Prune(items, cutoff))
  {
    assert forall i, j :: 0 <= i < j < |items| ==> OtherKey(items[i], items[j]);
    FilterAscending(items, OtherKey, Stays(cutoff));
    var p := Prune(items, cutoff);
    assert forall i, j :: 0 <= i < j < |p| ==> OtherKey(p[i], p[j]);
  }
}
