/** Draining the queue in rounds. */
module RefreshQueueRuns {
  import opened Options
  import opened StableSort
  import opened RefreshQueue
  import JsMap

  // ---------------------------------------------------------------- marking a set of items

  lemma {:induction false} UpdateAllSound(items: Items, ids: seq<Id>, f: Item -> Item)
    requires Sound(items) && KeepsSound(f)
    ensures Sound(UpdateAll(items, ids, f))
  {
    hide KeepsSound;
    if ids != [] {
      UpdateAllSound(items, ids[..|ids| - 1], f);
      var before := UpdateAll(items, ids[..|ids| - 1], f);
      if JsMap.Has(before, ids[|ids| - 1]) { SetSound(before, ids[|ids| - 1], f); }
    }
  }

  function Touched(e: JsMap.Entry<Id, Item>, ids: seq<Id>, f: Item -> Item): JsMap.Entry<Id, Item> {
    if e.key in ids then JsMap.Entry(e.key, f(e.value)) else e
  }

  /** With distinct ids every listed item is updated once, in place; nothing else changes. */
  lemma {:induction false} UpdateAllAt(items: Items, ids: seq<Id>, f: Item -> Item)
    requires JsMap.UniqueKeys(items) && NoDuplicates(ids)
    ensures |UpdateAll(items, ids, f)| == |items| && JsMap.UniqueKeys(UpdateAll(items, ids, f))
    ensures forall k :: 0 <= k < |items| ==> UpdateAll(items, ids, f)[k] == Touched(items[k], ids, f)
  {
    if ids != [] {
      var init, last := ids[..|ids| - 1], ids[|ids| - 1];
      UpdateAllAt(items, init, f);
      var before := UpdateAll(items, init, f);
      assert ids == init + [last] && last !in init;
      if JsMap.Has(before, last) {
        var p := JsMap.LookupIndex(before, last);
        JsMap.SetAt(before, last, f(before[p].value), p);
        forall k | 0 <= k < |items| ensures before[k].key == items[k].key {}
        forall k | 0 <= k < |items| && k != p ensures items[k].key != last { assert before[k].key != before[p].key; }
      } else {
        forall k | 0 <= k < |items| ensures items[k].key != last { assert before[k].key != last; }
      }
    }
  }

  // ---------------------------------------------------------------- rounds

  function IdsOf(batch: seq<Item>): seq<Id> { seq(|batch|, i requires 0 <= i < |batch| => batch[i].matchId) }

  function NotAmong(ids: seq<Id>): Item -> bool { (i: Item) => i.matchId !in ids }

  function DueAndNotAmong(now: int, ids: seq<Id>): Item -> bool { (i: Item) => Due(i, now) && i.matchId !in ids }

  /** Filtering two lists of the same shape that differ only in elements neither filter takes. */
  lemma {:induction false} FilterPointwise(a: seq<Item>, b: seq<Item>, p: Item -> bool, q: Item -> bool)
    requires |a| == |b| && forall k :: 0 <= k < |a| ==> if q(a[k]) then p(b[k]) && a[k] == b[k] else !p(b[k])
    ensures Filter(b, p) == Filter(a, q)
  {
    if a != [] { FilterPointwise(a[1..], b[1..], p, q); }
  }

  lemma {:induction false} FilterPrefix(s: seq<Item>, n: nat)
    requires DistinctItems(s) && n <= |s|
    ensures Filter(s, NotAmong(IdsOf(s[..n]))) == s[n..]
  {
    var p := NotAmong(IdsOf(s[..n]));
    forall k | 0 <= k < n ensures !p(s[k]) { assert IdsOf(s[..n])[k] == s[k].matchId; }
    assert s == s[..n] + s[n..];
    FilterConcat(s[..n], s[n..], p);
    FilterNone(s[..n], p);
    FilterAll(s[n..], p);
  }

  /** After a batch was marked as processing, what is due is what was due without the batch. */
  lemma MarkedBatchLeaves(items: Items, n: nat, now: int, leaseMs: int)
    requires Sound(items) && 0 < leaseMs && n <= |AllDue(items, now)|
    ensures var ids := IdsOf(AllDue(items, now)[..n]);
      var after := UpdateAll(items, ids, Starting(now, leaseMs));
      && Sound(after) && AllDue(after, now) == AllDue(items, now)[n..]
  {
    var due := AllDue(items, now);
    var ids := IdsOf(due[..n]);
    DueDistinct(items, now);
    assert NoDuplicates(ids);
    UpdateAllAt(items, ids, Starting(now, leaseMs));
    UpdateAllSound(items, ids, Starting(now, leaseMs));
    var after := UpdateAll(items, ids, Starting(now, leaseMs));
    var before, vs := JsMap.Values(items), JsMap.Values(after);
    forall k | 0 <= k < |before|
      ensures if DueAndNotAmong(now, ids)(before[k]) then IsDue(now)(vs[k]) && before[k] == vs[k] else !IsDue(now)(vs[k])
    {
      assert items[k] in items;
      assert after[k] == Touched(items[k], ids, Starting(now, leaseMs));
    }
    hide Sound, UpdateAll, Filter, Sort, IdsOf;
    FilterPointwise(before, vs, IsDue(now), DueAndNotAmong(now, ids));
    FilterTwice(before, IsDue(now), NotAmong(ids), DueAndNotAmong(now, ids));
    DueIsOrder();
    FilterSort(Filter(before, IsDue(now)), DueLeq, NotAmong(ids));
    FilterPrefix(due, n);
  }

  lemma DueIsOrder()
    ensures TotalPreorder(DueLeq)
  {
  }

  /** `getDueItems(limit, now)` followed by `markProcessing`, `rounds` times at one time; the batches. */
  function Rounds(items: Items, limit: int, now: int, leaseMs: int, rounds: nat): seq<seq<Item>>
    requires 0 < limit
    decreases rounds
  {
    if rounds == 0 then []
    else
      var batch := Take(AllDue(items, now), limit);
      [batch] + Rounds(UpdateAll(items, IdsOf(batch), Starting(now, leaseMs)), limit, now, leaseMs, rounds - 1)
  }

  function Concat(batches: seq<seq<Item>>): seq<Item> {
    if batches == [] then [] else batches[0] + Concat(batches[1..])
  }

  function RoundsNeeded(n: nat, limit: int): nat
    requires 0 < limit
  {
    if n == 0 then 0 else 1 + RoundsNeeded(if n <= limit then 0 else n - limit, limit)
  }

  /** `RoundsNeeded` is n / limit, rounded up. */
  lemma {:induction false} RoundsAreCeiling(n: nat, limit: int)
    requires 0 < limit
    ensures n <= RoundsNeeded(n, limit) * limit < n + limit
  {
    if n > 0 {
      var m := if n <= limit then 0 else n - limit;
      RoundsAreCeiling(m, limit);
      assert RoundsNeeded(n, limit) * limit == limit + RoundsNeeded(m, limit) * limit;
    }
  }

  lemma OneRound(items: Items, limit: int, now: int, leaseMs: int, rounds: nat)
    requires Sound(items) && 0 < limit && 0 < leaseMs && AllDue(items, now) != []
    ensures var due := AllDue(items, now);
      var n := if limit <= |due| then limit else |due|;
      var after := UpdateAll(items, IdsOf(due[..n]), Starting(now, leaseMs));
      && Sound(after) && AllDue(after, now) == due[n..]
      && Rounds(items, limit, now, leaseMs, rounds + 1) == [due[..n]] + Rounds(after, limit, now, leaseMs, rounds)
  {
    var due := AllDue(items, now);
    var n := if limit <= |due| then limit else |due|;
    MarkedBatchLeaves(items, n, now, leaseMs);
    hide Sound, UpdateAll, AllDue;
    assert Take(due, limit) == due[..n];
  }

  /** The rounds visit every due item exactly once, in (time, id) order, in ceil(n / limit) rounds,
      none of them empty and none longer than the limit. */
  lemma {:induction false} RoundsVisitAll(items: Items, limit: int, now: int, leaseMs: int)
    requires Sound(items) && 0 < limit && 0 < leaseMs
    ensures var rounds := RoundsNeeded(|AllDue(items, now)|, limit);
      var batches := Rounds(items, limit, now, leaseMs, rounds);
      && |batches| == rounds && Concat(batches) == AllDue(items, now)
      && forall k :: 0 <= k < rounds ==> 0 < |batches[k]| <= limit
    decreases |AllDue(items, now)|
  {
    hide Sound, UpdateAll, AllDue, Rounds;
    var due := AllDue(items, now);
    if due == [] {
      NoRounds(items, limit, now, leaseMs);
    } else {
      var n := if limit <= |due| then limit else |due|;
      OneRound(items, limit, now, leaseMs, RoundsNeeded(|due| - n, limit));
      var after := UpdateAll(items, IdsOf(due[..n]), Starting(now, leaseMs));
      RoundsVisitAll(after, limit, now, leaseMs);
      var rest := Rounds(after, limit, now, leaseMs, RoundsNeeded(|due| - n, limit));
      assert ([due[..n]] + rest)[1..] == rest;
      assert due == due[..n] + due[n..];
    }
  }

  lemma NoRounds(items: Items, limit: int, now: int, leaseMs: int)
    requires 0 < limit
    ensures Rounds(items, limit, now, leaseMs, 0) == []
  {
  }
}
