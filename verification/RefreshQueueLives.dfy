/** The life of one item of the queue under any calls of any workers: how often it is tried, and when a
    failed or completed item comes back. No marking operation looks at the status of an item, and
    listing due items and marking them are separate calls, so reports may come late and a try may start
    whenever it likes. */
module RefreshQueueLives {
  import opened Options
  import opened StableSort
  import opened RefreshQueue
  import RefreshQueueRuns
  import JsMap

  /** What one call does to one item; a mark happens once for each time it lists the id. */
  datatype ItemEvent =
    | Enqueued(maxAttempts: int, now: int)
    | Started(now: int)
    | Reported(error: string, next: Option<int>, terminal: bool, now: int)
    | Finished(now: int)
    | Deferred(reason: Option<string>, next: Option<int>, now: int)
    | Pruned(cutoff: int)

  function Step(id: Id, i: Option<Item>, e: ItemEvent, leaseMs: int): Option<Item> {
    if i.None? then (if e.Enqueued? && 0 < e.maxAttempts then Some(NewItem(id, e.maxAttempts, e.now)) else None)
    else match e
      case Enqueued(maxAttempts, now) => if 0 < maxAttempts then Some(Requeue(i.value, maxAttempts, now)) else i
      case Started(now) => Some(Start(i.value, now, leaseMs))
      case Reported(error, next, terminal, now) => Some(Fail(i.value, error, next, terminal, now))
      case Finished(now) => Some(Complete(i.value, now))
      case Deferred(reason, next, now) => Some(Defer(i.value, reason, next, now))
      case Pruned(cutoff) => if i.value.status.Completed? && i.value.updatedAt <= cutoff then None else i
  }

  /** An item is created, restarted after a deferral, or removed: its tries are counted anew. */
  predicate Renews(i: Option<Item>, e: ItemEvent) {
    match e
    case Enqueued(maxAttempts, now) =>
      0 < maxAttempts && (i.None? || (i.value.status.QuotaDeferred? && i.value.nextAttemptAt <= now))
    case Pruned(cutoff) => i.Some? && i.value.status.Completed? && i.value.updatedAt <= cutoff
    case _ => false
  }

  /** `tries` counts the tries since the item was last renewed, `unasked` those among them that were
      started while the item was not pending. */
  datatype Life = Life(item: Option<Item>, tries: nat, unasked: nat)

  function Live(id: Id, l: Life, e: ItemEvent, leaseMs: int): Life {
    var next := Step(id, l.item, e, leaseMs);
    if Renews(l.item, e) then Life(next, 0, 0)
    else if e.Started? && l.item.Some? then Life(next, l.tries + 1, if l.item.value.status.Pending? then l.unasked else l.unasked + 1)
    else l.(item := next)
  }

  function LiveThrough(id: Id, l: Life, events: seq<ItemEvent>, leaseMs: int): Life {
    if events == [] then l else Live(id, LiveThrough(id, l, events[..|events| - 1], leaseMs), events[|events| - 1], leaseMs)
  }

  /** The life of an item from a queue that does not know it. */
  function LifeOf(id: Id, events: seq<ItemEvent>, leaseMs: int): Life { LiveThrough(id, Life(None, 0, 0), events, leaseMs) }

  // ---------------------------------------------------------------- how often an item is tried

  predicate LifeInv(id: Id, l: Life) {
    match l.item
    case None => l.tries == 0 && l.unasked == 0
    case Some(i) =>
      && SoundItem(i) && i.matchId == id && i.attempts == l.tries
      && l.tries <= i.maxAttempts + l.unasked
  }

  /** Since it was last renewed, an item is tried at most `maxAttempts` times, plus once for every try
      that was started while it was not pending; a pending item has a try left. */
  lemma {:induction false} TriesBounded(id: Id, events: seq<ItemEvent>, leaseMs: int)
    ensures LifeInv(id, LifeOf(id, events, leaseMs))
  {
    if events != [] { TriesBounded(id, events[..|events| - 1], leaseMs); }
  }

  /** A try of an item that is not pending and has no attempts left. */
  predicate SpentStart(i: Option<Item>, e: ItemEvent) {
    e.Started? && i.Some? && !i.value.status.Pending? && i.value.maxAttempts <= i.value.attempts
  }

  ghost predicate SpentAt(id: Id, events: seq<ItemEvent>, leaseMs: int, k: nat)
    requires k < |events|
  {
    SpentStart(LifeOf(id, events[..k], leaseMs).item, events[k])
  }

  ghost predicate RenewedAt(id: Id, events: seq<ItemEvent>, leaseMs: int, k: nat)
    requires k < |events|
  {
    Renews(LifeOf(id, events[..k], leaseMs).item, events[k])
  }

  /** Since the item was last renewed, some event started such a try. */
  ghost predicate SpendsMore(id: Id, events: seq<ItemEvent>, leaseMs: int) {
    exists k :: 0 <= k < |events| && SpentAt(id, events, leaseMs, k) && forall j :: k < j < |events| ==> !RenewedAt(id, events, leaseMs, j)
  }

  lemma AtPrefix(id: Id, events: seq<ItemEvent>, leaseMs: int, k: nat)
    requires k < |events| - 1
    ensures var init := events[..|events| - 1];
      SpentAt(id, events, leaseMs, k) == SpentAt(id, init, leaseMs, k) && RenewedAt(id, events, leaseMs, k) == RenewedAt(id, init, leaseMs, k)
  {
    assert events[..k] == events[..|events| - 1][..k];
  }

  lemma SpendsLast(id: Id, events: seq<ItemEvent>, leaseMs: int)
    requires events != []
    ensures var init, n := events[..|events| - 1], |events| - 1;
      SpendsMore(id, events, leaseMs) <==>
        (SpendsMore(id, init, leaseMs) && !RenewedAt(id, events, leaseMs, n)) || SpentAt(id, events, leaseMs, n)
  {
    hide SpentAt, RenewedAt;
    var init, n := events[..|events| - 1], |events| - 1;
    forall k | 0 <= k < n
      ensures SpentAt(id, events, leaseMs, k) == SpentAt(id, init, leaseMs, k) && RenewedAt(id, events, leaseMs, k) == RenewedAt(id, init, leaseMs, k)
    {
      AtPrefix(id, events, leaseMs, k);
    }
    if SpendsMore(id, events, leaseMs) && !SpentAt(id, events, leaseMs, n) {
      var k :| 0 <= k < |events| && SpentAt(id, events, leaseMs, k) && forall j :: k < j < |events| ==> !RenewedAt(id, events, leaseMs, j);
      assert SpentAt(id, init, leaseMs, k);
    }
    if SpendsMore(id, init, leaseMs) && !RenewedAt(id, events, leaseMs, n) {
      var k :| 0 <= k < |init| && SpentAt(id, init, leaseMs, k) && forall j :: k < j < |init| ==> !RenewedAt(id, init, leaseMs, j);
      assert SpentAt(id, events, leaseMs, k);
    }
  }

  /** An item gets more tries than allowed exactly when a try is started while it is not pending and
      has no attempts left. */
  lemma {:induction false} TriesExceedIff(id: Id, events: seq<ItemEvent>, leaseMs: int)
    ensures var l := LifeOf(id, events, leaseMs);
      l.item.Some? && l.tries > l.item.value.maxAttempts <==> SpendsMore(id, events, leaseMs)
  {
    if events != [] {
      var init := events[..|events| - 1];
      TriesExceedIff(id, init, leaseMs);
      TriesBounded(id, init, leaseMs);
      hide SpendsMore;
      SpendsLast(id, events, leaseMs);
    }
  }

  // ---------------------------------------------------------------- starts of due items only

  /** Every try is started on an item that is due then, as when listing and marking are one step. */
  ghost predicate Guarded(id: Id, l: Life, events: seq<ItemEvent>, leaseMs: int) {
    forall k :: 0 <= k < |events| && events[k].Started? && LiveThrough(id, l, events[..k], leaseMs).item.Some? ==>
      Due(LiveThrough(id, l, events[..k], leaseMs).item.value, events[k].now)
  }

  /** In such a run the superfluous try is of an item whose lease ran out, or whose deferral did. */
  lemma GuardedSpends(id: Id, events: seq<ItemEvent>, leaseMs: int, k: nat)
    requires Guarded(id, Life(None, 0, 0), events, leaseMs) && k < |events| && SpentAt(id, events, leaseMs, k)
    ensures var i := LifeOf(id, events[..k], leaseMs).item.value;
      (i.status.Processing? || i.status.QuotaDeferred?) && i.nextAttemptAt <= events[k].now
  {
  }

  // ---------------------------------------------------------------- the bound is reached

  /** All allowed tries but the last, each failing and due again at once. */
  function Failures(maxAttempts: int, n: nat): seq<ItemEvent> {
    if n == 0 then [Enqueued(maxAttempts, 0)] else Failures(maxAttempts, n - 1) + [Started(0), Reported("", Some(0), false, 0)]
  }

  /** Tries that nobody reports on, started `gap` apart. */
  function Starts(n: nat, gap: nat): seq<ItemEvent> {
    if n == 0 then [Started(0)] else Starts(n - 1, gap) + [Started(n * gap)]
  }

  lemma LiveNext(id: Id, l: Life, events: seq<ItemEvent>, e: ItemEvent, leaseMs: int)
    ensures LiveThrough(id, l, events + [e], leaseMs) == Live(id, LiveThrough(id, l, events, leaseMs), e, leaseMs)
  {
    assert (events + [e])[..|events + [e]| - 1] == events;
  }

  lemma {:induction false} LiveConcat(id: Id, l: Life, a: seq<ItemEvent>, b: seq<ItemEvent>, leaseMs: int)
    ensures LiveThrough(id, l, a + b, leaseMs) == LiveThrough(id, LiveThrough(id, l, a, leaseMs), b, leaseMs)
  {
    if b == [] {
      assert a + b == a;
    } else {
      var init, last := b[..|b| - 1], b[|b| - 1];
      assert a + b == (a + init) + [last];
      LiveNext(id, l, a + init, last, leaseMs);
      LiveConcat(id, l, a, init, leaseMs);
    }
  }

  lemma {:induction false} FailuresLive(id: Id, maxAttempts: int, n: nat, leaseMs: int)
    requires n < maxAttempts
    ensures var l := LifeOf(id, Failures(maxAttempts, n), leaseMs);
      && l.item.Some? && l.tries == n && l.unasked == 0 && l.item.value.attempts == n && l.item.value.maxAttempts == maxAttempts
      && l.item.value.status.Pending? && l.item.value.nextAttemptAt == 0
  {
    if n > 0 {
      FailuresLive(id, maxAttempts, n - 1, leaseMs);
      var f := Failures(maxAttempts, n - 1);
      LiveNext(id, Life(None, 0, 0), f, Started(0), leaseMs);
      LiveNext(id, Life(None, 0, 0), f + [Started(0)], Reported("", Some(0), false, 0), leaseMs);
      assert Failures(maxAttempts, n) == f + [Started(0)] + [Reported("", Some(0), false, 0)];
    } else {
      LiveNext(id, Life(None, 0, 0), [], Enqueued(maxAttempts, 0), leaseMs);
    }
  }

  lemma StartLives(id: Id, l: Life, now: int, leaseMs: int)
    requires l.item.Some?
    ensures var n := Live(id, l, Started(now), leaseMs);
      && n.tries == l.tries + 1 && n.unasked == l.unasked + (if l.item.value.status.Pending? then 0 else 1)
      && n.item.Some? && n.item.value.status.Processing? && n.item.value.nextAttemptAt == now + leaseMs
  {
  }

  lemma {:induction false} StartsLive(id: Id, l: Life, n: nat, gap: nat, leaseMs: int)
    requires l.item.Some? && l.item.value.status.Pending?
    ensures var r := LiveThrough(id, l, Starts(n, gap), leaseMs);
      && r.tries == l.tries + 1 + n && r.unasked == l.unasked + n
      && r.item.Some? && r.item.value.status.Processing? && r.item.value.nextAttemptAt == n * gap + leaseMs
  {
    hide Live;
    if n > 0 {
      StartsLive(id, l, n - 1, gap, leaseMs);
      LiveNext(id, l, Starts(n - 1, gap), Started(n * gap), leaseMs);
      StartLives(id, LiveThrough(id, l, Starts(n - 1, gap), leaseMs), n * gap, leaseMs);
    } else {
      LiveNext(id, l, [], Started(0), leaseMs);
      StartLives(id, l, 0, leaseMs);
    }
  }

  lemma {:induction false} StartsGuarded(id: Id, l: Life, n: nat, gap: nat, leaseMs: int)
    requires l.item.Some? && l.item.value.status.Pending? && l.item.value.nextAttemptAt == 0 && leaseMs <= gap
    ensures Guarded(id, l, Starts(n, gap), leaseMs)
  {
    hide Live, Guarded;
    if n > 0 {
      StartsGuarded(id, l, n - 1, gap, leaseMs);
      StartsLive(id, l, n - 1, gap, leaseMs);
      assert n * gap == (n - 1) * gap + gap;
      GuardedNext(id, l, Starts(n - 1, gap), Started(n * gap), leaseMs);
    } else {
      NoStarts(id, l, leaseMs);
      GuardedNext(id, l, [], Started(0), leaseMs);
      assert [] + [Started(0)] == Starts(0, gap);
    }
  }

  lemma NoStarts(id: Id, l: Life, leaseMs: int)
    ensures Guarded(id, l, [], leaseMs)
  {
  }

  lemma GuardedNext(id: Id, l: Life, events: seq<ItemEvent>, e: ItemEvent, leaseMs: int)
    ensures Guarded(id, l, events + [e], leaseMs) <==>
      Guarded(id, l, events, leaseMs)
      && var i := LiveThrough(id, l, events, leaseMs).item; e.Started? && i.Some? ==> Due(i.value, e.now)
  {
    var all := events + [e];
    assert all[..|events|] == events && all[|events|] == e;
    assert forall k :: 0 <= k < |events| ==> all[..k] == events[..k] && all[k] == events[k];
  }

  /** The bound is reached for every limit and every number of unasked tries, whether workers that
      listed the same item all mark it at one time, or each waits for the lease of the one before. */
  lemma BoundIsReached(id: Id, maxAttempts: int, n: nat, gap: nat, leaseMs: int)
    requires 0 < maxAttempts
    ensures var l := LifeOf(id, Failures(maxAttempts, maxAttempts - 1) + Starts(n, gap), leaseMs);
      l.unasked == n && l.tries == maxAttempts + n
    ensures leaseMs <= gap ==> Guarded(id, LifeOf(id, Failures(maxAttempts, maxAttempts - 1), leaseMs), Starts(n, gap), leaseMs)
  {
    FailuresLive(id, maxAttempts, maxAttempts - 1, leaseMs);
    LiveConcat(id, Life(None, 0, 0), Failures(maxAttempts, maxAttempts - 1), Starts(n, gap), leaseMs);
    var l := LifeOf(id, Failures(maxAttempts, maxAttempts - 1), leaseMs);
    StartsLive(id, l, n, gap, leaseMs);
    if leaseMs <= gap { StartsGuarded(id, l, n, gap, leaseMs); }
  }

  // ---------------------------------------------------------------- failed and completed items

  predicate Settled(i: Option<Item>) { i.Some? && (i.value.status.Failed? || i.value.status.Completed?) }

  /** Late reports of any worker, enqueueing, and starts; no deferral, and the item is not removed. */
  predicate Ordinary(events: seq<ItemEvent>) { forall e :: e in events ==> !e.Deferred? && !e.Pruned? }

  /** Whatever ordinary events follow, with tries started on due items only, the item stays settled and
      is not tried again. */
  ghost predicate SettledForGood(id: Id, l: Life, leaseMs: int) {
    forall events :: Ordinary(events) && Guarded(id, l, events, leaseMs) ==>
      Settled(LiveThrough(id, l, events, leaseMs).item) && LiveThrough(id, l, events, leaseMs).tries == l.tries
  }

  /** Settled without attempts left. */
  predicate Spent(l: Life) { Settled(l.item) && l.item.value.maxAttempts <= l.item.value.attempts }

  lemma SpentStep(id: Id, l: Life, e: ItemEvent, leaseMs: int)
    requires Spent(l) && !e.Deferred? && !e.Pruned? && (e.Started? ==> Due(l.item.value, e.now))
    ensures var n := Live(id, l, e, leaseMs); Spent(n) && n.tries == l.tries
  {
  }

  lemma {:induction false} SpentStays(id: Id, l: Life, events: seq<ItemEvent>, leaseMs: int)
    requires Spent(l) && Ordinary(events) && Guarded(id, l, events, leaseMs)
    ensures var n := LiveThrough(id, l, events, leaseMs); Spent(n) && n.tries == l.tries
  {
    hide Live, Guarded;
    if events != [] {
      var init, last := events[..|events| - 1], events[|events| - 1];
      assert events == init + [last];
      GuardedNext(id, l, init, last, leaseMs);
      assert forall e :: e in init ==> e in events;
      assert last in events;
      SpentStays(id, l, init, leaseMs);
      SpentStep(id, LiveThrough(id, l, init, leaseMs), last, leaseMs);
    }
  }

  /** A failed or completed item stays so exactly when its attempts are used up: with attempts left,
      one late report of a worker that lost its lease makes it pending and due again. */
  lemma SettledForGoodIff(id: Id, l: Life, leaseMs: int)
    requires Settled(l.item)
    ensures SettledForGood(id, l, leaseMs) <==> l.item.value.maxAttempts <= l.item.value.attempts
  {
    if l.item.value.maxAttempts <= l.item.value.attempts {
      forall events | Ordinary(events) && Guarded(id, l, events, leaseMs)
        ensures Settled(LiveThrough(id, l, events, leaseMs).item) && LiveThrough(id, l, events, leaseMs).tries == l.tries
      {
        SpentStays(id, l, events, leaseMs);
      }
    } else {
      LateReport(id, l, 0, leaseMs);
      var late := [Reported("", Some(0), false, 0)];
      assert Ordinary(late) && Guarded(id, l, late, leaseMs);
      assert !Settled(LiveThrough(id, l, late, leaseMs).item);
    }
  }

  lemma LateReport(id: Id, l: Life, now: int, leaseMs: int)
    requires Settled(l.item) && l.item.value.attempts < l.item.value.maxAttempts
    ensures var n := LiveThrough(id, l, [Reported("", Some(now), false, now)], leaseMs);
      n.item.Some? && n.item.value.status.Pending? && Due(n.item.value, now)
  {
    LiveNext(id, l, [], Reported("", Some(now), false, now), leaseMs);
  }

  /** A late start brings back any failed or completed item, and so does a late deferral, after which
      enqueueing gives it all its attempts again. */
  lemma LateMarks(id: Id, l: Life, maxAttempts: int, now: int, leaseMs: int)
    requires Settled(l.item) && 0 < maxAttempts
    ensures var n := LiveThrough(id, l, [Deferred(None, Some(now), now), Enqueued(maxAttempts, now)], leaseMs);
      n.item.Some? && n.item.value.status.Pending? && n.item.value.attempts == 0 && Due(n.item.value, now)
    ensures var n := LiveThrough(id, l, [Started(now)], leaseMs);
      n.item.Some? && n.item.value.status.Processing? && n.tries == l.tries + 1
  {
    LiveNext(id, l, [], Started(now), leaseMs);
    LiveNext(id, l, [], Deferred(None, Some(now), now), leaseMs);
    LiveNext(id, l, [Deferred(None, Some(now), now)], Enqueued(maxAttempts, now), leaseMs);
  }

  /** A report of failure on an item without attempts left is final, whatever came before, if tries are
      started on due items only and no deferral follows. */
  lemma LastFailureIsFinal(id: Id, events: seq<ItemEvent>, report: ItemEvent, leaseMs: int)
    requires report.Reported?
    requires var l := LifeOf(id, events, leaseMs); l.item.Some? && l.item.value.maxAttempts <= l.tries
    ensures var l := LifeOf(id, events + [report], leaseMs);
      l.item.Some? && l.item.value.status.Failed? && SettledForGood(id, l, leaseMs)
  {
    TriesBounded(id, events, leaseMs);
    LiveNext(id, Life(None, 0, 0), events, report, leaseMs);
    SettledForGoodIff(id, LifeOf(id, events + [report], leaseMs), leaseMs);
  }

  // ---------------------------------------------------------------- the queue

  /** The calls that change the queue, as its methods are specified. */
  datatype Call =
    | Enqueueing(id: Id, maxAttempts: int, now: int)
    | MarkingProcessing(ids: seq<Id>, now: int)
    | MarkingFailed(ids: seq<Id>, error: string, next: Option<int>, terminal: bool, now: int)
    | MarkingCompleted(ids: seq<Id>, now: int)
    | MarkingDeferred(ids: seq<Id>, reason: Option<string>, next: Option<int>, now: int)
    | Pruning(olderThanSeconds: int, now: int)

  function AfterCall(items: Items, c: Call, leaseMs: int): Items {
    match c
    case Enqueueing(id, maxAttempts, now) => if 0 < maxAttempts then Enqueue(items, id, maxAttempts, now) else items
    case MarkingProcessing(ids, now) => UpdateAll(items, ids, Starting(now, leaseMs))
    case MarkingFailed(ids, error, next, terminal, now) => UpdateAll(items, ids, Failing(error, next, terminal, now))
    case MarkingCompleted(ids, now) => UpdateAll(items, ids, Completing(now))
    case MarkingDeferred(ids, reason, next, now) => UpdateAll(items, ids, Deferring(reason, next, now))
    case Pruning(olderThanSeconds, now) => if olderThanSeconds < 0 then items else Prune(items, now - olderThanSeconds * 1000)
  }

  function AfterCalls(calls: seq<Call>, leaseMs: int): Items {
    if calls == [] then [] else AfterCall(AfterCalls(calls[..|calls| - 1], leaseMs), calls[|calls| - 1], leaseMs)
  }

  /** Once for each listing of the id. */
  function PerListing(ids: seq<Id>, id: Id, e: ItemEvent): seq<ItemEvent> {
    if ids == [] then [] else PerListing(ids[..|ids| - 1], id, e) + if ids[|ids| - 1] == id then [e] else []
  }

  function EventsOf(c: Call, id: Id): seq<ItemEvent> {
    match c
    case Enqueueing(i, maxAttempts, now) => if i == id then [Enqueued(maxAttempts, now)] else []
    case MarkingProcessing(ids, now) => PerListing(ids, id, Started(now))
    case MarkingFailed(ids, error, next, terminal, now) => PerListing(ids, id, Reported(error, next, terminal, now))
    case MarkingCompleted(ids, now) => PerListing(ids, id, Finished(now))
    case MarkingDeferred(ids, reason, next, now) => PerListing(ids, id, Deferred(reason, next, now))
    case Pruning(olderThanSeconds, now) => if olderThanSeconds < 0 then [] else [Pruned(now - olderThanSeconds * 1000)]
  }

  function AllEventsOf(calls: seq<Call>, id: Id): seq<ItemEvent> {
    if calls == [] then [] else AllEventsOf(calls[..|calls| - 1], id) + EventsOf(calls[|calls| - 1], id)
  }

  /** An event that marks a stored item by a function. */
  ghost predicate MarksBy(id: Id, e: ItemEvent, f: Item -> Item, leaseMs: int) {
    forall i :: Step(id, i, e, leaseMs) == if i.Some? then Some(f(i.value)) else None
  }

  lemma StartingMarks(now: int, id: Id, leaseMs: int)
    ensures KeepsSound(Starting(now, leaseMs)) && MarksBy(id, Started(now), Starting(now, leaseMs), leaseMs)
  {
  }

  lemma FailingMarks(error: string, next: Option<int>, terminal: bool, now: int, id: Id, leaseMs: int)
    ensures KeepsSound(Failing(error, next, terminal, now))
            && MarksBy(id, Reported(error, next, terminal, now), Failing(error, next, terminal, now), leaseMs)
  {
  }

  lemma CompletingMarks(now: int, id: Id, leaseMs: int)
    ensures KeepsSound(Completing(now)) && MarksBy(id, Finished(now), Completing(now), leaseMs)
  {
  }

  lemma DeferringMarks(reason: Option<string>, next: Option<int>, now: int, id: Id, leaseMs: int)
    ensures KeepsSound(Deferring(reason, next, now)) && MarksBy(id, Deferred(reason, next, now), Deferring(reason, next, now), leaseMs)
  {
  }

  lemma MarkOne(items: Items, key: Id, f: Item -> Item, id: Id)
    requires Sound(items) && KeepsSound(f)
    ensures var found := JsMap.Lookup(items, key);
      var after := if found.None? then items else JsMap.Set(items, key, f(found.value));
      && Sound(after)
      && JsMap.Lookup(after, id) == if key == id && found.Some? then Some(f(found.value)) else JsMap.Lookup(items, id)
  {
    hide KeepsSound, JsMap.Set;
    if JsMap.Has(items, key) {
      SetSound(items, key, f);
      JsMap.SetLookup(items, key, f(JsMap.Lookup(items, key).value));
    }
  }

  lemma MarkedItem(id: Id, l: Life, events: seq<ItemEvent>, e: ItemEvent, f: Item -> Item, leaseMs: int)
    requires MarksBy(id, e, f, leaseMs) && (e.Started? || e.Reported? || e.Finished? || e.Deferred?)
    ensures LiveThrough(id, l, events + [e], leaseMs).item ==
      var i := LiveThrough(id, l, events, leaseMs).item; if i.Some? then Some(f(i.value)) else None
  {
    hide Step;
    LiveNext(id, l, events, e, leaseMs);
  }

  lemma {:induction false} MarkLives(items: Items, ids: seq<Id>, f: Item -> Item, id: Id, e: ItemEvent, l: Life, leaseMs: int)
    requires Sound(items) && KeepsSound(f) && MarksBy(id, e, f, leaseMs) && l.item == JsMap.Lookup(items, id)
    requires e.Started? || e.Reported? || e.Finished? || e.Deferred?
    ensures Sound(UpdateAll(items, ids, f))
    ensures JsMap.Lookup(UpdateAll(items, ids, f), id) == LiveThrough(id, l, PerListing(ids, id, e), leaseMs).item
  {
    hide KeepsSound, Sound, MarksBy, JsMap.Set, JsMap.Lookup, Live;
    if ids != [] {
      var init, last := ids[..|ids| - 1], ids[|ids| - 1];
      MarkLives(items, init, f, id, e, l, leaseMs);
      MarkOne(UpdateAll(items, init, f), last, f, id);
      MarkedItem(id, l, PerListing(init, id, e), e, f, leaseMs);
      assert PerListing(init, id, e) + [] == PerListing(init, id, e);
    }
  }

  lemma PruneLives(items: Items, cutoff: int, id: Id, l: Life, leaseMs: int)
    requires Sound(items) && l.item == JsMap.Lookup(items, id)
    ensures Sound(Prune(items, cutoff))
    ensures JsMap.Lookup(Prune(items, cutoff), id) == LiveThrough(id, l, [Pruned(cutoff)], leaseMs).item
  {
    hide Filter, JsMap.Lookup;
    PruneSound(items, cutoff);
    LookupKept(items, Stays(cutoff), id);
    LiveNext(id, l, [], Pruned(cutoff), leaseMs);
  }

  lemma CallLives(items: Items, c: Call, id: Id, l: Life, leaseMs: int)
    requires Sound(items) && l.item == JsMap.Lookup(items, id)
    ensures Sound(AfterCall(items, c, leaseMs))
    ensures JsMap.Lookup(AfterCall(items, c, leaseMs), id) == LiveThrough(id, l, EventsOf(c, id), leaseMs).item
  {
    hide UpdateAll, PerListing, Prune, Enqueue, Sound, JsMap.Lookup, KeepsSound, MarksBy, Live, Starting, Failing, Completing, Deferring;
    match c
    case Enqueueing(i, maxAttempts, now) =>
      EnqueueLives(items, i, maxAttempts, now, id, l, leaseMs);
    case MarkingProcessing(ids, now) =>
      StartingMarks(now, id, leaseMs);
      MarkLives(items, ids, Starting(now, leaseMs), id, Started(now), l, leaseMs);
    case MarkingFailed(ids, error, next, terminal, now) =>
      FailingMarks(error, next, terminal, now, id, leaseMs);
      MarkLives(items, ids, Failing(error, next, terminal, now), id, Reported(error, next, terminal, now), l, leaseMs);
    case MarkingCompleted(ids, now) =>
      CompletingMarks(now, id, leaseMs);
      MarkLives(items, ids, Completing(now), id, Finished(now), l, leaseMs);
    case MarkingDeferred(ids, reason, next, now) =>
      DeferringMarks(reason, next, now, id, leaseMs);
      MarkLives(items, ids, Deferring(reason, next, now), id, Deferred(reason, next, now), l, leaseMs);
    case Pruning(olderThanSeconds, now) =>
      if 0 <= olderThanSeconds { PruneLives(items, now - olderThanSeconds * 1000, id, l, leaseMs); }
  }

  lemma EnqueueLives(items: Items, i: Id, maxAttempts: int, now: int, id: Id, l: Life, leaseMs: int)
    requires Sound(items) && l.item == JsMap.Lookup(items, id)
    ensures var after := AfterCall(items, Enqueueing(i, maxAttempts, now), leaseMs);
      Sound(after) && JsMap.Lookup(after, id) == LiveThrough(id, l, EventsOf(Enqueueing(i, maxAttempts, now), id), leaseMs).item
  {
    hide Sound, JsMap.Lookup, Enqueue;
    if i == id { LiveNext(id, l, [], Enqueued(maxAttempts, now), leaseMs); }
    if 0 < maxAttempts {
      EnqueueSound(items, i, maxAttempts, now);
      EnqueueFound(items, i, maxAttempts, now, id);
    }
  }

  lemma EnqueueFound(items: Items, i: Id, maxAttempts: int, now: int, id: Id)
    ensures JsMap.Lookup(Enqueue(items, i, maxAttempts, now), id) ==
      var found := JsMap.Lookup(items, i);
      if i != id then JsMap.Lookup(items, id)
      else Some(if found.None? then NewItem(i, maxAttempts, now) else Requeue(found.value, maxAttempts, now))
  {
    hide JsMap.Set, JsMap.Lookup;
    var found := JsMap.Lookup(items, i);
    JsMap.SetFound(items, i, if found.None? then NewItem(i, maxAttempts, now) else Requeue(found.value, maxAttempts, now), id);
  }

  /** After any calls on an empty queue, an item stands where its own events lead. */
  lemma {:induction false} QueueIsLives(calls: seq<Call>, id: Id, leaseMs: int)
    ensures Sound(AfterCalls(calls, leaseMs))
    ensures JsMap.Lookup(AfterCalls(calls, leaseMs), id) == LifeOf(id, AllEventsOf(calls, id), leaseMs).item
  {
    hide Sound, EventsOf, AfterCall;
    if calls == [] {
      EmptySound();
    } else {
      var init, last := calls[..|calls| - 1], calls[|calls| - 1];
      QueueIsLives(init, id, leaseMs);
      CallLives(AfterCalls(init, leaseMs), last, id, LifeOf(id, AllEventsOf(init, id), leaseMs), leaseMs);
      LiveConcat(id, Life(None, 0, 0), AllEventsOf(init, id), EventsOf(last, id), leaseMs);
    }
  }

  lemma EmptySound()
    ensures Sound([])
  {
  }

  /** The attempts that the queue stores for an item are its tries, and exceed the limit exactly when a
      superfluous one was started; pending items have attempts left. */
  lemma QueueCountsTries(calls: seq<Call>, id: Id, leaseMs: int)
    ensures var i, l := JsMap.Lookup(AfterCalls(calls, leaseMs), id), LifeOf(id, AllEventsOf(calls, id), leaseMs);
      i.Some? ==>
        && i.value.attempts == l.tries <= i.value.maxAttempts + l.unasked
        && (i.value.attempts > i.value.maxAttempts <==> SpendsMore(id, AllEventsOf(calls, id), leaseMs))
        && (i.value.status.Pending? ==> i.value.attempts < i.value.maxAttempts)
  {
    hide SpendsMore;
    QueueIsLives(calls, id, leaseMs);
    TriesBounded(id, AllEventsOf(calls, id), leaseMs);
    TriesExceedIff(id, AllEventsOf(calls, id), leaseMs);
  }

  lemma {:induction false} ListedOnce(ids: seq<Id>, id: Id, e: ItemEvent)
    requires NoDuplicates(ids)
    ensures PerListing(ids, id, e) == if id in ids then [e] else []
  {
    if ids != [] {
      var init, last := ids[..|ids| - 1], ids[|ids| - 1];
      ListedOnce(init, id, e);
      assert ids == init + [last] && last !in init;
    }
  }

  lemma DueStart(id: Id, l: Life, now: int, leaseMs: int)
    requires l.item.Some? && Due(l.item.value, now)
    ensures Guarded(id, l, [Started(now)], leaseMs)
  {
    NoStarts(id, l, leaseMs);
    GuardedNext(id, l, [], Started(now), leaseMs);
    assert [] + [Started(now)] == [Started(now)];
  }

  /** A worker that marks what it just listed, with no call in between, starts tries of due items only,
      whatever calls came before. */
  lemma GetAndMarkIsGuarded(calls: seq<Call>, limit: nat, now: int, id: Id, leaseMs: int)
    ensures var ids := RefreshQueueRuns.IdsOf(Take(AllDue(AfterCalls(calls, leaseMs), now), limit));
      Guarded(id, LifeOf(id, AllEventsOf(calls, id), leaseMs), EventsOf(MarkingProcessing(ids, now), id), leaseMs)
  {
    hide Sound, AllDue, LifeOf, AllEventsOf, AfterCalls, Live, Guarded, LiveThrough, DueLeq, Ascending, Take;
    var items := AfterCalls(calls, leaseMs);
    var batch := Take(AllDue(items, now), limit);
    var ids := RefreshQueueRuns.IdsOf(batch);
    QueueIsLives(calls, id, leaseMs);
    DueDistinct(items, now);
    TakenFirst(AllDue(items, now), limit);
    ListedOnce(ids, id, Started(now));
    var l := LifeOf(id, AllEventsOf(calls, id), leaseMs);
    NoStarts(id, l, leaseMs);
    if id in ids {
      var k :| 0 <= k < |ids| && ids[k] == id;
      assert batch[k] in batch && batch[k].matchId == id;
      assert l.item == Some(batch[k]) && Due(batch[k], now);
      DueStart(id, l, now, leaseMs);
    }
  }
}
