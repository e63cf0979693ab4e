/** Leases, stored detail and daily budget of the detail cache, over every run. */
module DetailCacheSafety {
  import opened Options
  import opened DetailCache
  import opened DetailCacheRuns

  /** The lease was granted by this log entry, for the match key the row had then. */
  ghost predicate GrantedFor(log: seq<Log>, id: string, matchId: string, key: MatchKey) {
    exists e :: e in log && e.Grant? && e.id == id && e.row.id == matchId && KeyOf(e.row) == key
  }

  /** The detail was stored by an accepted answer of this source with this etag. */
  ghost predicate StoredBy(log: seq<Log>, matchId: string, source: Source, detail: Detail, etag: Option<string>) {
    Stored(matchId, source, detail, etag) in log
  }

  /** A grant that was not finished is in its two rows until it expires. */
  predicate Recorded(w: World, e: Log)
    requires e.Grant?
  {
    e.id !in w.released ==>
      && (w.now < e.providerAt + LEASE_MS ==>
            e.provider in w.t.controls && w.t.controls[e.provider].lease == Some(HeldLease(e.id, e.providerAt + LEASE_MS)))
      && (w.now < e.cacheAt + LEASE_MS ==>
            e.row.id in w.t.caches && w.t.caches[e.row.id].lease == Some(HeldLease(e.id, e.cacheAt + LEASE_MS)))
  }

  ghost predicate CacheOwned(w: World, m: string) {
    && m in w.t.caches
    && (w.t.caches[m].lease.Some? ==>
          w.t.caches[m].leaseMatchKey.Some? && GrantedFor(w.log, w.t.caches[m].lease.value.id, m, w.t.caches[m].leaseMatchKey.value))
    && (w.t.caches[m].detail.Some? ==>
          var d := w.t.caches[m].detail.value;
          && d.valid && d.match_.id == m && w.t.caches[m].identityKey == Some(IdentityOf(d.match_))
          && w.t.caches[m].sourceKey.Some? && StoredBy(w.log, m, w.t.caches[m].sourceKey.value, d, w.t.caches[m].etag))
  }

  ghost predicate DistinctGrants(log: seq<Log>) {
    forall i, j :: 0 <= i < j < |log| && log[i].Grant? && log[j].Grant? ==> log[i].id != log[j].id
  }

  ghost predicate SafetyInv(w: World) {
    && MatchIds(w.t) && DistinctGrants(w.log)
    && (forall e :: e in w.log && e.Grant? ==> Recorded(w, e))
    && (forall m :: m in w.t.caches ==> CacheOwned(w, m))
  }

  lemma GrantOutdates(w: World, m: Match, s: Source, circuit: Option<int>, id: string, at: AcquireTimes, e: Log)
    requires w.now <= at.locked <= at.provider <= at.cache
    requires e.Grant? && Recorded(w, e) && e.id != id
    ensures Recorded(Acquiring(w, m, s, circuit, id, at), e)
  {
  }

  lemma LogGrows(log: seq<Log>, e: Log, id: string, matchId: string, key: MatchKey)
    requires GrantedFor(log, id, matchId, key)
    ensures GrantedFor(log + [e], id, matchId, key)
  {
    var g :| g in log && g.Grant? && g.id == id && g.row.id == matchId && KeyOf(g.row) == key;
    assert g in log + [e];
  }

  lemma CacheKept(w: World, n: World, m: string)
    requires CacheOwned(w, m) && m in n.t.caches
    requires n.log == w.log || (|n.log| > 0 && n.log == w.log + [n.log[|n.log| - 1]])
    requires n.t.caches[m].lease.Some? ==> n.t.caches[m].lease == w.t.caches[m].lease && n.t.caches[m].leaseMatchKey == w.t.caches[m].leaseMatchKey
    requires n.t.caches[m].detail == w.t.caches[m].detail && n.t.caches[m].identityKey == w.t.caches[m].identityKey
    requires n.t.caches[m].sourceKey == w.t.caches[m].sourceKey && n.t.caches[m].etag == w.t.caches[m].etag
    ensures CacheOwned(n, m)
  {
    if n.t.caches[m].lease.Some? && n.log != w.log {
      LogGrows(w.log, n.log[|n.log| - 1], w.t.caches[m].lease.value.id, m, w.t.caches[m].leaseMatchKey.value);
    }
  }

  lemma DistinctGrow(log: seq<Log>, e: Log)
    requires DistinctGrants(log) && (e.Grant? ==> NewId(log, e.id))
    ensures DistinctGrants(log + [e])
  {
    forall i | 0 <= i < |log| && e.Grant? && log[i].Grant? ensures log[i].id != e.id { assert log[i] in log; }
  }

  lemma SafetyAcquire(w: World, m: Match, s: Source, circuit: Option<int>, id: string, at: AcquireTimes)
    requires SafetyInv(w) && Enabled(w, TryAcquire(m, s, circuit, id, at))
    ensures SafetyInv(Acquiring(w, m, s, circuit, id, at))
  {
    var n := Acquiring(w, m, s, circuit, id, at);
    forall k | k in n.t.caches ensures CacheOwned(n, k) { AcquiredCache(w, m, s, circuit, id, at, k); }
    AcquiredGrants(w, m, s, circuit, id, at);
    assert n.t.matches == w.t.matches;
  }

  lemma AcquiredGrants(w: World, m: Match, s: Source, circuit: Option<int>, id: string, at: AcquireTimes)
    requires SafetyInv(w) && Enabled(w, TryAcquire(m, s, circuit, id, at))
    ensures var n := Acquiring(w, m, s, circuit, id, at);
      DistinctGrants(n.log) && forall e :: e in n.log && e.Grant? ==> Recorded(n, e)
  {
    var n := Acquiring(w, m, s, circuit, id, at);
    assert n.log != w.log ==> w.log == n.log[..|w.log|] && n.log == w.log + [n.log[|w.log|]]
                              && n.log[|w.log|].Grant? && n.log[|w.log|].id == id && Recorded(n, n.log[|w.log|]);
    if n.log != w.log { DistinctGrow(w.log, n.log[|w.log|]); }
    forall e | e in w.log && e.Grant? ensures Recorded(n, e) { GrantOutdates(w, m, s, circuit, id, at, e); }
  }

  lemma AcquiredCache(w: World, m: Match, s: Source, circuit: Option<int>, id: string, at: AcquireTimes, k: string)
    requires SafetyInv(w) && Enabled(w, TryAcquire(m, s, circuit, id, at)) && k in Acquiring(w, m, s, circuit, id, at).t.caches
    ensures CacheOwned(Acquiring(w, m, s, circuit, id, at), k)
  {
    var n := Acquiring(w, m, s, circuit, id, at);
    if n.log != w.log && k == m.id {
      var g := Grant(id, w.t.matches[m.id], s.provider, at.locked, at.provider, at.cache);
      assert g in n.log && n.t.caches[k] == Claim(CacheOf(w.t, m.id), id, KeyOf(m), at.cache) && KeyOf(g.row) == KeyOf(m);
      assert GrantedFor(n.log, id, m.id, KeyOf(m));
      assert k in w.t.caches ==> CacheOwned(w, k);
    } else if k in w.t.caches {
      assert n.t.caches[k] == w.t.caches[k];
      CacheKept(w, n, k);
    }
  }

  lemma SafetyFinish(w: World, l: DetailCache.Lease, result: Completion, when: FinishTimes)
    requires SafetyInv(w) && Enabled(w, TryFinish(l, result, when))
    ensures SafetyInv(Finishing(w, l, result, when))
  {
    var n := Finishing(w, l, result, when);
    forall k | k in n.t.caches ensures CacheOwned(n, k) { FinishedCache(w, l, result, when, k); }
    if n.log != w.log { DistinctGrow(w.log, n.log[|w.log|]); }
    forall e | e in n.log && e.Grant? ensures Recorded(n, e) {
      assert e in w.log;
      FinishKeepsRecord(w, l, result, when, e);
    }
    assert n.t.matches == w.t.matches;
  }

  lemma FinishKeepsRecord(w: World, l: DetailCache.Lease, result: Completion, when: FinishTimes, e: Log)
    requires w.now <= when.provider && e.Grant? && Recorded(w, e)
    ensures Recorded(Finishing(w, l, result, when), e)
  {
  }

  lemma FinishedCache(w: World, l: DetailCache.Lease, result: Completion, when: FinishTimes, k: string)
    requires SafetyInv(w) && k in Finishing(w, l, result, when).t.caches
    ensures CacheOwned(Finishing(w, l, result, when), k)
  {
    var n := Finishing(w, l, result, when);
    assert CacheOwned(w, k);
    if k == l.match_.id && n.t != w.t && result.Modified? {
      assert n.t.caches[k] == Store(w.t.caches[k], l, result, when.cache);
      assert n.log == w.log + [Stored(k, l.source, result.detail, result.etag)];
    } else {
      CacheKept(w, n, k);
    }
  }

  lemma SafetyStep(w: World, e: Event)
    requires SafetyInv(w)
    ensures SafetyInv(Do(w, e))
  {
    if Enabled(w, e) {
      match e
      case TryAcquire(m, s, circuit, id, at) => SafetyAcquire(w, m, s, circuit, id, at);
      case TryFinish(l, result, when) => SafetyFinish(w, l, result, when);
      case Tick(_) => assert forall m :: m in w.t.caches ==> CacheOwned(w, m);
      case Upsert(row) =>
        var n := Do(w, e);
        forall m | m in n.t.caches ensures CacheOwned(n, m) { CacheKept(w, n, m); }
    }
  }

  lemma {:induction false} Safety(now: int, events: seq<Event>)
    ensures SafetyInv(After(Initial(now), events))
  {
    if events != [] {
      Safety(now, events[..|events| - 1]);
      SafetyStep(After(Initial(now), events[..|events| - 1]), events[|events| - 1]);
    }
  }

  /** A grant that was neither finished nor ran out. */
  predicate Live(w: World, e: Log, expiresAt: int)
    requires e.Grant?
  {
    e.id !in w.released && w.now < expiresAt
  }

  /** At most one live lease per provider, and at most one per match. */
  lemma AtMostOneLive(now: int, events: seq<Event>, i: nat, j: nat)
    requires i < j < |After(Initial(now), events).log|
    requires After(Initial(now), events).log[i].Grant? && After(Initial(now), events).log[j].Grant?
    ensures var w := After(Initial(now), events);
      var a, b := w.log[i], w.log[j];
      && !(a.provider == b.provider && Live(w, a, a.providerAt + LEASE_MS) && Live(w, b, b.providerAt + LEASE_MS))
      && !(a.row.id == b.row.id && Live(w, a, a.cacheAt + LEASE_MS) && Live(w, b, b.cacheAt + LEASE_MS))
  {
    Safety(now, events);
    var w := After(Initial(now), events);
    assert w.log[i] in w.log && w.log[j] in w.log;
    assert Recorded(w, w.log[i]) && Recorded(w, w.log[j]);
  }

  lemma AcquireKeepsDetail(t: Tables, m: Match, s: Source, circuit: Option<int>, leaseId: string, at: AcquireTimes, id: string)
    ensures CacheOf(AcquireTx(t, m, s, circuit, leaseId, at).0, id).detail == CacheOf(t, id).detail
  {
  }

  lemma FinishChangesDetail(t: Tables, l: DetailCache.Lease, result: Completion, when: FinishTimes, id: string)
    requires CacheOf(FinishTx(t, l, result, when).0, id).detail != CacheOf(t, id).detail
    ensures result.Modified? && l.match_.id == id && CacheOf(FinishTx(t, l, result, when).0, id).detail == Some(result.detail)
    ensures HoldsProvider(t, l, when.provider) && HoldsCache(t, l, when.cache)
    ensures Publishable(t, l, result, when) && IdentityOf(result.detail.match_) == IdentityOf(l.match_)
  {
  }

  /** Stored detail changes only when a `modified` answer is accepted for a lease that holds both
      rows at the time they are written, and whose match row has the key it had when the lease was
      granted. The new detail is about that very match. */
  lemma DetailChangesOnlyByOwner(now: int, events: seq<Event>, e: Event, id: string)
    requires var w := After(Initial(now), events); CacheOf(Do(w, e).t, id).detail != CacheOf(w.t, id).detail
    ensures var w := After(Initial(now), events);
      && e.TryFinish? && e.result.Modified? && e.l.match_.id == id
      && CacheOf(Do(w, e).t, id).detail == Some(e.result.detail)
      && HoldsProvider(w.t, e.l, e.when.provider) && HoldsCache(w.t, e.l, e.when.cache)
      && id in w.t.matches && IdentityOf(e.result.detail.match_) == IdentityOf(w.t.matches[id])
      && GrantedFor(w.log, e.l.id, id, KeyOf(w.t.matches[id]))
  {
    hide AcquireTx, FinishTx, HoldsProvider, CacheOf;
    Safety(now, events);
    var w := After(Initial(now), events);
    match e
    case TryAcquire(m, s, circuit, leaseId, at) => AcquireKeepsDetail(w.t, m, s, circuit, leaseId, at, id);
    case TryFinish(l, result, when) =>
      FinishChangesDetail(w.t, l, result, when, id);
      assert CacheOwned(w, id);
    case Tick(_) =>
    case Upsert(_) => SameCaches(w.t, Do(w, e).t, id);
  }

  lemma SameCaches(t: Tables, n: Tables, id: string)
    requires t.caches == n.caches
    ensures CacheOf(t, id) == CacheOf(n, id)
  {
  }

  /** `read` never shows the detail of another match identity. */
  lemma ReadShowsOwnIdentity(now: int, events: seq<Event>, id: string, at: int)
    requires id in After(Initial(now), events).t.matches
    ensures var r := ReadRow(After(Initial(now), events).t, id, at);
      r.Some? && r.value.match_.id == id
      && (r.value.detail.Some? ==> r.value.detail.value.valid && IdentityOf(r.value.detail.value.match_) == IdentityOf(r.value.match_))
  {
    Safety(now, events);
    var w := After(Initial(now), events);
    assert id in w.t.caches ==> CacheOwned(w, id);
  }

  /** The etag a request is made conditional on came with the very detail that is stored, from the
      same source and for the same match identity: a "not modified" answer is about that detail. */
  lemma EtagBelongsToDetail(now: int, events: seq<Event>, m: Match, s: Source, circuit: Option<int>, id: string, at: AcquireTimes)
    requires var r := AcquireTx(After(Initial(now), events).t, m, s, circuit, id, at).1; r.Granted? && r.lease.etag.Some?
    ensures var w := After(Initial(now), events);
      var cache := CacheOf(w.t, m.id);
      && cache.detail.Some? && IdentityOf(cache.detail.value.match_) == IdentityOf(m)
      && Stored(m.id, s, cache.detail.value, AcquireTx(w.t, m, s, circuit, id, at).1.lease.etag) in w.log
  {
    Safety(now, events);
    assert CacheOwned(After(Initial(now), events), m.id);
  }

  // ---------------------------------------------------------------- the daily budget

  function Requests(log: seq<Log>, p: Provider, day: int): nat {
    if log == [] then 0
    else Requests(log[..|log| - 1], p, day)
         + if log[|log| - 1].Grant? && log[|log| - 1].provider == p && DayOf(log[|log| - 1].providerAt) == day then 1 else 0
  }

  /** The row counts the requests of its day, and none is later. */
  predicate Budgeted(w: World, p: Provider, day: int) {
    if p !in w.t.controls then Requests(w.log, p, day) == 0
    else
      && w.t.controls[p].budgetDay <= DayOf(w.now)
      && w.t.controls[p].requestsToday <= DAILY_BUDGET
      && (day == w.t.controls[p].budgetDay ==> Requests(w.log, p, day) == w.t.controls[p].requestsToday)
      && (day > w.t.controls[p].budgetDay ==> Requests(w.log, p, day) == 0)
      && Requests(w.log, p, day) <= DAILY_BUDGET
  }

  lemma LogNext(log: seq<Log>, e: Log, p: Provider, day: int)
    ensures Requests(log + [e], p, day)
      == Requests(log, p, day) + if e.Grant? && e.provider == p && DayOf(e.providerAt) == day then 1 else 0
  {
    assert (log + [e])[..|log|] == log;
  }

  lemma DaysAdvance(a: int, b: int)
    requires a <= b
    ensures DayOf(a) <= DayOf(b)
  {
  }

  lemma BudgetStep(w: World, e: Event, p: Provider, day: int)
    requires Budgeted(w, p, day)
    ensures Budgeted(Do(w, e), p, day)
  {
    if Enabled(w, e) {
      hide DayOf, Requests, Acquiring, Finishing;
      match e
      case TryAcquire(m, s, circuit, id, at) =>
        DaysAdvance(w.now, at.locked);
        DaysAdvance(at.locked, at.provider);
        DaysAdvance(at.provider, at.cache);
        BudgetAcquire(w, m, s, circuit, id, at, p, day);
      case TryFinish(l, result, when) =>
        DaysAdvance(w.now, when.provider);
        BudgetFinish(w, l, result, when, p, day);
      case Tick(now) => DaysAdvance(w.now, now);
      case Upsert(_) =>
    }
  }

  lemma BudgetAcquire(w: World, m: Match, s: Source, circuit: Option<int>, id: string, at: AcquireTimes, p: Provider, day: int)
    requires Budgeted(w, p, day)
    requires DayOf(w.now) <= DayOf(at.locked) <= DayOf(at.provider) <= DayOf(at.cache)
    ensures Budgeted(Acquiring(w, m, s, circuit, id, at), p, day)
  {
    hide DayOf, Requests;
    if AcquireTx(w.t, m, s, circuit, id, at).1.Granted? {
      LogNext(w.log, Grant(id, w.t.matches[m.id], s.provider, at.locked, at.provider, at.cache), p, day);
    }
  }

  lemma BudgetFinish(w: World, l: DetailCache.Lease, result: Completion, when: FinishTimes, p: Provider, day: int)
    requires Budgeted(w, p, day) && DayOf(w.now) <= DayOf(when.provider)
    ensures Budgeted(Finishing(w, l, result, when), p, day)
  {
    hide DayOf, Requests;
    var n := Finishing(w, l, result, when);
    if n.log != w.log { LogNext(w.log, n.log[|w.log|], p, day); }
  }

  lemma {:induction false} Budget(now: int, events: seq<Event>, p: Provider, day: int)
    ensures Budgeted(After(Initial(now), events), p, day)
  {
    if events != [] {
      Budget(now, events[..|events| - 1], p, day);
      BudgetStep(After(Initial(now), events[..|events| - 1]), events[|events| - 1], p, day);
    }
  }

  /** No provider gets more than a thousand requests on one UTC day. */
  lemma DailyBudget(now: int, events: seq<Event>, p: Provider, day: int)
    ensures Requests(After(Initial(now), events).log, p, day) <= 1000
  {
    Budget(now, events, p, day);
  }
}
