/** Every run of the detail cache: any interleaving of transactions over one clock that never goes
    backwards, with any leases, any answers and any changes of the match rows. */
module DetailCacheRuns {
  import opened Options
  import opened DetailCache

  /** `row` is the match row at the time of the grant. */
  datatype Log =
    | Grant(id: string, row: Match, provider: Provider, startedAt: int, providerAt: int, cacheAt: int)
    | BlockedFailure(provider: Provider, at: int)
    | Stored(matchId: string, source: Source, detail: Detail, etag: Option<string>)

  datatype World = World(now: int, t: Tables, log: seq<Log>, released: set<string>)

  datatype Event =
    | Tick(now: int)
    | Upsert(row: Match)
    | TryAcquire(m: Match, s: Source, circuit: Option<int>, id: string, at: AcquireTimes)
    | TryFinish(l: DetailCache.Lease, result: Completion, when: FinishTimes)

  predicate NewId(log: seq<Log>, id: string) {
    forall e :: e in log && e.Grant? ==> e.id != id
  }

  predicate Enabled(w: World, e: Event) {
    match e
    case Tick(now) => w.now <= now
    case Upsert(_) => true
    case TryAcquire(_, _, _, id, at) => NewId(w.log, id) && w.now <= at.locked <= at.provider <= at.cache
    case TryFinish(_, _, when) => w.now <= when.checked <= when.cacheChecked <= when.cache <= when.provider
  }

  function Acquiring(w: World, m: Match, s: Source, circuit: Option<int>, id: string, at: AcquireTimes): World {
    var (t, r) := AcquireTx(w.t, m, s, circuit, id, at);
    World(at.cache, t,
          if r.Granted? && m.id in w.t.matches
          then w.log + [Grant(id, w.t.matches[m.id], s.provider, at.locked, at.provider, at.cache)] else w.log,
          w.released)
  }

  function Finishing(w: World, l: DetailCache.Lease, result: Completion, when: FinishTimes): World {
    var (t, r) := FinishTx(w.t, l, result, when);
    World(when.provider, t,
          if r.Accepted? && result.Failed? && result.blocked then w.log + [BlockedFailure(l.source.provider, when.provider)]
          else if r.Accepted? && result.Modified? then w.log + [Stored(l.match_.id, l.source, result.detail, result.etag)]
          else w.log,
          if r.Accepted? then w.released + {l.id} else w.released)
  }

  function Do(w: World, e: Event): World {
    if !Enabled(w, e) then w
    else match e
      case Tick(now) => w.(now := now)
      case Upsert(row) => w.(t := w.t.(matches := w.t.matches[row.id := row]))
      case TryAcquire(m, s, circuit, id, at) => Acquiring(w, m, s, circuit, id, at)
      case TryFinish(l, result, when) => Finishing(w, l, result, when)
  }

  function After(w: World, events: seq<Event>): World {
    if events == [] then w else Do(After(w, events[..|events| - 1]), events[|events| - 1])
  }

  function Initial(now: int): World { World(now, Tables(map[], map[], map[]), [], {}) }

  // ---------------------------------------------------------------- what a transaction does to the rows

  /** A row that is kept and whose next attempt is not brought forward. */
  predicate ControlRaised(before: Control, after: Control) {
    before.nextAttemptAt.Some? ==> after.nextAttemptAt.Some? && before.nextAttemptAt.value <= after.nextAttemptAt.value
  }

  predicate CacheRaised(before: Cache, after: Cache) {
    before.nextAttemptAt.Some? ==> after.nextAttemptAt.Some? && before.nextAttemptAt.value <= after.nextAttemptAt.value
  }

  predicate Raised(t: Tables, n: Tables) {
    && (forall p :: p in t.controls ==> p in n.controls && ControlRaised(t.controls[p], n.controls[p]))
    && (forall m :: m in t.caches ==> m in n.caches && CacheRaised(t.caches[m], n.caches[m]))
  }

  /** While a lease is held its row's next attempt is as the grant left it. */
  predicate RowsSound(t: Tables, now: int) {
    && (forall p :: p in t.controls && t.controls[p].lease.Some? ==>
          t.controls[p].nextAttemptAt.Some? && t.controls[p].nextAttemptAt.value <= now + 1000)
    && (forall m :: m in t.caches && t.caches[m].lease.Some? ==>
          t.caches[m].nextAttemptAt.Some? && t.caches[m].nextAttemptAt.value <= now + 60_000)
  }

  predicate ControlSound(c: Control, now: int) {
    c.lease.Some? ==> c.nextAttemptAt.Some? && c.nextAttemptAt.value <= now + 1000
  }

  predicate CacheSound(c: Cache, now: int) {
    c.lease.Some? ==> c.nextAttemptAt.Some? && c.nextAttemptAt.value <= now + 60_000
  }

  /** Replacing one control row, and possibly one cache row, by raised ones. */
  lemma UpdateRaises(t: Tables, p: Provider, c: Control, rows: map<string, Cache>, now: int, later: int)
    requires RowsSound(t, now) && now <= later
    requires ControlSound(c, later) && (p in t.controls ==> ControlRaised(t.controls[p], c))
    requires forall m :: m in t.caches ==> m in rows
    requires forall m :: m in rows ==> CacheSound(rows[m], later) && (m in t.caches ==> CacheRaised(t.caches[m], rows[m]))
    ensures var n := Tables(t.matches, t.controls[p := c], rows); Raised(t, n) && RowsSound(n, later)
  {
  }

  lemma AcquireRaises(t: Tables, m: Match, s: Source, circuit: Option<int>, id: string, at: AcquireTimes, now: int)
    requires RowsSound(t, now) && now <= at.locked <= at.provider <= at.cache
    ensures var n := AcquireTx(t, m, s, circuit, id, at).0; Raised(t, n) && RowsSound(n, at.cache)
  {
    var control, cache := ControlOf(t, s.provider, at.locked), CacheOf(t, m.id);
    var (n, r) := AcquireTx(t, m, s, circuit, id, at);
    assert s.provider in t.controls ==> ControlSound(control, now);
    assert r.Granted? ==> n.controls == t.controls[s.provider := Charge(control, id, at.provider)]
                          && n.caches == t.caches[m.id := Claim(cache, id, KeyOf(m), at.cache)];
    assert !r.Granted? ==> n.controls == t.controls[s.provider := control] && (n.caches == t.caches || n.caches == t.caches[m.id := cache]);
    assert r.Granted? ==> ProviderDenial(control, at.locked, circuit).None? && CacheDenial(cache, at.locked).None?;
    assert n.matches == t.matches;
    forall k | k in n.caches ensures CacheSound(n.caches[k], at.cache) && (k in t.caches ==> CacheRaised(t.caches[k], n.caches[k])) {}
    hide AcquireTx, Raised;
    UpdateRaises(t, s.provider, if r.Granted? then Charge(control, id, at.provider) else control, n.caches, now, at.cache);
  }

  lemma FailRaises(t: Tables, l: DetailCache.Lease, blocked: bool, when: FinishTimes, now: int)
    requires RowsSound(t, now) && now <= when.checked <= when.cacheChecked <= when.cache <= when.provider
    requires HoldsProvider(t, l, when.checked)
    ensures var n := FailTx(t, l, blocked, when).0; Raised(t, n) && RowsSound(n, when.provider)
  {
  }

  lemma FinishRaises(t: Tables, l: DetailCache.Lease, result: Completion, when: FinishTimes, now: int)
    requires RowsSound(t, now) && now <= when.checked <= when.cacheChecked <= when.cache <= when.provider
    ensures var n := FinishTx(t, l, result, when).0; Raised(t, n) && RowsSound(n, when.provider)
  {
    hide FailTx;
    if result.Failed? && HoldsProvider(t, l, when.checked) { FailRaises(t, l, result.blocked, when, now); }
  }

  // ---------------------------------------------------------------- rates

  /** The rows keep the next request away long enough after what the log records. */
  predicate Cooled(t: Tables, e: Log) {
    match e
    case Grant(_, row, p, _, providerAt, cacheAt) =>
      && p in t.controls && t.controls[p].nextAttemptAt.Some? && providerAt + 1000 <= t.controls[p].nextAttemptAt.value
      && row.id in t.caches && t.caches[row.id].nextAttemptAt.Some? && cacheAt + 60_000 <= t.caches[row.id].nextAttemptAt.value
    case BlockedFailure(p, at) =>
      p in t.controls && t.controls[p].nextAttemptAt.Some? && at + BlockedDelay(p) <= t.controls[p].nextAttemptAt.value
    case Stored(_, _, _, _) => true
  }

  /** The distance the later grant `b` keeps from an earlier entry. */
  predicate Apart(e: Log, b: Log)
    requires b.Grant?
  {
    match e
    case Grant(_, row, p, _, providerAt, cacheAt) =>
      && (p == b.provider ==> providerAt + 1000 <= b.startedAt)
      && (row.id == b.row.id ==> cacheAt + 60_000 <= b.startedAt)
    case BlockedFailure(p, at) => p == b.provider ==> at + BlockedDelay(p) <= b.startedAt
    case Stored(_, _, _, _) => true
  }

  predicate RatesInv(w: World) {
    && RowsSound(w.t, w.now)
    && (forall e :: e in w.log ==> Cooled(w.t, e))
    && (forall i, j :: 0 <= i < j < |w.log| && w.log[j].Grant? ==> Apart(w.log[i], w.log[j]))
  }

  lemma StillCooled(t: Tables, n: Tables, e: Log)
    requires Raised(t, n) && Cooled(t, e)
    ensures Cooled(n, e)
  {
  }

  lemma GrantedCooled(t: Tables, m: Match, s: Source, circuit: Option<int>, id: string, at: AcquireTimes, e: Log)
    requires AcquireTx(t, m, s, circuit, id, at).1.Granted? && Cooled(t, e)
    ensures m.id in t.matches
    ensures Apart(e, Grant(id, t.matches[m.id], s.provider, at.locked, at.provider, at.cache))
  {
  }

  lemma RatesAcquire(w: World, m: Match, s: Source, circuit: Option<int>, id: string, at: AcquireTimes)
    requires RatesInv(w) && w.now <= at.locked <= at.provider <= at.cache && MatchIds(w.t)
    ensures RatesInv(Acquiring(w, m, s, circuit, id, at))
  {
    AcquireRaises(w.t, m, s, circuit, id, at, w.now);
    var (t, r) := AcquireTx(w.t, m, s, circuit, id, at);
    if r.Granted? {
      var g := Grant(id, w.t.matches[m.id], s.provider, at.locked, at.provider, at.cache);
      assert Cooled(t, g);
      hide AcquireTx, RowsSound, Raised, Cooled, Apart;
      forall e | e in w.log ensures Cooled(t, e) && Apart(e, g) {
        StillCooled(w.t, t, e);
        GrantedCooled(w.t, m, s, circuit, id, at, e);
      }
    } else {
      forall e | e in w.log ensures Cooled(t, e) { StillCooled(w.t, t, e); }
    }
  }

  lemma RatesFinish(w: World, l: DetailCache.Lease, result: Completion, when: FinishTimes)
    requires RatesInv(w) && w.now <= when.checked <= when.cacheChecked <= when.cache <= when.provider
    ensures RatesInv(Finishing(w, l, result, when))
  {
    FinishRaises(w.t, l, result, when, w.now);
    var (t, r) := FinishTx(w.t, l, result, when);
    assert r.Accepted? && result.Failed? && result.blocked ==> Cooled(t, BlockedFailure(l.source.provider, when.provider));
    hide FinishTx, RowsSound, Raised, Cooled, Apart;
    forall e | e in w.log ensures Cooled(t, e) { StillCooled(w.t, t, e); }
  }

  /** Match rows are stored under their own id. */
  predicate MatchIds(t: Tables) {
    forall m :: m in t.matches ==> t.matches[m].id == m
  }

  lemma RatesStep(w: World, e: Event)
    requires RatesInv(w) && MatchIds(w.t)
    ensures RatesInv(Do(w, e)) && MatchIds(Do(w, e).t)
  {
    if Enabled(w, e) {
      match e
      case TryAcquire(m, s, circuit, id, at) => RatesAcquire(w, m, s, circuit, id, at);
      case TryFinish(l, result, when) => RatesFinish(w, l, result, when);
      case _ =>
    }
  }

  lemma {:induction false} Rates(now: int, events: seq<Event>)
    ensures RatesInv(After(Initial(now), events)) && MatchIds(After(Initial(now), events).t)
  {
    if events != [] {
      Rates(now, events[..|events| - 1]);
      RatesStep(After(Initial(now), events[..|events| - 1]), events[|events| - 1]);
    }
  }

  /** Requests for one match start a minute apart, requests to one provider a second apart, and after
      a recorded blocked failure none starts for six hours (FotMob) or a quarter of an hour (SportScore). */
  lemma RequestsApart(now: int, events: seq<Event>, i: nat, j: nat)
    requires i < j < |After(Initial(now), events).log| && After(Initial(now), events).log[j].Grant?
    ensures var a, b := After(Initial(now), events).log[i], After(Initial(now), events).log[j];
      && (a.Grant? && a.row.id == b.row.id ==> a.cacheAt + 60_000 <= b.startedAt)
      && (a.Grant? && a.provider == b.provider ==> a.providerAt + 1000 <= b.startedAt)
      && (a.BlockedFailure? && a.provider == b.provider ==>
            a.at + (if a.provider.FotMob? then 21_600_000 else 900_000) <= b.startedAt)
  {
    Rates(now, events);
    assert Apart(After(Initial(now), events).log[i], After(Initial(now), events).log[j]);
  }
}
