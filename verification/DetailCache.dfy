/** The hosted match detail cache: provider control rows and match cache rows, each with a lease.
    A method is one database transaction; every statement in it reads the clock (milliseconds) anew,
    and `Times` lists those readings. */
module DetailCache {
  import opened Options

  datatype Provider = FotMob | SportScore

  /** A canonical match. `identity` stands for competition, season, teams and kickoff, `facts` for
      status, score, update time and source references; `other` is compared by no key. */
  datatype Match = Match(id: string, identity: string, facts: string, other: string)

  datatype IdentityKey = IdentityKey(id: string, identity: string)
  datatype MatchKey = MatchKey(identity: IdentityKey, facts: string)

  function IdentityOf(m: Match): IdentityKey { IdentityKey(m.id, m.identity) }
  function KeyOf(m: Match): MatchKey { MatchKey(IdentityOf(m), m.facts) }

  datatype Source = Source(provider: Provider, id: string)

  /** `valid` is the verdict of the detail validator. */
  datatype Detail = Detail(match_: Match, valid: bool, content: string)

  datatype HeldLease = HeldLease(id: string, expiresAt: int)

  datatype Control = Control(budgetDay: int, requestsToday: int, nextAttemptAt: Option<int>, lease: Option<HeldLease>)

  datatype Cache = Cache(detail: Option<Detail>, identityKey: Option<IdentityKey>, sourceKey: Option<Source>, etag: Option<string>,
                         lastSuccessAt: Option<int>, nextAttemptAt: Option<int>, lease: Option<HeldLease>, leaseMatchKey: Option<MatchKey>)

  datatype Tables = Tables(matches: map<string, Match>, controls: map<Provider, Control>, caches: map<string, Cache>)

  datatype Lease = Lease(id: string, match_: Match, source: Source, startedAt: int, etag: Option<string>)

  datatype Acquisition = Busy(retryAfter: int) | Cooldown(retryAfter: int) | Unavailable | Granted(lease: Lease)

  datatype Completion = Modified(detail: Detail, etag: Option<string>) | NotModified(tag: string) | Failed(blocked: bool)

  /** `Thrown` rolls the transaction back. */
  datatype FinishResult = Accepted | Rejected | Thrown

  const DAY_MS := 86_400_000
  const LEASE_MS := 30_000
  const DAILY_BUDGET := 1000

  function DayOf(t: int): int { t / DAY_MS }

  function BlockedDelay(p: Provider): int { if p.FotMob? then 21_600_000 else 900_000 }

  /** The wait announced to a caller: a day at most, and if it is shorter, waiting it is enough. */
  function RetryAfter(until: int, now: int): (seconds: int)
    ensures 1 <= seconds <= 86_400
    ensures seconds < 86_400 ==> until <= now + 1000 * seconds
  {
    var seconds := (until - now + 999) / 1000;
    var atLeast := if seconds > 1 then seconds else 1;
    if atLeast < 86_400 then atLeast else 86_400
  }

  function Later(t: Option<int>, now: int): bool { t.Some? && t.value > now }
  function Unexpired(l: Option<HeldLease>, now: int): bool { l.Some? && l.value.expiresAt > now }

  function NewControl(now: int): Control { Control(DayOf(now), 0, None, None) }
  function NewCache(): Cache { Cache(None, None, None, None, None, None, None, None) }

  function ControlOf(t: Tables, p: Provider, now: int): Control { if p in t.controls then t.controls[p] else NewControl(now) }
  function CacheOf(t: Tables, id: string): Cache { if id in t.caches then t.caches[id] else NewCache() }

  /** When the clock was read: when the control row was locked, at the provider update, at the cache update. */
  datatype AcquireTimes = AcquireTimes(locked: int, provider: int, cache: int)

  /** Why the provider turns a request away, if it does. */
  function ProviderDenial(c: Control, now: int, circuit: Option<int>): Option<Acquisition> {
    if Unexpired(c.lease, now) then Some(Busy(RetryAfter(c.lease.value.expiresAt, now)))
    else if Later(c.nextAttemptAt, now) then Some(Cooldown(RetryAfter(c.nextAttemptAt.value, now)))
    else if c.budgetDay == DayOf(now) && c.requestsToday >= DAILY_BUDGET then
      Some(Cooldown(RetryAfter((DayOf(now) + 1) * DAY_MS, now)))
    else if circuit.Some? then Some(Cooldown(RetryAfter(circuit.value, now)))
    else None
  }

  function CacheDenial(c: Cache, now: int): Option<Acquisition> {
    if Unexpired(c.lease, now) then Some(Busy(RetryAfter(c.lease.value.expiresAt, now)))
    else if Later(c.nextAttemptAt, now) then Some(Cooldown(RetryAfter(c.nextAttemptAt.value, now)))
    else None
  }

  function Charge(c: Control, id: string, at: int): Control {
    Control(DayOf(at), if c.budgetDay == DayOf(at) then c.requestsToday + 1 else 1, Some(at + 1000), Some(HeldLease(id, at + LEASE_MS)))
  }

  function Claim(c: Cache, id: string, key: MatchKey, at: int): Cache {
    c.(lease := Some(HeldLease(id, at + LEASE_MS)), leaseMatchKey := Some(key), nextAttemptAt := Some(at + 60_000))
  }

  function EtagFor(c: Cache, m: Match, s: Source): Option<string> {
    if c.identityKey == Some(IdentityOf(m)) && c.sourceKey == Some(s) && c.detail.Some? && c.etag.Some? && c.etag.value != ""
    then c.etag else None
  }

  function AcquireTx(t: Tables, m: Match, s: Source, circuit: Option<int>, id: string, times: AcquireTimes): (Tables, Acquisition) {
    var now := times.locked;
    var control := ControlOf(t, s.provider, now);
    var t1 := t.(controls := t.controls[s.provider := control]);
    var byProvider := ProviderDenial(control, now, circuit);
    if byProvider.Some? then (t1, byProvider.value)
    else if m.id !in t.matches || KeyOf(t.matches[m.id]) != KeyOf(m) then (t1, Unavailable)
    else
      var cache := CacheOf(t, m.id);
      var byCache := CacheDenial(cache, now);
      if byCache.Some? then (t1.(caches := t.caches[m.id := cache]), byCache.value)
      else
        (t.(controls := t.controls[s.provider := Charge(control, id, times.provider)],
            caches := t.caches[m.id := Claim(cache, id, KeyOf(m), times.cache)]),
         Granted(Lease(id, m, s, now, EtagFor(cache, m, s))))
  }

  /** When the clock was read: checking the provider lease, checking the cache lease, updating the
      cache row, updating the provider row. */
  datatype FinishTimes = FinishTimes(checked: int, cacheChecked: int, cache: int, provider: int)

  function HoldsProvider(t: Tables, l: Lease, now: int): bool {
    l.source.provider in t.controls
    && var held := t.controls[l.source.provider].lease; held.Some? && held.value.id == l.id && held.value.expiresAt > now
  }

  function HoldsCache(t: Tables, l: Lease, now: int): bool {
    l.match_.id in t.caches
    && var held := t.caches[l.match_.id].lease; held.Some? && held.value.id == l.id && held.value.expiresAt > now
  }

  function Release(c: Control, nextAttemptAt: int): Control { c.(lease := None, nextAttemptAt := Some(nextAttemptAt)) }

  function ReleaseCache(c: Cache, nextAttemptAt: int): Cache { c.(lease := None, leaseMatchKey := None, nextAttemptAt := Some(nextAttemptAt)) }

  function FailTx(t: Tables, l: Lease, blocked: bool, times: FinishTimes): (Tables, FinishResult)
    requires HoldsProvider(t, l, times.checked)
  {
    var delay := if blocked then BlockedDelay(l.source.provider) else 60_000;
    var own := l.match_.id in t.caches && t.caches[l.match_.id].lease.Some? && t.caches[l.match_.id].lease.value.id == l.id;
    if !HoldsProvider(t, l, times.provider) then (t, Thrown)
    else
      (t.(caches := if own then t.caches[l.match_.id := ReleaseCache(t.caches[l.match_.id], times.cache + delay)] else t.caches,
          controls := t.controls[l.source.provider :=
                        Release(t.controls[l.source.provider], times.provider + if blocked then delay else 1000)]),
       Accepted)
  }

  /** The cached row is one that this lease was granted for and that the answer may be stored in. */
  function Publishable(t: Tables, l: Lease, result: Completion, times: FinishTimes): bool {
    && HoldsCache(t, l, times.cacheChecked) && t.caches[l.match_.id].leaseMatchKey == Some(KeyOf(l.match_))
    && l.match_.id in t.matches && KeyOf(t.matches[l.match_.id]) == KeyOf(l.match_)
    && (result.NotModified? ==>
          var c := t.caches[l.match_.id];
          c.detail.Some? && c.sourceKey == Some(l.source) && c.etag == Some(result.tag) && l.etag == Some(result.tag))
  }

  function Store(c: Cache, l: Lease, result: Completion, at: int): Cache {
    var next := ReleaseCache(c, at + 60_000).(lastSuccessAt := Some(at));
    if result.Modified? then
      next.(detail := Some(result.detail), identityKey := Some(IdentityOf(l.match_)), sourceKey := Some(l.source), etag := result.etag)
    else next
  }

  function FinishTx(t: Tables, l: Lease, result: Completion, times: FinishTimes): (Tables, FinishResult) {
    if result.Modified? && (!result.detail.valid || IdentityOf(result.detail.match_) != IdentityOf(l.match_)) then (t, Rejected)
    else if !HoldsProvider(t, l, times.checked) then (t, Rejected)
    else if result.Failed? then FailTx(t, l, result.blocked, times)
    else if !Publishable(t, l, result, times) then (t, Rejected)
    else if !HoldsCache(t, l, times.cache) then (t, Rejected)
    else if !HoldsProvider(t, l, times.provider) then (t, Thrown)
    else
      (t.(caches := t.caches[l.match_.id := Store(t.caches[l.match_.id], l, result, times.cache)],
          controls := t.controls[l.source.provider := Release(t.controls[l.source.provider], times.provider + 1000)]),
       Accepted)
  }

  datatype DetailRead = DetailRead(match_: Match, detail: Option<Detail>, lastSuccessAt: Option<int>, retryAfter: Option<int>)

  function Shown(t: Tables, id: string): Option<Detail>
    requires id in t.matches
  {
    var c := CacheOf(t, id);
    if c.identityKey == Some(IdentityOf(t.matches[id])) && c.detail.Some? && c.detail.value.valid then c.detail else None
  }

  function ReadRow(t: Tables, id: string, now: int): Option<DetailRead> {
    if id !in t.matches then None
    else
      var c, detail := CacheOf(t, id), Shown(t, id);
      var wait := if c.nextAttemptAt.None? then None
                  else
                    var seconds := (c.nextAttemptAt.value - now + 999) / 1000;
                    Some(if seconds < 0 then 0 else if seconds < 86_400 then seconds else 86_400);
      Some(DetailRead(t.matches[id], detail, if detail.Some? then c.lastSuccessAt else None, wait))
  }

  predicate HeldAt(lease: Option<HeldLease>, now: int) { lease.Some? && now < lease.value.expiresAt }

  /** No lease that still runs and no attempt that lies ahead. */
  predicate Free(lease: Option<HeldLease>, next: Option<int>, now: int) { !HeldAt(lease, now) && (next.Some? ==> next.value <= now) }

  predicate OwnsAt(lease: Option<HeldLease>, l: Lease, now: int) { HeldAt(lease, now) && lease.value.id == l.id }

  /** The provider takes another request: nobody holds it, its pause is over, its thousand requests of the
      day are not used up, and its circuit is closed. */
  predicate Admits(controls: map<Provider, Control>, p: Provider, circuit: Option<int>, now: int) {
    && (p in controls ==>
          Free(controls[p].lease, controls[p].nextAttemptAt, now) && (controls[p].budgetDay == now / DAY_MS ==> controls[p].requestsToday < 1000))
    && circuit.None?
  }

  /** The control row after a grant: one request more on that day, a lease of 30 s, a pause of one second. */
  ghost predicate Charged(before: map<Provider, Control>, p: Provider, id: string, at: int, c: Control) {
    && c.budgetDay == at / DAY_MS && c.lease == Some(HeldLease(id, at + 30_000)) && c.nextAttemptAt == Some(at + 1000)
    && c.requestsToday == if p in before && before[p].budgetDay == at / DAY_MS then before[p].requestsToday + 1 else 1
  }

  /** The cache row after a grant: what was cached stays, the lease of 30 s is for the match as asked. */
  ghost predicate Claimed(before: map<string, Cache>, m: Match, id: string, at: int, c: Cache) {
    && c.lease == Some(HeldLease(id, at + 30_000)) && c.leaseMatchKey == Some(KeyOf(m)) && c.nextAttemptAt == Some(at + 60_000)
    && if m.id in before then
         var b := before[m.id];
         c.detail == b.detail && c.identityKey == b.identityKey && c.sourceKey == b.sourceKey && c.etag == b.etag && c.lastSuccessAt == b.lastSuccessAt
       else c.detail.None? && c.identityKey.None? && c.sourceKey.None? && c.etag.None? && c.lastSuccessAt.None?
  }

  /** The etag to ask with: that of a cached detail of the same identity from the same source. */
  ghost function KnownEtag(before: map<string, Cache>, m: Match, s: Source): Option<string> {
    if m.id in before && before[m.id].detail.Some? && before[m.id].identityKey == Some(IdentityOf(m))
       && before[m.id].sourceKey == Some(s) && before[m.id].etag != Some("") then before[m.id].etag else None
  }

  /** How long a block keeps requests away. */
  function Block(p: Provider): int { match p case FotMob => 6 * 3_600_000 case SportScore => 15 * 60_000 }

  /** The cached row was claimed by this lease for the match row as it is, its lease lasts, and "not
      modified" speaks of the detail it holds. */
  predicate TakesAnswer(c: Cache, m: Match, l: Lease, result: Completion, times: FinishTimes) {
    && OwnsAt(c.lease, l, times.cacheChecked) && OwnsAt(c.lease, l, times.cache)
    && c.leaseMatchKey == Some(KeyOf(l.match_)) && KeyOf(m) == KeyOf(l.match_)
    && (result.NotModified? ==>
          c.detail.Some? && c.sourceKey == Some(l.source) && c.etag == Some(result.tag) == l.etag)
  }

  /** The three tables of one owner. */
  class DetailStore {
    var matches: map<string, Match>
    var controls: map<Provider, Control>
    var caches: map<string, Cache>

    function Rows(): Tables reads this { Tables(matches, controls, caches) }

    constructor ()
      ensures Rows() == Tables(map[], map[], map[])
    {
      matches, controls, caches := map[], map[], map[];
    }

    /** What a caller may rely on: the match row itself; a detail exactly when a valid one is cached
        for the identity of that row, with the time it was fetched; and the fewest whole seconds, up
        to a day, after which the cache row admits another attempt. */
    method Read(id: string, now: int) returns (r: Option<DetailRead>)
      ensures r.Some? <==> id in matches
      ensures r.Some? ==> r.value.match_ == matches[id]
      ensures r.Some? ==> (r.value.detail.Some? <==>
        id in caches && caches[id].identityKey == Some(IdentityOf(matches[id])) && caches[id].detail.Some? && caches[id].detail.value.valid)
      ensures r.Some? ==> if r.value.detail.Some? then r.value.detail == caches[id].detail && r.value.lastSuccessAt == caches[id].lastSuccessAt
                          else r.value.lastSuccessAt.None?
      ensures r.Some? ==> (r.value.retryAfter.Some? <==> id in caches && caches[id].nextAttemptAt.Some?)
      ensures r.Some? && r.value.retryAfter.Some? ==>
        && 0 <= r.value.retryAfter.value <= 86_400
        && (r.value.retryAfter.value < 86_400 ==> caches[id].nextAttemptAt.value <= now + 1000 * r.value.retryAfter.value)
        && forall s :: 0 <= s < r.value.retryAfter.value ==> now + 1000 * s < caches[id].nextAttemptAt.value
      ensures r == ReadRow(Rows(), id, now)
    {
      if id !in matches { return None; }
      var m := matches[id];
      var c := if id in caches then caches[id] else NewCache();
      var detail := if c.identityKey == Some(IdentityOf(m)) && c.detail.Some? && c.detail.value.valid then c.detail else None;
      var wait: Option<int> := None;
      if c.nextAttemptAt.Some? {
        var seconds := (c.nextAttemptAt.value - now + 999) / 1000;
        if seconds < 0 { seconds := 0; }
        wait := Some(if seconds < 86_400 then seconds else 86_400);
      }
      return Some(DetailRead(m, detail, if detail.Some? then c.lastSuccessAt else None, wait));
    }

    /** A lease is granted exactly when the provider is free, has budget left and no open circuit, the match
        row is the one asked for, and its cache row is free. Only a grant claims anything; a denial may add
        an empty row. */
    method Acquire(m: Match, s: Source, circuit: Option<int>, id: string, times: AcquireTimes) returns (r: Acquisition)
      modifies this`controls, this`caches
      ensures r.Granted? <==>
        && Admits(old(controls), s.provider, circuit, times.locked) && m.id in matches && KeyOf(matches[m.id]) == KeyOf(m)
        && (m.id in old(caches) ==> Free(old(caches)[m.id].lease, old(caches)[m.id].nextAttemptAt, times.locked))
      ensures r.Unavailable? <==>
        Admits(old(controls), s.provider, circuit, times.locked) && !(m.id in matches && KeyOf(matches[m.id]) == KeyOf(m))
      ensures r.Busy? <==>
        || (s.provider in old(controls) && HeldAt(old(controls)[s.provider].lease, times.locked))
        || (Admits(old(controls), s.provider, circuit, times.locked) && m.id in matches && KeyOf(matches[m.id]) == KeyOf(m)
            && m.id in old(caches) && HeldAt(old(caches)[m.id].lease, times.locked))
      ensures r.Granted? ==>
        && s.provider in controls && Charged(old(controls), s.provider, id, times.provider, controls[s.provider])
        && m.id in caches && Claimed(old(caches), m, id, times.cache, caches[m.id])
        && r.lease == Lease(id, m, s, times.locked, KnownEtag(old(caches), m, s))
      ensures !r.Granted? ==>
        && controls == (if s.provider in old(controls) then old(controls) else old(controls)[s.provider := NewControl(times.locked)])
        && (caches == old(caches) || (m.id !in old(caches) && caches == old(caches)[m.id := NewCache()]))
      ensures forall p :: p != s.provider ==> (p in controls <==> p in old(controls)) && (p in controls ==> controls[p] == old(controls)[p])
      ensures forall k :: k != m.id ==> (k in caches <==> k in old(caches)) && (k in caches ==> caches[k] == old(caches)[k])
      ensures (Rows(), r) == AcquireTx(old(Rows()), m, s, circuit, id, times)
    {
      var now := times.locked;
      if s.provider !in controls { controls := controls[s.provider := NewControl(now)]; }
      var control := controls[s.provider];
      assert controls == old(controls)[s.provider := control];
      if Unexpired(control.lease, now) { return Busy(RetryAfter(control.lease.value.expiresAt, now)); }
      if Later(control.nextAttemptAt, now) { return Cooldown(RetryAfter(control.nextAttemptAt.value, now)); }
      if control.budgetDay == DayOf(now) && control.requestsToday >= DAILY_BUDGET {
        return Cooldown(RetryAfter((DayOf(now) + 1) * DAY_MS, now));
      }
      if circuit.Some? { return Cooldown(RetryAfter(circuit.value, now)); }
      if m.id !in matches || KeyOf(matches[m.id]) != KeyOf(m) { return Unavailable; }
      if m.id !in caches { caches := caches[m.id := NewCache()]; }
      var cache := caches[m.id];
      assert caches == old(caches)[m.id := cache];
      if Unexpired(cache.lease, now) { return Busy(RetryAfter(cache.lease.value.expiresAt, now)); }
      if Later(cache.nextAttemptAt, now) { return Cooldown(RetryAfter(cache.nextAttemptAt.value, now)); }
      var sameDay := control.budgetDay == DayOf(times.provider);
      controls := controls[s.provider := Control(DayOf(times.provider), if sameDay then control.requestsToday + 1 else 1,
                                                 Some(times.provider + 1000), Some(HeldLease(id, times.provider + 30_000)))];
      caches := caches[m.id := cache.(lease := Some(HeldLease(id, times.cache + 30_000)), leaseMatchKey := Some(KeyOf(m)),
                                      nextAttemptAt := Some(times.cache + 60_000))];
      assert controls == old(controls)[s.provider := Charge(control, id, times.provider)];
      assert caches == old(caches)[m.id := Claim(cache, id, KeyOf(m), times.cache)];
      return Granted(Lease(id, m, s, now, EtagFor(cache, m, s)));
    }

    /** `Accepted` exactly when the provider lease is held and, for an answer, the cached row may take it;
        then the answer is stored, a failure leaves what was cached, and the delays are set. Anything else
        changes no row. */
    method Finish(l: Lease, result: Completion, times: FinishTimes) returns (r: FinishResult)
      modifies this`controls, this`caches
      ensures r.Rejected? <==>
        || (result.Modified? && (!result.detail.valid || IdentityOf(result.detail.match_) != IdentityOf(l.match_)))
        || l.source.provider !in old(controls) || !OwnsAt(old(controls)[l.source.provider].lease, l, times.checked)
        || (!result.Failed? && !(l.match_.id in old(caches) && l.match_.id in matches
                                 && TakesAnswer(old(caches)[l.match_.id], matches[l.match_.id], l, result, times)))
      ensures r.Thrown? ==> !OwnsAt(old(controls)[l.source.provider].lease, l, times.provider)
      ensures r.Accepted? ==>
        && l.source.provider in old(controls) && OwnsAt(old(controls)[l.source.provider].lease, l, times.provider)
        && controls == old(controls)[l.source.provider := old(controls)[l.source.provider].(
             lease := None, nextAttemptAt := Some(times.provider + if result.Failed? && result.blocked then Block(l.source.provider) else 1000))]
      ensures r.Accepted? && result.Modified? ==>
        caches == old(caches)[l.match_.id :=
          Cache(Some(result.detail), Some(IdentityOf(l.match_)), Some(l.source), result.etag, Some(times.cache), Some(times.cache + 60_000), None, None)]
      ensures r.Accepted? && result.NotModified? ==>
        l.match_.id in old(caches) && var c := old(caches)[l.match_.id];
        caches == old(caches)[l.match_.id :=
          Cache(c.detail, c.identityKey, c.sourceKey, c.etag, Some(times.cache), Some(times.cache + 60_000), None, None)]
      ensures r.Accepted? && result.Failed? ==>
        if l.match_.id in old(caches) && old(caches)[l.match_.id].lease.Some? && old(caches)[l.match_.id].lease.value.id == l.id then
          var c := old(caches)[l.match_.id];
          caches == old(caches)[l.match_.id :=
            Cache(c.detail, c.identityKey, c.sourceKey, c.etag, c.lastSuccessAt,
                  Some(times.cache + if result.blocked then Block(l.source.provider) else 60_000), None, None)]
        else caches == old(caches)
      ensures !r.Accepted? ==> controls == old(controls) && caches == old(caches)
      ensures (Rows(), r) == FinishTx(old(Rows()), l, result, times)
    {
      if result.Modified? && (!result.detail.valid || IdentityOf(result.detail.match_) != IdentityOf(l.match_)) { return Rejected; }
      if !HoldsProvider(Rows(), l, times.checked) { return Rejected; }
      var control := controls[l.source.provider];
      if result.Failed? {
        var delay := if result.blocked then BlockedDelay(l.source.provider) else 60_000;
        // The update of the provider row decides whether the transaction commits.
        if control.lease.value.expiresAt <= times.provider { return Thrown; }
        if l.match_.id in caches && caches[l.match_.id].lease.Some? && caches[l.match_.id].lease.value.id == l.id {
          caches := caches[l.match_.id := ReleaseCache(caches[l.match_.id], times.cache + delay)];
        }
        controls := controls[l.source.provider := Release(control, times.provider + if result.blocked then delay else 1000)];
        return Accepted;
      }
      if !HoldsCache(Rows(), l, times.cacheChecked) { return Rejected; }
      var cache := caches[l.match_.id];
      if cache.leaseMatchKey != Some(KeyOf(l.match_)) { return Rejected; }
      if l.match_.id !in matches || KeyOf(matches[l.match_.id]) != KeyOf(l.match_) { return Rejected; }
      if result.NotModified? && (cache.detail.None? || cache.sourceKey != Some(l.source)
                                 || cache.etag != Some(result.tag) || l.etag != Some(result.tag)) { return Rejected; }
      if cache.lease.value.expiresAt <= times.cache { return Rejected; }
      if control.lease.value.expiresAt <= times.provider { return Thrown; }
      caches := caches[l.match_.id := Store(cache, l, result, times.cache)];
      controls := controls[l.source.provider := Release(control, times.provider + 1000)];
      return Accepted;
    }
  }

  /** A detail that was accepted is what a read shows from then on, with the time it was stored. */
  lemma AcceptedIsShown(t: Tables, l: Lease, detail: Detail, etag: Option<string>, times: FinishTimes, now: int)
    requires FinishTx(t, l, Modified(detail, etag), times).1 == Accepted
    ensures var shown := ReadRow(FinishTx(t, l, Modified(detail, etag), times).0, l.match_.id, now);
      shown.Some? && shown.value.detail == Some(detail) && shown.value.lastSuccessAt == Some(times.cache)
  {
  }
}
