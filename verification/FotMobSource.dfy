/** The FotMob path of the live refresh: daily listings are collected into an insertion-ordered map,
    and tracked matches missing from them are carried over for less than ten minutes. */
module FotMobSource {
  import opened Options
  import opened StableSort
  import JsMap
  import Calendar
  import opened LiveRefreshStore

  const MAX_OBSERVATIONS := 2000
  const RETAIN_MISSING_MS := 600_000
  const HOUR_MS := 3_600_000
  const DAY_MS := 86_400_000

  /** What one daily request yields after mapping. */
  datatype DayFeed = AccessBlocked | Unexpected | Feed(upstreamCount: nat, matches: seq<Overlay>)

  datatype ReadError = StoppedByBlock | UnexpectedDate | BoundExceeded
  datatype ReadResult<T> = Stopped(error: ReadError) | Read(value: T)

  type Observations = JsMap.JsMap<string, Overlay>

  /** Yesterday is asked for too while the UTC day is less than four hours old. */
  function Dates(observedAt: int): seq<int> {
    var today := observedAt / DAY_MS;
    if observedAt / HOUR_MS % 24 < 4 then [today - 1, today] else [today]
  }

  lemma HourOfDay(observedAt: int)
    ensures var start := observedAt / DAY_MS * DAY_MS;
      start <= observedAt < start + DAY_MS && (observedAt / HOUR_MS % 24 < 4 <==> observedAt < start + 4 * HOUR_MS)
  {
    var d, r := observedAt / DAY_MS, observedAt % DAY_MS;
    var h := r / HOUR_MS;
    HourWithin(r);
    Calendar.Quotient(observedAt, HOUR_MS, 24 * d + h, r % HOUR_MS);
    Calendar.Quotient(24 * d + h, 24, d, h);
  }

  lemma HourWithin(r: int)
    requires 0 <= r < DAY_MS
    ensures 0 <= r / HOUR_MS < 24 && (r / HOUR_MS < 4 <==> r < 4 * HOUR_MS)
  {
  }

  /** The days asked for are exactly those touched by the four hours up to now. */
  lemma DatesCoverFourHours(observedAt: int, day: int)
    ensures day in Dates(observedAt) <==> exists t :: observedAt - 4 * HOUR_MS <= t <= observedAt && t / DAY_MS == day
  {
    HourOfDay(observedAt);
    var today := observedAt / DAY_MS;
    assert (today * DAY_MS - 1) / DAY_MS == today - 1;
    assert observedAt - 4 * HOUR_MS <= observedAt && observedAt / DAY_MS == today;
    forall t | observedAt - 4 * HOUR_MS <= t <= observedAt ensures t / DAY_MS in Dates(observedAt) {
      assert t / DAY_MS == today || t / DAY_MS == today - 1;
    }
  }

  function SetAll(obs: Observations, ms: seq<Overlay>): Observations {
    if ms == [] then obs
    else
      var m := ms[|ms| - 1];
      JsMap.Set(SetAll(obs, ms[..|ms| - 1]), m.matchId, m)
  }

  datatype Collected = Collected(obs: Observations, upstreamCount: nat)

  function Collect(dates: seq<int>, fetch: int -> DayFeed): ReadResult<Collected> {
    if dates == [] then Read(Collected([], 0))
    else
      var before := Collect(dates[..|dates| - 1], fetch);
      if before.Stopped? then before
      else
        match fetch(dates[|dates| - 1])
        case AccessBlocked => Stopped(StoppedByBlock)
        case Unexpected => Stopped(UnexpectedDate)
        case Feed(count, ms) =>
          if before.value.upstreamCount + count > MAX_OBSERVATIONS then Stopped(BoundExceeded)
          else Read(Collected(SetAll(before.value.obs, ms), before.value.upstreamCount + count))
  }

  datatype Tally = Tally(obs: Observations, retained: nat, expired: nat)

  function Retain(t: Tally, m: Overlay, observedAt: int): Tally {
    if m.status == Completed || JsMap.Has(t.obs, m.matchId) then t
    else if observedAt - m.updatedAt >= RETAIN_MISSING_MS then t.(expired := t.expired + 1)
    else t.(obs := JsMap.Set(t.obs, m.matchId, m), retained := t.retained + 1)
  }

  function RetainAll(t: Tally, ms: seq<Overlay>, observedAt: int): Tally {
    if ms == [] then t else Retain(RetainAll(t, ms[..|ms| - 1], observedAt), ms[|ms| - 1], observedAt)
  }

  function TrackedBefore(prev: Option<Snapshot>): seq<Overlay> {
    if prev.Some? then prev.value.matches else []
  }

  function Build(prev: Option<Snapshot>, c: Collected, observedAt: int): Snapshot {
    var t := RetainAll(Tally(c.obs, 0, 0), TrackedBefore(prev), observedAt);
    Snapshot(observedAt, Coverage(MAX_OBSERVATIONS, c.upstreamCount, |c.obs|, |t.obs|, 0, t.retained), JsMap.Values(t.obs))
  }

  /** The records listed upstream on the first `k` days. */
  function Listed(dates: seq<int>, fetch: int -> DayFeed, k: nat): nat
    requires k <= |dates|
  {
    if k == 0 then 0 else Listed(dates, fetch, k - 1) + if fetch(dates[k - 1]).Feed? then fetch(dates[k - 1]).upstreamCount else 0
  }

  /** The day is answered and does not go over the two thousand. */
  predicate DayFine(dates: seq<int>, fetch: int -> DayFeed, k: nat)
    requires k < |dates|
  {
    fetch(dates[k]).Feed? && Listed(dates, fetch, k + 1) <= 2000
  }

  /** The first day that is not fine stops the collection, and says why. */
  ghost predicate CollectedAs(dates: seq<int>, fetch: int -> DayFeed, r: ReadResult<Collected>) {
    match r
    case Read(c) => (forall k :: 0 <= k < |dates| ==> DayFine(dates, fetch, k)) && c.upstreamCount == Listed(dates, fetch, |dates|)
    case Stopped(error) =>
      exists k :: 0 <= k < |dates| && !DayFine(dates, fetch, k) && (forall j :: 0 <= j < k ==> DayFine(dates, fetch, j))
        && error == match fetch(dates[k])
             case AccessBlocked => StoppedByBlock
             case Unexpected => UnexpectedDate
             case Feed(_, _) => BoundExceeded
  }

  lemma {:induction false} ListedPrefix(dates: seq<int>, fetch: int -> DayFeed, k: nat)
    requires k < |dates|
    ensures Listed(dates[..|dates| - 1], fetch, k) == Listed(dates, fetch, k)
  {
    if k > 0 { ListedPrefix(dates, fetch, k - 1); }
  }

  lemma {:induction false} CollectMeaning(dates: seq<int>, fetch: int -> DayFeed)
    ensures CollectedAs(dates, fetch, Collect(dates, fetch))
  {
    if dates != [] {
      var init := dates[..|dates| - 1];
      CollectMeaning(init, fetch);
      forall k: nat | k < |dates| ensures Listed(init, fetch, k) == Listed(dates, fetch, k) { ListedPrefix(dates, fetch, k); }
      assert forall k: nat :: k < |init| ==> (DayFine(init, fetch, k) == DayFine(dates, fetch, k) && init[k] == dates[k]);
      if Collect(init, fetch).Read? {
        assert Listed(dates, fetch, |dates|) == Listed(dates, fetch, |init|) + if fetch(dates[|init|]).Feed? then fetch(dates[|init|]).upstreamCount else 0;
        assert Collect(dates, fetch).Stopped? ==> !DayFine(dates, fetch, |init|);
      }
    }
  }

  /** The loop over the days; the first failing request ends it. */
  method CollectDays(dates: seq<int>, fetch: int -> DayFeed) returns (r: ReadResult<Collected>)
    ensures CollectedAs(dates, fetch, r)
    ensures r == Collect(dates, fetch)
  {
    hide CollectedAs;
    CollectMeaning(dates, fetch);
    var obs: Observations, upstreamCount: nat := [], 0;
    for i := 0 to |dates|
      invariant Collect(dates[..i], fetch) == Read(Collected(obs, upstreamCount))
    {
      assert dates[..i + 1][..i] == dates[..i];
      CollectStops(dates, i + 1, fetch);
      var response := fetch(dates[i]);
      if response.AccessBlocked? { return Stopped(StoppedByBlock); }
      if response.Unexpected? { return Stopped(UnexpectedDate); }
      upstreamCount := upstreamCount + response.upstreamCount;
      if upstreamCount > MAX_OBSERVATIONS { return Stopped(BoundExceeded); }
      obs := SetEach(obs, response.matches);
    }
    assert dates[..|dates|] == dates;
    return Read(Collected(obs, upstreamCount));
  }

  method SetEach(start: Observations, ms: seq<Overlay>) returns (obs: Observations)
    ensures obs == SetAll(start, ms)
  {
    obs := start;
    for k := 0 to |ms|
      invariant obs == SetAll(start, ms[..k])
    {
      assert ms[..k + 1][..k] == ms[..k];
      obs := JsMap.Set(obs, ms[k].matchId, ms[k]);
    }
    assert ms[..|ms|] == ms;
  }

  method ReadSnapshot(prev: Option<Snapshot>, observedAt: int, fetch: int -> DayFeed) returns (r: ReadResult<Snapshot>)
    ensures var c := Collect(Dates(observedAt), fetch);
      r == if c.Stopped? then Stopped(c.error) else Read(Build(prev, c.value, observedAt))
  {
    hide Collect;
    var collected := CollectDays(Dates(observedAt), fetch);
    if collected.Stopped? { return Stopped(collected.error); }
    var upstreamCount := collected.value.upstreamCount;
    var mapped, obs, retained, expired := |collected.value.obs|, collected.value.obs, 0, 0;
    var tracked := TrackedBefore(prev);
    for i := 0 to |tracked|
      invariant RetainAll(Tally(collected.value.obs, 0, 0), tracked[..i], observedAt) == Tally(obs, retained, expired)
    {
      assert tracked[..i + 1][..i] == tracked[..i];
      var m := tracked[i];
      if m.status == Completed || JsMap.Has(obs, m.matchId) { continue; }
      if observedAt - m.updatedAt >= RETAIN_MISSING_MS { expired := expired + 1; continue; }
      obs := JsMap.Set(obs, m.matchId, m);
      retained := retained + 1;
    }
    assert tracked[..|tracked|] == tracked;
    return Read(Snapshot(observedAt, Coverage(MAX_OBSERVATIONS, upstreamCount, mapped, |obs|, 0, retained), JsMap.Values(obs)));
  }

  lemma {:induction false} CollectStops(dates: seq<int>, k: nat, fetch: int -> DayFeed)
    requires k <= |dates|
    ensures Collect(dates[..k], fetch).Stopped? ==> Collect(dates, fetch) == Collect(dates[..k], fetch)
    decreases |dates|
  {
    if k < |dates| {
      assert dates[..|dates| - 1][..k] == dates[..k];
      CollectStops(dates[..|dates| - 1], k, fetch);
    } else {
      assert dates[..k] == dates;
    }
  }

  // ---------------------------------------------------------------- what the snapshot holds

  /** Every key of the map is the id of its value. */
  ghost predicate Keyed(obs: Observations) {
    JsMap.UniqueKeys(obs) && forall e :: e in obs ==> e.key == e.value.matchId
  }

  lemma KeyedValues(obs: Observations)
    requires Keyed(obs)
    ensures UniqueIds(JsMap.Values(obs))
    ensures forall m: Overlay :: m in JsMap.Values(obs) <==> JsMap.Lookup(obs, m.matchId) == Some(m)
  {
    forall i | 0 <= i < |obs| ensures obs[i].value.matchId == obs[i].key { assert obs[i] in obs; }
    forall m | m in JsMap.Values(obs) ensures JsMap.Lookup(obs, m.matchId) == Some(m) {
      var i :| 0 <= i < |obs| && obs[i].value == m;
      JsMap.LookupAt(obs, i);
    }
    forall m: Overlay | JsMap.Lookup(obs, m.matchId) == Some(m) ensures m in JsMap.Values(obs) {
      var i := JsMap.LookupIndex(obs, m.matchId);
      assert JsMap.Values(obs)[i] == m;
    }
  }

  /** The last element with this id, as `Map.set` in a loop leaves it. */
  function LastWith(ms: seq<Overlay>, id: string): Option<Overlay> {
    if ms == [] then None
    else if ms[|ms| - 1].matchId == id then Some(ms[|ms| - 1])
    else LastWith(ms[..|ms| - 1], id)
  }

  function Or(first: Option<Overlay>, second: Option<Overlay>): Option<Overlay> {
    if first.Some? then first else second
  }

  lemma KeyedSet(obs: Observations, m: Overlay)
    requires Keyed(obs)
    ensures Keyed(JsMap.Set(obs, m.matchId, m))
    ensures forall id :: JsMap.Lookup(JsMap.Set(obs, m.matchId, m), id) == if id == m.matchId then Some(m) else JsMap.Lookup(obs, id)
    ensures |JsMap.Set(obs, m.matchId, m)| == |obs| + if JsMap.Has(obs, m.matchId) then 0 else 1
  {
    JsMap.SetLookup(obs, m.matchId, m);
    if JsMap.Has(obs, m.matchId) {
      var i := JsMap.LookupIndex(obs, m.matchId);
      JsMap.SetAt(obs, m.matchId, m, i);
    } else {
      JsMap.SetFresh(obs, m.matchId, m);
    }
  }

  lemma {:induction false} SetAllGet(obs: Observations, ms: seq<Overlay>)
    requires Keyed(obs)
    ensures Keyed(SetAll(obs, ms)) && |SetAll(obs, ms)| <= |obs| + |ms|
    ensures forall id :: JsMap.Lookup(SetAll(obs, ms), id) == Or(LastWith(ms, id), JsMap.Lookup(obs, id))
  {
    if ms != [] {
      SetAllGet(obs, ms[..|ms| - 1]);
      hide Keyed, JsMap.Lookup;
      KeyedSet(SetAll(obs, ms[..|ms| - 1]), ms[|ms| - 1]);
    }
  }

  /** A feed as the adapter maps it: stamped with this observation, never more than was upstream. */
  ghost predicate Mapped(feed: DayFeed, observedAt: int) {
    feed.Feed? ==> |feed.matches| <= feed.upstreamCount && forall m :: m in feed.matches ==> m.updatedAt == observedAt
  }

  /** The last day's entry for an id wins over the day before. */
  function LatestFeed(dates: seq<int>, fetch: int -> DayFeed, id: string): Option<Overlay> {
    if dates == [] then None
    else
      var feed := fetch(dates[|dates| - 1]);
      Or(if feed.Feed? then LastWith(feed.matches, id) else None, LatestFeed(dates[..|dates| - 1], fetch, id))
  }

  lemma {:induction false} CollectGets(dates: seq<int>, fetch: int -> DayFeed, observedAt: int)
    requires forall i :: 0 <= i < |dates| ==> Mapped(fetch(dates[i]), observedAt)
    requires Collect(dates, fetch).Read?
    ensures var c := Collect(dates, fetch).value;
      && Keyed(c.obs) && |c.obs| <= c.upstreamCount <= MAX_OBSERVATIONS
      && forall id :: JsMap.Lookup(c.obs, id) == LatestFeed(dates, fetch, id)
  {
    if dates != [] {
      CollectGets(dates[..|dates| - 1], fetch, observedAt);
      var before := Collect(dates[..|dates| - 1], fetch).value;
      assert Mapped(fetch(dates[|dates| - 1]), observedAt);
      SetAllGet(before.obs, fetch(dates[|dates| - 1]).matches);
      hide Keyed, JsMap.Lookup, SetAll, LastWith;
    }
  }

  lemma {:induction false} LastWithIn(ms: seq<Overlay>, id: string)
    ensures LastWith(ms, id).Some? ==> LastWith(ms, id).value in ms && LastWith(ms, id).value.matchId == id
  {
    if ms != [] { LastWithIn(ms[..|ms| - 1], id); }
  }

  lemma {:induction false} LatestStamped(dates: seq<int>, fetch: int -> DayFeed, observedAt: int, id: string)
    requires forall i :: 0 <= i < |dates| ==> Mapped(fetch(dates[i]), observedAt)
    ensures var m := LatestFeed(dates, fetch, id); m.Some? ==> m.value.updatedAt == observedAt && m.value.matchId == id
  {
    if dates != [] {
      LatestStamped(dates[..|dates| - 1], fetch, observedAt, id);
      var feed := fetch(dates[|dates| - 1]);
      assert Mapped(fetch(dates[|dates| - 1]), observedAt);
      if feed.Feed? { LastWithIn(feed.matches, id); }
    }
  }

  /** The tracked match that is carried over for an id, if any. */
  function Carried(ms: seq<Overlay>, observedAt: int, id: string): Option<Overlay> {
    if ms == [] then None
    else
      var m := ms[|ms| - 1];
      if m.matchId == id && m.status != Completed && observedAt - m.updatedAt < RETAIN_MISSING_MS then Some(m)
      else Carried(ms[..|ms| - 1], observedAt, id)
  }

  function Missing(obs: Observations): Overlay -> bool {
    (m: Overlay) => m.status != Completed && !JsMap.Has(obs, m.matchId)
  }

  lemma {:induction false} CarriedIn(ms: seq<Overlay>, observedAt: int, id: string)
    ensures var m := Carried(ms, observedAt, id); m.Some? ==>
      m.value in ms && m.value.matchId == id && m.value.status != Completed && observedAt - m.value.updatedAt < RETAIN_MISSING_MS
    ensures Carried(ms, observedAt, id).None? ==>
      forall m :: m in ms && m.matchId == id ==> m.status == Completed || observedAt - m.updatedAt >= RETAIN_MISSING_MS
  {
    if ms != [] {
      CarriedIn(ms[..|ms| - 1], observedAt, id);
      assert ms == ms[..|ms| - 1] + [ms[|ms| - 1]];
    }
  }

  lemma {:induction false} RetainAllGets(obs: Observations, ms: seq<Overlay>, observedAt: int)
    requires Keyed(obs) && UniqueIds(ms)
    ensures var t := RetainAll(Tally(obs, 0, 0), ms, observedAt);
      && Keyed(t.obs) && |t.obs| == |obs| + t.retained
      && t.retained + t.expired == |Filter(ms, Missing(obs))|
      && forall id :: JsMap.Lookup(t.obs, id) == Or(JsMap.Lookup(obs, id), Carried(ms, observedAt, id))
  {
    if ms != [] {
      hide Keyed, UniqueIds, Filter, JsMap.Set, JsMap.Has, JsMap.Lookup;
      var init, m := ms[..|ms| - 1], ms[|ms| - 1];
      Initial(ms);
      RetainAllGets(obs, init, observedAt);
      var t := RetainAll(Tally(obs, 0, 0), init, observedAt);
      NotYet(obs, ms, t, observedAt);
      KeyedSet(t.obs, m);
      FilterLast(ms, Missing(obs));
    }
  }

  lemma Initial(ms: seq<Overlay>)
    requires UniqueIds(ms) && ms != []
    ensures UniqueIds(ms[..|ms| - 1])
  {
  }

  /** A tracked match is present before its turn exactly when a feed brought it. */
  lemma NotYet(obs: Observations, ms: seq<Overlay>, t: Tally, observedAt: int)
    requires UniqueIds(ms) && ms != []
    requires forall id :: JsMap.Lookup(t.obs, id) == Or(JsMap.Lookup(obs, id), Carried(ms[..|ms| - 1], observedAt, id))
    ensures var m := ms[|ms| - 1];
      Carried(ms[..|ms| - 1], observedAt, m.matchId).None? && (JsMap.Has(t.obs, m.matchId) <==> JsMap.Has(obs, m.matchId))
  {
    var m := ms[|ms| - 1];
    CarriedIn(ms[..|ms| - 1], observedAt, m.matchId);
    assert JsMap.Lookup(t.obs, m.matchId) == Or(JsMap.Lookup(obs, m.matchId), Carried(ms[..|ms| - 1], observedAt, m.matchId));
  }

  ghost predicate Recent(m: Overlay, observedAt: int) {
    m.status != Completed && observedAt - m.updatedAt < RETAIN_MISSING_MS
  }

  /** One entry per id: the latest feed's, else the tracked match if it is not completed and was
      observed less than ten minutes ago. So nothing older is published, nothing younger is lost,
      the counts add up, and the snapshot passes validation. */
  lemma BoundedRetention(prev: Option<Snapshot>, observedAt: int, fetch: int -> DayFeed)
    requires UniqueIds(TrackedBefore(prev))
    requires forall d :: Mapped(fetch(d), observedAt)
    requires Collect(Dates(observedAt), fetch).Read?
    ensures var next := Build(prev, Collect(Dates(observedAt), fetch).value, observedAt);
      && ValidSnapshot(next)
      && (forall m :: m in next.matches ==> observedAt - m.updatedAt < RETAIN_MISSING_MS)
      && (forall m: Overlay :: m in next.matches <==>
            var latest := LatestFeed(Dates(observedAt), fetch, m.matchId);
            if latest.Some? then m == latest.value else m in TrackedBefore(prev) && Recent(m, observedAt))
      && next.coverage.publishedCount == next.coverage.mappedCount + next.coverage.retainedTrackedCount
  {
    var c := Collect(Dates(observedAt), fetch).value;
    var tracked := TrackedBefore(prev);
    CollectGets(Dates(observedAt), fetch, observedAt);
    RetainAllGets(c.obs, tracked, observedAt);
    var t := RetainAll(Tally(c.obs, 0, 0), tracked, observedAt);
    hide Keyed, RetainAll, Collect, Dates, UniqueIds;
    KeyedValues(t.obs);
    forall m: Overlay
      ensures m in JsMap.Values(t.obs) <==>
        var latest := LatestFeed(Dates(observedAt), fetch, m.matchId);
        if latest.Some? then m == latest.value else m in tracked && Recent(m, observedAt)
    {
      OnlyCarried(tracked, observedAt, m);
      assert JsMap.Lookup(t.obs, m.matchId) == Or(JsMap.Lookup(c.obs, m.matchId), Carried(tracked, observedAt, m.matchId));
    }
    forall m | m in JsMap.Values(t.obs) ensures observedAt - m.updatedAt < RETAIN_MISSING_MS {
      LatestStamped(Dates(observedAt), fetch, observedAt, m.matchId);
    }
  }

  lemma OnlyCarried(ms: seq<Overlay>, observedAt: int, m: Overlay)
    requires UniqueIds(ms)
    ensures Carried(ms, observedAt, m.matchId) == Some(m) <==> m in ms && Recent(m, observedAt)
  {
    CarriedIn(ms, observedAt, m.matchId);
    if m in ms && Recent(m, observedAt) {
      var other := Carried(ms, observedAt, m.matchId).value;
      assert other in ms && other.matchId == m.matchId;
    }
  }
}
