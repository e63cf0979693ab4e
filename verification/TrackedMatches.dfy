/** What a run of concurrent coordinators publishes, seen match by match: the merge of one refresh
    put together with the guarantee that it merged from the snapshot it replaced. */
module TrackedMatches {
  import opened Options
  import opened LiveRefreshStore
  import opened LiveRefreshProtocol
  import SportScoreSource
  import FotMobSource

  /** A publication whose snapshot a SportScore coordinator built from what it had read. */
  ghost predicate SportScoreBuilt(p: Publication) {
    exists adapted: seq<Overlay>, upstreamCount: int, check: Overlay -> SportScoreSource.Check ::
      && UniqueIds(adapted) && (forall m :: m in adapted ==> m.updatedAt == p.snapshot.generatedAt)
      && p.snapshot == SportScoreSource.Build(p.base, adapted, upstreamCount, check, p.snapshot.generatedAt)
  }

  ghost predicate WellStamped(s: Snapshot) {
    UniqueIds(s.matches) && forall m :: m in s.matches ==> m.updatedAt <= s.generatedAt
  }

  /** One link: what the base tracked and did not know completed is listed exactly once. */
  ghost predicate Listed(base: Option<Snapshot>, s: Snapshot) {
    base.Some? ==>
      forall m :: m in base.value.matches && m.status != Completed ==> SportScoreSource.Occurrences(s.matches, m.matchId) == 1
  }

  lemma SportScoreLink(p: Publication)
    requires SportScoreBuilt(p)
    requires p.base.Some? ==> WellStamped(p.base.value) && p.base.value.generatedAt < p.snapshot.generatedAt
    ensures WellStamped(p.snapshot) && Listed(p.base, p.snapshot)
  {
    hide SportScoreSource.Build, SportScoreSource.Occurrences;
    var at := p.snapshot.generatedAt;
    var adapted: seq<Overlay>, upstreamCount: int, check: Overlay -> SportScoreSource.Check :|
      && UniqueIds(adapted) && (forall m :: m in adapted ==> m.updatedAt == at)
      && p.snapshot == SportScoreSource.Build(p.base, adapted, upstreamCount, check, at);
    SportScoreSource.TrackedConserved(p.base, adapted, upstreamCount, check, at);
  }

  lemma {:induction false} SportScoreChain(ps: seq<Publication>, j: nat)
    requires Chained(ps) && Increasing(ps) && j < |ps|
    requires forall k :: 0 <= k < |ps| ==> SportScoreBuilt(ps[k])
    ensures WellStamped(ps[j].snapshot) && Listed(ps[j].base, ps[j].snapshot)
  {
    hide SportScoreBuilt, WellStamped, Listed;
    if j > 0 { SportScoreChain(ps, j - 1); }
    SportScoreLink(ps[j]);
  }

  lemma {:induction false} OccursIn(ms: seq<Overlay>, id: string) returns (m: Overlay)
    requires SportScoreSource.Occurrences(ms, id) > 0
    ensures m in ms && m.matchId == id
  {
    if ms[0].matchId == id { return ms[0]; }
    m := OccursIn(ms[1..], id);
  }

  predicate CompletedIn(s: Snapshot, id: string) {
    exists m :: m in s.matches && m.matchId == id && m.status == Completed
  }

  lemma {:induction false} ListedAlong(ps: seq<Publication>, i: nat, j: nat, m: Overlay)
    requires Chained(ps) && Increasing(ps) && i < j < |ps|
    requires forall k :: 0 <= k < |ps| ==> SportScoreBuilt(ps[k])
    requires m in ps[i].snapshot.matches && m.status != Completed
    requires forall k :: i < k < j ==> !CompletedIn(ps[k].snapshot, m.matchId)
    ensures SportScoreSource.Occurrences(ps[j].snapshot.matches, m.matchId) == 1
  {
    hide SportScoreBuilt, SportScoreSource.Occurrences;
    SportScoreChain(ps, j);
    if i + 1 < j {
      ListedAlong(ps, i, j - 1, m);
      var before := OccursIn(ps[j - 1].snapshot.matches, m.matchId);
      assert before.status != Completed;
    }
  }

  /** In every interleaving whose publications arrive in time, a match published as not completed
      appears exactly once in each later published snapshot, up to and including the first one that
      publishes it as completed. */
  lemma TrackedUntilCompleted(delay: nat, now: int, events: seq<Event>, i: nat, j: nat, m: Overlay)
    requires Timely(delay, now, events)
    requires var ps := After(delay, Initial(now), events).published;
      && i < j < |ps| && (forall k :: 0 <= k < |ps| ==> SportScoreBuilt(ps[k]))
      && m in ps[i].snapshot.matches && m.status != Completed
      && forall k :: i < k < j ==> !CompletedIn(ps[k].snapshot, m.matchId)
    ensures var ps := After(delay, Initial(now), events).published;
      SportScoreSource.Occurrences(ps[j].snapshot.matches, m.matchId) == 1
  {
    TimelyRunsLoseNothing(delay, now, events);
    PublishedIncreasing(delay, now, events);
    ListedAlong(After(delay, Initial(now), events).published, i, j, m);
  }

  // ---------------------------------------------------------------- the FotMob path

  ghost predicate FotMobBuilt(p: Publication) {
    exists fetch: int -> FotMobSource.DayFeed ::
      && (forall d :: FotMobSource.Mapped(fetch(d), p.snapshot.generatedAt))
      && FotMobSource.Collect(FotMobSource.Dates(p.snapshot.generatedAt), fetch).Read?
      && p.snapshot == FotMobSource.Build(p.base, FotMobSource.Collect(FotMobSource.Dates(p.snapshot.generatedAt), fetch).value, p.snapshot.generatedAt)
  }

  /** Nothing in the snapshot was last observed ten minutes or more before it. */
  ghost predicate Young(s: Snapshot) {
    forall m :: m in s.matches ==> s.generatedAt - m.updatedAt < 600_000
  }

  /** What the base tracked, did not know completed and observed within ten minutes is still listed. */
  ghost predicate RecentListed(base: Option<Snapshot>, s: Snapshot) {
    base.Some? ==>
      forall m :: m in base.value.matches && m.status != Completed && s.generatedAt - m.updatedAt < 600_000 ==>
        exists n :: n in s.matches && n.matchId == m.matchId
  }

  lemma FotMobLink(p: Publication)
    requires FotMobBuilt(p)
    requires p.base.Some? ==> UniqueIds(p.base.value.matches)
    ensures ValidSnapshot(p.snapshot) && Young(p.snapshot) && RecentListed(p.base, p.snapshot)
  {
    var at := p.snapshot.generatedAt;
    var dates := FotMobSource.Dates(at);
    var fetch: int -> FotMobSource.DayFeed :|
      && (forall d :: FotMobSource.Mapped(fetch(d), at)) && FotMobSource.Collect(dates, fetch).Read?
      && p.snapshot == FotMobSource.Build(p.base, FotMobSource.Collect(dates, fetch).value, at);
    FotMobSource.BoundedRetention(p.base, at, fetch);
    hide FotMobSource.Build, FotMobSource.Collect, FotMobSource.Dates, FotMobSource.Mapped;
    if p.base.Some? {
      forall m | m in p.base.value.matches && m.status != Completed && at - m.updatedAt < 600_000
        ensures exists n :: n in p.snapshot.matches && n.matchId == m.matchId
      {
        var latest := FotMobSource.LatestFeed(dates, fetch, m.matchId);
        FotMobSource.LatestStamped(dates, fetch, at, m.matchId);
        assert (if latest.Some? then latest.value else m) in p.snapshot.matches;
      }
    }
  }

  /** Along every such run: no published entry is ten minutes old, none younger is dropped unless it was
      completed, and no match is listed twice. */
  lemma {:induction false} FotMobBounded(delay: nat, now: int, events: seq<Event>, j: nat)
    requires Timely(delay, now, events)
    requires var ps := After(delay, Initial(now), events).published;
      j < |ps| && forall k :: 0 <= k < |ps| ==> FotMobBuilt(ps[k])
    ensures var ps := After(delay, Initial(now), events).published;
      && ValidSnapshot(ps[j].snapshot) && Young(ps[j].snapshot) && RecentListed(ps[j].base, ps[j].snapshot)
      && ps[j].base == if j == 0 then None else Some(ps[j - 1].snapshot)
  {
    hide FotMobBuilt, Young, RecentListed;
    TimelyRunsLoseNothing(delay, now, events);
    PublishedIncreasing(delay, now, events);
    if j > 0 { FotMobBounded(delay, now, events, j - 1); }
    FotMobLink(After(delay, Initial(now), events).published[j]);
  }
}
