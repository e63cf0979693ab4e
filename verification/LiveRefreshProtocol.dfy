/** Any number of coordinators refreshing one owner's live snapshot at the same time. Every event is
    one atomic step on the adapter or on the shared clock, which never goes backwards. */
module LiveRefreshProtocol {
  import opened Options
  import opened LiveRefreshStore

  const LEASE_MS := 60_000

  function Freshness(reason: Reason): int {
    match reason
    case Visible => 300_000
    case Background => 300_000
    case Manual => 60_000
    case Hourly => 3_600_000
  }

  function IsFresh(state: Option<State>, reason: Reason, now: int): bool {
    if state.None? then false
    else if now - state.value.lastAttemptAt < Cooldown(state.value) then true
    else match state.value.lastSuccessAt
      case None => false
      case Some(success) => 0 <= now - success < Freshness(reason)
  }

  /** `Reading` until both reads are in, then either done or holding a lease since some time;
      a refused publication is followed by an attempt to record the failure. */
  datatype Phase = Reading | Holding(since: int) | Failing(since: int) | Done

  /** One call of `refresh`; its lease id is its key among the workers. */
  datatype Worker = Worker(startedAt: int, reason: Reason, snapshotRead: Option<Option<Snapshot>>,
                           stateRead: Option<Option<State>>, phase: Phase)

  datatype Attempt = Attempt(id: string, acquiredAt: int, blocked: bool)

  /** A published snapshot and the snapshot it was merged from. */
  datatype Publication = Publication(base: Option<Snapshot>, snapshot: Snapshot)

  /** `attempts` and `published` only record what happened. */
  datatype World = World(now: int, snapshot: Option<Snapshot>, state: Option<State>, workers: map<string, Worker>,
                         attempts: seq<Attempt>, published: seq<Publication>)

  datatype Event =
    | Tick(now: int)
    | Start(id: string, reason: Reason)
    | ReadSnapshot(id: string)
    | ReadState(id: string)
    | StayFresh(id: string)
    | TryAcquire(id: string)
    | Publish(id: string, completedAt: int, snapshot: Snapshot)
    | Fail(id: string, completedAt: int, error: ErrorCode)

  /** The time of completion is read by the coordinator at most `delay` ms before the write. */
  predicate CompletesAt(w: World, since: int, completedAt: int, delay: nat) {
    since <= completedAt <= w.now <= completedAt + delay
  }

  predicate Ready(k: Worker) {
    k.phase.Reading? && k.snapshotRead.Some? && k.stateRead.Some?
  }

  predicate Enabled(delay: nat, w: World, e: Event) {
    match e
    case Tick(now) => w.now <= now
    case Start(id, _) => id !in w.workers
    case ReadSnapshot(id) => id in w.workers && w.workers[id].phase.Reading? && w.workers[id].snapshotRead.None?
    case ReadState(id) => id in w.workers && w.workers[id].phase.Reading? && w.workers[id].stateRead.None?
    case StayFresh(id) =>
      id in w.workers && Ready(w.workers[id]) && IsFresh(w.workers[id].stateRead.value, w.workers[id].reason, w.workers[id].startedAt)
    case TryAcquire(id) =>
      id in w.workers && Ready(w.workers[id]) && !IsFresh(w.workers[id].stateRead.value, w.workers[id].reason, w.workers[id].startedAt)
    case Publish(id, completedAt, snapshot) =>
      id in w.workers && w.workers[id].phase.Holding? && CompletesAt(w, w.workers[id].phase.since, completedAt, delay)
      && snapshot.generatedAt == w.workers[id].startedAt && w.workers[id].snapshotRead.Some?
    case Fail(id, completedAt, _) =>
      id in w.workers && (w.workers[id].phase.Holding? || w.workers[id].phase.Failing?)
      && CompletesAt(w, w.workers[id].phase.since, completedAt, delay)
  }

  function SetWorker(w: World, id: string, k: Worker): World {
    w.(workers := w.workers[id := k])
  }

  function LeaseOf(id: string, k: Worker): Lease { Lease(id, k.startedAt, k.startedAt + LEASE_MS) }

  function Granting(w: World, id: string): World
    requires id in w.workers
  {
    var k := w.workers[id];
    match Acquire(w.state, k.reason, LeaseOf(id, k))
    case Granted(state) =>
      SetWorker(w, id, k.(phase := Holding(w.now))).(state := Some(state), attempts := w.attempts + [Attempt(id, k.startedAt, false)])
    case _ => SetWorker(w, id, k.(phase := Done))
  }

  ghost function Publishing(w: World, id: string, completedAt: int, snapshot: Snapshot): World
    requires id in w.workers && w.workers[id].snapshotRead.Some?
  {
    var k := w.workers[id];
    match Finish(w.state, id, completedAt, Success(snapshot))
    case Finished(state) =>
      SetWorker(w, id, k.(phase := Done))
        .(state := Some(state), snapshot := Some(snapshot), published := w.published + [Publication(k.snapshotRead.value, snapshot)])
    case Refused(_) => SetWorker(w, id, k.(phase := Failing(completedAt)))
  }

  function MarkBlocked(attempts: seq<Attempt>, error: ErrorCode): seq<Attempt> {
    if attempts == [] then [] else attempts[|attempts| - 1 := attempts[|attempts| - 1].(blocked := error == UpstreamBlocked)]
  }

  ghost function Recording(w: World, id: string, completedAt: int, error: ErrorCode): World
    requires id in w.workers
  {
    var done := SetWorker(w, id, w.workers[id].(phase := Done));
    match Finish(w.state, id, completedAt, Failure(error))
    case Finished(state) => done.(state := Some(state), attempts := MarkBlocked(w.attempts, error))
    case Refused(_) => done
  }

  /** An event that is not possible changes nothing. */
  ghost function Do(delay: nat, w: World, e: Event): World {
    if !Enabled(delay, w, e) then w
    else match e
      case Tick(now) => w.(now := now)
      case Start(id, reason) => SetWorker(w, id, Worker(w.now, reason, None, None, Reading))
      case ReadSnapshot(id) => SetWorker(w, id, w.workers[id].(snapshotRead := Some(w.snapshot)))
      case ReadState(id) => SetWorker(w, id, w.workers[id].(stateRead := Some(w.state)))
      case StayFresh(id) => SetWorker(w, id, w.workers[id].(phase := Done))
      case TryAcquire(id) => Granting(w, id)
      case Publish(id, completedAt, snapshot) => Publishing(w, id, completedAt, snapshot)
      case Fail(id, completedAt, error) => Recording(w, id, completedAt, error)
  }

  ghost function After(delay: nat, w: World, events: seq<Event>): World {
    if events == [] then w else Do(delay, After(delay, w, events[..|events| - 1]), events[|events| - 1])
  }

  function Initial(now: int): World { World(now, None, None, map[], [], []) }

  // ---------------------------------------------------------------- what holds for every delay

  /** The stored lease state against the clock and the worker that holds the lease. */
  ghost predicate LeaseInv(w: World) {
    match w.state
    case None => w.snapshot.None? && w.attempts == []
    case Some(s) =>
      && s.lastAttemptAt <= w.now
      && (s.lastSuccessAt.Some? ==> s.lastSuccessAt.value <= w.now && s.lastSuccessAt.value < s.lastAttemptAt + LEASE_MS)
      && (s.status == Running <==> s.lease.Some?)
      && (s.lease.Some? ==>
            var id := s.lease.value.leaseId;
            && id in w.workers && !w.workers[id].phase.Reading?
            && w.workers[id].startedAt == s.lastAttemptAt == s.lease.value.acquiredAt
            && s.lease.value.expiresAt == s.lastAttemptAt + LEASE_MS && s.lastErrorCode.None?
            && (s.lastSuccessAt.Some? ==> s.lastSuccessAt.value < s.lastAttemptAt))
  }

  ghost predicate WorkersInv(w: World) {
    forall id :: id in w.workers ==>
      && w.workers[id].startedAt <= w.now
      && (w.workers[id].phase.Holding? || w.workers[id].phase.Failing? ==> w.workers[id].startedAt <= w.workers[id].phase.since)
  }

  function Gap(a: Attempt): int { if a.blocked then BLOCKED_COOLDOWN else COOLDOWN }

  ghost predicate Spaced(attempts: seq<Attempt>) {
    forall i :: 0 < i < |attempts| ==> attempts[i - 1].acquiredAt + Gap(attempts[i - 1]) <= attempts[i].acquiredAt
  }

  ghost predicate AttemptsInv(w: World) {
    && Spaced(w.attempts)
    && (w.state.Some? ==> w.attempts != [])
    && (w.state.Some? ==>
          var last := w.attempts[|w.attempts| - 1];
          last.acquiredAt == w.state.value.lastAttemptAt && last.blocked == (w.state.value.lastErrorCode == Some(UpstreamBlocked)))
  }

  ghost predicate Increasing(published: seq<Publication>) {
    forall i :: 0 < i < |published| ==> published[i - 1].snapshot.generatedAt < published[i].snapshot.generatedAt
  }

  function Latest(published: seq<Publication>): Option<Snapshot> {
    if published == [] then None else Some(published[|published| - 1].snapshot)
  }

  ghost predicate PublishedInv(w: World) {
    && Increasing(w.published) && w.snapshot == Latest(w.published)
    && (w.snapshot.Some? ==> w.state.Some? && w.snapshot.value.generatedAt <= w.state.value.lastAttemptAt
                             && (w.state.value.lease.Some? ==> w.snapshot.value.generatedAt < w.state.value.lastAttemptAt))
  }

  ghost predicate Inv(w: World) { LeaseInv(w) && WorkersInv(w) && AttemptsInv(w) && PublishedInv(w) }

  lemma GrantKeeps(w: World, id: string)
    requires Inv(w) && id in w.workers && Ready(w.workers[id])
    ensures Inv(Granting(w, id))
  {
    if Acquire(w.state, w.workers[id].reason, LeaseOf(id, w.workers[id])).Granted? {
      assert w.attempts != [] ==> w.attempts[|w.attempts| - 1].acquiredAt + Gap(w.attempts[|w.attempts| - 1]) <= w.workers[id].startedAt;
    }
  }

  lemma PublishKeeps(delay: nat, w: World, id: string, completedAt: int, snapshot: Snapshot)
    requires Inv(w) && Enabled(delay, w, Publish(id, completedAt, snapshot))
    ensures Inv(Publishing(w, id, completedAt, snapshot))
  {
    hide ValidSnapshot, Spaced;
  }

  lemma MarkSpaced(attempts: seq<Attempt>, error: ErrorCode)
    requires Spaced(attempts)
    ensures var marked := MarkBlocked(attempts, error);
      && Spaced(marked) && |marked| == |attempts|
      && (attempts != [] ==> marked[|marked| - 1] == attempts[|attempts| - 1].(blocked := error == UpstreamBlocked))
  {
  }

  lemma FailKeeps(delay: nat, w: World, id: string, completedAt: int, error: ErrorCode)
    requires Inv(w) && Enabled(delay, w, Fail(id, completedAt, error))
    ensures Inv(Recording(w, id, completedAt, error))
  {
    hide ValidSnapshot, Increasing, Spaced, MarkBlocked;
    MarkSpaced(w.attempts, error);
  }

  /** A worker that reads, or that finds the state fresh. */
  ghost predicate Reads(w: World, id: string, k: Worker) {
    && (if id in w.workers then w.workers[id].phase.Reading? && k.startedAt == w.workers[id].startedAt
                                && (k.snapshotRead == w.workers[id].snapshotRead || k.snapshotRead == Some(w.snapshot))
        else k.startedAt == w.now && k.snapshotRead.None?)
    && (k.phase.Reading? || k.phase.Done?)
  }

  lemma WorkerKeeps(w: World, id: string, k: Worker)
    requires Inv(w) && Reads(w, id, k)
    ensures Inv(SetWorker(w, id, k))
  {
  }

  lemma TickKeeps(w: World, now: int)
    requires Inv(w) && w.now <= now
    ensures Inv(w.(now := now))
  {
  }

  lemma StepKeeps(delay: nat, w: World, e: Event)
    requires Inv(w)
    ensures Inv(Do(delay, w, e))
  {
    if Enabled(delay, w, e) {
      hide Inv, Publishing, Recording, Granting, IsFresh;
      match e
      case Tick(now) => TickKeeps(w, now);
      case Start(id, reason) => WorkerKeeps(w, id, Worker(w.now, reason, None, None, Reading));
      case ReadSnapshot(id) => WorkerKeeps(w, id, w.workers[id].(snapshotRead := Some(w.snapshot)));
      case ReadState(id) => WorkerKeeps(w, id, w.workers[id].(stateRead := Some(w.state)));
      case StayFresh(id) => WorkerKeeps(w, id, w.workers[id].(phase := Done));
      case TryAcquire(id) => GrantKeeps(w, id);
      case Publish(id, completedAt, snapshot) => PublishKeeps(delay, w, id, completedAt, snapshot);
      case Fail(id, completedAt, error) => FailKeeps(delay, w, id, completedAt, error);
    }
  }

  lemma {:induction false} EveryRun(delay: nat, now: int, events: seq<Event>)
    ensures Inv(After(delay, Initial(now), events))
  {
    if events != [] {
      EveryRun(delay, now, events[..|events| - 1]);
      StepKeeps(delay, After(delay, Initial(now), events[..|events| - 1]), events[|events| - 1]);
    }
  }

  /** Published snapshots are ever newer, and the stored one is the last of them. */
  lemma PublishedIncreasing(delay: nat, now: int, events: seq<Event>)
    ensures var w := After(delay, Initial(now), events); Increasing(w.published) && w.snapshot == Latest(w.published)
  {
    EveryRun(delay, now, events);
  }

  lemma {:induction false} LaterAttempt(attempts: seq<Attempt>, i: nat, j: nat)
    requires Spaced(attempts) && i < j < |attempts|
    ensures attempts[i].acquiredAt + Gap(attempts[i]) <= attempts[j].acquiredAt
  {
    if i + 1 < j { LaterAttempt(attempts, i, j - 1); }
  }

  /** Granted leases start at least a minute apart, a quarter of an hour after a blocked attempt, so
      that their one-minute intervals are disjoint. */
  lemma GrantsApart(delay: nat, now: int, events: seq<Event>, i: nat, j: nat)
    requires i < j < |After(delay, Initial(now), events).attempts|
    ensures var a := After(delay, Initial(now), events).attempts;
      a[i].acquiredAt + (if a[i].blocked then 900_000 else 60_000) <= a[j].acquiredAt
  {
    EveryRun(delay, now, events);
    LaterAttempt(After(delay, Initial(now), events).attempts, i, j);
  }

  function Count(attempts: seq<Attempt>, from: int, to: int): nat {
    if attempts == [] then 0
    else Count(attempts[..|attempts| - 1], from, to) + if from <= attempts[|attempts| - 1].acquiredAt <= to then 1 else 0
  }

  lemma {:induction false} CountBelow(attempts: seq<Attempt>, from: int, to: int, cut: int)
    requires forall a :: a in attempts ==> a.acquiredAt <= cut <= to
    ensures Count(attempts, from, to) == Count(attempts, from, cut)
  {
    if attempts != [] { CountBelow(attempts[..|attempts| - 1], from, to, cut); }
  }

  lemma OneSlotLess(from: int, at: int, to: int)
    requires from <= at <= to
    ensures (if from <= at - LEASE_MS then (at - LEASE_MS - from) / LEASE_MS + 1 else 0) <= (to - from) / LEASE_MS
  {
  }

  lemma {:induction false} CountSpaced(attempts: seq<Attempt>, from: int, to: int)
    requires Spaced(attempts)
    ensures Count(attempts, from, to) <= if from <= to then (to - from) / LEASE_MS + 1 else 0
  {
    if attempts != [] {
      var init, last := attempts[..|attempts| - 1], attempts[|attempts| - 1];
      if from <= last.acquiredAt <= to {
        forall a | a in init ensures a.acquiredAt <= last.acquiredAt - LEASE_MS {
          var i :| 0 <= i < |init| && init[i] == a;
          LaterAttempt(attempts, i, |attempts| - 1);
        }
        CountBelow(init, from, to, last.acquiredAt - LEASE_MS);
        CountSpaced(init, from, last.acquiredAt - LEASE_MS);
        OneSlotLess(from, last.acquiredAt, to);
      } else {
        CountSpaced(init, from, to);
      }
    }
  }

  /** Any `span` milliseconds hold at most one grant more than the whole minutes in them. */
  lemma GrantRate(delay: nat, now: int, events: seq<Event>, from: int, span: nat)
    ensures Count(After(delay, Initial(now), events).attempts, from, from + span) <= span / 60_000 + 1
  {
    EveryRun(delay, now, events);
    CountSpaced(After(delay, Initial(now), events).attempts, from, from + span);
  }

  /** Only a success that holds the current, unexpired lease changes the snapshot or `lastSuccessAt`;
      every other event, a failure or a stale or expired completion among them, keeps both. */
  lemma OnlyOwnedSuccessPublishes(delay: nat, w: World, e: Event)
    ensures var n := Do(delay, w, e);
      n.snapshot != w.snapshot || (w.state.Some? && n.state.Some? && n.state.value.lastSuccessAt != w.state.value.lastSuccessAt) ==>
        && e.Publish? && w.state.Some? && w.state.value.status == Running && w.state.value.lease.Some?
        && w.state.value.lease.value.leaseId == e.id
        && w.state.value.lastAttemptAt <= e.completedAt < w.state.value.lease.value.expiresAt
        && ValidSnapshot(e.snapshot) && n.snapshot == Some(e.snapshot)
  {
  }

  /** A refresh that is not fresh gets the lease unless another coordinator moved first: the outcome
      `leased` means that the state it read is out of date. */
  lemma DeniedMeansOvertaken(delay: nat, now: int, events: seq<Event>, id: string)
    requires Enabled(delay, After(delay, Initial(now), events), TryAcquire(id))
    requires var w := After(delay, Initial(now), events); w.workers[id].stateRead.value == w.state
    ensures var w := After(delay, Initial(now), events);
      Acquire(w.state, w.workers[id].reason, LeaseOf(id, w.workers[id])).Granted?
  {
    EveryRun(delay, now, events);
  }

  // ---------------------------------------------------------------- no lost update

  /** Each snapshot was merged from the one it replaced. */
  ghost predicate Chained(published: seq<Publication>) {
    && (published != [] ==> published[0].base.None?)
    && forall i :: 0 < i < |published| ==> published[i].base == Some(published[i - 1].snapshot)
  }

  /** A publication that the adapter accepts. */
  ghost predicate Accepted(delay: nat, w: World, e: Event) {
    e.Publish? && Enabled(delay, w, e) && Finish(w.state, e.id, e.completedAt, Success(e.snapshot)).Finished?
  }

  /** What an adapter can check when the write arrives: the lease has not run out by then. */
  ghost predicate InTime(w: World) { w.state.Some? && w.state.value.lease.Some? && w.now < w.state.value.lease.value.expiresAt }

  ghost predicate TimelyStep(delay: nat, w: World, e: Event) { Accepted(delay, w, e) ==> InTime(w) }

  /** Every publication of the run that was accepted arrived within its lease. */
  ghost predicate Timely(delay: nat, now: int, events: seq<Event>) {
    forall k :: 0 <= k < |events| ==> TimelyStep(delay, After(delay, Initial(now), events[..k]), events[k])
  }

  /** What a worker read is still the stored snapshot unless one was published after it started, and
      then the worker started within the lease of the last attempt. */
  ghost predicate ReadersInv(w: World) {
    forall id :: id in w.workers && w.workers[id].snapshotRead.Some? && w.workers[id].snapshotRead.value != w.snapshot ==>
      w.state.Some? && w.workers[id].startedAt < w.state.value.lastAttemptAt + LEASE_MS
  }

  /** The holder of the current lease merged from the stored snapshot. */
  ghost predicate HolderInv(w: World) {
    w.state.Some? && w.state.value.lease.Some? ==>
      var id := w.state.value.lease.value.leaseId;
      id in w.workers && w.workers[id].snapshotRead == Some(w.snapshot)
  }

  ghost predicate ChainInv(w: World) { Chained(w.published) && ReadersInv(w) && HolderInv(w) }

  /** A worker whose lease is granted read the stored snapshot: everything published since it
      started would have kept it out. */
  lemma GrantedReadIsCurrent(w: World, id: string)
    requires Inv(w) && ReadersInv(w) && id in w.workers && w.workers[id].snapshotRead.Some?
    requires Acquire(w.state, w.workers[id].reason, LeaseOf(id, w.workers[id])).Granted?
    ensures w.workers[id].snapshotRead.value == w.snapshot
  {
  }

  lemma GrantChains(w: World, id: string)
    requires Inv(w) && ChainInv(w) && id in w.workers && Ready(w.workers[id])
    ensures ChainInv(Granting(w, id))
  {
    if Acquire(w.state, w.workers[id].reason, LeaseOf(id, w.workers[id])).Granted? { GrantedReadIsCurrent(w, id); }
  }

  lemma Extend(published: seq<Publication>, p: Publication)
    requires Chained(published) && p.base == Latest(published)
    ensures Chained(published + [p])
  {
  }

  lemma PublishChains(delay: nat, w: World, e: Event)
    requires Inv(w) && ChainInv(w) && e.Publish? && Enabled(delay, w, e) && TimelyStep(delay, w, e)
    ensures ChainInv(Publishing(w, e.id, e.completedAt, e.snapshot))
  {
    hide ValidSnapshot, Chained, Spaced, Increasing;
    if Accepted(delay, w, e) { Extend(w.published, Publication(w.workers[e.id].snapshotRead.value, e.snapshot)); }
  }

  lemma FailChains(delay: nat, w: World, id: string, completedAt: int, error: ErrorCode)
    requires Inv(w) && ChainInv(w) && Enabled(delay, w, Fail(id, completedAt, error))
    ensures ChainInv(Recording(w, id, completedAt, error))
  {
    hide ValidSnapshot, Chained, Spaced, Increasing;
  }

  lemma WorkerChains(w: World, id: string, k: Worker)
    requires Inv(w) && ChainInv(w) && Reads(w, id, k)
    ensures ChainInv(SetWorker(w, id, k))
  {
  }

  lemma StepChains(delay: nat, w: World, e: Event)
    requires Inv(w) && ChainInv(w) && TimelyStep(delay, w, e)
    ensures ChainInv(Do(delay, w, e))
  {
    if Enabled(delay, w, e) {
      hide Inv, ChainInv, Publishing, Recording, Granting, IsFresh, TimelyStep;
      match e
      case Tick(now) => TickChains(w, now);
      case Start(id, reason) => WorkerChains(w, id, Worker(w.now, reason, None, None, Reading));
      case ReadSnapshot(id) => WorkerChains(w, id, w.workers[id].(snapshotRead := Some(w.snapshot)));
      case ReadState(id) => WorkerChains(w, id, w.workers[id].(stateRead := Some(w.state)));
      case StayFresh(id) => WorkerChains(w, id, w.workers[id].(phase := Done));
      case TryAcquire(id) => GrantChains(w, id);
      case Publish(_, _, _) => PublishChains(delay, w, e);
      case Fail(id, completedAt, error) => FailChains(delay, w, id, completedAt, error);
    }
  }

  lemma TickChains(w: World, now: int)
    requires ChainInv(w)
    ensures ChainInv(w.(now := now))
  {
  }

  lemma TimelyPrefix(delay: nat, now: int, events: seq<Event>)
    requires Timely(delay, now, events) && events != []
    ensures Timely(delay, now, events[..|events| - 1])
    ensures TimelyStep(delay, After(delay, Initial(now), events[..|events| - 1]), events[|events| - 1])
  {
    var init := events[..|events| - 1];
    forall k | 0 <= k < |init| ensures TimelyStep(delay, After(delay, Initial(now), init[..k]), init[k]) {
      assert init[..k] == events[..k];
      assert TimelyStep(delay, After(delay, Initial(now), events[..k]), events[k]);
    }
  }

  lemma {:induction false} TimelyChains(delay: nat, now: int, events: seq<Event>)
    requires Timely(delay, now, events)
    ensures ChainInv(After(delay, Initial(now), events))
  {
    hide Timely, TimelyStep, ChainInv, Inv;
    if events == [] {
      StartChains(now);
    } else {
      TimelyPrefix(delay, now, events);
      TimelyChains(delay, now, events[..|events| - 1]);
      EveryRun(delay, now, events[..|events| - 1]);
      StepChains(delay, After(delay, Initial(now), events[..|events| - 1]), events[|events| - 1]);
    }
  }

  lemma StartChains(now: int)
    ensures ChainInv(Initial(now))
  {
  }

  /** No update is lost, however long completions take to arrive and in whatever interleaving, as long
      as every accepted publication arrives before its lease runs out. */
  lemma TimelyRunsLoseNothing(delay: nat, now: int, events: seq<Event>)
    requires Timely(delay, now, events)
    ensures Chained(After(delay, Initial(now), events).published)
  {
    TimelyChains(delay, now, events);
  }

  /** An adapter that checks the lease against the moment of the write has timely runs only. */
  lemma AtomicIsTimely(now: int, events: seq<Event>)
    ensures Timely(0, now, events)
  {
    forall k | 0 <= k < |events| ensures TimelyStep(0, After(0, Initial(now), events[..k]), events[k]) {
    }
  }

  /** With completion reading the clock and writing in one step, no update is ever lost: every
      published snapshot was merged from the snapshot it replaced. */
  lemma NoLostUpdate(now: int, events: seq<Event>)
    ensures var w := After(0, Initial(now), events);
      && Chained(w.published) && Increasing(w.published) && w.snapshot == Latest(w.published)
  {
    AtomicIsTimely(now, events);
    TimelyRunsLoseNothing(0, now, events);
    EveryRun(0, now, events);
  }

  // ---------------------------------------------------------------- a late publication can be lost

  function Empty(at: int): Snapshot { Snapshot(at, Coverage(50, 0, 0, 0, 0, 0), []) }

  /** Around a publication another coordinator starts and reads just before it, and acquires and
      publishes just after it, all at the same time `at`. */
  function Around(e: Event, other: string, at: int): seq<Event> {
    [Start(other, Manual), ReadSnapshot(other), ReadState(other), e, TryAcquire(other), Publish(other, at, Empty(at))]
  }

  lemma {:induction false} AfterConcat(delay: nat, w: World, a: seq<Event>, b: seq<Event>)
    ensures After(delay, w, a + b) == After(delay, After(delay, w, a), b)
  {
    if b == [] {
      assert a + b == a;
    } else {
      assert (a + b)[..|a + b| - 1] == a + b[..|b| - 1];
      AfterConcat(delay, w, a, b[..|b| - 1]);
    }
  }

  lemma AfterNext(delay: nat, w: World, events: seq<Event>, k: nat)
    requires k < |events|
    ensures After(delay, w, events[..k + 1]) == Do(delay, After(delay, w, events[..k]), events[k])
  {
    assert events[..k + 1][..k] == events[..k];
  }

  /** The world once the other coordinator has read. */
  function WithReader(w: World, other: string): World {
    SetWorker(w, other, Worker(w.now, Manual, Some(w.snapshot), Some(w.state), Reading))
  }

  lemma ReaderReads(delay: nat, w: World, e: Event, other: string)
    requires other !in w.workers
    ensures After(delay, w, Around(e, other, w.now)[..3]) == WithReader(w, other)
  {
    hide IsFresh, Ready, Granting, Publishing, Recording;
    var r := Around(e, other, w.now);
    assert r[..0] == [];
    AfterNext(delay, w, r, 0);
    AfterNext(delay, w, r, 1);
    AfterNext(delay, w, r, 2);
    var k := Worker(w.now, Manual, Some(w.snapshot), Some(w.state), Reading);
    assert w.workers[other := Worker(w.now, Manual, None, None, Reading)][other := Worker(w.now, Manual, Some(w.snapshot), None, Reading)][other := k]
        == w.workers[other := k];
  }

  /** A publication that arrives late is accepted although a new refresh would be too. */
  lemma LateIsNotFresh(delay: nat, w: World, e: Event)
    requires Inv(w) && Accepted(delay, w, e) && !InTime(w)
    ensures !IsFresh(w.state, Manual, w.now)
  {
  }

  lemma LatePublishes(delay: nat, w: World, e: Event, other: string)
    requires Inv(w) && Accepted(delay, w, e) && !InTime(w) && other !in w.workers
    ensures var n := Do(delay, WithReader(w, other), e);
      && n.now == w.now && n.snapshot == Some(e.snapshot) && e.snapshot.generatedAt == w.state.value.lastAttemptAt
      && |n.published| == |w.published| + 1 && n.published[|w.published|].snapshot == e.snapshot
      && n.state.Some? && n.state.value.lease.None? && n.state.value.lastErrorCode.None?
      && n.state.value.lastAttemptAt == w.state.value.lastAttemptAt <= w.now - LEASE_MS
      && other in n.workers && n.workers[other] == WithReader(w, other).workers[other]
  {
    hide ValidSnapshot, Spaced, Increasing;
  }

  lemma OtherOverwrites(delay: nat, n: World, other: string, p: nat)
    requires other in n.workers && Ready(n.workers[other]) && n.workers[other].startedAt == n.now
    requires !IsFresh(n.workers[other].stateRead.value, n.workers[other].reason, n.now)
    requires n.state.Some? && n.state.value.lease.None? && n.state.value.lastErrorCode.None? && n.state.value.lastAttemptAt <= n.now - LEASE_MS
    requires p == |n.published|
    ensures var m := Do(delay, Do(delay, n, TryAcquire(other)), Publish(other, n.now, Empty(n.now)));
      m.published == n.published + [Publication(n.workers[other].snapshotRead.value, Empty(n.now))]
  {
    assert ValidSnapshot(Empty(n.now));
    hide ValidSnapshot, IsFresh;
  }

  /** A publication that is accepted after its lease ran out can be lost, at every moment of every
      run: a coordinator that read just before it may overwrite it. */
  lemma LateCanBeLost(delay: nat, now: int, events: seq<Event>, e: Event, other: string)
    requires var w := After(delay, Initial(now), events);
      Accepted(delay, w, e) && !InTime(w) && other !in w.workers
    ensures var w := After(delay, Initial(now), events);
      !Chained(After(delay, Initial(now), events + Around(e, other, w.now)).published)
  {
    hide Around, Inv, Accepted, InTime, WithReader;
    EveryRun(delay, now, events);
    var w := After(delay, Initial(now), events);
    AfterConcat(delay, Initial(now), events, Around(e, other, w.now));
    LateLast(delay, w, e, other);
  }

  lemma AcceptedPublishes(delay: nat, w: World, e: Event)
    requires Accepted(delay, w, e)
    ensures e.Publish?
  {
  }

  lemma LateLast(delay: nat, w: World, e: Event, other: string)
    requires Inv(w) && Accepted(delay, w, e) && !InTime(w) && other !in w.workers
    ensures !Chained(After(delay, w, Around(e, other, w.now)).published)
  {
    hide Accepted, InTime, IsFresh, Do, Finish, Acquire, Spaced, Increasing;
    AcceptedPublishes(delay, w, e);
    ReaderReads(delay, w, e, other);
    LateIsNotFresh(delay, w, e);
    LatePublishes(delay, w, e, other);
    var r := Around(e, other, w.now);
    var n := Do(delay, WithReader(w, other), e);
    OtherOverwrites(delay, n, other, |n.published|);
    AfterNext(delay, w, r, 3);
    AfterNext(delay, w, r, 4);
    AfterNext(delay, w, r, 5);
    assert r[..6] == r;
    var m := After(delay, w, r);
    LateDiffers(delay, w, e);
    var last := |m.published| - 1;
    assert m.published[last].base == w.snapshot && m.published[last - 1].snapshot == e.snapshot;
  }

  lemma LateDiffers(delay: nat, w: World, e: Event)
    requires Inv(w) && Accepted(delay, w, e)
    ensures w.snapshot != Some(e.snapshot)
  {
  }

  /** Nothing that another coordinator does around the publication loses it. */
  ghost predicate SafeMoment(delay: nat, now: int, events: seq<Event>, e: Event) {
    var w := After(delay, Initial(now), events);
    forall other :: other !in w.workers ==> Chained(After(delay, Initial(now), events + Around(e, other, w.now)).published)
  }

  lemma {:induction false} LongerThanAll(s: set<string>) returns (n: nat)
    ensures forall x :: x in s ==> |x| < n
    decreases s
  {
    if s == {} { return 0; }
    var x :| x in s;
    var m := LongerThanAll(s - {x});
    n := if m <= |x| then |x| + 1 else m;
  }

  lemma TimelyConcat(delay: nat, now: int, a: seq<Event>, b: seq<Event>)
    requires Timely(delay, now, a)
    requires forall k :: 0 <= k < |b| ==> TimelyStep(delay, After(delay, After(delay, Initial(now), a), b[..k]), b[k])
    ensures Timely(delay, now, a + b)
  {
    hide TimelyStep;
    forall k | 0 <= k < |a + b| ensures TimelyStep(delay, After(delay, Initial(now), (a + b)[..k]), (a + b)[k]) {
      if k < |a| {
        assert (a + b)[..k] == a[..k];
        assert TimelyStep(delay, After(delay, Initial(now), a[..k]), a[k]);
      } else {
        assert (a + b)[..k] == a + b[..k - |a|];
        AfterConcat(delay, Initial(now), a, b[..k - |a|]);
      }
    }
  }

  lemma AroundTimely(delay: nat, now: int, events: seq<Event>, e: Event, other: string)
    requires Timely(delay, now, events)
    requires var w := After(delay, Initial(now), events); Accepted(delay, w, e) && InTime(w) && other !in w.workers
    ensures var w := After(delay, Initial(now), events); Timely(delay, now, events + Around(e, other, w.now))
  {
    hide Timely, TimelyStep, Accepted, InTime, Inv;
    var w := After(delay, Initial(now), events);
    var r := Around(e, other, w.now);
    forall k | 0 <= k < |r| ensures TimelyStep(delay, After(delay, w, r[..k]), r[k]) {
      AfterConcat(delay, Initial(now), events, r[..k]);
      EveryRun(delay, now, events + r[..k]);
      AroundStep(delay, w, e, other, k);
    }
    TimelyConcat(delay, now, events, r);
  }

  lemma AroundStep(delay: nat, w: World, e: Event, other: string, k: nat)
    requires k < 6 && Accepted(delay, w, e) && InTime(w) && other !in w.workers
    requires Inv(After(delay, w, Around(e, other, w.now)[..k]))
    ensures TimelyStep(delay, After(delay, w, Around(e, other, w.now)[..k]), Around(e, other, w.now)[k])
  {
    hide After, Do, Accepted, TimelyStep, Inv;
    var r := Around(e, other, w.now);
    ReaderReads(delay, w, e, other);
    AcceptedPublishes(delay, w, e);
    if k == 5 {
      AfterNext(delay, w, r, 3);
      AfterNext(delay, w, r, 4);
      AroundLast(delay, WithReader(w, other), e, other);
    }
    NotPublication(delay, After(delay, w, r[..k]), r[k]);
    if k == 3 { StillInTime(delay, w, e, other); }
  }

  lemma StillInTime(delay: nat, w: World, e: Event, other: string)
    requires InTime(w)
    ensures TimelyStep(delay, WithReader(w, other), e)
  {
  }

  lemma NotPublication(delay: nat, w: World, e: Event)
    ensures !e.Publish? ==> TimelyStep(delay, w, e)
  {
  }

  lemma AroundLast(delay: nat, w: World, e: Event, other: string)
    requires e.Publish? && other in w.workers && w.workers[other].startedAt == w.now
    requires var m := Do(delay, Do(delay, w, e), TryAcquire(other)); Inv(m)
    ensures var m := Do(delay, Do(delay, w, e), TryAcquire(other)); TimelyStep(delay, m, Publish(other, w.now, Empty(w.now)))
  {
    hide ValidSnapshot, IsFresh;
  }

  /** In a run that was timely so far, an accepted publication is safe from every coordinator around
      it exactly when it arrives before its lease runs out. */
  lemma SafeExactlyInTime(delay: nat, now: int, events: seq<Event>, e: Event)
    requires Timely(delay, now, events) && Accepted(delay, After(delay, Initial(now), events), e)
    ensures SafeMoment(delay, now, events, e) <==> InTime(After(delay, Initial(now), events))
  {
    hide Timely, Accepted, InTime, Around;
    var w := After(delay, Initial(now), events);
    if InTime(w) {
      forall other | other !in w.workers
        ensures Chained(After(delay, Initial(now), events + Around(e, other, w.now)).published)
      {
        AroundTimely(delay, now, events, e, other);
        TimelyRunsLoseNothing(delay, now, events + Around(e, other, w.now));
      }
    } else {
      var n := LongerThanAll(w.workers.Keys);
      var other := seq(n, _ => 'x');
      LateCanBeLost(delay, now, events, e, other);
    }
  }

  ghost predicate SafeDelay(delay: nat) {
    forall now, events :: Chained(After(delay, Initial(now), events).published)
  }

  /** A coordinator that reads the clock just before its lease runs out, and whose write is on its way
      when it does. */
  function Slow(): seq<Event> { [Start("a", Manual), ReadSnapshot("a"), ReadState("a"), TryAcquire("a"), Tick(60_000)] }

  function Race(): seq<Event> { Slow() + Around(Publish("a", 59_999, Empty(0)), "b", 60_000) }

  lemma SlowHolds(delay: nat)
    ensures After(delay, Initial(0), Slow()) ==
      World(60_000, None, Some(State(Running, Manual, 0, None, None, None, Some(Lease("a", 0, 60_000)))),
            map["a" := Worker(0, Manual, Some(None), Some(None), Holding(0))], [Attempt("a", 0, false)], [])
  {
    var r := Slow();
    assert r[..0] == [];
    AfterNext(delay, Initial(0), r, 0);
    AfterNext(delay, Initial(0), r, 1);
    AfterNext(delay, Initial(0), r, 2);
    AfterNext(delay, Initial(0), r, 3);
    AfterNext(delay, Initial(0), r, 4);
    assert r[..5] == r;
  }

  lemma RaceLosesUpdate(delay: nat)
    requires delay > 0
    ensures !Chained(After(delay, Initial(0), Race()).published)
  {
    SlowHolds(delay);
    assert ValidSnapshot(Empty(0));
    LateCanBeLost(delay, 0, Slow(), Publish("a", 59_999, Empty(0)), "b");
  }

  /** Every run is safe exactly when reading the clock and writing are one step: a delay of a single
      millisecond already lets a publication arrive late. */
  lemma SafeExactlyWithoutDelay(delay: nat)
    ensures SafeDelay(delay) <==> delay == 0
  {
    if delay == 0 {
      forall now, events ensures Chained(After(0, Initial(now), events).published) { NoLostUpdate(now, events); }
    } else {
      RaceLosesUpdate(delay);
    }
  }
}
