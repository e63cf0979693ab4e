/** The live refresh lease and the last published live snapshot of each owner, as the in-memory
    persistence adapter keeps them. Times are milliseconds. */
module LiveRefreshStore {
  import opened Options

  datatype MatchStatus = Live | Halftime | Suspended | Completed

  /** One match of a live snapshot; `slug` is the SportScore id among its source references. */
  datatype Overlay = Overlay(matchId: string, status: MatchStatus, updatedAt: int, slug: Option<string>, details: string)

  datatype Coverage = Coverage(upstreamLimit: int, upstreamCount: int, mappedCount: int,
                               publishedCount: int, terminalCheckCount: int, retainedTrackedCount: int)

  datatype Snapshot = Snapshot(generatedAt: int, coverage: Coverage, matches: seq<Overlay>)

  ghost predicate UniqueIds(ms: seq<Overlay>) {
    forall i, j :: 0 <= i < j < |ms| ==> ms[i].matchId != ms[j].matchId
  }

  /** `validateLiveMatchSnapshot`, without the syntax of the single fields. */
  ghost predicate ValidSnapshot(s: Snapshot) {
    && UniqueIds(s.matches)
    && 1 <= s.coverage.upstreamLimit
    && 0 <= s.coverage.mappedCount <= s.coverage.upstreamCount <= s.coverage.upstreamLimit
    && s.coverage.publishedCount == |s.matches|
    && 0 <= s.coverage.terminalCheckCount <= 5
    && 0 <= s.coverage.retainedTrackedCount
  }

  datatype RefreshStatus = Running | Succeeded | Failed
  datatype Reason = Visible | Manual | Hourly | Background
  datatype ErrorCode = UpstreamTimeout | UpstreamBlocked | UpstreamUnavailable | ContractInvalid | PersistenceUnavailable | InternalError

  datatype Lease = Lease(leaseId: string, acquiredAt: int, expiresAt: int)

  datatype State = State(status: RefreshStatus, reason: Reason, lastAttemptAt: int, lastSuccessAt: Option<int>,
                         lastCompletedAt: Option<int>, lastErrorCode: Option<ErrorCode>, lease: Option<Lease>)

  datatype Completion = Success(snapshot: Snapshot) | Failure(error: ErrorCode)

  const BLOCKED_COOLDOWN := 900_000
  const COOLDOWN := 60_000

  /** How long an attempt keeps the next one away. */
  function Cooldown(s: State): int {
    if s.lastErrorCode == Some(UpstreamBlocked) then BLOCKED_COOLDOWN else COOLDOWN
  }

  datatype AcquireResult = BadTimestamps | Denied | Granted(state: State)

  function Acquire(current: Option<State>, reason: Reason, lease: Lease): AcquireResult {
    if lease.expiresAt <= lease.acquiredAt then BadTimestamps
    else if current.Some? && lease.acquiredAt - current.value.lastAttemptAt < Cooldown(current.value) then Denied
    else if current.Some? && current.value.lastAttemptAt > lease.acquiredAt then Denied
    else if current.Some? && current.value.lease.Some? && current.value.lease.value.expiresAt > lease.acquiredAt then Denied
    else Granted(State(Running, reason, lease.acquiredAt,
                       if current.Some? then current.value.lastSuccessAt else None,
                       if current.Some? then current.value.lastCompletedAt else None,
                       None, Some(lease)))
  }

  datatype FinishError = NotOwned | BadCompletion | Expired | InvalidSnapshot
  datatype FinishResult = Refused(error: FinishError) | Finished(state: State)

  ghost function Finish(current: Option<State>, leaseId: string, completedAt: int, outcome: Completion): (r: FinishResult)
    // An accepted finish held the running lease in time, and no second finish of it is accepted.
    ensures r.Finished? ==>
      && current.Some? && current.value.status == Running && current.value.lease.Some? && current.value.lease.value.leaseId == leaseId
      && current.value.lastAttemptAt <= completedAt < current.value.lease.value.expiresAt
      && r.state.status != Running && r.state.lastAttemptAt == current.value.lastAttemptAt
  {
    if current.None? || current.value.status != Running || current.value.lease.None?
       || current.value.lease.value.leaseId != leaseId then Refused(NotOwned)
    else
      var s := current.value;
      if completedAt < s.lastAttemptAt then Refused(BadCompletion)
      else if completedAt >= s.lease.value.expiresAt then Refused(Expired)
      else if outcome.Success? && !ValidSnapshot(outcome.snapshot) then Refused(InvalidSnapshot)
      else Finished(s.(status := if outcome.Success? then Succeeded else Failed,
                       lastSuccessAt := if outcome.Success? then Some(completedAt) else s.lastSuccessAt,
                       lastCompletedAt := Some(completedAt),
                       lastErrorCode := if outcome.Failure? then Some(outcome.error) else None,
                       lease := None))
  }

  method CheckSnapshot(s: Snapshot) returns (ok: bool)
    ensures ok <==> ValidSnapshot(s)
  {
    var ids: set<string> := {};
    for i := 0 to |s.matches|
      invariant ids == set m | m in s.matches[..i] :: m.matchId
      invariant UniqueIds(s.matches[..i])
    {
      if s.matches[i].matchId in ids {
        ghost var m :| m in s.matches[..i] && m.matchId == s.matches[i].matchId;
        return false;
      }
      ids := ids + {s.matches[i].matchId};
      assert s.matches[..i + 1] == s.matches[..i] + [s.matches[i]];
    }
    assert s.matches[..|s.matches|] == s.matches;
    var c := s.coverage;
    ok := 1 <= c.upstreamLimit && 0 <= c.mappedCount <= c.upstreamCount <= c.upstreamLimit
          && c.publishedCount == |s.matches| && 0 <= c.terminalCheckCount <= 5 && 0 <= c.retainedTrackedCount;
  }

  /** The two maps of the adapter that concern live refreshes, keyed by owner. */
  class Adapter {
    var snapshots: map<string, Snapshot>
    var states: map<string, State>

    constructor ()
      ensures snapshots == map[] && states == map[]
    {
      snapshots, states := map[], map[];
    }

    function StateOf(owner: string): Option<State> reads this {
      if owner in states then Some(states[owner]) else None
    }

    /** Grants the lease exactly as `Acquire` says; only this owner's state changes. */
    method AcquireLiveRefreshLease(owner: string, reason: Reason, lease: Lease) returns (r: AcquireResult)
      modifies this`states
      ensures r.Granted? <==>
        && lease.acquiredAt < lease.expiresAt
        && (owner in old(states) ==>
              var s := old(states)[owner];
              && s.lastAttemptAt + (if s.lastErrorCode == Some(UpstreamBlocked) then 15 * 60_000 else 60_000) <= lease.acquiredAt
              && (s.lease.Some? ==> s.lease.value.expiresAt <= lease.acquiredAt))
      ensures r.Granted? ==>
        && owner in states && states == old(states)[owner := states[owner]]
        && var n := states[owner];
        && n.status == Running && n.reason == reason && n.lastAttemptAt == lease.acquiredAt && n.lease == Some(lease) && n.lastErrorCode.None?
        && n.lastSuccessAt == (if owner in old(states) then old(states)[owner].lastSuccessAt else None)
        && n.lastCompletedAt == (if owner in old(states) then old(states)[owner].lastCompletedAt else None)
      ensures !r.Granted? ==> states == old(states)
      ensures r == Acquire(old(StateOf(owner)), reason, lease)
      ensures states == if r.Granted? then old(states)[owner := r.state] else old(states)
    {
      if lease.expiresAt <= lease.acquiredAt { return BadTimestamps; }
      var lastSuccess, lastCompleted := None, None;
      if owner in states {
        var current := states[owner];
        var cooldown := if current.lastErrorCode == Some(UpstreamBlocked) then 900_000 else 60_000;
        if lease.acquiredAt - current.lastAttemptAt < cooldown { return Denied; }
        if current.lastAttemptAt > lease.acquiredAt { return Denied; }
        if current.lease.Some? && current.lease.value.expiresAt > lease.acquiredAt { return Denied; }
        lastSuccess, lastCompleted := current.lastSuccessAt, current.lastCompletedAt;
      }
      var granted := State(Running, reason, lease.acquiredAt, lastSuccess, lastCompleted, None, Some(lease));
      states := states[owner := granted];
      return Granted(granted);
    }

    /** Completes the refresh that holds the lease; anything else leaves the adapter as it was. */
    method FinishLiveRefresh(owner: string, leaseId: string, completedAt: int, outcome: Completion) returns (r: FinishResult)
      modifies this
      ensures r.Finished? <==>
        && owner in old(states)
        && var s := old(states)[owner];
        && s.status == Running && s.lease.Some? && s.lease.value.leaseId == leaseId
        && s.lastAttemptAt <= completedAt < s.lease.value.expiresAt && (outcome.Success? ==> ValidSnapshot(outcome.snapshot))
      ensures r.Finished? ==>
        && owner in states && states == old(states)[owner := states[owner]]
        && var s, n := old(states)[owner], states[owner];
        && n.lease.None? && n.lastCompletedAt == Some(completedAt) && n.lastAttemptAt == s.lastAttemptAt && n.reason == s.reason
        && match outcome
           case Success(snapshot) =>
             n.status == Succeeded && n.lastSuccessAt == Some(completedAt) && n.lastErrorCode.None? && snapshots == old(snapshots)[owner := snapshot]
           case Failure(error) =>
             n.status == RefreshStatus.Failed && n.lastSuccessAt == s.lastSuccessAt && n.lastErrorCode == Some(error) && snapshots == old(snapshots)
      ensures !r.Finished? ==> states == old(states) && snapshots == old(snapshots)
      ensures r == Finish(old(StateOf(owner)), leaseId, completedAt, outcome)
      ensures states == if r.Finished? then old(states)[owner := r.state] else old(states)
      ensures snapshots == if r.Finished? && outcome.Success? then old(snapshots)[owner := outcome.snapshot] else old(snapshots)
    {
      if owner !in states { return Refused(NotOwned); }
      var current := states[owner];
      if current.status != Running || current.lease.None? || current.lease.value.leaseId != leaseId {
        return Refused(NotOwned);
      }
      if completedAt < current.lastAttemptAt { return Refused(BadCompletion); }
      if completedAt >= current.lease.value.expiresAt { return Refused(Expired); }
      if outcome.Success? {
        var ok := CheckSnapshot(outcome.snapshot);
        if !ok { return Refused(InvalidSnapshot); }
        snapshots := snapshots[owner := outcome.snapshot];
      }
      var next := State(if outcome.Success? then Succeeded else Failed, current.reason, current.lastAttemptAt,
                        if outcome.Success? then Some(completedAt) else current.lastSuccessAt,
                        Some(completedAt), if outcome.Failure? then Some(outcome.error) else None, None);
      states := states[owner := next];
      return Finished(next);
    }
  }
}
