/** Every run of concurrent provider refreshes over the store: leases are taken over when they run
    out, late publications are refused, and the committed states form one chain. */
module ProviderChain {
  import opened Options
  import opened ProviderStore

  /** A commit: the lease it was made under, the state it wrote, and the matches before and after. */
  datatype Commit = Commit(lease: ProviderLease, state: ProviderState, before: map<string, Match>, after: map<string, Match>)

  datatype World = World(now: int, rows: Rows, granted: seq<ProviderLease>, commits: seq<Commit>)

  datatype Event =
    | Tick(now: int)
    | TryAcquire(id: string)
    | TryFinish(lease: ProviderLease, state: ProviderState, deltas: seq<Delta>,
                merge: (map<string, Match>, seq<Delta>) -> seq<Match>, fence: int, commit: int)

  /** Lease ids are fresh, and only granted leases are finished, at any later time. */
  predicate Enabled(w: World, e: Event) {
    match e
    case Tick(now) => w.now <= now
    case TryAcquire(id) => forall l :: l in w.granted ==> l.id != id
    case TryFinish(lease, _, _, _, fence, commit) => lease in w.granted && w.now <= fence <= commit
  }

  function Do(initial: ProviderState, w: World, e: Event): World {
    if !Enabled(w, e) then w
    else match e
      case Tick(now) => w.(now := now)
      case TryAcquire(id) =>
        var (rows, lease) := AcquireTx(w.rows, initial, id, w.now);
        w.(rows := rows, granted := if lease.Some? then w.granted + [lease.value] else w.granted)
      case TryFinish(lease, state, deltas, merge, fence, commit) =>
        var (rows, r) := FinishTx(w.rows, lease, state, deltas, merge, fence, commit);
        World(commit, rows, w.granted,
              if r.Published? then w.commits + [Commit(lease, state, w.rows.matches, rows.matches)] else w.commits)
  }

  function After(initial: ProviderState, w: World, events: seq<Event>): World {
    if events == [] then w else Do(initial, After(initial, w, events[..|events| - 1]), events[|events| - 1])
  }

  function Start(now: int, matches: map<string, Match>): World { World(now, Rows(None, matches, {}), [], []) }

  function StateAt(initial: ProviderState, commits: seq<Commit>): ProviderState {
    if commits == [] then initial else commits[|commits| - 1].state
  }

  function MatchesAt(start: map<string, Match>, commits: seq<Commit>): map<string, Match> {
    if commits == [] then start else commits[|commits| - 1].after
  }

  /** Commit number k was made at revision k, from the state and over the matches that commit number
      k - 1 left. */
  ghost predicate Chained(initial: ProviderState, start: map<string, Match>, commits: seq<Commit>) {
    forall k :: 0 <= k < |commits| ==> Linked(initial, start, commits, k)
  }

  predicate Linked(initial: ProviderState, start: map<string, Match>, commits: seq<Commit>, k: nat)
    requires k < |commits|
  {
    && commits[k].lease.revision == k
    && commits[k].lease.state == StateAt(initial, commits[..k])
    && commits[k].before == MatchesAt(start, commits[..k])
  }

  /** A lease whose id is in the control row was read at the row's revision. */
  predicate LeaseInv(w: World, l: ProviderLease) {
    w.rows.control.Some? && w.rows.control.value.leaseId == Some(l.id) ==>
      && l.revision == w.rows.control.value.revision && l.state == w.rows.control.value.state
      && w.rows.control.value.leaseExpiresAt == l.startedAt + LEASE_MS
  }

  ghost predicate CommitsInv(initial: ProviderState, start: map<string, Match>, w: World) {
    && (w.rows.control.None? ==> w.granted == [] && w.commits == [])
    && (w.rows.control.Some? ==> w.rows.control.value.revision == |w.commits| && w.rows.control.value.state == StateAt(initial, w.commits))
    && w.rows.matches == MatchesAt(start, w.commits)
    && Chained(initial, start, w.commits)
    && (forall c :: c in w.commits ==> c.lease in w.granted)
    && (forall s :: s in w.rows.snapshots ==> exists c :: c in w.commits && s == SnapshotId(c.lease))
  }

  /** A granted lease is over or it is the one in the control row. */
  ghost predicate LeasesInv(w: World) {
    forall l :: l in w.granted ==> LeaseInv(w, l) && l.startedAt <= w.now && (Over(w, l, w.now) || HeldBy(w, l))
  }

  /** Every lease starts after the ones before it were committed or ran out. */
  ghost predicate OrderInv(w: World) {
    forall i, j :: 0 <= i < j < |w.granted| ==> w.granted[i].id != w.granted[j].id && Over(w, w.granted[i], w.granted[j].startedAt)
  }

  ghost predicate Inv(initial: ProviderState, start: map<string, Match>, w: World) {
    CommitsInv(initial, start, w) && LeasesInv(w) && OrderInv(w)
  }

  predicate Committed(w: World, l: ProviderLease) { exists c :: c in w.commits && c.lease == l }
  predicate Over(w: World, l: ProviderLease, at: int) { Committed(w, l) || l.startedAt + LEASE_MS <= at }
  predicate HeldBy(w: World, l: ProviderLease) { w.rows.control.Some? && w.rows.control.value.leaseId == Some(l.id) }

  lemma Extend(initial: ProviderState, start: map<string, Match>, commits: seq<Commit>, c: Commit)
    requires Chained(initial, start, commits)
    requires c.lease.revision == |commits| && c.lease.state == StateAt(initial, commits) && c.before == MatchesAt(start, commits)
    ensures Chained(initial, start, commits + [c])
  {
    var n := commits + [c];
    forall k | 0 <= k < |n| ensures Linked(initial, start, n, k) {
      if k < |commits| {
        assert n[..k] == commits[..k] && Linked(initial, start, commits, k);
      } else {
        assert n[..k] == commits;
      }
    }
  }

  lemma AcquireKeeps(initial: ProviderState, start: map<string, Match>, w: World, id: string)
    requires Inv(initial, start, w) && Enabled(w, TryAcquire(id))
    ensures Inv(initial, start, Do(initial, w, TryAcquire(id)))
  {
    hide Chained;
    var n := Do(initial, w, TryAcquire(id));
    if n.granted != w.granted {
      var l := n.granted[|w.granted|];
      assert forall k :: k in w.granted ==> Over(w, k, w.now) by { TakenOver(w, id, initial); }
      hide AcquireTx, LeaseInv;
      assert OrderInv(n);
    }
  }

  /** A granted request finds every earlier lease over. */
  lemma TakenOver(w: World, id: string, initial: ProviderState)
    requires LeasesInv(w) && AcquireTx(w.rows, initial, id, w.now).1.Some?
    ensures forall k :: k in w.granted ==> Over(w, k, w.now)
  {
    forall k | k in w.granted ensures Over(w, k, w.now) { assert LeaseInv(w, k); }
  }

  lemma FinishKeeps(initial: ProviderState, start: map<string, Match>, w: World, e: Event)
    requires Inv(initial, start, w) && e.TryFinish? && Enabled(w, e)
    ensures Inv(initial, start, Do(initial, w, e))
  {
    hide Chained, ToWrite, Upsert, SnapshotId;
    var n := Do(initial, w, e);
    if n.commits != w.commits {
      var c := n.commits[|w.commits|];
      assert LeaseInv(w, e.lease);
      Extend(initial, start, w.commits, c);
      assert forall d :: d in w.commits ==> d in n.commits;
      assert c in n.commits;
      forall l | l in w.granted ensures Committed(w, l) ==> Committed(n, l) {}
    }
  }

  lemma {:induction false} EveryRun(initial: ProviderState, now: int, start: map<string, Match>, events: seq<Event>)
    ensures Inv(initial, start, After(initial, Start(now, start), events))
  {
    if events != [] {
      EveryRun(initial, now, start, events[..|events| - 1]);
      var w, e := After(initial, Start(now, start), events[..|events| - 1]), events[|events| - 1];
      if Enabled(w, e) {
        match e
        case TryAcquire(id) => AcquireKeeps(initial, start, w, id);
        case TryFinish(_, _, _, _, _, _) => FinishKeeps(initial, start, w, e);
        case Tick(_) =>
      }
    }
  }

  /** The k-th publication was computed from the state at revision k and written over the matches
      published before it; nothing else writes either. */
  lemma PublicationsChain(initial: ProviderState, now: int, start: map<string, Match>, events: seq<Event>)
    ensures var w := After(initial, Start(now, start), events);
      && Chained(initial, start, w.commits)
      && w.rows.matches == MatchesAt(start, w.commits)
      && (w.rows.control.Some? ==> w.rows.control.value.revision == |w.commits| && w.rows.control.value.state == StateAt(initial, w.commits))
  {
    EveryRun(initial, now, start, events);
  }

  /** A later lease starts only after the earlier one published or after its two minutes. */
  lemma LeasesDisjoint(initial: ProviderState, now: int, start: map<string, Match>, events: seq<Event>, i: nat, j: nat)
    requires i < j < |After(initial, Start(now, start), events).granted|
    ensures var w := After(initial, Start(now, start), events);
      (exists c :: c in w.commits && c.lease == w.granted[i]) || w.granted[i].startedAt + 120_000 <= w.granted[j].startedAt
  {
    EveryRun(initial, now, start, events);
    var w := After(initial, Start(now, start), events);
    assert Over(w, w.granted[i], w.granted[j].startedAt);
  }

  /** A lease that ran out, was replaced, or already published writes nothing: no match, no snapshot,
      no checkpoint. Any other publication writes all of them and cannot collide with an earlier one. */
  lemma AllOrNothing(initial: ProviderState, now: int, start: map<string, Match>, events: seq<Event>, e: Event)
    requires e.TryFinish? && Enabled(After(initial, Start(now, start), events), e)
    ensures var w := After(initial, Start(now, start), events);
      var n := Do(initial, w, e);
      if HeldBy(w, e.lease) && e.commit < e.lease.startedAt + 120_000 then
        && n.commits == w.commits + [Commit(e.lease, e.state, w.rows.matches, n.rows.matches)]
        && n.rows.control == Some(Control(|w.commits| + 1, e.state, None, 0))
        && n.rows.matches == Upsert(w.rows.matches, ToWrite(w.rows.matches, e.deltas, e.merge))
        && SnapshotId(e.lease) !in w.rows.snapshots
      else n.rows == w.rows && n.commits == w.commits
  {
    hide ToWrite, Upsert, Chained;
    EveryRun(initial, now, start, events);
    var w := After(initial, Start(now, start), events);
    assert LeaseInv(w, e.lease);
    if HeldBy(w, e.lease) && SnapshotId(e.lease) in w.rows.snapshots {
      var c :| c in w.commits && SnapshotId(e.lease) == SnapshotId(c.lease);
      CommittedOnce(initial, now, start, events, c, e.lease);
    }
  }

  lemma CommittedOnce(initial: ProviderState, now: int, start: map<string, Match>, events: seq<Event>, c: Commit, l: ProviderLease)
    requires var w := After(initial, Start(now, start), events); c in w.commits && l in w.granted && HeldBy(w, l)
    ensures SnapshotId(c.lease) != SnapshotId(l)
  {
    EveryRun(initial, now, start, events);
    var w := After(initial, Start(now, start), events);
    var k :| 0 <= k < |w.commits| && w.commits[k] == c;
    assert LeaseInv(w, l) && Linked(initial, start, w.commits, k);
    assert SnapshotId(c.lease)[7..] == c.lease.id && SnapshotId(l)[7..] == l.id;
    var i :| 0 <= i < |w.granted| && w.granted[i] == c.lease;
    var j :| 0 <= j < |w.granted| && w.granted[j] == l;
    assert w.granted[i].id != w.granted[j].id;
  }
}
