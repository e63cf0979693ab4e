/** The provider refresh control row of one owner: a lease, a revision and the refresh state, and the
    publication that writes matches, snapshot and state in one transaction. */
module ProviderStore {
  import opened Options
  import JsMap

  /** The refresh state is opaque here: checkpoints and circuits as one value. */
  datatype ProviderState = ProviderState(content: string)

  datatype Control = Control(revision: nat, state: ProviderState, leaseId: Option<string>, leaseExpiresAt: int)

  datatype ProviderLease = ProviderLease(id: string, revision: nat, startedAt: int, state: ProviderState)

  datatype RefKey = RefKey(sourceId: string, sourceMatchId: string)

  /** A source reference: its key and its other fields. */
  datatype SourceRef = SourceRef(key: RefKey, fields: map<string, string>)

  datatype Match = Match(id: string, competitionId: string, updatedAt: string, content: string, sourceRefs: seq<SourceRef>)

  datatype DeltaMatch = DeltaMatch(matchId: string, competitionId: string)
  datatype Delta = Delta(matches: seq<DeltaMatch>, content: string)

  datatype Rows = Rows(control: Option<Control>, matches: map<string, Match>, snapshots: set<string>)

  const LEASE_MS := 120_000
  const BATCH := 500

  function Vacant(c: Control, now: int): bool { c.leaseId.None? || c.leaseExpiresAt <= now }

  function AcquireTx(rows: Rows, initial: ProviderState, id: string, now: int): (Rows, Option<ProviderLease>) {
    match rows.control
    case None => (rows.(control := Some(Control(0, initial, Some(id), now + LEASE_MS))), Some(ProviderLease(id, 0, now, initial)))
    case Some(c) =>
      if Vacant(c, now)
      then (rows.(control := Some(c.(leaseId := Some(id), leaseExpiresAt := now + LEASE_MS))), Some(ProviderLease(id, c.revision, now, c.state)))
      else (rows, None)
  }

  predicate Fenced(rows: Rows, lease: ProviderLease, now: int) {
    rows.control.Some? && rows.control.value.leaseId == Some(lease.id)
    && rows.control.value.revision == lease.revision && rows.control.value.leaseExpiresAt > now
  }

  // ---------------------------------------------------------------- which matches are written

  type RefMap = JsMap.JsMap<RefKey, SourceRef>

  /** `{ ...old, ...ref }`: the new fields win, the others stay. */
  function Spread(prior: Option<SourceRef>, ref: SourceRef): SourceRef {
    match prior
    case None => ref
    case Some(r) => SourceRef(ref.key, r.fields + ref.fields)
  }

  function MergeRef(refs: RefMap, ref: SourceRef): RefMap {
    JsMap.Set(refs, ref.key, Spread(JsMap.Lookup(refs, ref.key), ref))
  }

  function MergeRefs(refs: RefMap, new_: seq<SourceRef>): RefMap {
    if new_ == [] then refs else MergeRef(MergeRefs(refs, new_[..|new_| - 1]), new_[|new_| - 1])
  }

  function OldRefs(prior: seq<SourceRef>): RefMap {
    if prior == [] then [] else JsMap.Set(OldRefs(prior[..|prior| - 1]), prior[|prior| - 1].key, prior[|prior| - 1])
  }

  function WithOldRefs(m: Match, prior: Match): Match {
    m.(sourceRefs := JsMap.Values(MergeRefs(OldRefs(prior.sourceRefs), m.sourceRefs)))
  }

  /** The candidates whose `updatedAt` differs from the stored one, with the prior references kept. */
  function Changed(before: map<string, Match>, candidates: seq<Match>): seq<Match> {
    if candidates == [] then []
    else
      var m := candidates[|candidates| - 1];
      var rest := Changed(before, candidates[..|candidates| - 1]);
      if m.id !in before then rest + [m.(sourceRefs := JsMap.Values(MergeRefs([], m.sourceRefs)))]
      else if before[m.id].updatedAt == m.updatedAt then rest
      else rest + [WithOldRefs(m, before[m.id])]
  }

  function Upsert(matches: map<string, Match>, changed: seq<Match>): map<string, Match> {
    if changed == [] then matches
    else Upsert(matches, changed[..|changed| - 1])[changed[|changed| - 1].id := changed[|changed| - 1]]
  }

  function Competitions(deltas: seq<Delta>): set<string> {
    set d, i | d in deltas && 0 <= i < |d.matches| :: d.matches[i].competitionId
  }

  function InCompetitions(matches: map<string, Match>, competitions: set<string>): map<string, Match> {
    map id | id in matches && matches[id].competitionId in competitions :: matches[id]
  }

  /** `merge` stands for the canonical warehouse merge over all deltas. */
  function ToWrite(matches: map<string, Match>, deltas: seq<Delta>, merge: (map<string, Match>, seq<Delta>) -> seq<Match>): seq<Match> {
    if forall d :: d in deltas ==> d.matches == [] then []
    else
      var before := InCompetitions(matches, Competitions(deltas));
      Changed(before, merge(before, deltas))
  }

  datatype FinishResult = Expired | Published(snapshotId: Option<string>)

  function SnapshotId(lease: ProviderLease): string { "hosted-" + lease.id }

  /** `fence` and `commit` are the clock readings of the first and of the last statement. */
  function FinishTx(rows: Rows, lease: ProviderLease, state: ProviderState, deltas: seq<Delta>,
                    merge: (map<string, Match>, seq<Delta>) -> seq<Match>, fence: int, commit: int): (Rows, FinishResult) {
    if !Fenced(rows, lease, fence) || !Fenced(rows, lease, commit) then (rows, Expired)
    else
      var changed := ToWrite(rows.matches, deltas, merge);
      (Rows(Some(Control(lease.revision + 1, state, None, 0)), Upsert(rows.matches, changed),
            if changed == [] then rows.snapshots else rows.snapshots + {SnapshotId(lease)}),
       Published(if changed == [] then None else Some(SnapshotId(lease))))
  }

  lemma {:induction false} UpsertConcat(matches: map<string, Match>, a: seq<Match>, b: seq<Match>)
    ensures Upsert(matches, a + b) == Upsert(Upsert(matches, a), b)
  {
    if b == [] {
      assert a + b == a;
    } else {
      assert (a + b)[..|a + b| - 1] == a + b[..|b| - 1];
      UpsertConcat(matches, a, b[..|b| - 1]);
    }
  }

  // ---------------------------------------------------------------- what a publication writes

  /** The lease is the one in the control row and still runs. */
  predicate Owns(control: Option<Control>, lease: ProviderLease, at: int) {
    control.Some? && control.value.leaseId == Some(lease.id) && control.value.revision == lease.revision && at < control.value.leaseExpiresAt
  }

  /** The stored matches of the competitions that occur in the deltas. */
  ghost function Touched(matches: map<string, Match>, deltas: seq<Delta>): map<string, Match> {
    map id | id in matches && (exists d, m :: d in deltas && m in d.matches && m.competitionId == matches[id].competitionId) :: matches[id]
  }

  /** What merging the deltas into them gives; nothing without a match in any delta. */
  ghost function Candidates(matches: map<string, Match>, deltas: seq<Delta>, merge: (map<string, Match>, seq<Delta>) -> seq<Match>): seq<Match> {
    if exists d :: d in deltas && d.matches != [] then merge(Touched(matches, deltas), deltas) else []
  }

  /** A new match, or one with another update time. */
  predicate Differs(before: map<string, Match>, m: Match) { m.id in before ==> before[m.id].updatedAt != m.updatedAt }

  /** A written match: the candidate's own fields, and its references joined with those stored before. */
  ghost predicate StoredFrom(m: Match, prior: seq<SourceRef>, row: Match) {
    && row.id == m.id && row.competitionId == m.competitionId && row.updatedAt == m.updatedAt && row.content == m.content
    && JoinedRefs(prior, m.sourceRefs, row.sourceRefs)
  }

  /** One reference for every key of either list, each field with its latest value. */
  ghost predicate JoinedRefs(prior: seq<SourceRef>, own: seq<SourceRef>, written: seq<SourceRef>) {
    && (forall i, j :: 0 <= i < j < |written| ==> written[i].key != written[j].key)
    && (forall key :: HasRef(written, key) <==> HasRef(prior, key) || HasRef(own, key))
    && (forall r, name :: r in written ==>
          (if name in r.fields then Some(r.fields[name]) else None)
            == Preferred(LatestField(own, r.key, name), StoredField(prior, r.key, name)))
  }

  /** A field of the stored reference of a key, the last one if there are more. */
  function StoredField(prior: seq<SourceRef>, key: RefKey, name: string): Option<string> {
    if prior == [] then None
    else
      var r := prior[|prior| - 1];
      if r.key == key then (if name in r.fields then Some(r.fields[name]) else None) else StoredField(prior[..|prior| - 1], key, name)
  }

  function PriorRefs(before: map<string, Match>, id: string): seq<SourceRef> { if id in before then before[id].sourceRefs else [] }

  /** The last candidate of an id that differs from the row before. */
  ghost predicate LastDiffering(before: map<string, Match>, candidates: seq<Match>, k: nat) {
    && k < |candidates| && Differs(before, candidates[k])
    && forall j :: k < j < |candidates| && candidates[j].id == candidates[k].id ==> !Differs(before, candidates[j])
  }

  ghost predicate StoresAll(before: map<string, Match>, candidates: seq<Match>, new_: map<string, Match>) {
    forall k :: 0 <= k < |candidates| && LastDiffering(before, candidates, k) ==>
      var m := candidates[k]; m.id in new_ && StoredFrom(m, PriorRefs(before, m.id), new_[m.id])
  }

  ghost predicate KeepsOthers(before: map<string, Match>, candidates: seq<Match>, old_: map<string, Match>, new_: map<string, Match>) {
    forall id :: (forall m :: m in candidates && m.id == id ==> !Differs(before, m)) ==>
      (id in new_ <==> id in old_) && (id in new_ ==> new_[id] == old_[id])
  }

  /** Every candidate that differs is stored, the last one of its id; every other row is as it was. */
  ghost predicate WrittenAs(before: map<string, Match>, candidates: seq<Match>, old_: map<string, Match>, new_: map<string, Match>) {
    StoresAll(before, candidates, new_) && KeepsOthers(before, candidates, old_, new_)
  }

  class HostedStore {
    var control: Option<Control>
    var matches: map<string, Match>
    var snapshots: set<string>

    function Tables(): Rows reads this { Rows(control, matches, snapshots) }

    constructor ()
      ensures Tables() == Rows(None, map[], {})
    {
      control, matches, snapshots := None, map[], {};
    }

    /** Given exactly when no lease is held or the held one ran out; it carries the stored revision and state. */
    method Acquire(initial: ProviderState, id: string, now: int) returns (r: Option<ProviderLease>)
      modifies this`control
      ensures r.Some? <==> old(control).None? || old(control).value.leaseId.None? || old(control).value.leaseExpiresAt <= now
      ensures r.Some? ==>
        && r.value.id == id && r.value.startedAt == now
        && r.value.revision == (if old(control).Some? then old(control).value.revision else 0)
        && r.value.state == (if old(control).Some? then old(control).value.state else initial)
        && control == Some(Control(r.value.revision, r.value.state, Some(id), now + 120_000))
      ensures r.None? ==> control == old(control)
      ensures (Tables(), r) == AcquireTx(old(Tables()), initial, id, now)
    {
      if control.None? {
        control := Some(Control(0, initial, Some(id), now + LEASE_MS));
        return Some(ProviderLease(id, 0, now, initial));
      }
      var c := control.value;
      if c.leaseId.Some? && c.leaseExpiresAt > now { return None; }
      control := Some(Control(c.revision, c.state, Some(id), now + LEASE_MS));
      return Some(ProviderLease(id, c.revision, now, c.state));
    }

    /** The transaction writes the changed matches in batches; when the lease has run out by the last
        statement everything written before is rolled back. */
    method Finish(lease: ProviderLease, state: ProviderState, deltas: seq<Delta>,
                  merge: (map<string, Match>, seq<Delta>) -> seq<Match>, fence: int, commit: int) returns (r: FinishResult)
      modifies this
      ensures r.Published? <==> Owns(old(control), lease, fence) && Owns(old(control), lease, commit)
      ensures r.Expired? ==> control == old(control) && matches == old(matches) && snapshots == old(snapshots)
      ensures r.Published? ==>
        && control == Some(Control(lease.revision + 1, state, None, 0))
        && WrittenAs(Touched(old(matches), deltas), Candidates(old(matches), deltas, merge), old(matches), matches)
        && (r.snapshotId.Some? <==>
              exists m :: m in Candidates(old(matches), deltas, merge) && Differs(Touched(old(matches), deltas), m))
        && (r.snapshotId.Some? ==> r.snapshotId.value == "hosted-" + lease.id && snapshots == old(snapshots) + {r.snapshotId.value})
        && (r.snapshotId.None? ==> snapshots == old(snapshots))
      ensures (Tables(), r) == FinishTx(old(Tables()), lease, state, deltas, merge, fence, commit)
    {
      WriteMeaning(matches, deltas, merge);
      hide ToWrite, WrittenAs, Candidates, Touched;
      if !Fenced(Tables(), lease, fence) { return Expired; }
      var savedMatches, savedSnapshots := matches, snapshots;
      var changed := ToWrite(matches, deltas, merge);
      if changed != [] {
        snapshots := snapshots + {SnapshotId(lease)};
        var offset := 0;
        while offset < |changed|
          invariant 0 <= offset <= |changed|
          invariant matches == Upsert(savedMatches, changed[..offset])
          invariant control == old(control) && snapshots == savedSnapshots + {SnapshotId(lease)}
          decreases |changed| - offset
        {
          var next := if offset + BATCH < |changed| then offset + BATCH else |changed|;
          UpsertConcat(savedMatches, changed[..offset], changed[offset..next]);
          assert changed[..next] == changed[..offset] + changed[offset..next];
          matches := Upsert(matches, changed[offset..next]);
          offset := next;
        }
        assert changed[..|changed|] == changed;
      }
      if !Fenced(Tables(), lease, commit) {
        matches, snapshots := savedMatches, savedSnapshots;
        return Expired;
      }
      control := Some(Control(control.value.revision + 1, state, None, 0));
      return Published(if changed == [] then None else Some(SnapshotId(lease)));
    }
  }

  // ---------------------------------------------------------------- references survive

  ghost predicate HasRef(refs: seq<SourceRef>, key: RefKey) {
    exists r :: r in refs && r.key == key
  }

  ghost predicate KeyedRefs(refs: RefMap) {
    JsMap.UniqueKeys(refs) && forall e :: e in refs ==> e.value.key == e.key
  }

  /** A field of the reference stored under a key, if both are there. */
  function Field(refs: RefMap, key: RefKey, name: string): Option<string> {
    match JsMap.Lookup(refs, key)
    case Some(r) => if name in r.fields then Some(r.fields[name]) else None
    case None => None
  }

  function Preferred(first: Option<string>, second: Option<string>): Option<string> { if first.Some? then first else second }

  /** The last value given to a field of a reference in a list of updates. */
  function LatestField(refs: seq<SourceRef>, key: RefKey, name: string): Option<string> {
    if refs == [] then None
    else
      var r := refs[|refs| - 1];
      if r.key == key && name in r.fields then Some(r.fields[name]) else LatestField(refs[..|refs| - 1], key, name)
  }

  lemma MergeRefFields(refs: RefMap, ref: SourceRef, key: RefKey, name: string)
    requires KeyedRefs(refs)
    ensures KeyedRefs(MergeRef(refs, ref))
    ensures JsMap.Has(MergeRef(refs, ref), key) <==> JsMap.Has(refs, key) || key == ref.key
    ensures Field(MergeRef(refs, ref), key, name)
      == if key == ref.key && name in ref.fields then Some(ref.fields[name]) else Field(refs, key, name)
  {
    var merged := Spread(JsMap.Lookup(refs, ref.key), ref);
    JsMap.SetLookup(refs, ref.key, merged);
    assert JsMap.Lookup(MergeRef(refs, ref), key).Some? <==> key == ref.key || JsMap.Lookup(refs, key).Some?;
    KeyedSet(refs, ref.key, merged);
  }

  lemma KeyedSet(refs: RefMap, key: RefKey, r: SourceRef)
    requires KeyedRefs(refs) && r.key == key
    ensures KeyedRefs(JsMap.Set(refs, key, r))
  {
    JsMap.SetLookup(refs, key, r);
    if JsMap.Has(refs, key) {
      var i := JsMap.LookupIndex(refs, key);
      JsMap.SetAt(refs, key, r, i);
    } else {
      JsMap.SetFresh(refs, key, r);
    }
  }

  /** A written reference keeps every field the stored one had, unless the update sets it. */
  lemma {:induction false} MergeRefsFields(refs: RefMap, new_: seq<SourceRef>, key: RefKey, name: string)
    requires KeyedRefs(refs)
    ensures KeyedRefs(MergeRefs(refs, new_))
    ensures JsMap.Has(MergeRefs(refs, new_), key) <==> JsMap.Has(refs, key) || HasRef(new_, key)
    ensures Field(MergeRefs(refs, new_), key, name) == Preferred(LatestField(new_, key, name), Field(refs, key, name))
  {
    if new_ != [] {
      var init, last := new_[..|new_| - 1], new_[|new_| - 1];
      MergeRefsFields(refs, init, key, name);
      MergeRefFields(MergeRefs(refs, init), last, key, name);
      assert new_ == init + [last];
      hide KeyedRefs, Field, MergeRef;
    }
  }

  lemma {:induction false} OldRefsKeys(prior: seq<SourceRef>, key: RefKey)
    ensures KeyedRefs(OldRefs(prior)) && (JsMap.Has(OldRefs(prior), key) <==> HasRef(prior, key))
  {
    if prior != [] {
      var init, last := prior[..|prior| - 1], prior[|prior| - 1];
      OldRefsKeys(init, key);
      KeyedSet(OldRefs(init), last.key, last);
      JsMap.SetLookup(OldRefs(init), last.key, last);
      assert JsMap.Lookup(OldRefs(prior), key).Some? <==> key == last.key || JsMap.Lookup(OldRefs(init), key).Some?;
      assert prior == init + [last];
    }
  }

  lemma {:induction false} OldRefsField(prior: seq<SourceRef>, key: RefKey, name: string)
    ensures Field(OldRefs(prior), key, name) == StoredField(prior, key, name)
  {
    if prior != [] {
      var init, last := prior[..|prior| - 1], prior[|prior| - 1];
      OldRefsField(init, key, name);
      OldRefsKeys(init, key);
      JsMap.SetLookup(OldRefs(init), last.key, last);
    }
  }

  lemma ValuesKeep(refs: RefMap, key: RefKey)
    requires KeyedRefs(refs)
    ensures HasRef(JsMap.Values(refs), key) <==> JsMap.Has(refs, key)
  {
    if JsMap.Has(refs, key) {
      var i := JsMap.LookupIndex(refs, key);
      assert refs[i] in refs && JsMap.Values(refs)[i] == refs[i].value;
    }
    if HasRef(JsMap.Values(refs), key) {
      var r :| r in JsMap.Values(refs) && r.key == key;
      var i :| 0 <= i < |refs| && JsMap.Values(refs)[i] == r;
      assert refs[i] in refs;
    }
  }

  /** A written match has the references of the stored one and its own, one per key, and each keeps
      the stored fields that the update does not set. */
  lemma PriorReferencesKept(m: Match, prior: Match, key: RefKey, name: string)
    ensures var written := WithOldRefs(m, prior).sourceRefs;
      && (HasRef(written, key) <==> HasRef(prior.sourceRefs, key) || HasRef(m.sourceRefs, key))
      && (forall i, j :: 0 <= i < j < |written| ==> written[i].key != written[j].key)
      && (forall r :: r in written && r.key == key ==>
            (if name in r.fields then Some(r.fields[name]) else None)
              == Preferred(LatestField(m.sourceRefs, key, name), StoredField(prior.sourceRefs, key, name)))
  {
    OldRefsField(prior.sourceRefs, key, name);
    OldRefsKeys(prior.sourceRefs, key);
    MergeRefsFields(OldRefs(prior.sourceRefs), m.sourceRefs, key, name);
    var refs := MergeRefs(OldRefs(prior.sourceRefs), m.sourceRefs);
    hide MergeRefs, OldRefs;
    ValuesKeep(refs, key);
    forall i | 0 <= i < |refs| ensures refs[i].value.key == refs[i].key { assert refs[i] in refs; }
    forall i | 0 <= i < |refs| && refs[i].key == key ensures JsMap.Lookup(refs, key) == Some(refs[i].value) {
      JsMap.LookupAt(refs, i);
    }
  }

  lemma TouchedIs(matches: map<string, Match>, deltas: seq<Delta>)
    ensures Touched(matches, deltas) == InCompetitions(matches, Competitions(deltas))
  {
    forall id | id in matches
      ensures (exists d, m :: d in deltas && m in d.matches && m.competitionId == matches[id].competitionId)
              <==> matches[id].competitionId in Competitions(deltas)
    {
      if d, m :| d in deltas && m in d.matches && m.competitionId == matches[id].competitionId {
        var i :| 0 <= i < |d.matches| && d.matches[i] == m;
        assert d.matches[i].competitionId in Competitions(deltas);
      }
      if matches[id].competitionId in Competitions(deltas) {
        var d, i :| d in deltas && 0 <= i < |d.matches| && d.matches[i].competitionId == matches[id].competitionId;
        assert d.matches[i] in d.matches;
      }
    }
  }

  /** The references of a written match are joined; without a stored one they are its own. */
  lemma Joined(m: Match, prior: seq<SourceRef>)
    ensures JoinedRefs(prior, m.sourceRefs, JsMap.Values(MergeRefs(OldRefs(prior), m.sourceRefs)))
  {
    var row := Match("", "", "", "", prior);
    var written := JsMap.Values(MergeRefs(OldRefs(prior), m.sourceRefs));
    assert WithOldRefs(m, row).sourceRefs == written;
    hide MergeRefs, OldRefs, LatestField, StoredField, HasRef;
    forall key ensures HasRef(written, key) <==> HasRef(prior, key) || HasRef(m.sourceRefs, key) { PriorReferencesKept(m, row, key, ""); }
    forall i, j | 0 <= i < j < |written| ensures written[i].key != written[j].key { PriorReferencesKept(m, row, written[i].key, ""); }
    forall r, name | r in written
      ensures (if name in r.fields then Some(r.fields[name]) else None)
              == Preferred(LatestField(m.sourceRefs, r.key, name), StoredField(prior, r.key, name))
    {
      PriorReferencesKept(m, row, r.key, name);
    }
  }

  function WrittenRow(before: map<string, Match>, m: Match): Match {
    m.(sourceRefs := JsMap.Values(MergeRefs(OldRefs(PriorRefs(before, m.id)), m.sourceRefs)))
  }

  lemma ChangedLast(before: map<string, Match>, candidates: seq<Match>)
    requires candidates != []
    ensures var init, m := candidates[..|candidates| - 1], candidates[|candidates| - 1];
      Changed(before, candidates) == Changed(before, init) + if Differs(before, m) then [WrittenRow(before, m)] else []
  {
    hide MergeRefs, JsMap.Values;
    assert OldRefs([]) == [];
  }

  lemma UpsertLast(matches: map<string, Match>, a: seq<Match>, m: Match)
    ensures Upsert(matches, a + [m]) == Upsert(matches, a)[m.id := m]
  {
    assert (a + [m])[..|a + [m]| - 1] == a;
  }

  lemma NextWrite(matches: map<string, Match>, before: map<string, Match>, candidates: seq<Match>)
    requires candidates != []
    ensures var init, m := candidates[..|candidates| - 1], candidates[|candidates| - 1];
      OneMore(before, m, Upsert(matches, Changed(before, init)), Upsert(matches, Changed(before, candidates)))
  {
    hide MergeRefs, OldRefs, JsMap.Values, Changed, Differs;
    var init, m := candidates[..|candidates| - 1], candidates[|candidates| - 1];
    ChangedLast(before, candidates);
    if Differs(before, m) {
      UpsertLast(matches, Changed(before, init), WrittenRow(before, m));
    } else {
      assert Changed(before, init) + [] == Changed(before, init);
    }
  }

  lemma NothingWritten(matches: map<string, Match>, before: map<string, Match>)
    ensures WrittenAs(before, [], matches, Upsert(matches, Changed(before, [])))
  {
    hide StoredFrom;
  }

  lemma {:induction false} Writes(matches: map<string, Match>, before: map<string, Match>, candidates: seq<Match>)
    ensures WrittenAs(before, candidates, matches, Upsert(matches, Changed(before, candidates)))
  {
    hide StoredFrom, StoresAll, KeepsOthers, OneMore, Upsert, Changed, WrittenRow;
    if candidates == [] {
      NothingWritten(matches, before);
    } else {
      var init, m := candidates[..|candidates| - 1], candidates[|candidates| - 1];
      Writes(matches, before, init);
      NextWrite(matches, before, candidates);
      RowStored(before, m);
      var mid, after := Upsert(matches, Changed(before, init)), Upsert(matches, Changed(before, candidates));
      StoresMore(before, init, m, mid, after);
      KeepsMore(before, init, m, matches, mid, after);
      assert candidates == init + [m];
    }
  }

  lemma RowStored(before: map<string, Match>, m: Match)
    ensures StoredFrom(m, PriorRefs(before, m.id), WrittenRow(before, m))
  {
    hide JoinedRefs;
    Joined(m, PriorRefs(before, m.id));
  }

  ghost predicate OneMore(before: map<string, Match>, m: Match, mid: map<string, Match>, new_: map<string, Match>) {
    new_ == if Differs(before, m) then mid[m.id := WrittenRow(before, m)] else mid
  }

  lemma StoresMore(before: map<string, Match>, init: seq<Match>, m: Match, mid: map<string, Match>, new_: map<string, Match>)
    requires StoresAll(before, init, mid) && OneMore(before, m, mid, new_) && StoredFrom(m, PriorRefs(before, m.id), WrittenRow(before, m))
    ensures StoresAll(before, init + [m], new_)
  {
    hide StoredFrom, WrittenRow, PriorRefs, Differs;
    var candidates := init + [m];
    forall k | 0 <= k < |candidates| && LastDiffering(before, candidates, k)
      ensures candidates[k].id in new_ && StoredFrom(candidates[k], PriorRefs(before, candidates[k].id), new_[candidates[k].id])
    {
      if k < |init| {
        assert init[k] == candidates[k] && candidates[|init|] == m;
        assert forall j :: k < j < |init| ==> init[j] == candidates[j];
        assert LastDiffering(before, init, k);
      }
    }
  }

  lemma KeepsMore(before: map<string, Match>, init: seq<Match>, m: Match, old_: map<string, Match>, mid: map<string, Match>, new_: map<string, Match>)
    requires KeepsOthers(before, init, old_, mid) && OneMore(before, m, mid, new_)
    ensures KeepsOthers(before, init + [m], old_, new_)
  {
    hide WrittenRow, Differs;
    forall id | forall c :: c in init + [m] && c.id == id ==> !Differs(before, c)
      ensures (id in new_ <==> id in old_) && (id in new_ ==> new_[id] == old_[id])
    {
      assert forall c :: c in init ==> c in init + [m];
      assert m in init + [m];
    }
  }

  lemma {:induction false} NothingChanged(before: map<string, Match>, candidates: seq<Match>)
    ensures Changed(before, candidates) == [] <==> forall m :: m in candidates ==> !Differs(before, m)
  {
    if candidates != [] {
      var init, m := candidates[..|candidates| - 1], candidates[|candidates| - 1];
      ChangedLast(before, candidates);
      NothingChanged(before, init);
      assert candidates == init + [m];
    }
  }

  lemma WriteMeaning(matches: map<string, Match>, deltas: seq<Delta>, merge: (map<string, Match>, seq<Delta>) -> seq<Match>)
    ensures var changed := ToWrite(matches, deltas, merge);
      var before, candidates := Touched(matches, deltas), Candidates(matches, deltas, merge);
      && WrittenAs(before, candidates, matches, Upsert(matches, changed))
      && (changed == [] <==> !exists m :: m in candidates && Differs(before, m))
  {
    TouchedIs(matches, deltas);
    hide InCompetitions, Touched, WrittenAs, Upsert;
    var before, candidates := Touched(matches, deltas), Candidates(matches, deltas, merge);
    Writes(matches, before, candidates);
    NothingChanged(before, candidates);
    assert ToWrite(matches, deltas, merge) == Changed(before, candidates);
  }
}
