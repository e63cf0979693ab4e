/** Replacing a state file through a temporary file and a backup, as the refresh queue and the detail
    store do it, when any file operation can fail and the process can end between any two. */
module StateFiles {
  import opened Options

  /** What reading and validating a file yields. */
  datatype Content<+S> = Good(state: S) | BadSchema | Unparsable

  datatype Files<+S> = Files(main: Option<Content<S>>, backup: Option<Content<S>>)

  /** `Denied` is a failure with EPERM or EEXIST, `Ends` the end of the process before the operation. */
  datatype Fault = Works | Denied | Fails | Ends

  /** The fate of each operation of one replacement. `prepare` covers the temporary file up to and
      including its `sync` and `close`. */
  datatype Faults = Faults(prepare: Fault, rename: Fault, dropOld: Fault, moveAside: Fault, install: Fault,
                           restore: Fault, cleanTemp: Fault, dropBackup: Fault)

  datatype Outcome = Returned | Threw | Ended

  /** The path taken when the system refuses to rename over an existing file. */
  function Swap<S>(d: Files<S>, s: S, f: Faults): (Files<S>, Outcome) {
    if f.dropOld.Ends? then (d, Ended)
    else
      var d1 := if f.dropOld.Works? then d.(backup := None) else d;
      if f.moveAside.Ends? then (d1, Ended)
      else if !f.moveAside.Works? || d1.main.None? then (d1, Threw)
      else
        var d2 := Files(None, d1.main);
        if f.install.Ends? then (d2, Ended)
        else if f.install.Works? then
          var d3 := Files(Some(Good(s)), d1.main);
          if f.dropBackup.Ends? then (d3, Ended)
          else (if f.dropBackup.Works? then d3.(backup := None) else d3, Returned)
        else if f.restore.Ends? then (d2, Ended)
        else (if f.restore.Works? then Files(d1.main, None) else d2, if f.cleanTemp.Ends? then Ended else Threw)
  }

  function Replace<S>(d: Files<S>, s: S, f: Faults): (Files<S>, Outcome) {
    match f.prepare
    case Ends => (d, Ended)
    case Denied => (d, Threw)
    case Fails => (d, Threw)
    case Works =>
      match f.rename
      case Works => (d.(main := Some(Good(s))), Returned)
      case Ends => (d, Ended)
      case Fails => (d, if f.cleanTemp.Ends? then Ended else Threw)
      case Denied => Swap(d, s, f)
  }

  // ---------------------------------------------------------------- the queue's reader

  /** What the next `readState` yields: no stored state yet, a state, or an error. */
  datatype View<+S> = Fresh | Ready(state: S) | Broken

  function ViewOf<S>(c: Content<S>): View<S> {
    if c.Good? then Ready(c.state) else Broken
  }

  function QueueView<S>(d: Files<S>): View<S> {
    match d.main
    case None => if d.backup.Some? then ViewOf(d.backup.value) else Fresh
    case Some(Unparsable) => if d.backup.Some? then ViewOf(d.backup.value) else Broken
    case Some(c) => ViewOf(c)
  }

  /** A state read from the backup is renamed back; a failure of that rename is swallowed. */
  function AfterRead<S>(d: Files<S>, recover: Fault): Files<S> {
    var fromBackup := (d.main.None? || d.main == Some(Unparsable)) && d.backup.Some? && d.backup.value.Good?;
    if fromBackup && recover.Works? then Files(d.backup, None) else d
  }

  class QueueFiles<S(==)> {
    var main: Option<Content<S>>
    var backup: Option<Content<S>>

    function Now(): Files<S> reads this { Files(main, backup) }

    constructor ()
      ensures Now() == Files(None, None)
    {
      main, backup := None, None;
    }

    method ReadState(recover: Fault) returns (v: View<S>)
      modifies this
      ensures v == QueueView(old(Now())) && Now() == AfterRead(old(Now()), recover)
    {
      var recovered := false;
      var content: Content<S>;
      if main.Some? {
        content := main.value;
      } else if backup.Some? {
        content := backup.value;
        recovered := true;
      } else {
        return Fresh;
      }
      if content.Unparsable? {
        if recovered || backup.None? || backup.value.Unparsable? { return Broken; }
        content := backup.value;
        recovered := true;
      }
      if content.BadSchema? { return Broken; }
      if recovered && recover.Works? {
        main, backup := backup, None;
      }
      return Ready(content.state);
    }

    method WriteState(s: S, f: Faults) returns (o: Outcome)
      modifies this
      ensures (Now(), o) == Replace(old(Now()), s, f)
    {
      if f.prepare.Ends? { return Ended; }
      if !f.prepare.Works? { return Threw; }
      if f.rename.Ends? { return Ended; }
      if f.rename.Works? {
        main := Some(Good(s));
        return Returned;
      }
      if f.rename.Fails? { return if f.cleanTemp.Ends? then Ended else Threw; }
      if f.dropOld.Ends? { return Ended; }
      if f.dropOld.Works? { backup := None; }
      if f.moveAside.Ends? { return Ended; }
      if !f.moveAside.Works? || main.None? { return Threw; }
      main, backup := None, main;
      if f.install.Ends? { return Ended; }
      if !f.install.Works? {
        if f.restore.Ends? { return Ended; }
        if f.restore.Works? { main, backup := backup, None; }
        return if f.cleanTemp.Ends? then Ended else Threw;
      }
      main := Some(Good(s));
      if f.dropBackup.Ends? { return Ended; }
      if f.dropBackup.Works? { backup := None; }
      return Returned;
    }
  }

  /** A return leaves the new state, a throw the old one, an end of the process one of the two. */
  predicate Kept<S(==)>(before: View<S>, s: S, after: View<S>, o: Outcome) {
    match o
    case Returned => after == Ready(s)
    case Threw => after == before
    case Ended => after == before || after == Ready(s)
  }

  /** A replacement in which every operation works returns. */
  lemma WorkingWriteReturns<S>(d: Files<S>, s: S)
    ensures Replace(d, s, Faults(Works, Works, Works, Works, Works, Works, Works, Works)).1 == Returned
    ensures d.main.Some? ==> Replace(d, s, Faults(Works, Denied, Works, Works, Works, Works, Works, Works)) == (Files(Some(Good(s)), None), Returned)
  {
  }

  ghost predicate CrashSafe<S(!new)>(d: Files<S>) {
    forall s, f :: Kept(QueueView(d), s, QueueView(Replace(d, s, f).0), Replace(d, s, f).1)
  }

  /** The next read depends on the backup: the queue file is missing, or cannot be parsed while the
      backup holds a state. */
  predicate ReliesOnBackup<S>(d: Files<S>) {
    d.backup.Some? && (d.main.None? || (d.main.value.Unparsable? && d.backup.value.Good?))
  }

  /** Writing the queue file is crash-safe exactly when the stored state is not in the backup only. */
  lemma CrashSafeIff<S(!new, 00)>(d: Files<S>)
    ensures CrashSafe(d) <==> !ReliesOnBackup(d)
  {
    if ReliesOnBackup(d) {
      // The backup is dropped, and then moving the queue file aside or installing the new one fails.
      var s: S :| true;
      var f := Faults(Works, Denied, Works, Fails, Fails, Fails, Works, Works);
      assert !Kept(QueueView(d), s, QueueView(Replace(d, s, f).0), Replace(d, s, f).1);
    } else {
      forall s, f ensures Kept(QueueView(d), s, QueueView(Replace(d, s, f).0), Replace(d, s, f).1) {
        ReplaceKeeps(d, s, f);
      }
    }
  }

  lemma ReplaceKeeps<S>(d: Files<S>, s: S, f: Faults)
    requires !ReliesOnBackup(d)
    ensures Kept(QueueView(d), s, QueueView(Replace(d, s, f).0), Replace(d, s, f).1)
  {
  }

  // ---------------------------------------------------------------- runs of queue operations

  /** One operation of the queue: read, compute the next state, write it unless nothing changed. */
  datatype Operation<!S> = Operation(recover: Fault, update: View<S> -> Option<S>, faults: Faults)

  function Perform<S>(d: Files<S>, op: Operation<S>): (Files<S>, Outcome) {
    var read := AfterRead(d, op.recover);
    if op.recover.Ends? then (d, Ended)
    else if QueueView(d).Broken? then (read, Threw)
    else
      match op.update(QueueView(d))
      case None => (read, Returned)
      case Some(s) => Replace(read, s, op.faults)
  }

  /** The state an operation is meant to leave. */
  function Intended<S>(v: View<S>, op: Operation<S>): View<S> {
    if v.Broken? then v
    else match op.update(v) case None => v case Some(s) => Ready(s)
  }

  /** An operation that returned took effect, one that threw did not, one that was cut off did or
      did not. */
  predicate Step<S(==)>(v: View<S>, op: Operation<S>, o: Outcome, end: View<S>) {
    (o != Threw && end == Intended(v, op)) || (o != Returned && end == v)
  }

  /** The recovery rename of a read fails; `readState` swallows that. */
  predicate RecoveryFails(f: Fault) { f.Denied? || f.Fails? }

  lemma ReadKeeps<S>(d: Files<S>, recover: Fault)
    ensures QueueView(AfterRead(d, recover)) == QueueView(d)
    ensures recover.Works? && !QueueView(d).Broken? ==> !ReliesOnBackup(AfterRead(d, recover))
  {
  }

  /** An operation is atomic wherever it is interrupted, unless it writes while the stored state is
      in the backup only and the backup could not be renamed back. */
  lemma OperationAtomic<S(!new)>(d: Files<S>, op: Operation<S>)
    requires !RecoveryFails(op.recover) || !ReliesOnBackup(d)
    ensures Step(QueueView(d), op, Perform(d, op).1, QueueView(Perform(d, op).0))
  {
    ReadKeeps(d, op.recover);
    var read := AfterRead(d, op.recover);
    if !op.recover.Ends? && !QueueView(d).Broken? && op.update(QueueView(d)).Some? {
      ReplaceKeeps(read, op.update(QueueView(d)).value, op.faults);
    }
  }

  ghost predicate AlwaysAtomic<S(!new)>(d: Files<S>, recover: Fault, update: View<S> -> Option<S>) {
    forall f :: Step(QueueView(d), Operation(recover, update, f), Perform(d, Operation(recover, update, f)).1,
                     QueueView(Perform(d, Operation(recover, update, f)).0))
  }

  predicate Writes<S>(d: Files<S>, update: View<S> -> Option<S>) { !QueueView(d).Broken? && update(QueueView(d)).Some? }

  /** That exception is exact: such an operation has a failure that loses the stored state. */
  lemma OperationAtomicIff<S(!new)>(d: Files<S>, recover: Fault, update: View<S> -> Option<S>)
    ensures AlwaysAtomic(d, recover, update) <==> !(Writes(d, update) && RecoveryFails(recover) && ReliesOnBackup(d))
  {
    if Writes(d, update) && RecoveryFails(recover) && ReliesOnBackup(d) {
      var op := Operation(recover, update, Faults(Works, Denied, Works, Fails, Fails, Fails, Works, Works));
      assert !Step(QueueView(d), op, Perform(d, op).1, QueueView(Perform(d, op).0));
    } else {
      forall f ensures Step(QueueView(d), Operation(recover, update, f), Perform(d, Operation(recover, update, f)).1,
                            QueueView(Perform(d, Operation(recover, update, f)).0)) {
        if !RecoveryFails(recover) || !ReliesOnBackup(d) { OperationAtomic(d, Operation(recover, update, f)); }
      }
    }
  }

  function PerformAll<S>(d: Files<S>, ops: seq<Operation<S>>): (Files<S>, seq<Outcome>) {
    if ops == [] then (d, [])
    else
      var (before, outcomes) := PerformAll(d, ops[..|ops| - 1]);
      var (after, o) := Perform(before, ops[|ops| - 1]);
      (after, outcomes + [o])
  }

  /** The views that a run with these outcomes may end in. */
  ghost predicate Explained<S(!new)>(start: View<S>, ops: seq<Operation<S>>, outcomes: seq<Outcome>, end: View<S>)
    requires |ops| == |outcomes|
  {
    if ops == [] then end == start
    else
      var op, o := ops[|ops| - 1], outcomes[|ops| - 1];
      exists v :: Explained(start, ops[..|ops| - 1], outcomes[..|ops| - 1], v)
                  && Step(v, op, o, end)
  }

  lemma ExplainedStep<S(!new)>(start: View<S>, ops: seq<Operation<S>>, outcomes: seq<Outcome>, v: View<S>, end: View<S>)
    requires |ops| == |outcomes| > 0
    requires Explained(start, ops[..|ops| - 1], outcomes[..|outcomes| - 1], v)
    requires Step(v, ops[|ops| - 1], outcomes[|outcomes| - 1], end)
    ensures Explained(start, ops, outcomes, end)
  {
  }

  /** No operation of the run writes after a failed recovery rename while the stored state is in the
      backup only. */
  ghost predicate NothingEndangered<S>(d: Files<S>, ops: seq<Operation<S>>) {
    forall k :: 0 <= k < |ops| ==>
      !(RecoveryFails(ops[k].recover) && ReliesOnBackup(PerformAll(d, ops[..k]).0) && Writes(PerformAll(d, ops[..k]).0, ops[k].update))
  }

  lemma EndangeredPrefix<S>(d: Files<S>, ops: seq<Operation<S>>)
    requires NothingEndangered(d, ops) && ops != []
    ensures NothingEndangered(d, ops[..|ops| - 1])
  {
    var init := ops[..|ops| - 1];
    forall k | 0 <= k < |init|
      ensures !(RecoveryFails(init[k].recover) && ReliesOnBackup(PerformAll(d, init[..k]).0) && Writes(PerformAll(d, init[..k]).0, init[k].update))
    {
      assert init[..k] == ops[..k] && init[k] == ops[k];
    }
  }

  /** Any run of operations, each possibly failing or cut off anywhere, ends in a state that the
      outcomes explain: no update is half done, none that returned is lost. */
  lemma {:induction false} RunExplained<S(!new)>(d: Files<S>, ops: seq<Operation<S>>)
    requires NothingEndangered(d, ops)
    ensures var (n, outcomes) := PerformAll(d, ops);
      |outcomes| == |ops| && Explained(QueueView(d), ops, outcomes, QueueView(n))
  {
    if ops != [] {
      var init, op := ops[..|ops| - 1], ops[|ops| - 1];
      EndangeredPrefix(d, ops);
      RunExplained(d, init);
      var (before, outcomes) := PerformAll(d, init);
      var (after, o) := Perform(before, op);
      OperationAtomicIff(before, op.recover, op.update);
      assert op == Operation(op.recover, op.update, op.faults);
      var all := outcomes + [o];
      assert all[..|all| - 1] == outcomes && all[|all| - 1] == o;
      var v, end := QueueView(before), QueueView(after);
      ExplainedStep(QueueView(d), ops, all, v, end);
    }
  }

  // ---------------------------------------------------------------- the detail store

  /** The detail store reads an invalid or unparsable file as no detail. */
  function DetailView<S>(d: Files<S>): Option<S> {
    match d.main
    case Some(c) => if c.Good? then Some(c.state) else None
    case None => if d.backup.Some? && d.backup.value.Good? then Some(d.backup.value.state) else None
  }

  /** Reading before the update moves a usable backup back, and fails when it cannot. */
  function Upsert<S>(d: Files<S>, merge: Option<S> -> S, recover: Fault, f: Faults): (Files<S>, Outcome) {
    var fromBackup := d.main.None? && d.backup.Some? && d.backup.value.Good?;
    if fromBackup && recover.Ends? then (d, Ended)
    else if fromBackup && !recover.Works? then (d, Threw)
    else Replace(if fromBackup then Files(d.backup, None) else d, merge(DetailView(d)), f)
  }

  /** Replacing a detail file is crash-safe from every start, without condition. */
  lemma UpsertCrashSafe<S>(d: Files<S>, merge: Option<S> -> S, recover: Fault, f: Faults)
    ensures var (n, o) := Upsert(d, merge, recover, f);
      match o
      case Returned => DetailView(n) == Some(merge(DetailView(d)))
      case Threw => DetailView(n) == DetailView(d)
      case Ended => DetailView(n) == DetailView(d) || DetailView(n) == Some(merge(DetailView(d)))
  {
  }
}
