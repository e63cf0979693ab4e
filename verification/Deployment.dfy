/** A release deployment as a saga: stages in order, and when one fails the compensations of what was
    attempted, in reverse. */
module Deployment {
  import opened Options

  datatype Operation =
    | Validate | Backup | MigrationDryRun | ApplyMigrations | DeployEdge | DeployWorker | ConfigureScheduler | Smoke | RecordEvidence
    | PauseScheduler | RollbackWorker | RollbackEdge | RecordFailure

  /** How a call goes; a throwing call carries an error code if that is safe to show. `BadReceipt` is
      a deployment that returns a version id that is not immutable. */
  datatype Fate = Succeeds | Throws(code: Option<string>) | BadReceipt

  /** What the outside world does: the fate of every operation, and what a call leaves deployed,
      also when it throws. `prepared` is whether the evidence document can be built. */
  datatype Environment = Environment(fate: Operation -> Fate, deployed: Operation -> string, pausedAnyway: Operation -> bool, prepared: bool)

  datatype System = System(edge: string, worker: string, schedulerPaused: bool)

  datatype Plan = Plan(approved: bool, requiresOwnerBackup: bool, priorEdge: string, priorWorker: string)

  datatype RunResult = Rejected | Deployed | Failed(stage: Operation, code: string, rollbackCodes: seq<string>, completed: seq<Operation>)

  function Stages(p: Plan): seq<Operation> {
    [Validate] + (if p.requiresOwnerBackup then [Backup] else [])
    + [MigrationDryRun, ApplyMigrations, DeployEdge, DeployWorker, ConfigureScheduler, Smoke, RecordEvidence]
  }

  function StageError(s: Operation): string {
    match s
    case Validate => "release_validation_failed"
    case Backup => "owner_backup_failed"
    case MigrationDryRun => "migration_dry_run_failed"
    case ApplyMigrations => "migration_apply_failed"
    case DeployEdge => "edge_deploy_failed"
    case DeployWorker => "worker_deploy_failed"
    case ConfigureScheduler => "scheduler_configure_failed"
    case Smoke => "smoke_failed"
    case PauseScheduler => "scheduler_pause_failed"
    case RollbackWorker => "worker_rollback_failed"
    case RollbackEdge => "edge_rollback_failed"
    case _ => "evidence_record_failed"
  }

  function CodeOf(f: Fate, fallback: string): string {
    if f.Throws? && f.code.Some? then f.code.value else fallback
  }

  /** What one call does to the deployed system. */
  function Effect(s: System, op: Operation, p: Plan, env: Environment): System {
    match op
    case DeployEdge => s.(edge := env.deployed(DeployEdge))
    case DeployWorker => s.(worker := env.deployed(DeployWorker))
    case ConfigureScheduler => s.(schedulerPaused := env.fate(ConfigureScheduler) != Succeeds && env.pausedAnyway(ConfigureScheduler))
    case PauseScheduler => s.(schedulerPaused := env.fate(PauseScheduler) == Succeeds || env.pausedAnyway(PauseScheduler))
    case RollbackWorker => s.(worker := if env.fate(RollbackWorker) == Succeeds then p.priorWorker else env.deployed(RollbackWorker))
    case RollbackEdge => s.(edge := if env.fate(RollbackEdge) == Succeeds then p.priorEdge else env.deployed(RollbackEdge))
    case _ => s
  }

  function EffectOf(s: System, calls: seq<Operation>, p: Plan, env: Environment): System {
    if calls == [] then s else Effect(EffectOf(s, calls[..|calls| - 1], p, env), calls[|calls| - 1], p, env)
  }

  /** A stage is passed when its call succeeds; recording also needs the evidence document. */
  predicate Passes(env: Environment, stage: Operation) {
    env.fate(stage) == Succeeds && (stage == RecordEvidence ==> env.prepared)
  }

  function FirstFailure(stages: seq<Operation>, env: Environment): (i: nat)
    ensures i <= |stages| && (forall k :: 0 <= k < i ==> Passes(env, stages[k])) && (i < |stages| ==> !Passes(env, stages[i]))
  {
    if stages == [] || !Passes(env, stages[0]) then 0 else 1 + FirstFailure(stages[1..], env)
  }

  /** The calls of the stages up to the failing one; evidence that cannot be built is not recorded. */
  function Forward(stages: seq<Operation>, env: Environment): seq<Operation> {
    var i := FirstFailure(stages, env);
    if i == |stages| then stages
    else if stages[i] == RecordEvidence && !env.prepared then stages[..i]
    else stages[..i + 1]
  }

  /** Each compensation belongs to one stage. */
  function Undo(stage: Operation): Option<Operation> {
    match stage
    case DeployEdge => Some(RollbackEdge)
    case DeployWorker => Some(RollbackWorker)
    case ConfigureScheduler => Some(PauseScheduler)
    case _ => None
  }

  /** The compensations of the stages called, last stage first. */
  function Compensations(called: seq<Operation>): seq<Operation> {
    if called == [] then []
    else
      var u := Undo(called[|called| - 1]);
      (if u.Some? then [u.value] else []) + Compensations(called[..|called| - 1])
  }

  function Calls(p: Plan, env: Environment): seq<Operation> {
    var stages := Stages(p);
    var forward := Forward(stages, env);
    if FirstFailure(stages, env) == |stages| then forward else forward + Compensations(forward) + [RecordFailure]
  }

  /** The error codes of the compensations that fail, in the order of their calls. */
  function RollbackCodes(compensations: seq<Operation>, env: Environment): seq<string> {
    if compensations == [] then []
    else
      var c := compensations[|compensations| - 1];
      RollbackCodes(compensations[..|compensations| - 1], env)
      + if env.fate(c) == Succeeds then [] else [CodeOf(env.fate(c), StageError(c))]
  }

  /** A deployment that returns a bad receipt counts as completed although its stage fails. */
  function Completed(stages: seq<Operation>, env: Environment): seq<Operation> {
    var i := FirstFailure(stages, env);
    if i < |stages| && env.fate(stages[i]).BadReceipt? then stages[..i + 1] else stages[..i]
  }

  function ResultOf(p: Plan, env: Environment): RunResult {
    var stages := Stages(p);
    var i := FirstFailure(stages, env);
    if i == |stages| then Deployed
    else Failed(stages[i], CodeOf(env.fate(stages[i]), StageError(stages[i])),
                RollbackCodes(Compensations(Forward(stages, env)), env), Completed(stages, env))
  }

  predicate DeploysVersion(op: Operation) { op.DeployEdge? || op.DeployWorker? }

  /** Only deployments return receipts. */
  ghost predicate Possible(env: Environment) { forall op :: env.fate(op).BadReceipt? ==> DeploysVersion(op) }

  class Release {
    var calls: seq<Operation>
    var system: System
    var activeStage: Operation
    var completedStages: seq<Operation>
    var errorCode: string

    constructor (system: System)
      ensures this.system == system && calls == []
    {
      this.system := system;
      calls, activeStage, completedStages, errorCode := [], Validate, [], "";
    }

    /** The run so far: the first `k` stages passed, or the first failing stage was reached. */
    ghost predicate Progress(p: Plan, env: Environment, start: System, k: nat, ok: bool) reads this {
      var stages := Stages(p);
      var i := FirstFailure(stages, env);
      && system == EffectOf(start, calls, p, env)
      && if ok then k <= i && calls == completedStages == stages[..k]
         else
           && i < |stages| && activeStage == stages[i] && calls == Forward(stages, env) && completedStages == Completed(stages, env)
           && errorCode == CodeOf(env.fate(activeStage), StageError(activeStage))
    }

    method Call(op: Operation, p: Plan, env: Environment) returns (f: Fate)
      modifies this`calls, this`system
      ensures f == env.fate(op) && calls == old(calls) + [op] && system == Effect(old(system), op, p, env)
    {
      f := env.fate(op);
      system := Effect(system, op, p, env);
      calls := calls + [op];
    }

    /** One stage: it is active, then called, then complete unless the call threw. */
    method Pass(stage: Operation, p: Plan, env: Environment, ghost start: System, ghost k: nat) returns (ok: bool, returned: bool)
      requires Possible(env) && Progress(p, env, start, k, true)
      requires k < |Stages(p)| && Stages(p)[k] == stage && (stage == RecordEvidence ==> k == |Stages(p)| - 1)
      modifies this
      ensures activeStage == stage && Progress(p, env, start, if ok then k + 1 else 0, ok)
    {
      hide Effect, EffectOf, StageError, CodeOf, FirstFailure, Stages;
      ghost var stages, before := Stages(p), calls;
      Advance(stages, env, k);
      activeStage := stage;
      if stage == RecordEvidence && !env.prepared {
        errorCode := CodeOf(env.fate(stage), StageError(stage));
        return false, false;
      }
      assert stages[..k + 1] == stages[..k] + [stage];
      EffectNext(start, calls, stage, p, env);
      var f := Call(stage, p, env);
      if f.Throws? {
        errorCode := CodeOf(f, StageError(stage));
        return false, false;
      }
      completedStages := completedStages + [stage];
      if f.BadReceipt? {
        errorCode := CodeOf(f, StageError(stage));
        return false, true;
      }
      return true, true;
    }

    /** The run calls the stages in order; a failure is compensated and recorded. */
    method RunDeployment(p: Plan, env: Environment) returns (r: RunResult)
      requires calls == [] && completedStages == [] && Possible(env)
      modifies this
      ensures !p.approved ==> r == Rejected && calls == [] && system == old(system)
      ensures p.approved ==> r == ResultOf(p, env) && calls == Calls(p, env) && system == EffectOf(old(system), calls, p, env)
    {
      hide Progress, Stages, Calls, ResultOf, Possible, EffectOf, Effect;
      if !p.approved { return Rejected; }
      ghost var start := system;
      ghost var b := if p.requiresOwnerBackup then 1 else 0;
      StagePositions(p);
      Begun(p, env);
      var edge, worker, schedulerAttempted := false, false, false;
      var ok, returned := Pass(Validate, p, env, start, 0);
      if ok && p.requiresOwnerBackup { ok, returned := Pass(Backup, p, env, start, 1); }
      if ok { ok, returned := Pass(MigrationDryRun, p, env, start, b + 1); }
      if ok { ok, returned := Pass(ApplyMigrations, p, env, start, b + 2); }
      if ok { ok, edge := Pass(DeployEdge, p, env, start, b + 3); }
      if ok { ok, worker := Pass(DeployWorker, p, env, start, b + 4); }
      if ok {
        schedulerAttempted := true;
        ok, returned := Pass(ConfigureScheduler, p, env, start, b + 5);
      }
      if ok { ok, returned := Pass(Smoke, p, env, start, b + 6); }
      if ok { ok, returned := Pass(RecordEvidence, p, env, start, b + 7); }
      if ok {
        Finished(p, env, start);
        return Deployed;
      }
      r := Compensate(p, env, start, edge, worker, schedulerAttempted);
    }

    lemma Begun(p: Plan, env: Environment)
      requires calls == completedStages == []
      ensures Progress(p, env, system, 0, true)
    {
    }

    lemma Finished(p: Plan, env: Environment, start: System)
      requires Progress(p, env, start, |Stages(p)|, true)
      ensures ResultOf(p, env) == Deployed && calls == Calls(p, env) && system == EffectOf(start, calls, p, env)
    {
    }

    /** A compensation that fails leaves its code and does not stop the others. */
    method Attempt(op: Operation, p: Plan, env: Environment, ghost forward: seq<Operation>, ghost done: seq<Operation>, ghost start: System,
                   codes: seq<string>) returns (r: seq<string>)
      requires calls == forward + done && codes == RollbackCodes(done, env) && system == EffectOf(start, calls, p, env)
      modifies this`calls, this`system
      ensures calls == forward + (done + [op]) && r == RollbackCodes(done + [op], env) && system == EffectOf(start, calls, p, env)
    {
      hide Effect, EffectOf, RollbackCodes, StageError, CodeOf;
      CodesNext(done, op, env);
      EffectNext(start, calls, op, p, env);
      var f := Call(op, p, env);
      assert calls == forward + (done + [op]);
      r := if f == Succeeds then codes else codes + [CodeOf(f, StageError(op))];
    }

    /** The catch block: each needed compensation is attempted once, whatever the others do. */
    method Compensate(p: Plan, env: Environment, ghost start: System, edge: bool, worker: bool, schedulerAttempted: bool)
        returns (r: RunResult)
      requires Progress(p, env, start, 0, false)
      requires edge ==> EdgeCalled(activeStage)
      requires worker ==> WorkerCalled(activeStage)
      requires schedulerAttempted <==> SchedulerCalled(activeStage)
      modifies this`calls, this`system
      ensures r == ResultOf(p, env) && calls == Calls(p, env) && system == EffectOf(start, calls, p, env)
    {
      hide Stages, Forward, Compensations, FirstFailure, Completed, Effect, EffectOf, RollbackCodes, StageError, CodeOf;
      CompensationsNeeded(p, env);
      NoCodes(env);
      var codes: seq<string> := [];
      ghost var done: seq<Operation>, forward := [], calls;
      assert calls == forward + done;
      if schedulerAttempted || activeStage in {Smoke, RecordEvidence} {
        codes := Attempt(PauseScheduler, p, env, forward, done, start, codes);
        done := done + [PauseScheduler];
      }
      if worker || activeStage in {DeployWorker, ConfigureScheduler, Smoke, RecordEvidence} {
        codes := Attempt(RollbackWorker, p, env, forward, done, start, codes);
        done := done + [RollbackWorker];
      }
      if edge || activeStage in {DeployEdge, DeployWorker, ConfigureScheduler, Smoke, RecordEvidence} {
        codes := Attempt(RollbackEdge, p, env, forward, done, start, codes);
        done := done + [RollbackEdge];
      }
      assert done == Needed(activeStage);
      EffectNext(start, calls, RecordFailure, p, env);
      var f := Call(RecordFailure, p, env);
      return Failed(activeStage, errorCode, codes, completedStages);
    }
  }

  lemma NoCodes(env: Environment)
    ensures RollbackCodes([], env) == []
  {
  }

  lemma Advance(stages: seq<Operation>, env: Environment, k: nat)
    requires k <= FirstFailure(stages, env) && k < |stages|
    ensures if Passes(env, stages[k]) then k + 1 <= FirstFailure(stages, env) else FirstFailure(stages, env) == k
  {
  }

  lemma EffectNext(s: System, calls: seq<Operation>, op: Operation, p: Plan, env: Environment)
    ensures EffectOf(s, calls + [op], p, env) == Effect(EffectOf(s, calls, p, env), op, p, env)
  {
    assert (calls + [op])[..|calls|] == calls;
  }

  lemma CodesNext(compensations: seq<Operation>, op: Operation, env: Environment)
    ensures RollbackCodes(compensations + [op], env)
      == RollbackCodes(compensations, env) + if env.fate(op) == Succeeds then [] else [CodeOf(env.fate(op), StageError(op))]
  {
    assert (compensations + [op])[..|compensations|] == compensations;
  }

  lemma StagePositions(p: Plan)
    ensures var s, b := Stages(p), if p.requiresOwnerBackup then 1 else 0;
      && |s| == b + 8 && s[0] == Validate && (p.requiresOwnerBackup ==> s[1] == Backup)
      && s[b + 1] == MigrationDryRun && s[b + 2] == ApplyMigrations && s[b + 3] == DeployEdge && s[b + 4] == DeployWorker
      && s[b + 5] == ConfigureScheduler && s[b + 6] == Smoke && s[b + 7] == RecordEvidence
  {
  }

  predicate EdgeCalled(stage: Operation) { stage in {DeployEdge, DeployWorker, ConfigureScheduler, Smoke, RecordEvidence} }
  predicate WorkerCalled(stage: Operation) { stage in {DeployWorker, ConfigureScheduler, Smoke, RecordEvidence} }
  predicate SchedulerCalled(stage: Operation) { stage in {ConfigureScheduler, Smoke, RecordEvidence} }

  /** The compensations in terms of the stage that failed. */
  function Needed(stage: Operation): seq<Operation> {
    (if SchedulerCalled(stage) then [PauseScheduler] else []) + (if WorkerCalled(stage) then [RollbackWorker] else [])
    + if EdgeCalled(stage) then [RollbackEdge] else []
  }

  lemma CompensationsStep(stages: seq<Operation>, k: nat)
    requires k < |stages|
    ensures Compensations(stages[..k + 1]) == (if Undo(stages[k]).Some? then [Undo(stages[k]).value] else []) + Compensations(stages[..k])
  {
    assert stages[..k + 1][..k] == stages[..k];
  }

  lemma {:induction false} PrefixCompensations(p: Plan, k: nat)
    requires k < |Stages(p)|
    ensures Compensations(Stages(p)[..k + 1]) == Needed(Stages(p)[k])
    ensures Stages(p)[k] == RecordEvidence ==> Compensations(Stages(p)[..k]) == Needed(RecordEvidence)
  {
    StagePositions(p);
    var s := Stages(p);
    hide Stages, Compensations;
    CompensationsStep(s, k);
    if k == 0 {
      assert s[..0] == [];
      NoCompensations();
    } else {
      PrefixCompensations(p, k - 1);
    }
  }

  lemma NoCompensations()
    ensures Compensations([]) == []
  {
  }

  lemma CompensationsNeeded(p: Plan, env: Environment)
    requires FirstFailure(Stages(p), env) < |Stages(p)|
    ensures Compensations(Forward(Stages(p), env)) == Needed(Stages(p)[FirstFailure(Stages(p), env)])
  {
    PrefixCompensations(p, FirstFailure(Stages(p), env));
  }

  // ---------------------------------------------------------------- what every run does

  /** The order in which operations may be called. */
  function Rank(op: Operation): nat {
    match op
    case Validate => 0
    case Backup => 1
    case MigrationDryRun => 2
    case ApplyMigrations => 3
    case DeployEdge => 4
    case DeployWorker => 5
    case ConfigureScheduler => 6
    case Smoke => 7
    case RecordEvidence => 8
    case PauseScheduler => 9
    case RollbackWorker => 10
    case RollbackEdge => 11
    case RecordFailure => 12
  }

  ghost predicate InOrder(calls: seq<Operation>) {
    forall i, j :: 0 <= i < j < |calls| ==> Rank(calls[i]) < Rank(calls[j])
  }

  /** How many stages are called. */
  function Reached(p: Plan, env: Environment): nat { |Forward(Stages(p), env)| }

  lemma ForwardIsPrefix(p: Plan, env: Environment)
    ensures Reached(p, env) <= |Stages(p)| && Forward(Stages(p), env) == Stages(p)[..Reached(p, env)]
    ensures FirstFailure(Stages(p), env) < |Stages(p)| ==>
      var k, i := Reached(p, env), FirstFailure(Stages(p), env);
      && Calls(p, env) == Stages(p)[..k] + Needed(Stages(p)[i]) + [RecordFailure]
      && (k == i + 1 || (k == i && Stages(p)[i] == RecordEvidence))
    ensures FirstFailure(Stages(p), env) == |Stages(p)| ==> Calls(p, env) == Stages(p)
  {
    if FirstFailure(Stages(p), env) < |Stages(p)| { CompensationsNeeded(p, env); }
  }

  lemma NeededInOrder(stage: Operation)
    ensures InOrder(Needed(stage) + [RecordFailure]) && forall op :: op in Needed(stage) + [RecordFailure] ==> Rank(op) >= 9
  {
  }

  lemma StagesInOrder(p: Plan)
    ensures InOrder(Stages(p)) && forall op :: op in Stages(p) ==> Rank(op) <= 8
  {
  }

  /** Every run calls its operations in one fixed order, each at most once: the stages, then the
      compensations last stage first, then the failure record. */
  lemma CallsInOrder(p: Plan, env: Environment)
    ensures InOrder(Calls(p, env))
  {
    hide Stages, Needed, Calls, Forward, FirstFailure;
    ForwardIsPrefix(p, env);
    StagesInOrder(p);
    var s, i := Stages(p), FirstFailure(Stages(p), env);
    if i < |s| {
      var a, b := s[..Reached(p, env)], Needed(s[i]) + [RecordFailure];
      NeededInOrder(s[i]);
      assert Calls(p, env) == a + b;
      forall x, y | 0 <= x < |a| && 0 <= y < |b| ensures Rank(a[x]) < Rank(b[y]) { assert a[x] in s && b[y] in b; }
    }
  }

  lemma PrefixByRank(p: Plan, k: nat, op: Operation)
    requires 0 < k <= |Stages(p)|
    ensures op in Stages(p)[..k] <==> op in Stages(p) && Rank(op) <= Rank(Stages(p)[k - 1])
  {
    StagesInOrder(p);
    var s := Stages(p);
    hide Stages;
    if op in s {
      var j :| 0 <= j < |s| && s[j] == op;
      if j < k { assert s[..k][j] == op; }
    }
    if op in s[..k] {
      var j :| 0 <= j < k && s[..k][j] == op;
      assert s[j] == op;
    }
  }

  lemma AlwaysStages(p: Plan)
    ensures DeployEdge in Stages(p) && DeployWorker in Stages(p) && ConfigureScheduler in Stages(p) && ApplyMigrations in Stages(p)
    ensures MigrationDryRun in Stages(p) && (Backup in Stages(p) <==> p.requiresOwnerBackup)
    ensures forall i :: 0 <= i < |Stages(p)| && Stages(p)[i] == RecordEvidence ==> 0 < i && Stages(p)[i - 1] == Smoke
  {
    var s := Stages(p);
    assert s[|s| - 5] == DeployEdge && s[|s| - 4] == DeployWorker && s[|s| - 3] == ConfigureScheduler;
    assert s[|s| - 6] == ApplyMigrations && s[|s| - 7] == MigrationDryRun;
    assert p.requiresOwnerBackup ==> s[1] == Backup;
  }

  lemma CalledByRank(stage: Operation)
    ensures EdgeCalled(stage) <==> 4 <= Rank(stage) <= 8
    ensures WorkerCalled(stage) <==> 5 <= Rank(stage) <= 8
    ensures SchedulerCalled(stage) <==> 6 <= Rank(stage) <= 8
  {
  }

  /** What has been called when a run fails, in terms of the failing stage. */
  lemma CalledByFailure(p: Plan, env: Environment)
    requires FirstFailure(Stages(p), env) < |Stages(p)|
    ensures var stage, called := Stages(p)[FirstFailure(Stages(p), env)], Stages(p)[..Reached(p, env)];
      && (DeployEdge in called <==> EdgeCalled(stage)) && (DeployWorker in called <==> WorkerCalled(stage))
      && (ConfigureScheduler in called <==> SchedulerCalled(stage))
      && (forall op :: op in called ==> Rank(op) <= 8)
  {
    hide Stages, Forward, FirstFailure, Calls, Needed, EdgeCalled, WorkerCalled, SchedulerCalled, InOrder;
    ForwardIsPrefix(p, env);
    AlwaysStages(p);
    StagesInOrder(p);
    var s, i, k := Stages(p), FirstFailure(Stages(p), env), Reached(p, env);
    assert s[i] in s;
    CalledByRank(s[i]);
    assert 0 < k <= |s| && (s[k - 1] == s[i] || (s[k - 1] == Smoke && s[i] == RecordEvidence));
    PrefixByRank(p, k, DeployEdge);
    PrefixByRank(p, k, DeployWorker);
    PrefixByRank(p, k, ConfigureScheduler);
    forall op | op in s[..k] ensures Rank(op) <= 8 { assert op in s; }
  }

  lemma DeployedIff(p: Plan, env: Environment)
    ensures ResultOf(p, env).Deployed? <==> FirstFailure(Stages(p), env) == |Stages(p)|
    ensures ResultOf(p, env).Deployed? <==> forall s :: s in Stages(p) ==> Passes(env, s)
  {
    hide Stages;
    var s, i := Stages(p), FirstFailure(Stages(p), env);
    assert i < |s| ==> s[i] in s;
  }

  /** A run ends with all stages done in order, or with exactly the compensations whose stage was
      attempted, whatever the fates; a failed run is recorded. */
  lemma DoneOrCompensated(p: Plan, env: Environment)
    ensures ResultOf(p, env).Deployed? <==> forall s :: s in Stages(p) ==> Passes(env, s)
    ensures ResultOf(p, env).Deployed? ==> Calls(p, env) == Stages(p)
    ensures forall s :: Undo(s).Some? ==> (Undo(s).value in Calls(p, env) <==> !ResultOf(p, env).Deployed? && s in Calls(p, env))
    ensures RecordFailure in Calls(p, env) <==> !ResultOf(p, env).Deployed?
  {
    hide Stages, Calls, Forward, FirstFailure, ResultOf, Reached, Passes, InOrder;
    DeployedIff(p, env);
    StagesInOrder(p);
    ForwardIsPrefix(p, env);
    var s, i := Stages(p), FirstFailure(Stages(p), env);
    if i < |s| {
      CalledByFailure(p, env);
      UndoneIfCalled(s[..Reached(p, env)], s[i], Calls(p, env));
    } else {
      assert FirstFailure(Stages(p), env) == |Stages(p)|;
    }
  }

  lemma UndoneIfCalled(called: seq<Operation>, stage: Operation, calls: seq<Operation>)
    requires calls == called + Needed(stage) + [RecordFailure] && forall op :: op in called ==> Rank(op) <= 8
    requires (DeployEdge in called <==> EdgeCalled(stage)) && (DeployWorker in called <==> WorkerCalled(stage))
    requires ConfigureScheduler in called <==> SchedulerCalled(stage)
    ensures forall s :: Undo(s).Some? ==> (Undo(s).value in calls <==> s in calls)
    ensures RecordFailure in calls
  {
    hide EdgeCalled, WorkerCalled, SchedulerCalled;
    assert forall op :: op in calls <==> op in called || op in Needed(stage) || op == RecordFailure;
  }

  /** Where owner data must be backed up, no migration is applied before a backup and a dry run
      succeeded. */
  lemma BackupBeforeMigrations(p: Plan, env: Environment)
    requires ApplyMigrations in Calls(p, env)
    ensures var calls := Calls(p, env);
      && Passes(env, MigrationDryRun) && MigrationDryRun in calls
      && (p.requiresOwnerBackup ==> Passes(env, Backup) && Backup in calls)
    ensures InOrder(Calls(p, env)) && Rank(Backup) < Rank(MigrationDryRun) < Rank(ApplyMigrations)
  {
    CallsInOrder(p, env);
    ForwardIsPrefix(p, env);
    StagePositions(p);
    AlwaysStages(p);
    var s, i, k := Stages(p), FirstFailure(Stages(p), env), Reached(p, env);
    hide Stages, Calls, FirstFailure, InOrder;
    if i < |s| {
      NeededInOrder(s[i]);
      assert ApplyMigrations in s[..k];
      PrefixByRank(p, k, ApplyMigrations);
      PrefixByRank(p, k, MigrationDryRun);
      PrefixByRank(p, k, Backup);
      assert k == i + 1 || s[i] == RecordEvidence;
      StagesInOrder(p);
    }
  }

  lemma {:induction false} EffectConcat(s: System, a: seq<Operation>, b: seq<Operation>, p: Plan, env: Environment)
    ensures EffectOf(s, a + b, p, env) == EffectOf(EffectOf(s, a, p, env), b, p, env)
  {
    if b == [] {
      assert a + b == a;
    } else {
      assert (a + b)[..|a + b| - 1] == a + b[..|b| - 1];
      EffectConcat(s, a, b[..|b| - 1], p, env);
    }
  }

  lemma {:induction false} Untouched(s: System, calls: seq<Operation>, p: Plan, env: Environment)
    ensures DeployEdge !in calls && RollbackEdge !in calls ==> EffectOf(s, calls, p, env).edge == s.edge
    ensures DeployWorker !in calls && RollbackWorker !in calls ==> EffectOf(s, calls, p, env).worker == s.worker
  {
    if calls != [] {
      assert calls == calls[..|calls| - 1] + [calls[|calls| - 1]];
      Untouched(s, calls[..|calls| - 1], p, env);
    }
  }

  /** Carrying out the compensations one after the other. */
  lemma NeededRestores(s: System, stage: Operation, p: Plan, env: Environment)
    requires forall op :: op in Needed(stage) ==> env.fate(op) == Succeeds
    ensures var n := EffectOf(s, Needed(stage) + [RecordFailure], p, env);
      && n.edge == (if EdgeCalled(stage) then p.priorEdge else s.edge)
      && n.worker == (if WorkerCalled(stage) then p.priorWorker else s.worker)
      && (SchedulerCalled(stage) ==> n.schedulerPaused)
  {
    hide EffectOf;
    var one := if SchedulerCalled(stage) then [PauseScheduler] else [];
    var two := if WorkerCalled(stage) then [RollbackWorker] else [];
    var three := if EdgeCalled(stage) then [RollbackEdge] else [];
    assert Needed(stage) + [RecordFailure] == one + two + three + [RecordFailure];
    OneEffect(s, one, PauseScheduler, p, env);
    EffectConcat(s, one, two, p, env);
    OneEffect(EffectOf(s, one, p, env), two, RollbackWorker, p, env);
    EffectConcat(s, one + two, three, p, env);
    OneEffect(EffectOf(s, one + two, p, env), three, RollbackEdge, p, env);
    EffectNext(s, one + two + three, RecordFailure, p, env);
  }

  lemma OneEffect(s: System, calls: seq<Operation>, op: Operation, p: Plan, env: Environment)
    requires calls == [] || calls == [op]
    ensures EffectOf(s, calls, p, env) == if calls == [] then s else Effect(s, op, p, env)
  {
    assert [op][..0] == [];
    assert EffectOf(s, [], p, env) == s;
  }

  /** When no compensation fails, a failed run leaves the prior edge and worker versions deployed and
      an attempted scheduler paused. */
  lemma FailedRunRestores(p: Plan, env: Environment, start: System)
    requires start.edge == p.priorEdge && start.worker == p.priorWorker
    requires ResultOf(p, env).Failed? && ResultOf(p, env).rollbackCodes == []
    ensures var end := EffectOf(start, Calls(p, env), p, env);
      && end.edge == p.priorEdge && end.worker == p.priorWorker
      && (ConfigureScheduler in Calls(p, env) ==> end.schedulerPaused)
  {
    hide Stages, Forward, FirstFailure, Compensations, Effect, EffectOf, Needed, Calls, InOrder, RollbackCodes, Completed, StageError, CodeOf;
    CalledByFailure(p, env);
    CompensationsNeeded(p, env);
    ForwardIsPrefix(p, env);
    var forward, stage := Stages(p)[..Reached(p, env)], Stages(p)[FirstFailure(Stages(p), env)];
    NoCodesMeansSuccess(Needed(stage), env);
    NeededInOrder(stage);
    var tail := Needed(stage) + [RecordFailure];
    assert Calls(p, env) == forward + tail;
    EffectConcat(start, forward, tail, p, env);
    Untouched(start, forward, p, env);
    assert RollbackEdge !in forward && RollbackWorker !in forward;
    NeededRestores(EffectOf(start, forward, p, env), stage, p, env);
  }

  lemma {:induction false} NoCodesMeansSuccess(compensations: seq<Operation>, env: Environment)
    requires RollbackCodes(compensations, env) == []
    ensures forall op :: op in compensations ==> env.fate(op) == Succeeds
  {
    if compensations != [] {
      NoCodesMeansSuccess(compensations[..|compensations| - 1], env);
      assert compensations == compensations[..|compensations| - 1] + [compensations[|compensations| - 1]];
    }
  }

  lemma StagesSplit(p: Plan)
    ensures Stages(p) == ([Validate] + (if p.requiresOwnerBackup then [Backup] else []) + [MigrationDryRun, ApplyMigrations])
                         + [DeployEdge, DeployWorker, ConfigureScheduler, Smoke, RecordEvidence]
  {
  }

  /** A run that deploys leaves the new versions deployed and the scheduler running. */
  lemma SuccessfulRunDeploys(p: Plan, env: Environment, start: System)
    requires ResultOf(p, env).Deployed?
    ensures EffectOf(start, Calls(p, env), p, env) == System(env.deployed(DeployEdge), env.deployed(DeployWorker), false)
  {
    hide Effect, EffectOf, FirstFailure, Forward, Compensations, Calls, Stages, ResultOf, Reached, Completed;
    DeployedIff(p, env);
    ForwardIsPrefix(p, env);
    AlwaysStages(p);
    StagesSplit(p);
    assert Passes(env, ConfigureScheduler);
    var before := [Validate] + (if p.requiresOwnerBackup then [Backup] else []) + [MigrationDryRun, ApplyMigrations];
    EffectConcat(start, before, [DeployEdge, DeployWorker, ConfigureScheduler, Smoke, RecordEvidence], p, env);
    LastFive(EffectOf(start, before, p, env), p, env);
  }

  lemma LastFive(s: System, p: Plan, env: Environment)
    requires env.fate(ConfigureScheduler) == Succeeds
    ensures EffectOf(s, [DeployEdge, DeployWorker, ConfigureScheduler, Smoke, RecordEvidence], p, env)
         == System(env.deployed(DeployEdge), env.deployed(DeployWorker), false)
  {
    hide EffectOf;
    OneEffect(s, [], DeployEdge, p, env);
    EffectNext(s, [], DeployEdge, p, env);
    EffectNext(s, [DeployEdge], DeployWorker, p, env);
    EffectNext(s, [DeployEdge, DeployWorker], ConfigureScheduler, p, env);
    EffectNext(s, [DeployEdge, DeployWorker, ConfigureScheduler], Smoke, p, env);
    EffectNext(s, [DeployEdge, DeployWorker, ConfigureScheduler, Smoke], RecordEvidence, p, env);
    assert [] + [DeployEdge] == [DeployEdge];
    assert [DeployEdge] + [DeployWorker] == [DeployEdge, DeployWorker];
    assert [DeployEdge, DeployWorker] + [ConfigureScheduler] == [DeployEdge, DeployWorker, ConfigureScheduler];
    assert [DeployEdge, DeployWorker, ConfigureScheduler] + [Smoke] == [DeployEdge, DeployWorker, ConfigureScheduler, Smoke];
    assert [DeployEdge, DeployWorker, ConfigureScheduler, Smoke] + [RecordEvidence] == [DeployEdge, DeployWorker, ConfigureScheduler, Smoke, RecordEvidence];
  }

  lemma BeforeByRank(stages: seq<Operation>, i: nat)
    requires InOrder(stages) && i < |stages|
    ensures forall s :: s in stages[..i] <==> s in stages && Rank(s) < Rank(stages[i])
  {
    hide Rank;
    forall s | s in stages[..i] ensures s in stages && Rank(s) < Rank(stages[i]) {
      var k :| 0 <= k < i && stages[..i][k] == s;
      assert stages[k] == s;
    }
    forall s | s in stages && Rank(s) < Rank(stages[i]) ensures s in stages[..i] {
      var j :| 0 <= j < |stages| && stages[j] == s;
      assert j < i;
      assert stages[..i][j] == s;
    }
  }

  /** A failed run names the first stage that does not pass, with its own code where it throws one, and lists
      as completed the stages before it, and itself when only its receipt was bad. */
  lemma FailureNamed(p: Plan, env: Environment)
    requires ResultOf(p, env).Failed?
    ensures var r := ResultOf(p, env);
      && r.stage in Stages(p) && !Passes(env, r.stage)
      && (forall s :: s in Stages(p) && Rank(s) < Rank(r.stage) ==> Passes(env, s))
      && r.code == (if env.fate(r.stage).Throws? && env.fate(r.stage).code.Some? then env.fate(r.stage).code.value else StageError(r.stage))
      && (forall s :: s in r.completed <==>
            s in Stages(p) && (Rank(s) < Rank(r.stage) || (s == r.stage && env.fate(s).BadReceipt?)))
  {
    hide Stages, StageError, Rank, InOrder, Passes, RollbackCodes, Compensations, Forward;
    StagesInOrder(p);
    var stages, i := Stages(p), FirstFailure(Stages(p), env);
    BeforeByRank(stages, i);
    assert stages[i] in stages;
    forall s | s in stages[..i] ensures Passes(env, s) {
      var k :| 0 <= k < i && stages[..i][k] == s;
      assert stages[k] == s;
    }
    assert stages[..i + 1] == stages[..i] + [stages[i]];
  }
}
