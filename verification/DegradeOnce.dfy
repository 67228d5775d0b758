/** The engine creates at most one degraded attempt in a lineage. */
module DegradeOnce {
  import opened Wrappers
  import opened TaskModel
  import opened LineageGraph
  import opened TaskStore
  import opened QualityJudge
  import opened Lifecycle
  import opened Invariants
  import opened Progress
  import opened Health
  import opened DeliveryLoss

  ghost predicate HasDegradedChild(rows: Rows, r: TaskId) {
    exists id :: id in rows && rows[id].root == r && rows[id].parent.Some? && rows[id].mode == Some(Degraded)
  }

  /** Nothing degraded was inserted. */
  ghost predicate NewRowsPlain(s: Store, s': Store) {
    forall id :: id in s'.rows && id !in s.rows ==> s'.rows[id].mode != Some(Degraded)
  }

  lemma DegradedStays(s: Store, s': Store, q: TaskId, r: TaskId)
    requires Moves(s, s', q) && HasDegradedChild(s.rows, r)
    ensures HasDegradedChild(s'.rows, r)
  {
  }

  lemma AttemptIsSeen(s: Store, r: TaskId)
    requires Linked(s.order, s.rows) && HasDegradedChild(s.rows, r)
    ensures HasDegradedAttempt(s, r)
  {
  }

  lemma AfterRepairPlain(cfg: Settings, s: Store, task: Task, childId: TaskId, issueCodes: seq<string>)
    requires Structured(s) && Loaded(s, task) && Fresh(s, childId)
    ensures NewRowsPlain(s, AfterRepair(cfg, s, task, childId, issueCodes))
  {
    var s1 := s.Put(task);
    var verdict := JudgeRepair(cfg, s1.Count(task.root), issueCodes);
    var s2 := if verdict.created then Persist(s1, RepairChild(task, childId)) else s1;
    assert NewRowsPlain(s, s2);
    assert task.root in s2.rows ==> s2.rows[task.root].id == task.root;
    hide Structured, JudgeRepair, Persist, Fresh;
    RecordRepairOnlyRepairs(s2, task.root, issueCodes, verdict);
  }

  lemma EndFailureDegrades(cfg: Settings, s: Store, task: Task, childId: TaskId, issueCodes: seq<string>, context: FailureContext)
    requires Linked(s.order, s.rows)
    ensures
      || NewRowsPlain(s, EndFailure(s, task, childId, JudgeEnding(cfg, s, task, issueCodes, context)))
      || !HasDegradedChild(s.rows, task.root)
  {
    var ending := JudgeEnding(cfg, s, task, issueCodes, context);
    match ending
    case DegradedAttempt(_) =>
      assert MayDegrade(cfg, s, task, context);
      if HasDegradedChild(s.rows, task.root) {
        AttemptIsSeen(s, task.root);
      }
    case Emergency(mode, tier) => hide Linked, JudgeEnding;
    case Abandoned(reason) => hide Linked, JudgeEnding;
  }

  lemma FailTaskDegrades(cfg: Settings, s: Store, running: Task, childId: TaskId, issueCodes: seq<string>, context: FailureContext)
    requires Structured(s) && Loaded(s, running) && Fresh(s, childId)
    ensures NewRowsPlain(s, FailTask(cfg, s, running, childId, issueCodes, context)) || !HasDegradedChild(s.rows, running.root)
  {
    var task := FailedRow(running);
    var s1 := AfterRepair(cfg, s, task, childId, issueCodes);
    var verdict := JudgeRepair(cfg, s.Put(task).Count(task.root), issueCodes);
    AfterRepairPlain(cfg, s, task, childId, issueCodes);
    if !verdict.created {
      AfterRepairMoves(cfg, s, task, childId, issueCodes);
      AfterRepairKeeps(cfg, s, task, childId, issueCodes);
      AfterRepairInPlace(cfg, s, task, childId, issueCodes);
      assert Linked(s1.order, s1.rows);
      EndFailureDegrades(cfg, s1, task, childId, issueCodes, context);
      hide AfterRepair, JudgeRepair, JudgeEnding, EndFailure, Structured, Linked, Loaded, Fresh, Moves;
      if HasDegradedChild(s.rows, task.root) {
        DegradedStays(s, s1, task.root, task.root);
      }
    }
    hide AfterRepair, JudgeRepair, JudgeEnding, EndFailure, Structured, Loaded, Fresh;
  }

  lemma CompleteRunPlain(cfg: Settings, s: Store, running: Task, childId: TaskId, report: RunReport)
    requires report.Rendered?
    requires Structured(s) && Loaded(s, running) && Fresh(s, childId)
    ensures NewRowsPlain(s, CompleteRun(cfg, s, running, childId, report))
  {
    var score := TotalScore(true, report.issueCodes, report.previewIssueCodes);
    var task := SuccessRow(cfg, running, score);
    var s1 := RecordSuccess(s, task, score);
    var s2 := ScheduleChallenger(cfg, s1, task, childId, report.challengerGuardOpen);
    RecordSuccessFrame(s, task, score);
    RecordSuccessKeepsFresh(s, task, score, childId);
    RecordSuccessKeeps(cfg, s, running, score);
    if s2 != s1 {
      PersistKeeps(s1, ChallengerChild(task, childId));
    }
    assert Linked(s2.order, s2.rows);
    hide Structured, RecordSuccess, Promotes, WantsChallenger, CanChallenge;
    if CanAccept(s2, task.id) {
      AcceptedRowsFacts(s2, task.id);
    }
    assert task.root != childId;
    hide AcceptedRows, Linked, Fresh;
  }

  lemma OtherStepsArePlain(cfg: Settings, s: Store, step: Step)
    requires Structured(s) && Enabled(s, step) && !step.RunStep?
    ensures NewRowsPlain(s, Apply(cfg, s, step))
  {
    hide Structured;
    match step
    case CreateStep(id, key) => hide KeyHolder;
    case ReviseStep(id, childId) => hide CanChallenge;
    case RetryStep(id, childId) => hide CanRetry;
    case AcceptStep(id) =>
    case CancelStep(id) =>
    case DeleteStep(id) =>
    case ReconcileStep(id) =>
  }

  lemma StepDegrades(cfg: Settings, s: Store, step: Step)
    requires Structured(s) && Enabled(s, step)
    ensures NewRowsPlain(s, Apply(cfg, s, step)) || !HasDegradedChild(s.rows, Touched(s, step))
  {
    hide Structured, CompleteRun, FailTask, Loaded, Fresh, NewRowsPlain, HasDegradedChild;
    if step.RunStep? {
      ClaimedIsLoaded(s, step.id, step.childId, step.report.generationMode);
      var running := Classified(s.rows[step.id], step.report.generationMode).(status := Running);
      var s0 := s.EnsureCase(running);
      PlainIgnoresCases(s, s0, Apply(cfg, s, step));
      match step.report
      case Rendered(_, _, _, _, _, _) => CompleteRunPlain(cfg, s0, running, step.childId, step.report);
      case Broken(_, issueCodes, context) => FailTaskDegrades(cfg, s0, running, step.childId, issueCodes, context);
    } else {
      OtherStepsArePlain(cfg, s, step);
    }
  }

  lemma PlainIgnoresCases(s: Store, s0: Store, s': Store)
    requires s0.rows == s.rows
    ensures NewRowsPlain(s0, s') <==> NewRowsPlain(s, s')
  {
  }

  /** The step created a degraded attempt in lineage r. */
  ghost predicate CreatesDegraded(s: Store, s': Store, r: TaskId) {
    exists id :: id in s'.rows && id !in s.rows && s'.rows[id].root == r && s'.rows[id].parent.Some?
                 && s'.rows[id].mode == Some(Degraded)
  }

  // ----------------------------------------------------- exactly when an attempt is created

  /** Read off the store before the run: the failure is not repaired, violates no policy and may be degraded. */
  predicate WillDegrade(cfg: Settings, s: Store, task: Task, issueCodes: seq<string>, context: FailureContext) {
    && !JudgeRepair(cfg, s.Count(task.root), issueCodes).created
    && !(issueCodes != [] && issueCodes[0] in POLICY_VIOLATIONS)
    && MayDegrade(cfg, s, task, context)
  }

  predicate Degrading(cfg: Settings, s: Store, step: Step, r: TaskId) {
    && step.RunStep? && step.report.Broken?
    && step.id in s.rows && s.rows[step.id].root == r
    && WillDegrade(cfg, s, s.rows[step.id], step.report.issueCodes, step.report.context)
  }

  lemma DegradesAsForeseen(cfg: Settings, s: Store, running: Task, childId: TaskId, issueCodes: seq<string>, context: FailureContext)
    requires Structured(s) && Loaded(s, running)
    ensures
      var task := FailedRow(running);
      WillDegrade(cfg, s, running, issueCodes, context) <==>
      && !JudgeRepair(cfg, s.Put(task).Count(task.root), issueCodes).created
      && JudgeEnding(cfg, AfterRepair(cfg, s, task, childId, issueCodes), task, issueCodes, context).DegradedAttempt?
  {
    JudgedBefore(cfg, s, running, childId, issueCodes, context);
    hide Structured, Loaded, AfterRepair, JudgeRepair, HasDegradedAttempt;
  }

  lemma FailTaskDegradesExactly(cfg: Settings, s: Store, running: Task, childId: TaskId, issueCodes: seq<string>, context: FailureContext)
    requires Structured(s) && Loaded(s, running) && Fresh(s, childId) && running.root in s.rows
    ensures CreatesDegraded(s, FailTask(cfg, s, running, childId, issueCodes, context), running.root) <==>
            WillDegrade(cfg, s, running, issueCodes, context)
  {
    hide AfterRepair, JudgeRepair, JudgeEnding, WillDegrade, Structured, CreatesDegraded, EndsAs, EndFailure;
    var task := FailedRow(running);
    var s1 := AfterRepair(cfg, s, task, childId, issueCodes);
    var s' := FailTask(cfg, s, running, childId, issueCodes, context);
    assert Loaded(s, task) && running.id in s.rows && s.rows[running.id].root == running.root;
    hide Loaded;
    DegradesAsForeseen(cfg, s, running, childId, issueCodes, context);
    FailTaskEndsAs(cfg, s, running, childId, issueCodes, context);
    if JudgeRepair(cfg, s.Put(task).Count(task.root), issueCodes).created {
      AfterRepairPlain(cfg, s, task, childId, issueCodes);
      PlainCreatesNone(s, s', running.root);
    } else {
      EndCreates(s, s', running.id, childId, JudgeEnding(cfg, s1, task, issueCodes, context));
    }
  }

  lemma PlainCreatesNone(s: Store, s': Store, r: TaskId)
    requires NewRowsPlain(s, s')
    ensures !CreatesDegraded(s, s', r)
  {
  }

  lemma EndCreates(s: Store, s': Store, id: TaskId, childId: TaskId, ending: Ending)
    requires id in s.rows && EndsAs(s, s', id, childId, ending)
    requires ending.DegradedAttempt? ==> childId !in s.rows
    ensures CreatesDegraded(s, s', s.rows[id].root) <==> ending.DegradedAttempt?
  {
  }

  /** What the two forecasts leave: a failing run that degrades queues its child, one that gives up says so. */
  lemma ForecastsComeTrue(cfg: Settings, s: Store, running: Task, childId: TaskId, issueCodes: seq<string>, context: FailureContext)
    requires Structured(s) && Loaded(s, running) && Fresh(s, childId) && running.root in s.rows
    ensures
      var s' := FailTask(cfg, s, running, childId, issueCodes, context);
      && (WillDegrade(cfg, s, running, issueCodes, context) ==> ChildScheduled(s, s', running.id, childId))
      && (WillGiveUp(cfg, s, running, issueCodes, context) ==> GivenUp(s, s', running.id))
  {
    DegradesAsForeseen(cfg, s, running, childId, issueCodes, context);
    GivesUpAsForeseen(cfg, s, running, childId, issueCodes, context);
    FailTaskEndsAs(cfg, s, running, childId, issueCodes, context);
    hide AfterRepair, JudgeRepair, JudgeEnding, WillDegrade, WillGiveUp, Structured, Fresh, Loaded, FailTask, ChildScheduled,
      GivenUp, RescuedDelivery;
  }

  lemma EndsIgnoreCasesBefore(s: Store, s0: Store, s': Store, id: TaskId, childId: TaskId)
    requires s0.order == s.order && s0.rows == s.rows
    ensures ChildScheduled(s0, s', id, childId) <==> ChildScheduled(s, s', id, childId)
    ensures GivenUp(s0, s', id) <==> GivenUp(s, s', id)
  {
  }

  lemma RunForecastsComeTrue(cfg: Settings, s: Store, id: TaskId, childId: TaskId, report: RunReport, r: TaskId)
    requires Structured(s) && Enabled(s, RunStep(id, childId, report)) && s.rows[id].root == r && r in s.rows
    ensures
      var step, s' := RunStep(id, childId, report), RunTask(cfg, s, id, childId, report);
      && (Degrading(cfg, s, step, r) ==> ChildScheduled(s, s', id, childId))
      && (GivingUp(cfg, s, step, r) ==> GivenUp(s, s', id))
  {
    hide Structured, Loaded, Fresh, CompleteRun, FailTask, WillDegrade, WillGiveUp, ChildScheduled, GivenUp;
    if report.Broken? {
      ClaimedIsLoaded(s, id, childId, report.generationMode);
      var running := Classified(s.rows[id], report.generationMode).(status := Running);
      var s0 := s.EnsureCase(running);
      ForecastsComeTrue(cfg, s0, running, childId, report.issueCodes, report.context);
      SameDegrading(cfg, s, s0, s.rows[id], running, report.issueCodes, report.context);
      SameForecast(cfg, s, s0, s.rows[id], running, report.issueCodes, report.context);
      EndsIgnoreCasesBefore(s, s0, RunTask(cfg, s, id, childId, report), id, childId);
    }
  }

  lemma SameDegrading(cfg: Settings, s: Store, s0: Store, a: Task, b: Task, issueCodes: seq<string>, context: FailureContext)
    requires s0.order == s.order && s0.rows == s.rows && b.root == a.root && b.parent == a.parent && b.mode == a.mode
    ensures WillDegrade(cfg, s0, b, issueCodes, context) <==> WillDegrade(cfg, s, a, issueCodes, context)
  {
  }

  lemma RunDegradesExactly(cfg: Settings, s: Store, id: TaskId, childId: TaskId, report: RunReport, r: TaskId)
    requires Structured(s) && Enabled(s, RunStep(id, childId, report)) && s.rows[id].root == r && r in s.rows
    ensures CreatesDegraded(s, RunTask(cfg, s, id, childId, report), r) <==> Degrading(cfg, s, RunStep(id, childId, report), r)
  {
    hide Structured, Loaded, Fresh, CompleteRun, FailTask, WillDegrade;
    ClaimedIsLoaded(s, id, childId, report.generationMode);
    var running := Classified(s.rows[id], report.generationMode).(status := Running);
    match report
    case Rendered(_, _, _, _, _, _) => CompleteRunPlain(cfg, s.EnsureCase(running), running, childId, report);
    case Broken(_, issueCodes, context) =>
      FailTaskDegradesExactly(cfg, s.EnsureCase(running), running, childId, issueCodes, context);
      SameDegrading(cfg, s, s.EnsureCase(running), s.rows[id], running, issueCodes, context);
  }

  /** With the root stored, a step creates a degraded attempt exactly if it is a failing run that is not repaired,
      violates no policy and may be degraded. */
  lemma StepDegradesExactly(cfg: Settings, s: Store, step: Step, r: TaskId)
    requires Structured(s) && Enabled(s, step) && r in s.rows
    ensures CreatesDegraded(s, Apply(cfg, s, step), r) <==> Degrading(cfg, s, step, r)
  {
    hide Structured, RunTask, WillDegrade, Moves;
    if !step.RunStep? {
      OtherStepsArePlain(cfg, s, step);
      hide Apply;
    } else if s.rows[step.id].root == r {
      RunDegradesExactly(cfg, s, step.id, step.childId, step.report, r);
    } else {
      StepMoves(cfg, s, step);
      NewRowsElsewhere(s, RunTask(cfg, s, step.id, step.childId, step.report), s.rows[step.id].root, r);
    }
  }

  lemma NewRowsElsewhere(s: Store, s': Store, q: TaskId, r: TaskId)
    requires Moves(s, s', q) && q != r
    ensures !CreatesDegraded(s, s', r)
  {
  }

  /** The deletion took the last degraded child of lineage r. */
  ghost predicate Reopens(s: Store, step: Step, r: TaskId) {
    && step.DeleteStep?
    && step.id in s.rows && s.rows[step.id].root == r && s.rows[step.id].parent.Some? && s.rows[step.id].mode == Some(Degraded)
    && forall id :: id in s.rows && s.rows[id].root == r && s.rows[id].parent.Some? && s.rows[id].mode == Some(Degraded) ==>
         id == step.id
  }

  /** A deletion ends a lineage's having a degraded child exactly when it takes the last one. */
  lemma DeletionReopensExactly(s: Store, step: Step, r: TaskId)
    requires step.DeleteStep? && HasDegradedChild(s.rows, r)
    ensures !HasDegradedChild(s.Delete(step.id).rows, r) <==> Reopens(s, step, r)
  {
    var rows := s.Delete(step.id).rows;
    if Reopens(s, step, r) {
      assert !HasDegradedChild(rows, r);
    } else if id :| id in s.rows && id != step.id && s.rows[id].root == r && s.rows[id].parent.Some? && s.rows[id].mode == Some(Degraded) {
      assert id in rows && rows[id] == s.rows[id];
    }
  }

  /** A degraded attempt is created only where there is no degraded child, and leaves one; and there is one until a
      deletion takes the last. */
  lemma DegradeNeedsNone(cfg: Settings, s: Store, step: Step, r: TaskId)
    requires Structured(s) && Enabled(s, step)
    ensures
      var s' := Apply(cfg, s, step);
      && (CreatesDegraded(s, s', r) ==> !HasDegradedChild(s.rows, r) && HasDegradedChild(s'.rows, r))
      && (HasDegradedChild(s.rows, r) ==> (HasDegradedChild(s'.rows, r) <==> !Reopens(s, step, r)))
  {
    var s' := Apply(cfg, s, step);
    if step.DeleteStep? {
      if HasDegradedChild(s.rows, r) {
        DeletionReopensExactly(s, step, r);
      }
      return;
    }
    StepMoves(cfg, s, step);
    StepDegrades(cfg, s, step);
    hide Structured, Apply, Enabled;
    if HasDegradedChild(s.rows, r) {
      DegradedStays(s, s', Touched(s, step), r);
    }
  }

  ghost function DegradesIn(cfg: Settings, s: Store, steps: seq<Step>, r: TaskId): nat {
    if steps == [] then 0
    else
      var n := |steps| - 1;
      DegradesIn(cfg, s, steps[..n], r)
      + (if CreatesDegraded(Exec(cfg, s, steps[..n]), Exec(cfg, s, steps), r) then 1 else 0)
  }

  ghost function ReopensIn(cfg: Settings, s: Store, steps: seq<Step>, r: TaskId): nat {
    if steps == [] then 0
    else
      var n := |steps| - 1;
      ReopensIn(cfg, s, steps[..n], r) + (if Reopens(Exec(cfg, s, steps[..n]), steps[n], r) then 1 else 0)
  }

  ghost function Holding(s: Store, r: TaskId): nat {
    if HasDegradedChild(s.rows, r) then 1 else 0
  }

  /** Over every run: a lineage sees at most one degraded attempt, not counting one it held at first, and one more for
      each deletion that took its last degraded child. */
  lemma {:induction false} DegradedAttemptsAreBounded(cfg: Settings, s: Store, steps: seq<Step>, r: TaskId)
    requires Structured(s) && IsRun(cfg, s, steps)
    ensures Holding(s, r) + DegradesIn(cfg, s, steps, r) <= ReopensIn(cfg, s, steps, r) + Holding(Exec(cfg, s, steps), r)
  {
    hide Structured, Apply, Enabled, CreatesDegraded, HasDegradedChild, Reopens;
    if steps != [] {
      var n := |steps| - 1;
      DegradedAttemptsAreBounded(cfg, s, steps[..n], r);
      RunsKeep(cfg, s, steps[..n]);
      DegradeNeedsNone(cfg, Exec(cfg, s, steps[..n]), steps[n], r);
    }
  }

  /** Hence, without deletions, at most one degraded attempt is created in a lineage, and none once it holds one. */
  lemma {:induction false} AtMostOneDegradedAttempt(cfg: Settings, s: Store, steps: seq<Step>, r: TaskId)
    requires Structured(s) && IsRun(cfg, s, steps) && forall step :: step in steps ==> !step.DeleteStep?
    ensures DegradesIn(cfg, s, steps, r) <= if HasDegradedChild(s.rows, r) then 0 else 1
  {
    DegradedAttemptsAreBounded(cfg, s, steps, r);
    NothingReopens(cfg, s, steps, r);
  }

  lemma {:induction false} NothingReopens(cfg: Settings, s: Store, steps: seq<Step>, r: TaskId)
    requires forall step :: step in steps ==> !step.DeleteStep?
    ensures ReopensIn(cfg, s, steps, r) == 0
  {
    if steps != [] {
      var n := |steps| - 1;
      assert steps[n] in steps;
      NothingReopens(cfg, s, steps[..n], r);
    }
  }
}
