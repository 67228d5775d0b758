/** When a delivered root stops being delivered: in exactly one kind of step, a run of its lineage that gives up. */
module DeliveryLoss {
  import opened Wrappers
  import opened TaskModel
  import opened LineageGraph
  import opened TaskStore
  import opened QualityJudge
  import opened Lifecycle
  import opened Invariants
  import opened Progress
  import opened Health
  import opened Budget
  import opened Theorems

  /** Read off the store before the run: the failure is not repaired, and it violates a policy or can neither be
      degraded nor rescued. */
  predicate WillGiveUp(cfg: Settings, s: Store, task: Task, issueCodes: seq<string>, context: FailureContext) {
    && !JudgeRepair(cfg, s.Count(task.root), issueCodes).created
    && (|| (issueCodes != [] && issueCodes[0] in POLICY_VIOLATIONS)
        || (!MayDegrade(cfg, s, task, context) && !RescueAllowed(cfg, issueCodes, context)))
  }

  predicate GivingUp(cfg: Settings, s: Store, step: Step, r: TaskId) {
    && step.RunStep? && step.report.Broken?
    && step.id in s.rows && s.rows[step.id].root == r
    && WillGiveUp(cfg, s, s.rows[step.id], step.report.issueCodes, step.report.context)
  }

  // --------------------------------------------------- the decision, read before the run

  lemma AttemptsSeenAlike(s: Store, s1: Store, r: TaskId)
    requires s1.Members(r) == s.Members(r)
    requires forall id :: id in s.rows ==> id in s1.rows && s1.rows[id].parent == s.rows[id].parent && s1.rows[id].mode == s.rows[id].mode
    ensures HasDegradedAttempt(s1, r) <==> HasDegradedAttempt(s, r)
  {
  }

  lemma JudgedBefore(cfg: Settings, s: Store, running: Task, childId: TaskId, issueCodes: seq<string>, context: FailureContext)
    requires Structured(s) && Loaded(s, running)
    ensures
      var task := FailedRow(running);
      var verdict := JudgeRepair(cfg, s.Put(task).Count(task.root), issueCodes);
      var s1 := AfterRepair(cfg, s, task, childId, issueCodes);
      && s.Put(task).Count(task.root) == s.Count(running.root)
      && (!verdict.created ==>
            s1.Count(task.root) == s.Count(task.root) && (HasDegradedAttempt(s1, task.root) <==> HasDegradedAttempt(s, task.root)))
  {
    var task := FailedRow(running);
    var verdict := JudgeRepair(cfg, s.Put(task).Count(task.root), issueCodes);
    var s1 := AfterRepair(cfg, s, task, childId, issueCodes);
    assert Loaded(s, task);
    LinkedOf(s);
    PutIsInPlace(s, task);
    if !verdict.created {
      AfterRepairInPlace(cfg, s, task, childId, issueCodes);
      hide AfterRepair, JudgeRepair, Structured, Linked, HasDegradedAttempt;
      forall id | id in s.rows
        ensures SamePlace(s.rows[id], s1.rows[id]) && s1.rows[id].mode == s.rows[id].mode
      {
      }
      LineageFrame(s.order, s.rows, s1.rows, task.root);
      AttemptsSeenAlike(s, s1, task.root);
    }
  }

  /** What is decided after the repair was considered is what could be read off before the run. */
  lemma GivesUpAsForeseen(cfg: Settings, s: Store, running: Task, childId: TaskId, issueCodes: seq<string>, context: FailureContext)
    requires Structured(s) && Loaded(s, running)
    ensures
      var task := FailedRow(running);
      WillGiveUp(cfg, s, running, issueCodes, context) <==>
      && !JudgeRepair(cfg, s.Put(task).Count(task.root), issueCodes).created
      && JudgeEnding(cfg, AfterRepair(cfg, s, task, childId, issueCodes), task, issueCodes, context).Abandoned?
  {
    JudgedBefore(cfg, s, running, childId, issueCodes, context);
    hide Structured, Loaded, AfterRepair, JudgeRepair, HasDegradedAttempt;
  }

  // ------------------------------------------------------------------------- one run

  /** A failing run takes the delivery of its root exactly when it gives up. */
  lemma FailTaskLosesDelivery(cfg: Settings, s: Store, running: Task, childId: TaskId, issueCodes: seq<string>, context: FailureContext)
    requires Structured(s) && Loaded(s, running) && Fresh(s, childId) && running.root in s.rows
    requires s.rows[running.root].delivery == Some(Delivered)
    ensures
      var s' := FailTask(cfg, s, running, childId, issueCodes, context);
      && running.root in s'.rows
      && (s'.rows[running.root].delivery != Some(Delivered) <==> WillGiveUp(cfg, s, running, issueCodes, context))
  {
    GivesUpAsForeseen(cfg, s, running, childId, issueCodes, context);
    FailTaskEndsAs(cfg, s, running, childId, issueCodes, context);
    hide FailTask, AfterRepair, JudgeRepair, JudgeEnding, WillGiveUp, Structured, Fresh;
  }

  /** A successful run never does. */
  lemma CompleteRunKeepsDelivery(cfg: Settings, s: Store, running: Task, childId: TaskId, report: RunReport)
    requires report.Rendered?
    requires Structured(s) && Loaded(s, running) && Fresh(s, childId) && running.root in s.rows
    requires s.rows[running.root].delivery == Some(Delivered)
    ensures
      var s' := CompleteRun(cfg, s, running, childId, report);
      running.root in s'.rows && s'.rows[running.root].delivery == Some(Delivered)
  {
    var r := running.root;
    var score := TotalScore(true, report.issueCodes, report.previewIssueCodes);
    var task := SuccessRow(cfg, running, score);
    var s1 := RecordSuccess(s, task, score);
    RecordSuccessFrame(s, task, score);
    assert r in s1.rows && s1.rows[r].delivery == Some(Delivered) && s1.rows[r].root == r by { RootsAreRoots(s, running.id); hide Structured, Fresh; }
    RecordSuccessKeepsFresh(s, task, score, childId);
    RecordSuccessKeeps(cfg, s, running, score);
    hide RecordSuccess, Structured, Loaded, Promotes, WantsChallenger, CanChallenge;
    var s2 := ScheduleChallenger(cfg, s1, task, childId, report.challengerGuardOpen);
    assert r in s2.rows && s2.rows[r].delivery == Some(Delivered) && s2.rows[r].root == r;
    if s2 != s1 {
      PersistKeeps(s1, ChallengerChild(task, childId));
    }
    hide Fresh, Persist;
    AcceptKeepsDelivery(s2, task.id, r);
  }

  lemma AcceptKeepsDelivery(s: Store, winner: TaskId, r: TaskId)
    requires Structured(s) && r in s.rows && s.rows[r].root == r && s.rows[r].delivery == Some(Delivered)
    ensures r in Accept(s, winner).rows && Accept(s, winner).rows[r].delivery == Some(Delivered)
  {
    if CanAccept(s, winner) {
      LinkedOf(s);
      hide Structured, Linked, AcceptedRows;
      AcceptedRowsFacts(s, winner);
    }
  }

  lemma SameForecast(cfg: Settings, s: Store, s0: Store, a: Task, b: Task, issueCodes: seq<string>, context: FailureContext)
    requires s0.order == s.order && s0.rows == s.rows && b.root == a.root && b.parent == a.parent && b.mode == a.mode
    ensures WillGiveUp(cfg, s0, b, issueCodes, context) <==> WillGiveUp(cfg, s, a, issueCodes, context)
  {
  }

  lemma RunLosesDelivery(cfg: Settings, s: Store, id: TaskId, childId: TaskId, report: RunReport, r: TaskId)
    requires Structured(s) && Enabled(s, RunStep(id, childId, report)) && s.rows[id].root == r && r in s.rows
    requires s.rows[r].delivery == Some(Delivered)
    ensures
      var s' := RunTask(cfg, s, id, childId, report);
      r in s'.rows && (s'.rows[r].delivery != Some(Delivered) <==> GivingUp(cfg, s, RunStep(id, childId, report), r))
  {
    hide Structured, Loaded, Fresh, CompleteRun, FailTask, JudgeRepair, HasDegradedAttempt;
    ClaimedIsLoaded(s, id, childId, report.generationMode);
    var running := Classified(s.rows[id], report.generationMode).(status := Running);
    match report
    case Rendered(_, _, _, _, _, _) => CompleteRunKeepsDelivery(cfg, s.EnsureCase(running), running, childId, report);
    case Broken(_, issueCodes, context) =>
      FailTaskLosesDelivery(cfg, s.EnsureCase(running), running, childId, issueCodes, context);
      SameForecast(cfg, s, s.EnsureCase(running), s.rows[id], running, issueCodes, context);
  }

  /** Whatever the step, a delivered root that is not deleted stops being delivered exactly when the step is a run of
      its lineage that gives up. */
  lemma StepLosesDelivery(cfg: Settings, s: Store, step: Step, r: TaskId)
    requires Structured(s) && Enabled(s, step) && step != DeleteStep(r)
    requires r in s.rows && s.rows[r].root == r && s.rows[r].delivery == Some(Delivered)
    ensures
      var s' := Apply(cfg, s, step);
      r in s'.rows && (s'.rows[r].delivery != Some(Delivered) <==> GivingUp(cfg, s, step, r))
  {
    hide Structured, RunTask, Accept, ReconcileOrphans, WillGiveUp, KeyHolder, ActiveCount, CanChallenge, CanRetry;
    if step.id in s.rows {
      RowKeyed(s, step.id);
    }
    match step
    case RunStep(id, childId, report) =>
      if s.rows[id].root == r {
        RunLosesDelivery(cfg, s, id, childId, report, r);
      } else {
        StepMoves(cfg, s, step);
      }
    case CreateStep(id, key) =>
    case ReviseStep(id, childId) =>
    case RetryStep(id, childId) =>
    case AcceptStep(id) => AcceptKeepsDelivery(s, id, r);
    case CancelStep(id) =>
    case DeleteStep(id) =>
    case ReconcileStep(id) => ReconcileSparesRoots(s, id, r);
  }

  /** A stored root is never an orphan, so the orphan pass leaves it alone. */
  lemma ReconcileSparesRoots(s: Store, root: TaskId, r: TaskId)
    requires Structured(s) && r in s.rows && s.rows[r].root == r
    ensures r in ReconcileOrphans(s, root).rows && ReconcileOrphans(s, root).rows[r] == s.rows[r]
  {
    RowKeyed(s, r);
    hide Structured;
    assert r in Lineage(s.order, s.rows, r);
    assert r in Reachable(s.order, s.rows, r);
    hide Reachable, Lineage, Orphans, Scan;
  }

  // ---------------------------------------------------------------------------- runs

  /** The steps that take away the delivery of r, or r itself. */
  ghost predicate Spares(cfg: Settings, s: Store, steps: seq<Step>, r: TaskId) {
    forall n {:trigger steps[n]} :: 0 <= n < |steps| ==>
      steps[n] != DeleteStep(r) && !GivingUp(cfg, Exec(cfg, s, steps[..n]), steps[n], r)
  }

  /** Over every run, whatever it holds, a delivered root stays delivered as long as it is not deleted and no run of
      its lineage gives up. */
  lemma {:induction false} DeliveryLasts(cfg: Settings, s: Store, steps: seq<Step>, r: TaskId)
    requires Structured(s) && IsRun(cfg, s, steps) && Spares(cfg, s, steps, r)
    requires r in s.rows && s.rows[r].root == r && s.rows[r].delivery == Some(Delivered)
    ensures
      var s' := Exec(cfg, s, steps);
      r in s'.rows && s'.rows[r].root == r && s'.rows[r].delivery == Some(Delivered)
  {
    hide Structured, Apply, GivingUp, Enabled;
    if steps != [] {
      var n := |steps| - 1;
      var before := Exec(cfg, s, steps[..n]);
      assert Spares(cfg, s, steps[..n], r) by {
        assert forall m :: 0 <= m < n ==> steps[..n][m] == steps[m] && steps[..n][..m] == steps[..m];
      }
      assert steps[n] != DeleteStep(r) && !GivingUp(cfg, before, steps[n], r);
      DeliveryLasts(cfg, s, steps[..n], r);
      RunsKeep(cfg, s, steps[..n]);
      StepLosesDelivery(cfg, before, steps[n], r);
      RootStaysRoot(cfg, before, steps[n], r);
    }
  }

  lemma RootStaysRoot(cfg: Settings, s: Store, step: Step, r: TaskId)
    requires Structured(s) && Enabled(s, step) && r in s.rows && s.rows[r].root == r && r in Apply(cfg, s, step).rows
    ensures Apply(cfg, s, step).rows[r].root == r
  {
    hide Structured;
    if !step.DeleteStep? {
      StepMoves(cfg, s, step);
      hide Apply, Enabled;
    }
  }

  // ------------------------------------------------------------- a run in which it happens

  const STRICT := Settings(10, 5, false, 0, {}, true, true, true, 3, 7000, false, false)
  const GOOD := Rendered(None, [], [], true, true, true)
  const BAD := Broken(None, ["render_failed"], FailureContext(false, "render_failed", None, None))

  /** A root is created and delivered, then challenged; the challenger fails and nothing else may be tried. */
  const CREATED := CreateStep(1, None)
  const DELIVERED := RunStep(1, 2, GOOD)
  const REVISED := ReviseStep(1, 3)
  const CHALLENGED := [CREATED, DELIVERED, REVISED]
  const LAST := RunStep(3, 4, BAD)

  lemma FewerActive(s: Store)
    ensures ActiveCount(s) <= |s.rows.Keys|
  {
    var active := set id | id in s.rows && s.rows[id].Active();
    assert s.rows.Keys == active + (s.rows.Keys - active);
  }

  lemma Created(cfg: Settings)
    requires cfg.maxQueuedTasks > 0
    ensures Enabled(EMPTY, CREATED)
    ensures
      var s := Apply(cfg, EMPTY, CREATED);
      s.order == [1] && s.rows == map[1 := NewRoot(1, None)] && s.cases.Keys == {1} && s.scores == map[]
  {
    FewerActive(EMPTY);
    hide Projection, ActiveCount, KeyHolder;
  }

  lemma FreshHere(s: Store, id: TaskId)
    requires s.rows.Keys <= {1, 3} && s.cases.Keys == {1} && s.scores.Keys <= {1} && id in {2, 3, 4} && id !in s.rows
    requires forall other :: other in s.rows ==>
               s.rows[other].root == 1 && s.rows[other].parent in {None, Some(1)} && s.rows[other].resolved in {None, Some(1)}
    ensures Fresh(s, id)
  {
  }

  /** The success of a root that passes the gate calls for nothing further. */
  lemma GoodRootRun(cfg: Settings, s: Store, id: TaskId, childId: TaskId, report: RunReport)
    requires report.Rendered? && report.generationMode.None?
    requires id in s.rows && s.rows[id].id == id && s.rows[id].root == id && !s.rows[id].challenger && s.rows[id].Claimable()
    requires TotalScore(true, report.issueCodes, report.previewIssueCodes) >= cfg.qualityGateMinScore
    ensures
      var s' := RunTask(cfg, s, id, childId, report);
      && s'.order == s.order && s'.rows.Keys == s.rows.Keys && s'.cases.Keys == s.cases.Keys + {id}
      && s'.scores.Keys == s.scores.Keys + {id}
      && s'.rows[id].DeliveredCandidate() && s'.rows[id].resolved == Some(id) && SamePlace(s.rows[id], s'.rows[id])
  {
    hide Projection, Recommendation, CanChallenge, TotalScore;
  }

  lemma DeliveredOnce(s: Store)
    requires s.order == [1] && s.rows == map[1 := NewRoot(1, None)] && s.cases.Keys == {1} && s.scores == map[]
    ensures Enabled(s, DELIVERED)
    ensures
      var s' := Apply(STRICT, s, DELIVERED);
      && s'.order == [1] && s'.rows.Keys == {1} && s'.cases.Keys == {1} && s'.scores.Keys == {1}
      && s'.rows[1].id == 1 && s'.rows[1].root == 1 && s'.rows[1].parent == None && s'.rows[1].resolved == Some(1)
      && s'.rows[1].DeliveredCandidate()
  {
    FreshHere(s, 2);
    assert TotalScore(true, [], []) == 9250;
    hide Fresh, TotalScore, RunTask;
    GoodRootRun(STRICT, s, 1, 2, GOOD);
  }

  lemma ChallengedOnce(s: Store)
    requires s.order == [1] && s.rows.Keys == {1} && s.cases.Keys == {1} && s.scores.Keys == {1}
    requires s.rows[1].id == 1 && s.rows[1].root == 1 && s.rows[1].parent == None && s.rows[1].resolved == Some(1)
    requires s.rows[1].DeliveredCandidate()
    ensures Enabled(s, REVISED)
    ensures
      var s' := Apply(STRICT, s, REVISED);
      s'.rows == s.rows[3 := ChallengerChild(s.rows[1], 3)] && s'.cases.Keys == {1} && s'.scores.Keys == {1}
  {
    FreshHere(s, 3);
    assert s.order[..0] == [];
    assert Lineage([], s.rows, 1) == [];
    assert s.Members(1) == [1];
    hide Fresh, Projection, Lineage;
  }

  lemma ExecThree(cfg: Settings, s: Store, a: Step, b: Step, c: Step)
    ensures Exec(cfg, s, [a, b, c]) == Apply(cfg, Apply(cfg, Apply(cfg, s, a), b), c)
    ensures
      IsRun(cfg, s, [a, b, c]) <==>
      && Enabled(s, a) && Enabled(Apply(cfg, s, a), b) && Enabled(Apply(cfg, Apply(cfg, s, a), b), c)
  {
    hide Apply, Enabled;
    assert [a, b, c][..2] == [a, b] && [a, b][..1] == [a] && [a][..0] == [];
    assert Exec(cfg, s, []) == s && Exec(cfg, s, [a]) == Apply(cfg, s, a);
    assert Exec(cfg, s, [a, b]) == Apply(cfg, Apply(cfg, s, a), b);
    assert IsRun(cfg, s, [a]) <==> Enabled(s, a);
  }

  /** It does happen, by ordinary steps from the empty store: a delivered root is failed by the failure of its
      challenger, although it still resolves to itself. */
  lemma ChallengerFailsDeliveredRoot()
    ensures OrdinaryRun(STRICT, CHALLENGED) && Enabled(After(STRICT, CHALLENGED), LAST)
    ensures
      var s := After(STRICT, CHALLENGED);
      var s' := Apply(STRICT, s, LAST);
      && 1 in s.rows && s.rows[1].DeliveredCandidate() && 3 in s.rows && s.rows[3].challenger && s.rows[3].root == 1
      && 1 in s'.rows && s'.rows[1].delivery == Some(Undelivered) && s'.rows[1].resolved == Some(1)
  {
    hide Apply, Fresh;
    var s1 := Apply(STRICT, EMPTY, CREATED);
    var s2 := Apply(STRICT, s1, DELIVERED);
    var s := Apply(STRICT, s2, REVISED);
    Created(STRICT);
    DeliveredOnce(s1);
    ChallengedOnce(s2);
    ExecThree(STRICT, EMPTY, CREATED, DELIVERED, REVISED);
    FreshHere(s, 4);
    RunsKeep(STRICT, EMPTY, CHALLENGED);
    FailsRoot(s);
  }

  lemma FailsRoot(s: Store)
    requires Structured(s) && Enabled(s, LAST) && s.rows[3].root == 1 && s.rows[3].challenger
    requires 1 in s.rows && s.rows[1].root == 1 && s.rows[1].delivery == Some(Delivered)
    ensures
      var s' := Apply(STRICT, s, LAST);
      1 in s'.rows && s'.rows[1].delivery == Some(Undelivered) && s'.rows[1].resolved == s.rows[1].resolved
  {
    hide Structured, Fresh, Loaded, FailTask, HasDegradedAttempt;
    ClaimedIsLoaded(s, 3, 4, BAD.generationMode);
    var running := Classified(s.rows[3], BAD.generationMode).(status := Running);
    var s0 := s.EnsureCase(running);
    FailTaskEndsAs(STRICT, s0, running, 4, BAD.issueCodes, BAD.context);
    hide AfterRepair, Lineage;
  }
}
