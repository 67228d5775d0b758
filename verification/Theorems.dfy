/** The main results, over every run from the empty store. */
module Theorems {
  import opened TaskModel
  import opened LineageGraph
  import opened TaskStore
  import opened Lifecycle
  import opened Invariants
  import opened Progress
  import opened Health
  import opened Budget
  import opened Promotion

  ghost predicate OrdinaryRun(cfg: Settings, steps: seq<Step>) {
    IsRun(cfg, EMPTY, steps) && forall step :: step in steps ==> Ordinary(step)
  }

  function After(cfg: Settings, steps: seq<Step>): Store {
    Exec(cfg, EMPTY, steps)
  }

  lemma OrdinaryRunsAreHealthy(cfg: Settings, steps: seq<Step>)
    requires OrdinaryRun(cfg, steps)
    ensures Healthy(After(cfg, steps))
  {
    RunsKeepHealthy(cfg, EMPTY, steps);
  }

  lemma {:induction false} RunsKeepScored(cfg: Settings, s: Store, steps: seq<Step>)
    requires Structured(s) && Scored(cfg, s) && IsRun(cfg, s, steps)
    ensures Scored(cfg, Exec(cfg, s, steps))
  {
    hide Structured, Scored, Apply;
    if steps != [] {
      var n := |steps| - 1;
      RunsKeepScored(cfg, s, steps[..n]);
      RunsKeep(cfg, s, steps[..n]);
      StepKeepsScored(cfg, Exec(cfg, s, steps[..n]), steps[n]);
    }
  }

  // --------------------------------------------------------------- no lineage is stranded

  /** A root whose delivery is still undecided has a queued task in its lineage. */
  lemma NoStrandedLineage(cfg: Settings, steps: seq<Step>, r: TaskId)
    requires OrdinaryRun(cfg, steps)
    requires r in After(cfg, steps).rows && After(cfg, steps).rows[r].root == r
    requires !Closed(After(cfg, steps).rows[r].delivery)
    ensures exists id :: id in After(cfg, steps).rows && After(cfg, steps).rows[id].root == r
                         && After(cfg, steps).rows[id].status == Queued
  {
    OrdinaryRunsAreHealthy(cfg, steps);
    UndecidedWaits(After(cfg, steps), r);
  }

  /** Cancelling breaks that promise exactly when it takes the last queued task of an undecided lineage. */
  lemma CancelStrandsExactly(s: Store, id: TaskId, r: TaskId)
    requires Linked(s.order, s.rows) && id in s.rows && s.rows[id].root == r
    ensures Waiting(Cancel(s, id).rows, r) <==>
            exists other :: other in s.rows && other != id && s.rows[other].root == r && s.rows[other].status == Queued
  {
    var rows := Cancel(s, id).rows;
    assert s.rows[id].id == id;
    assert rows == s.rows[id := s.rows[id].(status := Cancelled, phase := AtCancelled)];
    hide Linked, Cancel;
    if Waiting(rows, r) {
      var other :| other in rows && rows[other].root == r && rows[other].status == Queued;
      assert other in s.rows && other != id;
    }
    if other :| other in s.rows && other != id && s.rows[other].root == r && s.rows[other].status == Queued {
      assert rows[other] == s.rows[other];
    }
  }

  lemma CancelledProjection(s: Store, id: TaskId, r: TaskId)
    requires Linked(s.order, s.rows) && id in s.rows && r in s.rows && s.rows[id].root == r
    ensures
      var s', active := Cancel(s, id), ActiveTask(s.order, s.rows, r);
      && s'.cases == s.cases && r in s'.rows && ActiveTask(s'.order, s'.rows, r) == active
      && s'.rows == s.rows[id := s.rows[id].(status := Cancelled, phase := AtCancelled)]
      && Projection(s'.order, s'.rows, r) ==
         Projection(s.order, s.rows, r).(status := DeriveCaseStatus(s'.rows[r], s'.rows[active]))
  {
    assert s.rows[id].id == id;
    assert SameLinks(s.order, s.rows, Cancel(s, id).rows);
    hide Linked, DeriveCaseStatus;
    ReachableFrame(s.order, s.rows, Cancel(s, id).rows, r);
    hide Reachable;
  }

  /** Cancelling does not sync the case: it stays current exactly when the cancelled task is not the active one, or the
      case is queued, completed or failed anyway. */
  lemma CancelKeepsCaseExactly(s: Store, id: TaskId, r: TaskId)
    requires Linked(s.order, s.rows) && id in s.rows && r in s.rows && s.rows[id].root == r && CaseCurrent(s, r)
    ensures r in Cancel(s, id).rows
    ensures CaseCurrent(Cancel(s, id), r) <==>
            s.cases[r].active != id || s.cases[r].status in {CaseQueued, CaseCompleted, CaseFailed}
  {
    CancelledProjection(s, id, r);
    var active := ActiveTask(s.order, s.rows, r);
    hide Linked, Cancel, ActiveTask, DeriveCaseStatus;
    CancelledStatus(s.rows[r], Cancel(s, id).rows[r], s.rows[active], id == active);
  }

  /** Cancelling the active task changes the derived status of its case unless that is queued, completed or failed. */
  lemma CancelledStatus(root: Task, root': Task, active: Task, cancelled: bool)
    requires root'.id == root.id && root'.delivery == root.delivery && root'.resolved == root.resolved
    ensures
      var active' := if cancelled then active.(status := Cancelled, phase := AtCancelled) else active;
      DeriveCaseStatus(root', active') == DeriveCaseStatus(root, active) <==>
      !cancelled || DeriveCaseStatus(root, active) in {CaseQueued, CaseCompleted, CaseFailed}
  {
  }

  lemma RootIsStored(s: Store, id: TaskId)
    requires Healthy(s)
    ensures Structured(s)
    ensures id in s.rows ==> s.rows[id].root in s.rows
  {
  }

  lemma FailedRunEnds(cfg: Settings, s: Store, id: TaskId, childId: TaskId, report: RunReport)
    requires Healthy(s) && report.Broken? && Enabled(s, RunStep(id, childId, report))
    ensures
      var s' := RunTask(cfg, s, id, childId, report);
      ChildScheduled(s, s', id, childId) || RescuedDelivery(s, s', id) || GivenUp(s, s', id)
  {
    hide Healthy, Structured, FailTask, Loaded, Fresh;
    RootIsStored(s, id);
    ClaimedIsLoaded(s, id, childId, report.generationMode);
    var running := Classified(s.rows[id], report.generationMode).(status := Running);
    FailTaskEnds(cfg, s.EnsureCase(running), running, childId, report.issueCodes, report.context);
  }

  /** A failing run ends in exactly one of three ways: a child is queued, the task is delivered after all, or
      delivery is given up with a reason. */
  lemma FailedRunEndsOnce(cfg: Settings, steps: seq<Step>, id: TaskId, childId: TaskId, report: RunReport)
    requires OrdinaryRun(cfg, steps) && report.Broken?
    requires Enabled(After(cfg, steps), RunStep(id, childId, report))
    ensures
      var s := After(cfg, steps);
      var s' := RunTask(cfg, s, id, childId, report);
      var scheduled, rescued, givenUp := ChildScheduled(s, s', id, childId), RescuedDelivery(s, s', id), GivenUp(s, s', id);
      && (scheduled || rescued || givenUp)
      && !(scheduled && rescued) && !(scheduled && givenUp) && !(rescued && givenUp)
  {
    OrdinaryRunsAreHealthy(cfg, steps);
    hide OrdinaryRun, Healthy, RunTask, Enabled;
    FailedRunEnds(cfg, After(cfg, steps), id, childId, report);
  }

  /** What each end of a failing run means: a run is rescued only if the settings, the writer and its first issue
      allow it, is given up only if one of them forbids it, and a policy violation without a child ends with its own
      code as the reason. */
  lemma FailedRunEndsByRule(cfg: Settings, s: Store, id: TaskId, childId: TaskId, report: RunReport)
    requires Healthy(s) && report.Broken? && Enabled(s, RunStep(id, childId, report))
    ensures EndsByRule(cfg, s, RunTask(cfg, s, id, childId, report), id, childId, report.issueCodes, report.context)
  {
    hide Healthy, Structured, FailTask, Loaded, Fresh, EndsByRule;
    RootIsStored(s, id);
    ClaimedIsLoaded(s, id, childId, report.generationMode);
    var running := Classified(s.rows[id], report.generationMode).(status := Running);
    var s0 := s.EnsureCase(running);
    FailTaskEndsByRule(cfg, s0, running, childId, report.issueCodes, report.context);
    RuleIgnoresCases(cfg, s, s0, RunTask(cfg, s, id, childId, report), id, childId, report.issueCodes, report.context);
  }

  // ---------------------------------------------------------------------- termination

  /** The worker alone, on whatever lineages it claims tasks of. */
  ghost predicate WorkerRun(cfg: Settings, s: Store, steps: seq<Step>) {
    IsRun(cfg, s, steps) && forall step :: step in steps ==> step.RunStep?
  }

  /** The runs taken in one lineage. */
  function RunsIn(cfg: Settings, s: Store, steps: seq<Step>, r: TaskId): nat {
    if steps == [] then 0
    else
      var n := |steps| - 1;
      RunsIn(cfg, s, steps[..n], r) + (if Touched(Exec(cfg, s, steps[..n]), steps[n]) == r then 1 else 0)
  }

  lemma {:induction false} QueueFrame(ids: seq<TaskId>, rows: Rows, rows': Rows)
    requires forall id :: id in ids ==> id in rows && id in rows' && rows'[id] == rows[id]
    ensures Queue(ids, rows') == Queue(ids, rows)
  {
    if ids != [] {
      QueueFrame(ids[..|ids| - 1], rows, rows');
    }
  }

  /** A run in one lineage uses up work there and leaves the work of the others as it was. */
  lemma WorkerStep(cfg: Settings, s: Store, step: Step, r: TaskId)
    requires Healthy(s) && step.RunStep? && Enabled(s, step)
    ensures if Touched(s, step) == r then Work(cfg, Apply(cfg, s, step), r) < Work(cfg, s, r)
            else Work(cfg, Apply(cfg, s, step), r) == Work(cfg, s, r)
  {
    hide Healthy, Structured, RunTask, Queue, Fresh, Linked, Lineage;
    RootIsStored(s, step.id);
    if s.rows[step.id].root == r {
      hide Work;
      RunUsesWork(cfg, s, step.id, step.childId, step.report);
    } else {
      StepSparesOthers(cfg, s, step, r);
      MembersAreStored(s, r);
      QueueFrame(s.Members(r), s.rows, Apply(cfg, s, step).rows);
    }
  }

  lemma MembersAreStored(s: Store, r: TaskId)
    ensures forall id :: id in s.Members(r) ==> id in s.rows
  {
  }

  /** Each run of the worker uses up work of its lineage, so it takes at most as many runs there as there is work. */
  lemma {:induction false} AutonomousLoopIsBounded(cfg: Settings, s: Store, steps: seq<Step>, r: TaskId)
    requires Healthy(s) && WorkerRun(cfg, s, steps)
    ensures Healthy(Exec(cfg, s, steps))
    ensures RunsIn(cfg, s, steps, r) + Work(cfg, Exec(cfg, s, steps), r) <= Work(cfg, s, r)
  {
    hide Healthy, Work, Apply, Enabled, Touched;
    RunsKeepHealthy(cfg, s, steps);
    if steps != [] {
      var n := |steps| - 1;
      assert steps[n] in steps && forall step :: step in steps[..n] ==> step in steps;
      AutonomousLoopIsBounded(cfg, s, steps[..n], r);
      WorkerStep(cfg, Exec(cfg, s, steps[..n]), steps[n], r);
    }
  }

  lemma RootGrows(s: Store, s': Store, r: TaskId)
    requires Grows(s, s') && r in s.rows && s.rows[r].root == r
    ensures r in s'.rows && s'.rows[r].root == r
  {
  }

  /** When the loop has nothing left to claim in a lineage, its root is delivered or failed. */
  lemma AutonomousLoopStops(cfg: Settings, s: Store, steps: seq<Step>, r: TaskId)
    requires Healthy(s) && WorkerRun(cfg, s, steps) && r in s.rows && s.rows[r].root == r
    ensures
      var s' := Exec(cfg, s, steps);
      && RunsIn(cfg, s, steps, r) <= Work(cfg, s, r)
      && r in s'.rows
      && (Queue(s'.Members(r), s'.rows) == 0 ==> Closed(s'.rows[r].delivery))
  {
    hide Healthy, Structured, Work, IsRun, Exec, Closed, Queue, RunsIn, Grows;
    RootIsStored(s, r);
    AutonomousLoopIsBounded(cfg, s, steps, r);
    RunsOnlyAdvance(cfg, s, steps);
    var s' := Exec(cfg, s, steps);
    RootGrows(s, s', r);
    if !Closed(s'.rows[r].delivery) {
      UndecidedIsQueued(s', r);
    }
  }

  lemma UndecidedWaits(s: Store, r: TaskId)
    requires Healthy(s) && r in s.rows && s.rows[r].root == r && !Closed(s.rows[r].delivery)
    ensures Waiting(s.rows, r)
  {
    HealthyParts(s);
    hide Structured, FamilyPresent, Coherent, Healthy;
    HealthyIsHandled(s, r);
  }

  lemma UndecidedIsQueued(s: Store, r: TaskId)
    requires Healthy(s)
    requires r in s.rows && s.rows[r].root == r && !Closed(s.rows[r].delivery)
    ensures Queue(s.Members(r), s.rows) > 0
  {
    hide Healthy, Structured, Queue, Lineage;
    UndecidedWaits(s, r);
    RootIsStored(s, r);
    var id :| id in s.rows && s.rows[id].root == r && s.rows[id].status == Queued;
    RowKeyed(s, id);
    QueuedCounts(s.Members(r), s.rows, id);
  }

  lemma {:induction false} QueuedCounts(ids: seq<TaskId>, rows: Rows, id: TaskId)
    requires id in ids && id in rows && rows[id].Claimable()
    ensures Queue(ids, rows) > 0
  {
    if id in ids[..|ids| - 1] {
      QueuedCounts(ids[..|ids| - 1], rows, id);
    }
  }

  // -------------------------------------------------------------- rows only move forwards

  ghost predicate Grows(s: Store, s': Store) {
    forall id :: id in s.rows ==> id in s'.rows && Advances(s.rows[id], s'.rows[id])
  }

  /** Over every run without deletions, a decided root is never undecided again, a finished task is never back in
      the queue, and a degraded child stays degraded. */
  lemma {:induction false} RunsOnlyAdvance(cfg: Settings, s: Store, steps: seq<Step>)
    requires Structured(s) && IsRun(cfg, s, steps) && forall step :: step in steps ==> !step.DeleteStep?
    ensures Grows(s, Exec(cfg, s, steps))
  {
    if steps != [] {
      var n := |steps| - 1;
      var before := Exec(cfg, s, steps[..n]);
      RunsOnlyAdvance(cfg, s, steps[..n]);
      RunsKeep(cfg, s, steps[..n]);
      assert steps[n] in steps;
      StepMoves(cfg, before, steps[n]);
      hide Structured, Apply;
    }
  }

  // ------------------------------------------------------------------------------- cases

  /** Every case row equals the projection from its root and the last reachable task. */
  lemma CasesAreCoherent(cfg: Settings, steps: seq<Step>, s: Store, r: TaskId)
    requires OrdinaryRun(cfg, steps) && s == After(cfg, steps)
    requires r in s.rows && s.rows[r].root == r
    ensures r in s.cases && s.cases[r] == Projection(s.order, s.rows, r)
  {
    OrdinaryRunsAreHealthy(cfg, steps);
    assert CaseCurrent(s, r);
  }

  /** A step on one lineage leaves every other lineage's tasks, rows and case alone; deletions too. */
  lemma LineagesDoNotInterfere(cfg: Settings, steps: seq<Step>, s: Store, step: Step, q: TaskId)
    requires IsRun(cfg, EMPTY, steps) && s == After(cfg, steps)
    requires Enabled(s, step) && q != Touched(s, step) && step != DeleteStep(q)
    ensures
      var s' := Apply(cfg, s, step);
      && s'.Members(q) == s.Members(q)
      && (forall id :: id in s.Members(q) ==> id in s'.rows && s'.rows[id] == s.rows[id])
      && (q in s'.cases <==> q in s.cases)
      && (q in s.cases ==> s'.cases[q] == s.cases[q])
  {
    RunsKeep(cfg, EMPTY, steps);
    hide Structured, Apply, Enabled, Lineage, IsRun, Exec;
    StepSparesOthers(cfg, s, step, q);
  }

  lemma StepSparesOthers(cfg: Settings, s: Store, step: Step, q: TaskId)
    requires Structured(s) && Enabled(s, step) && q != Touched(s, step) && step != DeleteStep(q)
    ensures
      var s' := Apply(cfg, s, step);
      && s'.Members(q) == s.Members(q)
      && (forall id :: id in s.Members(q) ==> id in s'.rows && s'.rows[id] == s.rows[id])
      && (q in s'.cases <==> q in s.cases)
      && (q in s.cases ==> s'.cases[q] == s.cases[q])
  {
    hide Structured, Linked, Moves, Lineage;
    if step.DeleteStep? {
      DeleteSparesOthers(s, step.id, q);
    } else {
      StepKeeps(cfg, s, step);
      StepMoves(cfg, s, step);
      hide Apply, Enabled;
      LinkedOf(s);
      LinkedOf(Apply(cfg, s, step));
      OtherLineagesUntouched(s, Apply(cfg, s, step), Touched(s, step), q);
      MovesKeepCases(s, Apply(cfg, s, step), Touched(s, step), q);
    }
  }

  lemma MovesKeepCases(s: Store, s': Store, r: TaskId, q: TaskId)
    requires Moves(s, s', r) && q != r
    ensures (q in s'.cases <==> q in s.cases) && (q in s.cases ==> s'.cases[q] == s.cases[q])
  {
  }
}
