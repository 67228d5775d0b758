/** Concrete runs from the empty store in which a promise is lost, next to the rules that say exactly when. */
module Scenarios {
  import opened Wrappers
  import opened TaskModel
  import opened LineageGraph
  import opened TaskStore
  import opened Lifecycle
  import opened Invariants
  import opened Progress
  import opened Promotion
  import opened Health
  import opened Theorems
  import opened DeliveryLoss
  import opened DegradeOnce
  import opened RepairRecord

  // ------------------------------------------------------------------------ building runs

  /** One more step on a run. */
  lemma RunGrows(cfg: Settings, steps: seq<Step>, step: Step, s: Store)
    requires IsRun(cfg, EMPTY, steps) && s == After(cfg, steps) && Enabled(s, step)
    ensures IsRun(cfg, EMPTY, steps + [step]) && After(cfg, steps + [step]) == Apply(cfg, s, step)
    ensures DegradesIn(cfg, EMPTY, steps + [step], 1) ==
            DegradesIn(cfg, EMPTY, steps, 1) + if CreatesDegraded(s, Apply(cfg, s, step), 1) then 1 else 0
  {
    hide Apply, Enabled, CreatesDegraded;
    assert (steps + [step])[..|steps|] == steps;
  }

  /** A small lineage of root 1 with nothing resolved and nothing scored. */
  ghost predicate Small(s: Store, order: seq<TaskId>) {
    && s.order == order && Structured(s) && s.cases.Keys <= {1} && s.scores == map[]
    && (forall id :: id in order <==> id in s.rows)
    && (forall id :: id in s.rows ==>
          s.rows[id].root == 1 && s.rows[id].resolved.None? && (s.rows[id].parent.Some? ==> s.rows[id].parent.value in order))
  }

  lemma FreshNext(s: Store, order: seq<TaskId>, id: TaskId)
    requires Small(s, order) && id !in order && id != 1
    ensures Fresh(s, id)
  {
  }

  lemma CaseStays(s: Store, s': Store)
    requires Moves(s, s', 1) && s.cases.Keys <= {1}
    ensures s'.cases.Keys <= {1}
  {
    forall q | q in s'.cases ensures q == 1 {
      assert q != 1 ==> (q in s'.cases <==> q in s.cases);
    }
  }

  // -------------------------------------------------------- a second degraded attempt

  /** No repairs, no emergency videos, but degraded attempts. */
  const CAUTIOUS := Settings(10, 5, false, 0, {}, false, false, false, 0, 7000, true, false)

  lemma SmallRoot(s: Store)
    requires Structured(s) && s.order == [1] && s.rows == map[1 := NewRoot(1, None)] && s.cases.Keys == {1} && s.scores == map[]
    ensures Small(s, [1])
  {
    hide Structured;
  }

  lemma RootCreated()
    ensures Enabled(EMPTY, CREATED)
    ensures
      var s := Apply(CAUTIOUS, EMPTY, CREATED);
      && Small(s, [1]) && s.rows[1].status == Queued && s.rows[1].parent.None? && !CreatesDegraded(EMPTY, s, 1)
  {
    assert Structured(EMPTY);
    hide Structured, Apply, Small, NewRowsPlain, CreatesDegraded;
    var s := Apply(CAUTIOUS, EMPTY, CREATED);
    Created(CAUTIOUS);
    StepKeeps(CAUTIOUS, EMPTY, CREATED);
    SmallRoot(s);
    OtherStepsArePlain(CAUTIOUS, EMPTY, CREATED);
    PlainCreatesNone(EMPTY, s, 1);
  }

  lemma BrokenRunScores(cfg: Settings, s: Store, id: TaskId, childId: TaskId, report: RunReport)
    requires Structured(s) && Enabled(s, RunStep(id, childId, report)) && report.Broken?
    ensures RunTask(cfg, s, id, childId, report).scores == s.scores
  {
    hide Structured, Fresh, Loaded, FailTask;
    ClaimedIsLoaded(s, id, childId, report.generationMode);
    var running := Classified(s.rows[id], report.generationMode).(status := Running);
    FailTaskKeepsGates(cfg, s.EnsureCase(running), running, childId, report.issueCodes, report.context);
  }

  /** What every failing run leaves of a small lineage. */
  lemma FailureFrame(s: Store, order: seq<TaskId>, id: TaskId, childId: TaskId)
    requires Small(s, order) && id in order && s.rows[id].status == Queued && childId !in order && childId != 1 && 1 in order
    ensures Enabled(s, RunStep(id, childId, BAD))
    ensures
      var s' := RunTask(CAUTIOUS, s, id, childId, BAD);
      && Structured(s') && Moves(s, s', 1) && s'.cases.Keys <= {1} && s'.scores == map[]
  {
    FreshNext(s, order, childId);
    hide Structured, Fresh, RunTask, Moves;
    var step := RunStep(id, childId, BAD);
    assert Enabled(s, step);
    StepKeeps(CAUTIOUS, s, step);
    StepMoves(CAUTIOUS, s, step);
    CaseStays(s, Apply(CAUTIOUS, s, step));
    BrokenRunScores(CAUTIOUS, s, id, childId, BAD);
  }

  /** A root that fails is given up: there is no attempt to degrade and no emergency video. */
  lemma RootFails(s: Store)
    requires Small(s, [1]) && s.rows[1].status == Queued && s.rows[1].parent.None?
    ensures Enabled(s, RunStep(1, 9, BAD))
    ensures
      var s' := Apply(CAUTIOUS, s, RunStep(1, 9, BAD));
      && Small(s', [1]) && s'.rows[1].status == Failed && s'.rows[1].parent.None? && !CreatesDegraded(s, s', 1)
  {
    hide Structured, Fresh, RunTask, CreatesDegraded, Moves, GivingUp, Degrading, GivenUp;
    FailureFrame(s, [1], 1, 9);
    RootGivesUp(s);
    RunForecastsComeTrue(CAUTIOUS, s, 1, 9, BAD, 1);
    StepDegradesExactly(CAUTIOUS, s, RunStep(1, 9, BAD), 1);
    MovedPlace(s, RunTask(CAUTIOUS, s, 1, 9, BAD), 1);
    SmallGivenUp(s, RunTask(CAUTIOUS, s, 1, 9, BAD));
  }

  lemma RootGivesUp(s: Store)
    requires Small(s, [1]) && s.rows[1].parent.None?
    ensures GivingUp(CAUTIOUS, s, RunStep(1, 9, BAD), 1) && !Degrading(CAUTIOUS, s, RunStep(1, 9, BAD), 1)
  {
    hide Structured, Lineage;
  }

  lemma SmallGivenUp(s: Store, s': Store)
    requires Small(s, [1]) && GivenUp(s, s', 1) && Structured(s') && s'.cases.Keys <= {1} && s'.scores == map[]
    requires 1 in s'.rows && SamePlace(s.rows[1], s'.rows[1])
    ensures Small(s', [1]) && s'.rows[1].status == Failed
  {
    hide Structured;
  }

  lemma MovedPlace(s: Store, s': Store, id: TaskId)
    requires Moves(s, s', 1) && id in s.rows
    ensures id in s'.rows && SamePlace(s.rows[id], s'.rows[id])
  {
  }

  lemma RetriedRows(s: Store, base: TaskId, childId: TaskId)
    requires base in s.rows && s.rows[base].status == Failed && s.rows[base].root == 1 && |s.order| < 5
    ensures
      var s' := Retry(CAUTIOUS, s, base, childId);
      s'.order == s.order + [childId] && s'.rows == s.rows[childId := FromRevision(s.rows[base], childId)] && s'.scores == s.scores
  {
    assert s.Count(1) <= |s.order|;
    hide Lineage, Projection;
  }

  /** A small lineage with a child of one of its tasks is small. */
  lemma SmallWithChild(s: Store, order: seq<TaskId>, s': Store, childId: TaskId)
    requires Small(s, order) && Structured(s') && s'.order == order + [childId] && s'.cases.Keys <= {1} && s'.scores == map[]
    requires s'.rows.Keys == s.rows.Keys + {childId}
    requires forall x :: x in s.rows && x != childId ==> s'.rows[x].root == 1 && s'.rows[x].resolved.None? && s'.rows[x].parent == s.rows[x].parent
    requires s'.rows[childId].root == 1 && s'.rows[childId].resolved.None?
    requires s'.rows[childId].parent.Some? ==> s'.rows[childId].parent.value in order
    ensures Small(s', order + [childId])
  {
    hide Structured;
  }

  lemma RetryFrame(s: Store, base: TaskId, childId: TaskId)
    requires Structured(s) && Fresh(s, childId) && base in s.rows && s.rows[base].root == 1 && s.cases.Keys <= {1}
    ensures
      var s' := Retry(CAUTIOUS, s, base, childId);
      Structured(s') && s'.cases.Keys <= {1} && !CreatesDegraded(s, s', 1)
  {
    hide Structured, Fresh, Moves, CreatesDegraded, NewRowsPlain, Retry;
    var step := RetryStep(base, childId);
    assert Enabled(s, step);
    StepKeeps(CAUTIOUS, s, step);
    StepMoves(CAUTIOUS, s, step);
    OtherStepsArePlain(CAUTIOUS, s, step);
    CaseStays(s, Retry(CAUTIOUS, s, base, childId));
    PlainCreatesNone(s, Retry(CAUTIOUS, s, base, childId), 1);
  }

  lemma Retried(s: Store, order: seq<TaskId>, base: TaskId, childId: TaskId)
    requires Small(s, order) && base in order && s.rows[base].status == Failed && s.rows[base].id == base
    requires |order| < 5 && childId !in order && childId != 1
    ensures Enabled(s, RetryStep(base, childId))
    ensures
      var s' := Apply(CAUTIOUS, s, RetryStep(base, childId));
      && Small(s', order + [childId]) && s'.rows == s.rows[childId := FromRevision(s.rows[base], childId)]
      && !CreatesDegraded(s, s', 1)
  {
    hide Structured, Fresh, CreatesDegraded, Retry;
    FreshNext(s, order, childId);
    RetryFrame(s, base, childId);
    RetriedRows(s, base, childId);
    SmallWithChild(s, order, Retry(CAUTIOUS, s, base, childId), childId);
  }

  ghost predicate NoneDegraded(s: Store, ids: seq<TaskId>) {
    forall x :: x in ids && x in s.rows && s.rows[x].parent.Some? ==> s.rows[x].mode != Some(Degraded)
  }

  /** A child that fails, where nothing is degraded yet, gets a degraded attempt. */
  lemma ChildDegrades(s: Store, order: seq<TaskId>, id: TaskId, childId: TaskId)
    requires Small(s, order) && 1 in order && id in order && id != childId && s.rows[id].status == Queued && s.rows[id].parent.Some?
    requires |order| < 5 && childId !in order && childId != 1
    requires NoneDegraded(s, order)
    ensures Enabled(s, RunStep(id, childId, BAD))
    ensures
      var s' := Apply(CAUTIOUS, s, RunStep(id, childId, BAD));
      && Small(s', order + [childId]) && s'.rows[id].status == Failed && CreatesDegraded(s, s', 1)
      && s'.rows[childId].parent == Some(id)
      && NoneDegraded(s', order) && (forall x :: x in order ==> SamePlace(s.rows[x], s'.rows[x]))
  {
    FailureFrame(s, order, id, childId);
    DegradingHere(s, order, id, childId);
    hide Structured, Fresh, RunTask, CreatesDegraded, Moves, Degrading, GivingUp;
    var s' := RunTask(CAUTIOUS, s, id, childId, BAD);
    RunForecastsComeTrue(CAUTIOUS, s, id, childId, BAD, 1);
    StepDegradesExactly(CAUTIOUS, s, RunStep(id, childId, BAD), 1);
    forall x | x in order ensures x in s'.rows && SamePlace(s.rows[x], s'.rows[x]) {
      MovedPlace(s, s', x);
    }
    ScheduledFacts(s, s', order, id, childId);
    hide ChildScheduled;
    SmallWithChild(s, order, s', childId);
  }

  lemma ScheduledFacts(s: Store, s': Store, order: seq<TaskId>, id: TaskId, childId: TaskId)
    requires ChildScheduled(s, s', id, childId) && Small(s, order)
    ensures s'.order == order + [childId] && s'.rows.Keys == s.rows.Keys + {childId} && s'.rows[id].status == Failed
    ensures s'.rows[childId].root == 1 && s'.rows[childId].parent == Some(id) && s'.rows[childId].resolved.None?
    ensures forall x :: x in s.rows ==> s'.rows[x].resolved.None? && s'.rows[x].mode == s.rows[x].mode
  {
    hide Structured;
  }

  lemma DegradingHere(s: Store, order: seq<TaskId>, id: TaskId, childId: TaskId)
    requires Small(s, order) && id in order && s.rows[id].parent.Some? && |order| < 5
    requires NoneDegraded(s, order)
    ensures Degrading(CAUTIOUS, s, RunStep(id, childId, BAD), 1)
  {
    hide Structured;
    assert forall x :: x in s.Members(1) ==> x in order;
    assert "provider_"[0] != "render_failed"[0];
    hide Lineage;
  }

  lemma Deleted(s: Store, order: seq<TaskId>, x: TaskId)
    requires Small(s, order + [x]) && x !in order && (forall id :: id in order ==> s.rows[id].parent != Some(x))
    ensures Enabled(s, DeleteStep(x))
    ensures
      var s' := Apply(CAUTIOUS, s, DeleteStep(x));
      Small(s', order) && s'.rows == s.rows - {x} && !CreatesDegraded(s, s', 1)
  {
    StepKeeps(CAUTIOUS, s, DeleteStep(x));
    WithoutLast(order, x);
    hide Structured, Without;
  }

  lemma {:induction false} WithoutNone(ids: seq<TaskId>, x: TaskId)
    requires x !in ids
    ensures Without(ids, [x]) == ids
  {
    if ids != [] {
      var n := |ids| - 1;
      WithoutNone(ids[..n], x);
      assert ids[n] in ids && ids == ids[..n] + [ids[n]];
    }
  }

  lemma WithoutLast(ids: seq<TaskId>, x: TaskId)
    requires x !in ids
    ensures Without(ids + [x], [x]) == ids
  {
    assert (ids + [x])[..|ids|] == ids;
    WithoutNone(ids, x);
  }

  /** A place in a run of which the number of degraded attempts so far is known. */
  ghost predicate Reached(steps: seq<Step>, s: Store, degraded: nat) {
    IsRun(CAUTIOUS, EMPTY, steps) && s == After(CAUTIOUS, steps) && DegradesIn(CAUTIOUS, EMPTY, steps, 1) == degraded
  }

  lemma Reach(steps: seq<Step>, s: Store, degraded: nat, step: Step)
    requires Reached(steps, s, degraded) && Enabled(s, step)
    ensures
      var s' := Apply(CAUTIOUS, s, step);
      Reached(steps + [step], s', if CreatesDegraded(s, s', 1) then degraded + 1 else degraded)
  {
    hide Apply, Enabled, CreatesDegraded;
    RunGrows(CAUTIOUS, steps, step, s);
  }

  /** A root fails, its retry fails and is degraded. */
  const ONCE := [CREATED] + [RunStep(1, 9, BAD)] + [RetryStep(1, 2)] + [RunStep(2, 3, BAD)]
  /** The degraded attempt is deleted, and the failed retry is retried and fails again. */
  const TWICE := ONCE + [DeleteStep(3)] + [RetryStep(2, 4)] + [RunStep(4, 5, BAD)]

  lemma FailedRoot() returns (s: Store)
    ensures Reached([CREATED] + [RunStep(1, 9, BAD)], s, 0)
    ensures Small(s, [1]) && s.rows[1].status == Failed && s.rows[1].id == 1 && NoneDegraded(s, [1])
  {
    assert Reached([], EMPTY, 0);
    RootCreated();
    hide CreatesDegraded, Apply, Enabled, Reached, Structured;
    Reach([], EMPTY, 0, CREATED);
    assert [] + [CREATED] == [CREATED];
    var s1 := Apply(CAUTIOUS, EMPTY, CREATED);
    RootFails(s1);
    Reach([CREATED], s1, 0, RunStep(1, 9, BAD));
    s := Apply(CAUTIOUS, s1, RunStep(1, 9, BAD));
    RowKeyed(s, 1);
  }

  /** A failed task is retried and the retry fails: it is degraded. */
  lemma RetryFails(steps: seq<Step>, s: Store, degraded: nat, order: seq<TaskId>, base: TaskId, childId: TaskId, nextId: TaskId)
    returns (s': Store)
    requires Reached(steps, s, degraded) && Small(s, order) && NoneDegraded(s, order)
    requires 1 in order && base in order && s.rows[base].status == Failed && s.rows[base].id == base && |order| < 4
    requires childId !in order && nextId !in order && childId != nextId && childId != 1 && nextId != 1
    ensures Reached(steps + [RetryStep(base, childId)] + [RunStep(childId, nextId, BAD)], s', degraded + 1)
    ensures Small(s', order + [childId] + [nextId]) && NoneDegraded(s', order + [childId])
    ensures s'.rows[childId].status == Failed && s'.rows[childId].id == childId && s'.rows[childId].parent == Some(base)
    ensures forall x :: x in order ==> s'.rows[x].parent == s.rows[x].parent
  {
    hide CreatesDegraded, Apply, Enabled, Reached, Structured;
    Retried(s, order, base, childId);
    Reach(steps, s, degraded, RetryStep(base, childId));
    var s1 := Apply(CAUTIOUS, s, RetryStep(base, childId));
    ChildDegrades(s1, order + [childId], childId, nextId);
    Reach(steps + [RetryStep(base, childId)], s1, degraded, RunStep(childId, nextId, BAD));
    s' := Apply(CAUTIOUS, s1, RunStep(childId, nextId, BAD));
  }

  /** After a deletion a lineage does get a second degraded attempt. */
  lemma DegradedTwice()
    ensures IsRun(CAUTIOUS, EMPTY, TWICE) && DegradesIn(CAUTIOUS, EMPTY, TWICE, 1) == 2
  {
    var s1 := FailedRoot();
    hide CreatesDegraded, Apply, Enabled, Structured;
    var s2 := RetryFails([CREATED] + [RunStep(1, 9, BAD)], s1, 0, [1], 1, 2, 3);
    assert [1] + [2] == [1, 2];
    Deleted(s2, [1, 2], 3);
    Reach(ONCE, s2, 1, DeleteStep(3));
    var s3 := Apply(CAUTIOUS, s2, DeleteStep(3));
    var _ := RetryFails(ONCE + [DeleteStep(3)], s3, 1, [1, 2], 2, 4, 5);
  }

  // ------------------------------------------------------------- a stranded lineage

  /** Two steps strand a lineage: a root is created and cancelled, and stays pending with nothing queued. */
  lemma CancelledRootIsStranded(cfg: Settings)
    requires cfg.maxQueuedTasks > 0
    ensures IsRun(cfg, EMPTY, [CREATED] + [CancelStep(1)])
    ensures
      var s := After(cfg, [CREATED] + [CancelStep(1)]);
      1 in s.rows && s.rows[1].root == 1 && s.rows[1].delivery == Some(Pending) && !Waiting(s.rows, 1)
  {
    Created(cfg);
    var s := Apply(cfg, EMPTY, CREATED);
    assert After(cfg, []) == EMPTY && IsRun(cfg, EMPTY, []) && Enabled(s, CancelStep(1));
    hide CreatesDegraded, Apply, Enabled, IsRun, Exec;
    RunGrows(cfg, [], CREATED, EMPTY);
    assert [] + [CREATED] == [CREATED];
    RunGrows(cfg, [CREATED], CancelStep(1), s);
    CancelledHere(cfg, s);
  }

  lemma CancelledHere(cfg: Settings, s: Store)
    requires s.rows == map[1 := NewRoot(1, None)]
    ensures
      var s' := Apply(cfg, s, CancelStep(1));
      1 in s'.rows && s'.rows[1].root == 1 && s'.rows[1].delivery == Some(Pending) && !Waiting(s'.rows, 1)
  {
  }

  // ---------------------------------------------------------- forgotten repair columns

  /** Where repairs are switched off a root forgets why it was not repaired: the columns just stored name the issue and
      the reason, and the row ends without them. */
  lemma RootForgetsRepair()
    ensures Enabled(EMPTY, CREATED)
    ensures
      var s := Apply(CAUTIOUS, EMPTY, CREATED);
      var s' := Apply(CAUTIOUS, s, RunStep(1, 9, BAD));
      && Enabled(s, RunStep(1, 9, BAD)) && 1 in s.rows && 1 in s'.rows && s'.rows[1].repair == NO_REPAIR
      && Recorded(CAUTIOUS, s, FailedRow(s.rows[1]), 9, BAD.issueCodes) ==
         RepairState(false, 0, Some("render_failed"), Some("disabled"))
  {
    RootCreated();
    Created(CAUTIOUS);
    hide Apply;
    var s := Apply(CAUTIOUS, EMPTY, CREATED);
    ForgetsHere(s);
  }

  lemma ForgetsHere(s: Store)
    requires Small(s, [1]) && s.rows[1] == NewRoot(1, None)
    ensures Enabled(s, RunStep(1, 9, BAD))
    ensures
      var s' := Apply(CAUTIOUS, s, RunStep(1, 9, BAD));
      && 1 in s'.rows && s'.rows[1].repair == NO_REPAIR
      && Recorded(CAUTIOUS, s, FailedRow(s.rows[1]), 9, BAD.issueCodes) ==
         RepairState(false, 0, Some("render_failed"), Some("disabled"))
  {
    FreshNext(s, [1], 9);
    hide Fresh, FailTask, Structured;
    ClaimedIsLoaded(s, 1, 9, BAD.generationMode);
    hide Loaded;
    var running := s.rows[1].(status := Running);
    RootFailureForgetsRepairState(CAUTIOUS, s.EnsureCase(running), running, 9, BAD.issueCodes, BAD.context);
    RecordedHere(s);
    hide Recorded;
  }

  lemma RecordedHere(s: Store)
    requires Small(s, [1]) && s.rows[1] == NewRoot(1, None)
    ensures Recorded(CAUTIOUS, s, FailedRow(s.rows[1]), 9, BAD.issueCodes) ==
            RepairState(false, 0, Some("render_failed"), Some("disabled"))
  {
    hide Structured;
    assert s.order[..0] == [] && Lineage([], s.rows, 1) == [];
    var rows := s.Put(FailedRow(s.rows[1])).rows;
    assert Lineage([], rows, 1) == [];
    assert Lineage(s.order, rows, 1) == [1];
  }
}
