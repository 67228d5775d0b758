/** How a store moves: each step works inside one lineage and no row ever goes back. */
module Progress {
  import opened Wrappers
  import opened TaskModel
  import opened LineageGraph
  import opened TaskStore
  import opened QualityJudge
  import opened Lifecycle
  import opened Invariants

  predicate Closed(delivery: Option<Delivery>) {
    delivery == Some(Delivered) || delivery == Some(Undelivered)
  }

  /** A row keeps its place, never returns to pending delivery or to the queue, stays decided once its delivery
      is, and stays degraded once it is. */
  predicate Advances(a: Task, b: Task) {
    && SamePlace(a, b)
    && (b.delivery == Some(Pending) ==> a.delivery == Some(Pending))
    && (Closed(a.delivery) ==> Closed(b.delivery))
    && (b.Claimable() ==> a.Claimable())
    && (a.parent.Some? && a.mode == Some(Degraded) ==> b.mode == Some(Degraded))
  }

  predicate ParentStored(rows: Rows, id: TaskId) {
    id in rows && rows[id].parent.Some? ==> rows[id].parent.value in rows
  }

  /** From s to s', only lineage r moves, and its rows only advance. */
  ghost predicate Moves(s: Store, s': Store, r: TaskId) {
    && s.order <= s'.order
    && (forall id :: id in s.rows ==> id in s'.rows && Advances(s.rows[id], s'.rows[id]))
    && (forall id :: id in s.rows && s.rows[id].root != r ==> s'.rows[id] == s.rows[id])
    && (forall id :: id in s'.rows && id !in s.rows ==> s'.rows[id].root == r && ParentStored(s'.rows, id))
    && (forall q :: q != r ==> (q in s'.cases <==> q in s.cases) && (q in s.cases ==> s'.cases[q] == s.cases[q]))
  }

  lemma MovesTransitive(s: Store, s': Store, s'': Store, r: TaskId)
    requires Moves(s, s', r) && Moves(s', s'', r)
    ensures Moves(s, s'', r)
  {
    forall id | id in s''.rows && id !in s.rows ensures ParentStored(s''.rows, id) {
      if id in s'.rows {
        assert ParentStored(s'.rows, id) && Advances(s'.rows[id], s''.rows[id]);
        if s'.rows[id].parent.Some? {
          var p := s'.rows[id].parent.value;
          assert Advances(s'.rows[p], s''.rows[p]);
        }
      }
    }
  }

  lemma PutMoves(s: Store, t: Task)
    requires t.id in s.rows && Advances(s.rows[t.id], t)
    ensures Moves(s, s.Put(t), t.root)
  {
  }

  lemma SyncMoves(s: Store, r: TaskId)
    ensures Moves(s, s.SyncCase(r), r)
  {
  }

  lemma PersistMoves(s: Store, child: Task)
    requires child.id !in s.rows && (child.parent.Some? ==> child.parent.value in s.rows)
    ensures Moves(s, Persist(s, child), child.root)
  {
  }

  lemma SyncRootMoves(s: Store, task: Task)
    requires Linked(s.order, s.rows) && Held(s, task)
    ensures Moves(s, SyncRoot(s, task), task.root)
  {
    if task.root in s.rows && !(task.id != task.root && task.challenger) {
      var root := Resolve(s.rows[task.root], task);
      assert s.rows[task.root].root == task.root by {
        assert task.id in s.rows && s.rows[task.id].root == task.root;
      }
      PutMoves(s, root);
      SyncMoves(s.Put(root), task.root);
      MovesTransitive(s, s.Put(root), SyncRoot(s, task), task.root);
    } else {
      SyncMoves(s, task.root);
    }
  }

  lemma FinalizeMoves(s: Store, task: Task, mode: Mode, tier: string)
    requires Linked(s.order, s.rows) && Held(s, task)
    requires task.parent.Some? ==> mode == Degraded
    ensures Moves(s, FinalizeDelivery(s, task, mode, tier), task.root)
  {
    var delivered := DeliveredAs(task, Some(mode), Some(tier));
    var s1 := s.Put(delivered);
    PutMoves(s, delivered);
    assert Linked(s1.order, s1.rows) && Held(s1, delivered);
    SyncRootMoves(s1, delivered);
    MovesTransitive(s, s1, SyncRoot(s1, delivered), task.root);
  }

  lemma MarkFailedMoves(s: Store, task: Task, reason: string)
    requires Linked(s.order, s.rows) && Loaded(s, task) && !task.Claimable()
    ensures Moves(s, MarkDeliveryFailed(s, task, reason), task.root)
  {
    var s1 := s.Put(GiveUp(task, reason));
    PutMoves(s, GiveUp(task, reason));
    if task.root != task.id && task.root in s1.rows {
      var root := GiveUp(s1.rows[task.root], reason);
      assert task.id in s.rows && s.rows[task.id].root == task.root && s1.rows[task.root].root == task.root;
      PutMoves(s1, root);
      MovesTransitive(s, s1, s1.Put(root), task.root);
      SyncMoves(s1.Put(root), task.root);
      MovesTransitive(s, s1.Put(root), MarkDeliveryFailed(s, task, reason), task.root);
    }
  }

  lemma AfterRepairMoves(cfg: Settings, s: Store, task: Task, childId: TaskId, issueCodes: seq<string>)
    requires Linked(s.order, s.rows) && Loaded(s, task) && Fresh(s, childId) && !task.Claimable()
    ensures Moves(s, AfterRepair(cfg, s, task, childId, issueCodes), task.root)
  {
    var s1 := s.Put(task);
    var verdict := JudgeRepair(cfg, s1.Count(task.root), issueCodes);
    var s2 := if verdict.created then Persist(s1, RepairChild(task, childId)) else s1;
    PutMoves(s, task);
    assert s1.rows[task.id].root == task.root;
    if verdict.created {
      PersistMoves(s1, RepairChild(task, childId));
      MovesTransitive(s, s1, s2, task.root);
    }
    hide JudgeRepair;
    if task.root in s2.rows {
      var root := WithRepairState(s2.rows[task.root], s2.Count(task.root), issueCodes, verdict);
      assert task.root in s.rows && s.rows[task.root].root == task.root by {
        assert task.id in s.rows && s.rows[task.id].root == task.root;
      }
      PutMoves(s2, root);
      MovesTransitive(s, s2, s2.Put(root), task.root);
    }
  }

  lemma EndFailureMoves(cfg: Settings, s: Store, task: Task, childId: TaskId, issueCodes: seq<string>, context: FailureContext)
    requires Linked(s.order, s.rows) && Loaded(s, task) && Fresh(s, childId) && !task.Claimable()
    ensures Moves(s, EndFailure(s, task, childId, JudgeEnding(cfg, s, task, issueCodes, context)), task.root)
  {
    var ending := JudgeEnding(cfg, s, task, issueCodes, context);
    match ending
    case DegradedAttempt(generationMode) => PersistMoves(s, DegradedChild(task, childId, generationMode));
    case Emergency(mode, tier) => FinalizeMoves(s, task, mode, tier);
    case Abandoned(reason) => MarkFailedMoves(s, task, reason);
  }

  lemma FailTaskMoves(cfg: Settings, s: Store, running: Task, childId: TaskId, issueCodes: seq<string>, context: FailureContext)
    requires Structured(s) && Loaded(s, running) && Fresh(s, childId)
    ensures Moves(s, FailTask(cfg, s, running, childId, issueCodes, context), running.root)
  {
    var task := FailedRow(running);
    var verdict := JudgeRepair(cfg, s.Put(task).Count(task.root), issueCodes);
    var s1 := AfterRepair(cfg, s, task, childId, issueCodes);
    AfterRepairMoves(cfg, s, task, childId, issueCodes);
    AfterRepairKeeps(cfg, s, task, childId, issueCodes);
    var s2 := if verdict.created then s1 else EndFailure(s1, task, childId, JudgeEnding(cfg, s1, task, issueCodes, context));
    if !verdict.created {
      StillLoaded(cfg, s, task, childId, issueCodes);
      EndFailureMoves(cfg, s1, task, childId, issueCodes, context);
      hide Moves;
      MovesTransitive(s, s1, s2, task.root);
    }
    hide AfterRepair, EndFailure, JudgeEnding, JudgeRepair, Loaded, Fresh, Moves, Structured;
    SyncMoves(s2, task.root);
    MovesTransitive(s, s2, s2.SyncCase(task.root), task.root);
  }

  lemma RecordSuccessMoves(cfg: Settings, s: Store, running: Task, score: int)
    requires Linked(s.order, s.rows) && Loaded(s, running)
    ensures Moves(s, RecordSuccess(s, SuccessRow(cfg, running, score), score), running.root)
  {
    var task := SuccessRow(cfg, running, score);
    var s0 := s.(scores := s.scores[task.id := score]);
    var s1 := s0.Put(task);
    PutMoves(s0, task);
    assert Moves(s, s1, task.root);
    assert Linked(s1.order, s1.rows) && Held(s1, task);
    SyncRootMoves(s1, task);
    hide Moves, SyncRoot, SuccessRow, Linked, Loaded, Held;
    MovesTransitive(s, s1, SyncRoot(s1, task), task.root);
    SyncMoves(SyncRoot(s1, task), task.root);
    MovesTransitive(s, SyncRoot(s1, task), RecordSuccess(s, task, score), task.root);
  }

  lemma AcceptedRowsMove(s: Store, winner: TaskId)
    requires Structured(s) && CanAccept(s, winner)
    ensures Moves(s, s.(rows := AcceptedRows(s, winner)), s.rows[winner].root)
  {
    hide AcceptedRows, OneBest, Isolated, ParentsFirst, Distinct, RootsPlain;
    var root, rows := s.rows[winner].root, AcceptedRows(s, winner);
    assert s.rows[root].root == root;
    AcceptedRowsFacts(s, winner);
    AcceptedRootStatus(s, winner);
    hide Linked, CanAccept;
    forall id | id in s.rows ensures Advances(s.rows[id], rows[id]) {
      if id != root {
        assert rows[id] == s.rows[id].(best := rows[id].best, rank := rows[id].rank);
      }
    }
  }

  lemma AcceptMoves(s: Store, winner: TaskId)
    requires Structured(s) && winner in s.rows
    ensures Moves(s, Accept(s, winner), s.rows[winner].root)
  {
    if CanAccept(s, winner) {
      var root := s.rows[winner].root;
      var s1 := s.(rows := AcceptedRows(s, winner));
      AcceptedRowsMove(s, winner);
      hide AcceptedRows, Structured, Moves;
      SyncMoves(s1, root);
      MovesTransitive(s, s1, Accept(s, winner), root);
    }
  }

  lemma AcceptedRootStatus(s: Store, winner: TaskId)
    requires Structured(s) && CanAccept(s, winner)
    ensures
      var root := s.rows[winner].root;
      var task := AcceptedRows(s, winner)[root];
      && task.status == Completed && task.parent.None? && task.delivery == Some(Delivered)
      && task.resolved == Some(winner)
  {
  }

  lemma EscalateMoves(cfg: Settings, s: Store, task: Task, childId: TaskId, report: RunReport)
    requires report.Rendered?
    requires Structured(s) && task.id in s.rows && s.rows[task.id].root == task.root && Fresh(s, childId)
    ensures Moves(s, Escalate(cfg, s, task, childId, report), task.root)
    ensures Structured(Escalate(cfg, s, task, childId, report))
  {
    RowKeyed(s, task.id);
    hide Structured, Moves;
    var s1 := ScheduleChallenger(cfg, s, task, childId, report.challengerGuardOpen);
    PersistMoves(s, ChallengerChild(task, childId));
    PersistKeeps(s, ChallengerChild(task, childId));
    MovesReflexive(s, task.root);
    hide WantsChallenger, CanChallenge, Promotes, Fresh;
    assert Structured(s1) && Moves(s, s1, task.root);
    assert task.id in s1.rows && s1.rows[task.id].root == task.root;
    AcceptMoves(s1, task.id);
    AcceptKeeps(s1, task.id);
    MovesTransitive(s, s1, Accept(s1, task.id), task.root);
  }

  lemma MovesReflexive(s: Store, r: TaskId)
    ensures Moves(s, s, r)
  {
  }

  lemma CompleteRunMoves(cfg: Settings, s: Store, running: Task, childId: TaskId, report: RunReport)
    requires report.Rendered?
    requires Structured(s) && Loaded(s, running) && Fresh(s, childId)
    ensures Moves(s, CompleteRun(cfg, s, running, childId, report), running.root)
    ensures Structured(CompleteRun(cfg, s, running, childId, report))
  {
    var score := TotalScore(true, report.issueCodes, report.previewIssueCodes);
    var task := SuccessRow(cfg, running, score);
    var s2 := RecordSuccess(s, task, score);
    RecordSuccessMoves(cfg, s, running, score);
    RecordSuccessFrame(s, task, score);
    RecordSuccessKeepsFresh(s, task, score, childId);
    RecordSuccessKeeps(cfg, s, running, score);
    hide RecordSuccess, Escalate, Structured, Moves;
    EscalateMoves(cfg, s2, task, childId, report);
    MovesTransitive(s, s2, Escalate(cfg, s2, task, childId, report), running.root);
  }

  lemma RunMoves(cfg: Settings, s: Store, id: TaskId, childId: TaskId, report: RunReport)
    requires Structured(s) && Fresh(s, childId) && id in s.rows && s.rows[id].Claimable()
    ensures Moves(s, RunTask(cfg, s, id, childId, report), s.rows[id].root)
  {
    hide CompleteRun, FailTask, Structured, Loaded, Fresh;
    var running := Classified(s.rows[id], report.generationMode).(status := Running);
    var s1 := s.EnsureCase(running);
    assert Moves(s, s1, s.rows[id].root);
    hide Moves;
    ClaimedIsLoaded(s, id, childId, report.generationMode);
    match report {
      case Rendered(_, _, _, _, _, _) => CompleteRunMoves(cfg, s1, running, childId, report);
      case Broken(_, issueCodes, context) => FailTaskMoves(cfg, s1, running, childId, issueCodes, context);
    }
    MovesTransitive(s, s1, RunTask(cfg, s, id, childId, report), running.root);
  }

  // ------------------------------------------------------------------------ all the steps

  lemma RunKeeps(cfg: Settings, s: Store, id: TaskId, childId: TaskId, report: RunReport)
    requires Structured(s) && Fresh(s, childId)
    ensures Structured(RunTask(cfg, s, id, childId, report))
  {
    if id in s.rows && s.rows[id].status != Cancelled {
      var running := Classified(s.rows[id], report.generationMode).(status := Running);
      var s1 := s.EnsureCase(running);
      hide Structured, Moves, Loaded, Fresh, CompleteRun, FailTask;
      ClaimedIsLoaded(s, id, childId, report.generationMode);
      match report
      case Rendered(_, _, _, _, _, _) => CompleteRunMoves(cfg, s1, running, childId, report);
      case Broken(_, issueCodes, context) => FailTaskKeeps(cfg, s1, running, childId, issueCodes, context);
    }
  }

  lemma CancelledKeeps(s: Store, id: TaskId)
    requires Structured(s)
    ensures Structured(Cancel(s, id))
  {
    assert id in s.rows ==> s.rows[id].id == id;
    hide OneBest, Isolated, RootsPlain, Linked;
    if id in s.rows {
      PutKeeps(s, s.rows[id].(status := Cancelled, phase := AtCancelled));
    }
  }

  lemma StepKeeps(cfg: Settings, s: Store, step: Step)
    requires Structured(s) && Enabled(s, step)
    ensures Structured(Apply(cfg, s, step))
  {
    hide Structured, RunTask, Accept, ReconcileOrphans, KeyHolder, ActiveCount, HarmlessPut;
    if step.id in s.rows {
      RowKeyed(s, step.id);
    }
    var s' := Apply(cfg, s, step);
    match step
    case CreateStep(id, key) =>
      if ActiveCount(s) < cfg.maxQueuedTasks {
        var holder := if key.Some? then KeyHolder(s.order, s.rows, key.value) else None;
        if holder.None? {
          PersistKeeps(s, NewRoot(id, key));
        } else {
          CasesDoNotMatter(s, s');
        }
      }
    case RunStep(id, childId, report) => RunKeeps(cfg, s, id, childId, report);
    case ReviseStep(id, childId) =>
      if id in s.rows {
        PersistKeeps(s, FromRevision(s.rows[id], childId));
        PersistKeeps(s, ChallengerChild(s.rows[id], childId));
      }
    case RetryStep(id, childId) =>
      if id in s.rows {
        PersistKeeps(s, FromRevision(s.rows[id], childId));
      }
    case AcceptStep(id) => AcceptKeeps(s, id);
    case CancelStep(id) =>
      if id in s.rows {
        CancelledKeeps(s, id);
      }
    case DeleteStep(id) => DeleteKeeps(s, id);
    case ReconcileStep(id) => ReconcileKeeps(s, id);
  }

  /** Over every run, whatever is cancelled, deleted or reconciled along the way: parents stay before children,
      at most one task of a lineage is best, a root resolves to a challenger only when that challenger was
      accepted. */
  lemma {:induction false} RunsKeep(cfg: Settings, s: Store, steps: seq<Step>)
    requires Structured(s) && IsRun(cfg, s, steps)
    ensures Structured(Exec(cfg, s, steps))
  {
    hide Structured, Apply;
    if steps != [] {
      var n := |steps| - 1;
      RunsKeep(cfg, s, steps[..n]);
      StepKeeps(cfg, Exec(cfg, s, steps[..n]), steps[n]);
    }
  }

  function Touched(s: Store, step: Step): TaskId {
    match step
    case CreateStep(id, key) =>
      var holder := if key.Some? then KeyHolder(s.order, s.rows, key.value) else None;
      if holder.Some? then s.rows[holder.value].root else id
    case ReconcileStep(id) => id
    case _ => if step.id in s.rows then s.rows[step.id].root else step.id
  }

  /** Isolation of lineages: a step that deletes nothing moves one lineage, and only forwards. */
  lemma StepMoves(cfg: Settings, s: Store, step: Step)
    requires Structured(s) && Enabled(s, step) && !step.DeleteStep?
    ensures Moves(s, Apply(cfg, s, step), Touched(s, step))
  {
    hide Structured, Moves, ParentStored, Linked, RunTask, Create, AcceptedRows, Cancel, ReconcileOrphans, Persist;
    LinkedOf(s);
    if step.id in s.rows {
      RowKeyed(s, step.id);
    }
    MovesReflexive(s, Touched(s, step));
    match step
    case CreateStep(id, key) => CreateMoves(cfg, s, id, key);
    case RunStep(id, childId, report) => RunMoves(cfg, s, id, childId, report);
    case ReviseStep(id, childId) =>
      if id in s.rows {
        PersistMoves(s, FromRevision(s.rows[id], childId));
        PersistMoves(s, ChallengerChild(s.rows[id], childId));
      }
    case RetryStep(id, childId) =>
      if id in s.rows {
        PersistMoves(s, FromRevision(s.rows[id], childId));
      }
    case AcceptStep(id) =>
      if id in s.rows {
        AcceptMoves(s, id);
      }
    case CancelStep(id) => CancelMoves(s, id);
    case ReconcileStep(root) => ReconcileMoves(s, root);
  }

  lemma EnsuredMoves(s: Store, task: Task)
    ensures Moves(s, s.EnsureCase(task).SyncCase(task.root), task.root)
  {
    hide Projection;
  }

  lemma CreateMoves(cfg: Settings, s: Store, id: TaskId, key: Option<string>)
    requires Fresh(s, id)
    ensures Moves(s, Create(cfg, s, id, key), Touched(s, CreateStep(id, key)))
  {
    hide KeyHolder, ActiveCount, Moves, Persist;
    PersistMoves(s, NewRoot(id, key));
    var holder := if key.Some? then KeyHolder(s.order, s.rows, key.value) else None;
    MovesReflexive(s, Touched(s, CreateStep(id, key)));
    if holder.Some? {
      EnsuredMoves(s, s.rows[holder.value]);
    }
  }

  lemma CancelMoves(s: Store, id: TaskId)
    requires Linked(s.order, s.rows)
    ensures Moves(s, Cancel(s, id), Touched(s, CancelStep(id)))
  {
    if id in s.rows {
      PutMoves(s, s.rows[id].(status := Cancelled, phase := AtCancelled));
    }
  }

  lemma OrphanRowsElsewhere(s: Store, root: TaskId)
    ensures forall id :: id in s.rows && s.rows[id].root != root ==> OrphanRows(s, root)[id] == s.rows[id]
  {
  }

  lemma ReconcileMoves(s: Store, root: TaskId)
    ensures Moves(s, ReconcileOrphans(s, root), root)
  {
    var s1 := s.(rows := OrphanRows(s, root));
    assert Moves(s, s1, root) by {
      OrphanRowsFacts(s, root);
      OrphanRowsElsewhere(s, root);
      hide OrphanRows;
    }
    hide OrphanRows;
    if HasNewOrphan(s, root) {
      hide Moves;
      SyncMoves(s1, root);
      MovesTransitive(s, s1, s1.SyncCase(root), root);
    }
  }

  // ------------------------------------------------------------- the lineages left alone

  lemma {:induction false} LineageSkips(order: seq<TaskId>, extra: seq<TaskId>, rows: Rows, q: TaskId)
    requires forall id :: id in extra && id in rows ==> rows[id].root != q
    ensures Lineage(order + extra, rows, q) == Lineage(order, rows, q)
  {
    if extra == [] {
      assert order + extra == order;
    } else {
      var n := |extra| - 1;
      assert (order + extra)[..|order| + n] == order + extra[..n];
      LineageSkips(order, extra[..n], rows, q);
    }
  }

  lemma AppendedRowsAreNew(s: Store, s': Store, r: TaskId)
    requires Linked(s.order, s.rows) && Linked(s'.order, s'.rows) && Moves(s, s', r)
    ensures forall id :: id in s'.order[|s.order|..] ==> id in s'.rows && id !in s.rows && s'.rows[id].root == r
  {
  }

  lemma OtherMembersUntouched(s: Store, s': Store, r: TaskId, q: TaskId)
    requires Linked(s.order, s.rows) && Linked(s'.order, s'.rows) && Moves(s, s', r) && q != r
    ensures s'.Members(q) == s.Members(q)
    ensures Reachable(s'.order, s'.rows, q) == Reachable(s.order, s.rows, q)
  {
    AppendedRowsAreNew(s, s', r);
    assert s'.order == s.order + s'.order[|s.order|..];
    assert SameLinks(s.order, s.rows, s'.rows);
    hide Linked, Moves;
    LineageSkips(s.order, s'.order[|s.order|..], s'.rows, q);
    LineageFrame(s.order, s.rows, s'.rows, q);
    ScanFrame(s.Members(q), s.rows, s'.rows, q);
  }

  /** Every other lineage lists the same tasks with the same rows, and its case still projects the same. */
  lemma OtherLineagesUntouched(s: Store, s': Store, r: TaskId, q: TaskId)
    requires Linked(s.order, s.rows) && Linked(s'.order, s'.rows) && Moves(s, s', r) && q != r
    ensures s'.Members(q) == s.Members(q)
    ensures Reachable(s'.order, s'.rows, q) == Reachable(s.order, s.rows, q)
    ensures forall id :: id in s.Members(q) ==> id in s'.rows && s'.rows[id] == s.rows[id]
    ensures q in s.rows && s.rows[q].root == q ==>
              Projection(s'.order, s'.rows, q) == Projection(s.order, s.rows, q)
  {
    OtherMembersUntouched(s, s', r, q);
    hide Linked;
    if q in s.rows && s.rows[q].root == q {
      var active := ActiveTask(s.order, s.rows, q);
      assert active in Reachable(s.order, s.rows, q) || active == q;
      assert s.rows[active].root == q;
      hide Reachable;
    }
  }

  lemma {:induction false} LineageWithout(order: seq<TaskId>, rows: Rows, id: TaskId, q: TaskId)
    requires id in rows ==> rows[id].root != q
    ensures Lineage(Without(order, [id]), rows - {id}, q) == Lineage(order, rows, q)
  {
    if order != [] {
      var n := |order| - 1;
      LineageWithout(order[..n], rows, id, q);
      var rest := Without(order[..n], [id]);
      assert (rest + [order[n]])[..|rest|] == rest;
    }
  }

  /** Deleting a task leaves the other lineages alone. */
  lemma DeleteSparesOthers(s: Store, id: TaskId, q: TaskId)
    requires (id in s.rows ==> s.rows[id].root != q) && q != id
    ensures
      var s' := s.Delete(id);
      && s'.Members(q) == s.Members(q)
      && (forall x :: x in s.Members(q) ==> x in s'.rows && s'.rows[x] == s.rows[x])
      && (q in s'.cases <==> q in s.cases)
      && (q in s.cases ==> s'.cases[q] == s.cases[q])
  {
    LineageWithout(s.order, s.rows, id, q);
  }
}
