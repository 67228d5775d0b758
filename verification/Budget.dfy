/** How far a lineage can grow, and that the autonomous loop stops. */
module Budget {
  import opened Wrappers
  import opened TaskModel
  import opened LineageGraph
  import opened TaskStore
  import opened QualityJudge
  import opened Lifecycle
  import opened Invariants
  import opened Progress
  import opened Health

  // ------------------------------------------------------------------ counting a lineage

  lemma {:induction false} LineageTakes(order: seq<TaskId>, extra: seq<TaskId>, rows: Rows, r: TaskId)
    requires forall id :: id in extra ==> id in rows && rows[id].root == r
    ensures Lineage(order + extra, rows, r) == Lineage(order, rows, r) + extra
  {
    if extra == [] {
      assert order + extra == order;
    } else {
      var n := |extra| - 1;
      assert (order + extra)[..|order| + n] == order + extra[..n];
      assert extra[n] in extra;
      LineageTakes(order, extra[..n], rows, r);
    }
  }

  /** The touched lineage gains exactly the appended rows. */
  lemma MembersGrow(s: Store, s': Store, r: TaskId)
    requires Linked(s.order, s.rows) && Linked(s'.order, s'.rows) && Moves(s, s', r)
    ensures s'.Members(r) == s.Members(r) + s'.order[|s.order|..]
  {
    AppendedRowsAreNew(s, s', r);
    assert s'.order == s.order + s'.order[|s.order|..];
    assert SameLinks(s.order, s.rows, s'.rows);
    hide Linked, Moves;
    LineageTakes(s.order, s'.order[|s.order|..], s'.rows, r);
    LineageFrame(s.order, s.rows, s'.rows, r);
  }

  lemma CountFrame(s: Store, s': Store, r: TaskId)
    requires Linked(s.order, s.rows) && Linked(s'.order, s'.rows) && Moves(s, s', r) && s'.order == s.order
    ensures s'.Count(r) == s.Count(r)
  {
    MembersGrow(s, s', r);
  }

  // --------------------------------------------------------------- what a step may insert

  /** Nothing was inserted, or one row was, within the attempt limit. */
  ghost predicate InsertsWithin(cfg: Settings, s: Store, s': Store, r: TaskId) {
    || s'.order == s.order
    || (|s'.order| == |s.order| + 1 && AttemptsLeft(cfg, s.Count(r)))
  }

  lemma AfterRepairInserts(cfg: Settings, s: Store, task: Task, childId: TaskId, issueCodes: seq<string>)
    requires Structured(s) && Loaded(s, task) && !task.Claimable()
    ensures
      var s' := AfterRepair(cfg, s, task, childId, issueCodes);
      if JudgeRepair(cfg, s.Put(task).Count(task.root), issueCodes).created
      then |s'.order| == |s.order| + 1 && AttemptsLeft(cfg, s.Count(task.root))
      else s'.order == s.order
  {
    assert task.id in s.rows;
    LinkedOf(s);
    PutIsInPlace(s, task);
    assert s.Put(task).order == s.order;
    hide Structured, Linked, Loaded, Lineage, ChildCount;
  }

  lemma PutIsInPlace(s: Store, task: Task)
    requires Linked(s.order, s.rows) && Held(s, task)
    ensures s.Put(task).Members(task.root) == s.Members(task.root)
  {
    hide ParentsFirst, Distinct;
    assert SameLinks(s.order, s.rows, s.Put(task).rows);
    LineageFrame(s.order, s.rows, s.Put(task).rows, task.root);
  }

  lemma EndFailureInserts(cfg: Settings, s: Store, task: Task, childId: TaskId, issueCodes: seq<string>, context: FailureContext)
    ensures InsertsWithin(cfg, s, EndFailure(s, task, childId, JudgeEnding(cfg, s, task, issueCodes, context)), task.root)
  {
    var ending := JudgeEnding(cfg, s, task, issueCodes, context);
    if ending.DegradedAttempt? {
      assert MayDegrade(cfg, s, task, context);
    }
  }

  lemma FailTaskInserts(cfg: Settings, s: Store, running: Task, childId: TaskId, issueCodes: seq<string>, context: FailureContext)
    requires Structured(s) && Loaded(s, running) && Fresh(s, childId)
    ensures InsertsWithin(cfg, s, FailTask(cfg, s, running, childId, issueCodes, context), running.root)
  {
    var task := FailedRow(running);
    var s1 := AfterRepair(cfg, s, task, childId, issueCodes);
    AfterRepairInserts(cfg, s, task, childId, issueCodes);
    if !JudgeRepair(cfg, s.Put(task).Count(task.root), issueCodes).created {
      AfterRepairMoves(cfg, s, task, childId, issueCodes);
      AfterRepairKeeps(cfg, s, task, childId, issueCodes);
      CountFrame(s, s1, task.root);
      EndFailureInserts(cfg, s1, task, childId, issueCodes, context);
    }
    hide AfterRepair, JudgeRepair, JudgeEnding, EndFailure, Structured, Loaded, Fresh;
  }

  lemma CompleteRunInserts(cfg: Settings, s: Store, running: Task, childId: TaskId, report: RunReport)
    requires report.Rendered?
    requires Structured(s) && Loaded(s, running)
    ensures InsertsWithin(cfg, s, CompleteRun(cfg, s, running, childId, report), running.root)
  {
    var score := TotalScore(true, report.issueCodes, report.previewIssueCodes);
    var task := SuccessRow(cfg, running, score);
    var s1 := RecordSuccess(s, task, score);
    RecordSuccessMoves(cfg, s, running, score);
    RecordSuccessFrame(s, task, score);
    RecordSuccessKeeps(cfg, s, running, score);
    CountFrame(s, s1, running.root);
    hide RecordSuccess, Structured, Loaded, Moves, WantsChallenger, Promotes, CanAccept, AcceptedRows;
  }

  /** A revision of a task that is not delivered, the one request that ignores the attempt limit. */
  predicate FreeRevision(s: Store, step: Step, r: TaskId) {
    step.ReviseStep? && step.id in s.rows && s.rows[step.id].root == r && !s.rows[step.id].DeliveredCandidate()
  }

  /** Such a revision adds a task whatever the limit and however many tasks there are already. */
  lemma FreeRevisionAlwaysInserts(cfg: Settings, s: Store, step: Step, r: TaskId)
    requires Structured(s) && Enabled(s, step) && FreeRevision(s, step, r)
    ensures Apply(cfg, s, step).Members(r) == s.Members(r) + [step.childId]
  {
    var s' := Apply(cfg, s, step);
    StepKeeps(cfg, s, step);
    StepMoves(cfg, s, step);
    LinkedOf(s);
    LinkedOf(s');
    assert s'.order == s.order + [step.childId];
    hide Structured, Apply, Moves, Linked, Lineage;
    MembersGrow(s, s', r);
  }

  lemma StepInserts(cfg: Settings, s: Store, step: Step)
    requires Structured(s) && Enabled(s, step) && !step.DeleteStep?
    ensures
      var s', r := Apply(cfg, s, step), Touched(s, step);
      || InsertsWithin(cfg, s, s', r)
      || (|s'.order| == |s.order| + 1 && (FreeRevision(s, step, r) || (step.CreateStep? && r == step.id && s.Count(r) == 0)))
  {
    hide Structured, RunTask, Create;
    match step
    case RunStep(id, childId, report) => RunInserts(cfg, s, id, childId, report);
    case CreateStep(id, key) => CreateInserts(cfg, s, id, key);
    case _ => hide AcceptedRows, OrphanRows, Fresh, Lineage, CanAccept;
  }

  lemma CreateInserts(cfg: Settings, s: Store, id: TaskId, key: Option<string>)
    requires Fresh(s, id)
    ensures
      var s', r := Create(cfg, s, id, key), Touched(s, CreateStep(id, key));
      || s'.order == s.order
      || (|s'.order| == |s.order| + 1 && r == id && s.Count(r) == 0)
  {
    LineageSkips([], s.order, s.rows, id);
    assert [] + s.order == s.order;
  }

  lemma RunInserts(cfg: Settings, s: Store, id: TaskId, childId: TaskId, report: RunReport)
    requires Structured(s) && Fresh(s, childId) && id in s.rows
    ensures InsertsWithin(cfg, s, RunTask(cfg, s, id, childId, report), s.rows[id].root)
  {
    ClaimedIsLoaded(s, id, childId, report.generationMode);
    var running := Classified(s.rows[id], report.generationMode).(status := Running);
    hide Structured, Loaded, Fresh, FailTask, CompleteRun;
    match report
    case Rendered(_, _, _, _, _, _) => CompleteRunInserts(cfg, s.EnsureCase(running), running, childId, report);
    case Broken(_, issueCodes, context) => FailTaskInserts(cfg, s.EnsureCase(running), running, childId, issueCodes, context);
  }

  function Max(a: int, b: int): int {
    if a > b then a else b
  }

  /** One step raises the count of a lineage above the limit only by a free revision or by creating its root. */
  lemma StepCount(cfg: Settings, s: Store, step: Step, r: TaskId)
    requires Structured(s) && Enabled(s, step)
    ensures
      Apply(cfg, s, step).Count(r)
      <= Max(Max(1, cfg.maxAttemptsPerRoot), s.Count(r)) + (if FreeRevision(s, step, r) then 1 else 0)
  {
    var s' := Apply(cfg, s, step);
    StepKeeps(cfg, s, step);
    if step.DeleteStep? {
      DeleteShrinks(s.order, s.rows, step.id, r);
    } else {
      StepMoves(cfg, s, step);
      StepInserts(cfg, s, step);
      hide Structured, Apply, Moves, Enabled;
      if r == Touched(s, step) {
        MembersGrow(s, s', r);
      } else {
        OtherLineagesUntouched(s, s', Touched(s, step), r);
      }
    }
  }

  lemma {:induction false} DeleteShrinks(order: seq<TaskId>, rows: Rows, id: TaskId, r: TaskId)
    ensures |Lineage(Without(order, [id]), rows - {id}, r)| <= |Lineage(order, rows, r)|
  {
    if order != [] {
      DeleteShrinks(order[..|order| - 1], rows, id, r);
    }
  }

  function FreeRevisions(cfg: Settings, s: Store, steps: seq<Step>, r: TaskId): nat {
    if steps == [] then 0
    else
      var n := |steps| - 1;
      FreeRevisions(cfg, s, steps[..n], r) + (if FreeRevision(Exec(cfg, s, steps[..n]), steps[n], r) then 1 else 0)
  }

  /** A lineage never holds more than max(1, attempt limit) tasks plus the revisions of undelivered tasks, over
      every run from the empty store, including deletions and reconciliation. */
  lemma {:induction false} LineageBound(cfg: Settings, steps: seq<Step>, r: TaskId)
    requires IsRun(cfg, EMPTY, steps)
    ensures Exec(cfg, EMPTY, steps).Count(r)
            <= Max(1, cfg.maxAttemptsPerRoot) + FreeRevisions(cfg, EMPTY, steps, r)
  {
    if steps != [] {
      var n := |steps| - 1;
      LineageBound(cfg, steps[..n], r);
      RunsKeep(cfg, EMPTY, steps[..n]);
      hide Structured, Apply;
      StepCount(cfg, Exec(cfg, EMPTY, steps[..n]), steps[n], r);
    }
  }

  // ------------------------------------------------------------------------- termination

  function Queue(ids: seq<TaskId>, rows: Rows): nat {
    if ids == [] then 0
    else
      var last := ids[|ids| - 1];
      Queue(ids[..|ids| - 1], rows) + (if last in rows && rows[last].Claimable() then 1 else 0)
  }

  /** Attempts still allowed plus tasks waiting for the worker. */
  function Work(cfg: Settings, s: Store, r: TaskId): nat {
    Max(0, cfg.maxAttemptsPerRoot - s.Count(r)) + Queue(s.Members(r), s.rows)
  }

  lemma {:induction false} QueueAppends(ids: seq<TaskId>, extra: seq<TaskId>, rows: Rows)
    ensures Queue(ids + extra, rows) <= Queue(ids, rows) + |extra|
  {
    if extra == [] {
      assert ids + extra == ids;
    } else {
      var n := |extra| - 1;
      assert (ids + extra)[..|ids| + n] == ids + extra[..n];
      QueueAppends(ids, extra[..n], rows);
    }
  }

  lemma {:induction false} QueueShrinks(ids: seq<TaskId>, rows: Rows, rows': Rows, id: TaskId)
    requires forall x :: x in ids && x in rows' && rows'[x].Claimable() ==> x in rows && rows[x].Claimable()
    requires id in ids && id in rows && rows[id].Claimable() && id in rows' && !rows'[id].Claimable()
    ensures Queue(ids, rows') < Queue(ids, rows)
  {
    var n := |ids| - 1;
    if id in ids[..n] {
      QueueShrinks(ids[..n], rows, rows', id);
    } else {
      QueueNeverGrows(ids[..n], rows, rows');
    }
  }

  lemma {:induction false} QueueNeverGrows(ids: seq<TaskId>, rows: Rows, rows': Rows)
    requires forall x :: x in ids && x in rows' && rows'[x].Claimable() ==> x in rows && rows[x].Claimable()
    ensures Queue(ids, rows') <= Queue(ids, rows)
  {
    if ids != [] {
      QueueNeverGrows(ids[..|ids| - 1], rows, rows');
    }
  }

  /** The claimed task is off the queue once its run is over. */
  lemma RunFinishes(cfg: Settings, s: Store, id: TaskId, childId: TaskId, report: RunReport)
    requires Structured(s) && id in s.rows && s.rows[id].Claimable() && Fresh(s, childId) && s.rows[id].root in s.rows
    ensures id in RunTask(cfg, s, id, childId, report).rows
    ensures !RunTask(cfg, s, id, childId, report).rows[id].Claimable()
  {
    RunMoves(cfg, s, id, childId, report);
    ClaimedIsLoaded(s, id, childId, report.generationMode);
    var running := Classified(s.rows[id], report.generationMode).(status := Running);
    match report
    case Rendered(_, _, _, _, _, _) => SuccessFinishes(cfg, s.EnsureCase(running), running, childId, report);
    case Broken(_, issueCodes, context) =>
      hide Structured;
      FailTaskEnds(cfg, s.EnsureCase(running), running, childId, issueCodes, context);
      hide FailTask;
  }

  lemma SuccessFinishes(cfg: Settings, s: Store, running: Task, childId: TaskId, report: RunReport)
    requires report.Rendered?
    requires Structured(s) && Loaded(s, running) && Fresh(s, childId)
    ensures
      var s' := CompleteRun(cfg, s, running, childId, report);
      running.id in s'.rows && !s'.rows[running.id].Claimable()
  {
    var score := TotalScore(true, report.issueCodes, report.previewIssueCodes);
    var task := SuccessRow(cfg, running, score);
    var s1 := RecordSuccess(s, task, score);
    RecordSuccessFrame(s, task, score);
    RecordSuccessKeepsFresh(s, task, score, childId);
    RecordSuccessKeeps(cfg, s, running, score);
    assert s1.rows[task.id].status == Completed;
    hide RecordSuccess, Structured, Escalate;
    EscalateMoves(cfg, s1, task, childId, report);
  }

  lemma MovesQueueNothing(s: Store, s': Store, r: TaskId)
    requires Moves(s, s', r)
    ensures forall x {:trigger x in s.Members(r)} ::
              x in s.Members(r) && x in s'.rows && s'.rows[x].Claimable() ==> x in s.rows && s.rows[x].Claimable()
  {
  }

  lemma RunShrinksQueue(cfg: Settings, s: Store, id: TaskId, childId: TaskId, report: RunReport)
    requires Structured(s) && id in s.rows && s.rows[id].Claimable() && Fresh(s, childId) && s.rows[id].root in s.rows
    ensures
      var s', r := RunTask(cfg, s, id, childId, report), s.rows[id].root;
      && Moves(s, s', r) && s.order <= s'.order
      && Linked(s.order, s.rows) && Linked(s'.order, s'.rows)
      && Queue(s.Members(r), s'.rows) < Queue(s.Members(r), s.rows)
  {
    var s', r := RunTask(cfg, s, id, childId, report), s.rows[id].root;
    hide RunTask, Structured, Fresh, Linked, Queue, Lineage;
    RowKeyed(s, id);
    LinkedOf(s);
    RunFinishes(cfg, s, id, childId, report);
    RunKeeps(cfg, s, id, childId, report);
    LinkedOf(s');
    RunMoves(cfg, s, id, childId, report);
    assert s.order <= s'.order;
    hide Moves;
    MovesQueueNothing(s, s', r);
    QueueShrinks(s.Members(r), s.rows, s'.rows, id);
  }

  /** Each run of the worker in a lineage uses up work there. */
  lemma RunUsesWork(cfg: Settings, s: Store, id: TaskId, childId: TaskId, report: RunReport)
    requires Structured(s) && id in s.rows && s.rows[id].Claimable() && Fresh(s, childId) && s.rows[id].root in s.rows
    ensures Work(cfg, RunTask(cfg, s, id, childId, report), s.rows[id].root) < Work(cfg, s, s.rows[id].root)
  {
    var s', r := RunTask(cfg, s, id, childId, report), s.rows[id].root;
    RunShrinksQueue(cfg, s, id, childId, report);
    RunInserts(cfg, s, id, childId, report);
    hide RunTask, Structured, Fresh, Linked, Queue, Lineage, Moves;
    MembersGrow(s, s', r);
    QueueAppends(s.Members(r), s'.order[|s.order|..], s'.rows);
  }
}
