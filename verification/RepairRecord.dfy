/** What becomes of the repair columns written while a failing run is handled. */
module RepairRecord {
  import opened Wrappers
  import opened TaskModel
  import opened LineageGraph
  import opened TaskStore
  import opened Lifecycle
  import opened Invariants

  /** The repair columns the engine stores on the root for this failure. */
  function Recorded(cfg: Settings, s: Store, task: Task, childId: TaskId, issueCodes: seq<string>): RepairState
    requires task.root in s.rows && task.id in s.rows
  {
    var s1 := s.Put(task);
    var verdict := JudgeRepair(cfg, s1.Count(task.root), issueCodes);
    var s2 := if verdict.created then Persist(s1, RepairChild(task, childId)) else s1;
    WithRepairState(s1.rows[task.root], s2.Count(task.root), issueCodes, verdict).repair
  }

  lemma AfterRepairRecords(cfg: Settings, s: Store, task: Task, childId: TaskId, issueCodes: seq<string>)
    requires Linked(s.order, s.rows) && Loaded(s, task) && Fresh(s, childId) && task.root in s.rows
    ensures task.root in AfterRepair(cfg, s, task, childId, issueCodes).rows
    ensures AfterRepair(cfg, s, task, childId, issueCodes).rows[task.root].repair == Recorded(cfg, s, task, childId, issueCodes)
  {
    assert task.id in s.rows && s.rows[task.root].id == task.root;
    hide Linked, JudgeRepair;
  }

  lemma EndFailureOnRepair(s: Store, task: Task, childId: TaskId, ending: Ending)
    requires Linked(s.order, s.rows) && Loaded(s, task) && task.root in s.rows && childId !in s.rows
    requires !ending.DegradedAttempt? || task.id != task.root
    ensures task.root in EndFailure(s, task, childId, ending).rows
    ensures EndFailure(s, task, childId, ending).rows[task.root].repair ==
            if task.id == task.root then task.repair else s.rows[task.root].repair
  {
    assert task.id in s.rows && s.rows[task.root].id == task.root;
    hide Linked;
  }

  /** The repair columns survive on the root exactly when the failed task is not the root itself or a repair
      child was queued: a root that fails without one writes its own stale copy back over them. */
  lemma RootFailureForgetsRepairState(cfg: Settings, s: Store, running: Task, childId: TaskId, issueCodes: seq<string>, context: FailureContext)
    requires Structured(s) && Loaded(s, running) && Fresh(s, childId) && running.root in s.rows
    ensures
      var s', task := FailTask(cfg, s, running, childId, issueCodes, context), FailedRow(running);
      && running.root in s'.rows
      && s'.rows[running.root].repair ==
           (if running.id != running.root || JudgeRepair(cfg, s.Put(task).Count(running.root), issueCodes).created
            then Recorded(cfg, s, task, childId, issueCodes)
            else running.repair)
  {
    var task := FailedRow(running);
    var s1 := AfterRepair(cfg, s, task, childId, issueCodes);
    var verdict := JudgeRepair(cfg, s.Put(task).Count(task.root), issueCodes);
    AfterRepairRecords(cfg, s, task, childId, issueCodes);
    if !verdict.created {
      AfterRepairKeeps(cfg, s, task, childId, issueCodes);
      StillLoaded(cfg, s, task, childId, issueCodes);
      assert Linked(s1.order, s1.rows);
      assert task.id == task.root ==> task.parent.None? by { assert task.id in s.rows; }
      var ending := JudgeEnding(cfg, s1, task, issueCodes, context);
      assert ending.DegradedAttempt? ==> task.parent.Some?;
      hide AfterRepair, JudgeEnding, JudgeRepair, Structured, Linked, EndFailure, Recorded;
      EndFailureOnRepair(s1, task, childId, ending);
    }
    hide AfterRepair, JudgeEnding, JudgeRepair, Structured, EndFailure, Recorded, Fresh;
  }
}
