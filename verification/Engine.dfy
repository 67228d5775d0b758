/** The life cycle as the services run it: one object holding the tables, changed step by step. Each method is tied
    to the function that says what it does; the top-level requests also keep the invariants. */
module Engine {
  import opened Wrappers
  import opened TaskModel
  import opened LineageGraph
  import opened TaskStore
  import opened Arbitration
  import opened QualityJudge
  import opened Lifecycle
  import opened Invariants
  import opened Progress
  import opened Health
  import opened Promotion
  import opened Reconciliation

  class WorkflowEngine {
    const cfg: Settings
    var order: seq<TaskId>
    var rows: Rows
    var cases: map<TaskId, DeliveryCase>
    var scores: map<TaskId, int>
    var agentRuns: seq<AgentRun>

    function Snapshot(): Store
      reads this
    {
      Store(order, rows, cases, scores)
    }

    ghost predicate Valid()
      reads this
    {
      Structured(Snapshot()) && Scored(cfg, Snapshot())
    }

    constructor (cfg: Settings)
      ensures Valid() && Healthy(Snapshot())
      ensures Snapshot() == EMPTY && agentRuns == [] && this.cfg == cfg
    {
      this.cfg := cfg;
      order, rows, cases, scores, agentRuns := [], map[], map[], map[], [];
    }

    // ---------------------------------------------------------------------- the store

    method UpdateTask(task: Task)
      modifies this`rows
      ensures Snapshot() == old(Snapshot()).Put(task)
    {
      if task.id in rows {
        rows := rows[task.id := task];
      }
    }

    method CreateTask(task: Task)
      modifies this`order, this`rows
      ensures Snapshot() == old(Snapshot()).Insert(task)
    {
      order := order + [task.id];
      rows := rows[task.id := task];
    }

    /** The rows of a lineage as loaded at one moment. */
    function ListLineageTasks(root: TaskId): (tasks: seq<Task>)
      reads this
      ensures |tasks| == |Lineage(order, rows, root)|
      ensures forall i :: 0 <= i < |tasks| ==> Lineage(order, rows, root)[i] in rows
      ensures forall i :: 0 <= i < |tasks| ==> tasks[i] == rows[Lineage(order, rows, root)[i]]
    {
      var ids, table := Lineage(order, rows, root), rows;
      assert forall i :: 0 <= i < |ids| ==> ids[i] in ids;
      seq(|ids|, i requires 0 <= i < |ids| => table[ids[i]])
    }

    // -------------------------------------------------------------------------- cases

    /** One pass over the lineage in creation order. */
    method ReachableLineageTasks(root: TaskId) returns (kept: seq<TaskId>)
      requires Linked(order, rows)
      ensures kept == Reachable(order, rows, root)
    {
      var lineage := ListLineageTasks(root);
      ghost var ids := Lineage(order, rows, root);
      assert forall i :: 0 <= i < |ids| ==> lineage[i].id == ids[i];
      hide Linked, Lineage;
      kept := [];
      var found := false;
      for i := 0 to |lineage|
        invariant found <==> exists k :: 0 <= k < i && ids[k] == root
      {
        if lineage[i].id == root {
          found := true;
        }
      }
      if found {
        kept := CollectDescendants(lineage, root, ids);
      }
    }

    /** The root first, then each loaded task whose parent was already kept. */
    method CollectDescendants(lineage: seq<Task>, root: TaskId, ghost ids: seq<TaskId>) returns (kept: seq<TaskId>)
      requires |ids| == |lineage|
      requires forall i :: 0 <= i < |ids| ==> lineage[i].id == ids[i] && ids[i] in rows && lineage[i] == rows[ids[i]]
      ensures kept == Scan(ids, rows, root)
    {
      kept := [root];
      var keptIds := {root};
      assert ids[..0] == [] && ids[..|lineage|] == ids;
      hide Scan;
      for i := 0 to |lineage|
        invariant kept == Scan(ids[..i], rows, root)
        invariant keptIds == set id | id in kept
      {
        var task := lineage[i];
        assert task.id == ids[i] && task == rows[ids[i]];
        ScanStep(ids, i, rows, root);
        if task.id != root && task.parent.Some? && task.parent.value in keptIds {
          kept := kept + [task.id];
          keptIds := keptIds + {task.id};
        }
      }
    }

    method EnsureCaseForTask(task: Task)
      modifies this`cases
      ensures Snapshot() == old(Snapshot()).EnsureCase(task)
    {
      if task.root !in cases {
        cases := cases[task.root :=
          DeliveryCase(task.root, task.id, None, CaseQueued, DeliveryOr(task.delivery), task.mode, task.stopReason)];
      }
    }

    /** The case is found through the stored task, so it is keyed by that task's root. */
    method SyncCaseForRoot(root: TaskId)
      requires Linked(order, rows)
      modifies this`cases
      ensures Snapshot() == old(Snapshot()).SyncCaseOf(root)
      ensures (root in rows ==> rows[root].root == root) ==> Snapshot() == old(Snapshot()).SyncCase(root)
    {
      hide Reachable, Scan, Linked, Lineage, DeriveCaseStatus;
      if root !in rows {
        return;
      }
      var rootTask := rows[root];
      var reachable := ReachableLineageTasks(root);
      var active := root;
      if reachable != [] {
        active := reachable[|reachable| - 1];
      }
      assert active == ActiveTask(order, rows, root);
      EnsureCaseForTask(rootTask);
      cases := cases[rootTask.root := DeliveryCase(root, active, rootTask.resolved, DeriveCaseStatus(rootTask, rows[active]),
                                          DeliveryOr(rootTask.delivery), rootTask.mode, rootTask.stopReason)];
    }

    // ----------------------------------------------------------------------- children

    function CountLineageTasks(root: TaskId): nat
      reads this
    {
      Snapshot().Count(root)
    }

    method PersistChildTask(child: Task)
      requires Structured(Snapshot()) && Fresh(Snapshot(), child.id) && WellPlaced(Snapshot(), child)
      modifies this`order, this`rows, this`cases
      ensures Snapshot() == Persist(old(Snapshot()), child)
    {
      ghost var s := Snapshot();
      InsertKeeps(s, child);
      RootsAreRoots(s.Insert(child), child.id);
      hide Structured, Fresh;
      CreateTask(child);
      EnsureCaseForTask(child);
      CasesDoNotMatter(s.Insert(child), Snapshot());
      LinkedOf(Snapshot());
      SyncCaseForRoot(child.root);
    }

    method CreateAutoRepairTask(baseId: TaskId, childId: TaskId) returns (r: Result<TaskId, string>)
      requires Structured(Snapshot()) && Fresh(Snapshot(), childId)
      modifies this`order, this`rows, this`cases
      ensures r.Ok? <==> baseId in old(rows) && old(rows)[baseId].status == Failed
                         && AttemptsLeft(cfg, old(CountLineageTasks(rows[baseId].root)))
      ensures Snapshot() == if r.Ok? then Persist(old(Snapshot()), RepairChild(old(rows)[baseId], childId)) else old(Snapshot())
    {
      if baseId !in rows {
        return Err("unknown_task");
      }
      var base := rows[baseId];
      if base.status != Failed {
        return Err("requires_failed_parent");
      }
      if CountLineageTasks(base.root) >= cfg.maxAttemptsPerRoot {
        return Err("attempt_limit_reached");
      }
      var child := FromRevision(base, childId);
      child := child.(mode := Some(Repaired), delivery := Some(Pending));
      ChildIsWellPlaced(Snapshot(), baseId, child);
      hide Structured, Fresh;
      PersistChildTask(child);
      r := Ok(child.id);
    }

    method CreateDegradedDeliveryTask(baseId: TaskId, childId: TaskId, generationMode: string)
      returns (r: Result<TaskId, string>)
      requires Structured(Snapshot()) && Fresh(Snapshot(), childId)
      modifies this`order, this`rows, this`cases
      ensures r.Ok? <==> baseId in old(rows) && old(rows)[baseId].status == Failed
                         && AttemptsLeft(cfg, old(CountLineageTasks(rows[baseId].root)))
      ensures Snapshot() == if r.Ok? then Persist(old(Snapshot()), DegradedChild(old(rows)[baseId], childId, generationMode))
                            else old(Snapshot())
    {
      if baseId !in rows {
        return Err("unknown_task");
      }
      var base := rows[baseId];
      if base.status != Failed {
        return Err("requires_failed_parent");
      }
      if CountLineageTasks(base.root) >= cfg.maxAttemptsPerRoot {
        return Err("attempt_limit_reached");
      }
      var child := FromRevision(base, childId);
      child := child.(mode := Some(Degraded), delivery := Some(Pending));
      child := child.(generationMode := Some(generationMode), tier := Some(generationMode));
      ChildIsWellPlaced(Snapshot(), baseId, child);
      hide Structured, Fresh;
      PersistChildTask(child);
      r := Ok(child.id);
    }

    method CreateChallengerTask(baseId: TaskId, childId: TaskId) returns (r: Result<TaskId, string>)
      requires Structured(Snapshot()) && Fresh(Snapshot(), childId)
      modifies this`order, this`rows, this`cases
      ensures r.Ok? <==> baseId in old(rows) && CanChallenge(cfg, old(Snapshot()), old(rows)[baseId])
      ensures Snapshot() == if r.Ok? then Persist(old(Snapshot()), ChallengerChild(old(rows)[baseId], childId))
                            else old(Snapshot())
    {
      if baseId !in rows {
        return Err("unknown_task");
      }
      var base := rows[baseId];
      if !base.DeliveredCandidate() {
        return Err("requires_delivered_parent");
      }
      var count := CountLineageTasks(base.root);
      if count >= cfg.maxAttemptsPerRoot {
        return Err("attempt_limit_reached");
      }
      if ChildCount(count) >= cfg.workflowMaxChildren {
        return Err("workflow_budget_exhausted");
      }
      var child := FromRevision(base, childId);
      child := child.(challenger := true, delivery := Some(Pending), resolved := None, mode := None, tier := None,
                      stopReason := None);
      ChildIsWellPlaced(Snapshot(), baseId, child);
      hide Structured, Fresh;
      PersistChildTask(child);
      r := Ok(child.id);
    }

    // ------------------------------------------------------------------- root resolution

    method SyncRootDeliveryResolution(task: Task)
      requires Structured(Snapshot()) && Held(Snapshot(), task)
      modifies this`rows, this`cases
      ensures Snapshot() == SyncRoot(old(Snapshot()), task)
    {
      ghost var s := Snapshot();
      RootsAreRoots(s, task.id);
      if task.root !in rows {
        return;
      }
      if task.id != task.root && task.challenger {
        SyncCaseForRoot(task.root);
        return;
      }
      var rootTask := rows[task.root];
      rootTask := rootTask.(delivery := Some(Delivered), resolved := Some(task.id), mode := task.mode, tier := task.tier,
                            stopReason := None, status := Completed, phase := AtCompleted);
      SamePlacesKeepLinks(s.order, s.rows, s.Put(rootTask).rows);
      hide Structured, Linked, Held;
      UpdateTask(rootTask);
      SyncCaseForRoot(task.root);
    }

    method MarkDeliveryFailed(task: Task, reason: string)
      requires Structured(Snapshot()) && Held(Snapshot(), task)
      modifies this`rows, this`cases
      ensures Snapshot() == Lifecycle.MarkDeliveryFailed(old(Snapshot()), task, reason)
    {
      ghost var s := Snapshot();
      RootsAreRoots(s, task.id);
      UpdateTask(task.(delivery := Some(Undelivered), stopReason := Some(reason)));
      if task.root == task.id || task.root !in rows {
        return;
      }
      var rootTask := rows[task.root];
      rootTask := rootTask.(delivery := Some(Undelivered), stopReason := Some(reason));
      SamePlacesKeepLinks(s.order, s.rows, Snapshot().Put(rootTask).rows);
      hide Structured, Linked, Held;
      UpdateTask(rootTask);
      SyncCaseForRoot(task.root);
    }

    method FinalizeGuaranteedDelivery(task: Task, mode: Mode, tier: string)
      requires Structured(Snapshot()) && Held(Snapshot(), task)
      modifies this`rows, this`cases
      ensures Snapshot() == FinalizeDelivery(old(Snapshot()), task, mode, tier)
    {
      var delivered := task.(status := Completed, phase := AtCompleted, delivery := Some(Delivered),
                             resolved := Some(task.id), mode := Some(mode), tier := Some(tier), stopReason := None);
      PutKeeps(Snapshot(), delivered);
      assert Held(Snapshot().Put(delivered), delivered);
      hide Structured, Held;
      UpdateTask(delivered);
      SyncRootDeliveryResolution(delivered);
    }

    // ------------------------------------------------------------------------ acceptance

    /** Rewrites the loaded copies of a lineage one by one: the winner is best at its position, the others are not. */
    method MarkBest(lineage: seq<Task>, winner: TaskId, ghost ids: seq<TaskId>) returns (acceptedRank: nat)
      requires Distinct(ids) && |ids| == |lineage| && winner in ids
      requires forall i :: 0 <= i < |ids| ==> lineage[i].id == ids[i] && ids[i] in rows && lineage[i] == rows[ids[i]]
      modifies this`rows
      ensures acceptedRank == Position(ids, winner) + 1
      ensures rows.Keys == old(rows).Keys
      ensures forall x :: x in old(rows) && x !in ids ==> rows[x] == old(rows)[x]
      ensures forall x :: x in old(rows) && x in ids ==> rows[x] == AcceptedRow(old(rows)[x], winner, acceptedRank)
    {
      ghost var before, rank := rows, Position(ids, winner) + 1;
      hide Position;
      acceptedRank := 1;
      for i := 0 to |lineage|
        invariant rows.Keys == before.Keys
        invariant forall x :: x in before ==>
                    rows[x] == if x in ids[..i] then AcceptedRow(before[x], winner, rank) else before[x]
        invariant rank <= i ==> acceptedRank == rank
      {
        var candidate := lineage[i];
        var isSelected := candidate.id == winner;
        candidate := candidate.(best := isSelected, rank := if isSelected then Some(i + 1) else None);
        if isSelected {
          acceptedRank := i + 1;
        }
        assert isSelected <==> i == rank - 1;
        assert candidate == AcceptedRow(lineage[i], winner, rank);
        assert ids[i] in ids && ids[i] !in ids[..i];
        assert ids[..i + 1] == ids[..i] + [ids[i]];
        hide AcceptedRow, Distinct;
        UpdateTask(candidate);
      }
      assert ids[..|lineage|] == ids;
    }

    /** Marks the lineage, then writes the root from the copy loaded before the marking. */
    method RecordAcceptance(accepted: Task)
      requires Structured(Snapshot()) && accepted.id in rows && accepted == rows[accepted.id]
      requires CanAccept(Snapshot(), accepted.id)
      modifies this`rows, this`cases
      ensures Snapshot() == Accept(old(Snapshot()), accepted.id)
    {
      ghost var s := Snapshot();
      hide Structured, Linked, Lineage, Position, AcceptedRows, Distinct;
      AcceptanceFacts(s, accepted.id);
      var root := accepted.root;
      var lineage := ListLineageTasks(root);
      var rootTask := rows[root];
      hide CanAccept, AcceptedRow, AcceptedRoot;
      var acceptedRank := MarkBest(lineage, accepted.id, s.Members(root));
      rootTask := AcceptedRoot(rootTask, accepted, acceptedRank);
      AcceptedRowsAre(s, rows[root := rootTask], accepted.id, acceptedRank);
      UpdateTask(rootTask);
      SyncCaseForRoot(root);
    }

    method AcceptTaskAsBest(id: TaskId) returns (r: Result<TaskId, string>)
      requires Structured(Snapshot())
      modifies this`rows, this`cases
      ensures r.Ok? <==> CanAccept(old(Snapshot()), id)
      ensures Snapshot() == Accept(old(Snapshot()), id)
    {
      if id !in rows {
        return Err("unknown_task");
      }
      var accepted := rows[id];
      if accepted.status != Completed {
        return Err("accept_best_requires_completed_task");
      }
      if accepted.root !in rows {
        return Err("unknown_task");
      }
      assert id in order && accepted.id == id && id in Lineage(order, rows, accepted.root);
      hide Structured;
      RecordAcceptance(accepted);
      r := Ok(id);
    }

    // ---------------------------------------------------------------------- a failing run

    method MaybeScheduleRepair(task: Task, issueCodes: seq<string>, childId: TaskId) returns (verdict: RepairVerdict)
      requires Structured(Snapshot()) && Fresh(Snapshot(), childId)
      requires task.id in rows && rows[task.id] == task && task.status == Failed
      modifies this`order, this`rows, this`cases
      ensures verdict == JudgeRepair(cfg, old(CountLineageTasks(task.root)), issueCodes)
      ensures Snapshot() == if verdict.created then Persist(old(Snapshot()), RepairChild(task, childId)) else old(Snapshot())
    {
      if !cfg.autoRepairEnabled {
        return RepairVerdict(false, "disabled");
      }
      if task.status != Failed {
        return RepairVerdict(false, "task_not_failed");
      }
      if issueCodes == [] {
        return RepairVerdict(false, "missing_issue_code");
      }
      if issueCodes[0] !in cfg.retryableIssueCodes {
        return RepairVerdict(false, "non_retryable_issue");
      }
      var count := CountLineageTasks(task.root);
      if ChildCount(count) >= cfg.autoRepairMaxChildren || count >= cfg.maxAttemptsPerRoot {
        return RepairVerdict(false, "budget_exhausted");
      }
      hide Structured, Fresh;
      var created := CreateAutoRepairTask(task.id, childId);
      match created
      case Ok(_) => verdict := RepairVerdict(true, "created");
      case Err(reason) => verdict := RepairVerdict(false, reason);
    }

    method RecordRepairState(root: TaskId, issueCodes: seq<string>, verdict: RepairVerdict)
      requires root in rows ==> rows[root].id == root
      modifies this`rows
      ensures Snapshot() == Lifecycle.RecordRepairState(old(Snapshot()), root, issueCodes, verdict)
    {
      if root !in rows {
        return;
      }
      var rootTask := rows[root];
      var attempted := rootTask.repair.attempted || verdict.created || verdict.reason !in {"disabled", "task_not_failed"};
      var lastIssue := if issueCodes != [] then Some(issueCodes[0]) else rootTask.repair.lastIssue;
      var stopReason := if verdict.created then None else Some(verdict.reason);
      UpdateTask(rootTask.(repair := RepairState(attempted, ChildCount(CountLineageTasks(root)), lastIssue, stopReason)));
    }

    method LineageAlreadyHasDegradedAttempt(root: TaskId) returns (found: bool)
      ensures found <==> HasDegradedAttempt(Snapshot(), root)
    {
      var lineage := ListLineageTasks(root);
      ghost var ids := Lineage(order, rows, root);
      for i := 0 to |lineage|
        invariant forall k :: 0 <= k < i ==> !(lineage[k].parent.Some? && lineage[k].mode == Some(Degraded))
      {
        if lineage[i].parent.Some? && lineage[i].mode == Some(Degraded) {
          assert ids[i] in ids;
          DegradedWitness(Snapshot(), root, ids[i]);
          return true;
        }
      }
      found := false;
      forall id | id in ids ensures !(rows[id].parent.Some? && rows[id].mode == Some(Degraded)) {
        var k :| 0 <= k < |ids| && ids[k] == id;
      }
    }

    method MaybeScheduleDegradedDelivery(task: Task, context: FailureContext, childId: TaskId)
      returns (scheduled: Option<TaskId>)
      requires Structured(Snapshot()) && Fresh(Snapshot(), childId)
      requires task.id in rows && task.status == Failed && (task.parent.Some? ==> rows[task.id] == task)
      modifies this`order, this`rows, this`cases
      ensures scheduled.Some? <==> MayDegrade(cfg, old(Snapshot()), task, context)
      ensures Snapshot() ==
              if scheduled.Some? then
                Persist(old(Snapshot()),
                        DegradedChild(task, childId, TextOr(context.fallbackMode, TextOr(task.generationMode, DEFAULT_GENERATION_MODE))))
              else old(Snapshot())
    {
      if !cfg.guaranteeEnabled || task.parent.None? || task.mode == Some(Degraded) {
        return None;
      }
      var already := LineageAlreadyHasDegradedAttempt(task.root);
      if already || context.humanReviewRequired {
        return None;
      }
      if StartsWith(context.contractIssueCode, "provider_") || context.contractIssueCode in NO_DEGRADED_ISSUES {
        return None;
      }
      var generationMode := TextOr(context.fallbackMode, TextOr(task.generationMode, DEFAULT_GENERATION_MODE));
      hide Structured, Fresh, HasDegradedAttempt;
      var created := CreateDegradedDeliveryTask(task.id, childId, generationMode);
      match created
      case Ok(id) => scheduled := Some(id);
      case Err(_) => scheduled := None;
    }

    method DeliverOrGiveUp(task: Task, issueCodes: seq<string>, context: FailureContext, childId: TaskId)
      requires Structured(Snapshot()) && Loaded(Snapshot(), task) && Fresh(Snapshot(), childId)
      requires task.status == Failed && (task.parent.Some? ==> rows[task.id] == task)
      modifies this`order, this`rows, this`cases
      ensures Snapshot() == EndFailure(old(Snapshot()), task, childId, JudgeEnding(cfg, old(Snapshot()), task, issueCodes, context))
    {
      hide Structured, Fresh, MayDegrade;
      if issueCodes != [] && issueCodes[0] in POLICY_VIOLATIONS {
        MarkDeliveryFailed(task, issueCodes[0]);
        return;
      }
      var scheduled := MaybeScheduleDegradedDelivery(task, context, childId);
      if scheduled.Some? {
        return;
      }
      if !AllowsEmergency(issueCodes) {
        MarkDeliveryFailed(task, issueCodes[0]);
        return;
      }
      match MaybeDeliver(cfg, task, context.writerError)
      case Emergency(mode, tier) => FinalizeGuaranteedDelivery(task, mode, tier);
      case Abandoned(reason) => MarkDeliveryFailed(task, reason);
    }

    /** Records the failure, considers a repair and writes the repair columns on the root. */
    method RecordFailure(task: Task, issueCodes: seq<string>, childId: TaskId) returns (verdict: RepairVerdict)
      requires Structured(Snapshot()) && Loaded(Snapshot(), task) && Fresh(Snapshot(), childId) && task.status == Failed
      modifies this`order, this`rows, this`cases
      ensures verdict == JudgeRepair(cfg, old(Snapshot()).Put(task).Count(task.root), issueCodes)
      ensures Snapshot() == AfterRepair(cfg, old(Snapshot()), task, childId, issueCodes)
    {
      ghost var s := Snapshot();
      FailureIsStored(cfg, s, task, childId);
      RepairIsStored(cfg, s, task, childId);
      hide Structured, Fresh, Loaded, JudgeRepair, Persist;
      UpdateTask(task);
      verdict := MaybeScheduleRepair(task, issueCodes, childId);
      RecordRepairState(task.root, issueCodes, verdict);
    }

    method FailTask(running: Task, issueCodes: seq<string>, context: FailureContext, childId: TaskId)
      requires Structured(Snapshot()) && Loaded(Snapshot(), running) && Fresh(Snapshot(), childId)
      modifies this`order, this`rows, this`cases
      ensures Snapshot() == Lifecycle.FailTask(cfg, old(Snapshot()), running, childId, issueCodes, context)
    {
      ghost var s := Snapshot();
      var task := running.(status := Failed, phase := AtFailed);
      FailurePrelude(cfg, s, task, childId, issueCodes, context);
      hide Structured, Fresh, Loaded, JudgeRepair, EndFailure, JudgeEnding, AfterRepair, Linked;
      var verdict := RecordFailure(task, issueCodes, childId);
      if !verdict.created {
        DeliverOrGiveUp(task, issueCodes, context, childId);
      }
      SyncCaseForRoot(task.root);
    }

    // ------------------------------------------------------------------- a successful run

    method MaybeScheduleQualityChallenger(task: Task, guardOpen: bool, childId: TaskId)
      requires Structured(Snapshot()) && Fresh(Snapshot(), childId) && task.id in rows && rows[task.id] == task
      modifies this`order, this`rows, this`cases
      ensures Snapshot() == ScheduleChallenger(cfg, old(Snapshot()), task, childId, guardOpen)
    {
      if !cfg.workflowEnabled || !cfg.autoChallengerEnabled {
        return;
      }
      if task.status != Completed || task.delivery != Some(Delivered) || task.gate == Some(Accepted) {
        return;
      }
      if task.mode == Some(Degraded) || task.mode == Some(EmergencyFallback) || !guardOpen {
        return;
      }
      hide Structured, Fresh;
      var _ := CreateChallengerTask(task.id, childId);
    }

    method MaybeAutoPromoteChallenger(task: Task, guardOpen: bool, authorized: bool)
      requires Structured(Snapshot())
      modifies this`rows, this`cases
      ensures Snapshot() == MaybePromote(cfg, old(Snapshot()), task, guardOpen, authorized)
    {
      if !cfg.workflowEnabled || !cfg.autoArbitrationEnabled || !task.challenger {
        return;
      }
      if task.status != Completed || task.delivery != Some(Delivered) || task.gate != Some(Accepted) || !guardOpen {
        return;
      }
      var selected := if task.root in cases then cases[task.root].selected else None;
      var active := if task.root in cases then Some(cases[task.root].active) else None;
      var ids := Lineage(order, rows, task.root);
      assert forall i :: 0 <= i < |ids| ==> ids[i] in ids;
      hide Structured;
      var board := BuildBranchScoreboard(ids, rows, scores);
      var summary := BuildArbitrationSummary(board, selected, active);
      if summary.action != PromoteChallenger || summary.recommended != Some(task.id) || !authorized {
        return;
      }
      var _ := AcceptTaskAsBest(task.id);
    }

    method RecordDelivery(task: Task, score: int)
      requires
        var s1 := Snapshot().(scores := scores[task.id := score]).Put(task);
        && Structured(s1) && Held(s1, task)
        && Linked(SyncRoot(s1, task).order, SyncRoot(s1, task).rows)
        && (task.root in SyncRoot(s1, task).rows ==> SyncRoot(s1, task).rows[task.root].root == task.root)
      modifies this`rows, this`cases, this`scores
      ensures Snapshot() == RecordSuccess(old(Snapshot()), task, score)
    {
      hide Structured, Held, Linked, SyncRoot;
      scores := scores[task.id := score];
      UpdateTask(task);
      SyncRootDeliveryResolution(task);
      SyncCaseForRoot(task.root);
    }

    /** The task fields of a success: the gate from the score, the delivery, and a mode and tier unless already set. */
    method MarkDelivered(running: Task, score: int) returns (task: Task)
      ensures task == SuccessRow(cfg, running, score)
    {
      task := running.(gate := Some(if score >= cfg.qualityGateMinScore then Accepted else NeedsRevision));
      task := task.(status := Completed, phase := AtCompleted, delivery := Some(Delivered), resolved := Some(task.id));
      if task.mode.None? {
        task := task.(mode := Some(if task.parent.None? then Primary else Repaired));
      }
      if task.tier.None? {
        task := task.(tier := Some(if task.parent.None? then "primary" else TextOr(task.generationMode, DEFAULT_GENERATION_MODE)));
      }
      task := task.(stopReason := None);
    }

    method CompleteRun(running: Task, report: RunReport, childId: TaskId)
      requires report.Rendered?
      requires Structured(Snapshot()) && Loaded(Snapshot(), running) && Fresh(Snapshot(), childId)
      modifies this`order, this`rows, this`cases, this`scores
      ensures Snapshot() == Lifecycle.CompleteRun(cfg, old(Snapshot()), running, childId, report)
    {
      ghost var s := Snapshot();
      var score := TotalScore(true, report.issueCodes, report.previewIssueCodes);
      var task := MarkDelivered(running, score);
      CompleteRunPrelude(cfg, s, running, childId, score);
      hide Structured, Fresh, Loaded, Held, SuccessRow, RecordSuccess, ScheduleChallenger, MaybePromote, Linked;
      RecordDelivery(task, score);
      MaybeScheduleQualityChallenger(task, report.challengerGuardOpen, childId);
      ScheduleKeeps(cfg, RecordSuccess(s, task, score), task, childId, report.challengerGuardOpen);
      MaybeAutoPromoteChallenger(task, report.promotionGuardOpen, report.authorized);
    }

    // --------------------------------------------------------------------------- requests

    method RunTask(id: TaskId, report: RunReport, childId: TaskId) returns (r: Result<TaskId, string>)
      requires Valid() && Fresh(Snapshot(), childId)
      modifies this`order, this`rows, this`cases, this`scores
      ensures Valid()
      ensures r.Ok? <==> id in old(rows)
      ensures Snapshot() == Lifecycle.RunTask(cfg, old(Snapshot()), id, childId, report)
      ensures old(Healthy(Snapshot()) && id in rows && rows[id].Claimable()) ==> Healthy(Snapshot())
    {
      ghost var s := Snapshot();
      hide Structured, Scored, Healthy, Fresh, Loaded, Linked, Lineage, Lifecycle.CompleteRun, Lifecycle.FailTask;
      if id !in rows {
        return Err("unknown_task");
      }
      RunIsValid(cfg, s, id, childId, report);
      ClaimedIsLoaded(s, id, childId, report.generationMode);
      var task := rows[id];
      if task.status == Cancelled {
        return Ok(id);
      }
      if report.generationMode.Some? {
        task := task.(generationMode := report.generationMode);
      }
      task := task.(status := Running);
      EnsureCaseForTask(task);
      r := Ok(id);
      match report
      case Rendered(_, _, _, _, _, _) => CompleteRun(task, report, childId);
      case Broken(_, issueCodes, context) => FailTask(task, issueCodes, context, childId);
    }

    method CreateVideoTask(id: TaskId, key: Option<string>) returns (r: Result<TaskId, string>)
      requires Valid() && Fresh(Snapshot(), id)
      modifies this`order, this`rows, this`cases
      ensures Valid()
      ensures Snapshot() == Create(cfg, old(Snapshot()), id, key)
      ensures old(Healthy(Snapshot())) ==> Healthy(Snapshot())
      ensures r.Err? <==>
              || old(ActiveCount(Snapshot())) >= cfg.maxQueuedTasks
              || (key == Some("") && KeyHolder(old(order), old(rows), key.value).Some?)
      ensures r.Ok? ==> r.value in rows && (r.value == id <==> id in rows)
      ensures r.Ok? && key.Some? ==> rows[r.value].idempotencyKey == key
    {
      ghost var s := Snapshot();
      hide Structured, Scored, Healthy, Linked, Lineage;
      StepIsValid(cfg, s, CreateStep(id, key));
      if ActiveCount(Snapshot()) >= cfg.maxQueuedTasks {
        return Err("queue_full");
      }
      var holder := if key.Some? then KeyHolder(order, rows, key.value) else None;
      if holder.Some? {
        if key == Some("") {
          return Err("duplicate_idempotency_key");
        }
        var known := rows[holder.value];
        RootsAreRoots(s, holder.value);
        EnsureCaseForTask(known);
        SyncCaseForRoot(known.root);
        return Ok(holder.value);
      }
      assert WellPlaced(s, NewRoot(id, key));
      PersistChildTask(NewRoot(id, key));
      r := Ok(id);
    }

    method ReviseAuthorizedTask(baseId: TaskId, childId: TaskId) returns (r: Result<TaskId, string>)
      requires Valid() && Fresh(Snapshot(), childId)
      modifies this`order, this`rows, this`cases
      ensures Valid()
      ensures r.Ok? <==> baseId in old(rows)
                         && (old(rows)[baseId].DeliveredCandidate() ==> CanChallenge(cfg, old(Snapshot()), old(rows)[baseId]))
      ensures Snapshot() == Revise(cfg, old(Snapshot()), baseId, childId)
      ensures old(Healthy(Snapshot())) ==> Healthy(Snapshot())
    {
      hide Structured, Scored, Healthy, Fresh, CanChallenge, Linked, Lineage;
      StepIsValid(cfg, Snapshot(), ReviseStep(baseId, childId));
      if baseId !in rows {
        return Err("unknown_task");
      }
      var base := rows[baseId];
      var child := FromRevision(base, childId);
      ChildIsWellPlaced(Snapshot(), baseId, child);
      if base.DeliveredCandidate() {
        r := CreateChallengerTask(baseId, childId);
        return;
      }
      PersistChildTask(child);
      r := Ok(childId);
    }

    method RetryAuthorizedTask(baseId: TaskId, childId: TaskId) returns (r: Result<TaskId, string>)
      requires Valid() && Fresh(Snapshot(), childId)
      modifies this`order, this`rows, this`cases
      ensures Valid()
      ensures r.Ok? <==> CanRetry(cfg, old(Snapshot()), baseId)
      ensures Snapshot() == Retry(cfg, old(Snapshot()), baseId, childId)
      ensures old(Healthy(Snapshot())) ==> Healthy(Snapshot())
    {
      hide Structured, Scored, Healthy, Fresh, Linked, Lineage;
      StepIsValid(cfg, Snapshot(), RetryStep(baseId, childId));
      if baseId !in rows {
        return Err("unknown_task");
      }
      var base := rows[baseId];
      if base.status != Failed {
        return Err("requires_failed_parent");
      }
      if CountLineageTasks(base.root) >= cfg.maxAttemptsPerRoot {
        return Err("attempt_limit_reached");
      }
      var child := FromRevision(base, childId);
      ChildIsWellPlaced(Snapshot(), baseId, child);
      PersistChildTask(child);
      r := Ok(childId);
    }

    method AcceptBestVersion(id: TaskId) returns (r: Result<TaskId, string>)
      requires Valid()
      modifies this`rows, this`cases
      ensures Valid()
      ensures r.Ok? <==> CanAccept(old(Snapshot()), id)
      ensures Snapshot() == Accept(old(Snapshot()), id)
      ensures old(Healthy(Snapshot())) ==> Healthy(Snapshot())
    {
      hide Structured, Scored, Healthy, CanAccept, Accept, Linked, Lineage;
      AcceptIsValid(cfg, Snapshot(), id);
      r := AcceptTaskAsBest(id);
    }

    method CancelVideoTask(id: TaskId) returns (r: Result<TaskId, string>)
      requires Valid()
      modifies this`rows
      ensures Valid()
      ensures r.Ok? <==> id in old(rows)
      ensures Snapshot() == Cancel(old(Snapshot()), id)
    {
      StepIsValid(cfg, Snapshot(), CancelStep(id));
      hide Structured, Scored, Healthy;
      if id !in rows {
        return Err("unknown_task");
      }
      var task := rows[id];
      task := task.(status := Cancelled, phase := AtCancelled);
      UpdateTask(task);
      r := Ok(id);
    }

    /** Deleting a task drops its row, the case keyed by it and the agent runs that belong to either. */
    method DeleteTask(id: TaskId)
      requires Valid()
      modifies this`order, this`rows, this`cases, this`agentRuns
      ensures Valid()
      ensures Snapshot() == old(Snapshot()).Delete(id)
      ensures agentRuns == RunsWithout(old(agentRuns), [id])
    {
      hide Structured, Scored, Linked, Lineage, RunsWithout;
      DeleteIsValid(cfg, Snapshot(), id);
      order := Without(order, [id]);
      rows := rows - {id};
      cases := cases - {id};
      agentRuns := RunsWithout(agentRuns, [id]);
    }

    /** Cleanup removes its candidates one by one. */
    method DeleteCandidates(candidates: seq<TaskId>) returns (deleted: nat)
      requires Valid()
      modifies this`order, this`rows, this`cases, this`agentRuns
      ensures Valid() && deleted == |candidates|
      ensures Snapshot() == DeleteAll(old(Snapshot()), candidates)
      ensures agentRuns == RunsWithout(old(agentRuns), candidates)
    {
      ghost var s, runs := Snapshot(), agentRuns;
      deleted := 0;
      for i := 0 to |candidates|
        invariant Valid() && deleted == i
        invariant DeleteAll(Snapshot(), candidates[i..]) == DeleteAll(s, candidates)
        invariant RunsWithout(agentRuns, candidates[i..]) == RunsWithout(runs, candidates)
      {
        assert candidates[i..][0] == candidates[i] && candidates[i..][1..] == candidates[i + 1..];
        RunsWithoutFirst(agentRuns, candidates[i..]);
        DeleteTask(candidates[i]);
        deleted := deleted + 1;
      }
      RunsWithoutNone(agentRuns);
    }

    // ---------------------------------------------------------------------- reconciliation

    /** Fails every orphan that is not failed as one already. */
    method FailOrphans(orphans: seq<TaskId>) returns (changed: bool)
      requires Distinct(orphans)
      requires forall x :: x in orphans ==> x in rows && rows[x].id == x
      modifies this`rows
      ensures rows.Keys == old(rows).Keys
      ensures forall x :: x in old(rows) ==>
                rows[x] == if x in orphans && !AlreadyOrphaned(old(rows)[x]) then OrphanedRow(old(rows)[x]) else old(rows)[x]
      ensures changed <==> exists x :: x in orphans && !AlreadyOrphaned(old(rows)[x])
    {
      ghost var before := rows;
      hide AlreadyOrphaned;
      changed := false;
      for i := 0 to |orphans|
        invariant rows.Keys == before.Keys
        invariant forall x :: x in before ==>
                    rows[x] == if x in orphans[..i] && !AlreadyOrphaned(before[x]) then OrphanedRow(before[x]) else before[x]
        invariant changed <==> exists x :: x in orphans[..i] && !AlreadyOrphaned(before[x])
      {
        var id := orphans[i];
        assert id in orphans && id !in orphans[..i];
        assert orphans[..i + 1] == orphans[..i] + [id];
        assert id in orphans[..i + 1];
        if !AlreadyOrphaned(rows[id]) {
          var task := rows[id];
          task := task.(status := Failed, phase := AtFailed, delivery := Some(Undelivered), stopReason := Some(ORPHANED));
          UpdateTask(task);
          changed := true;
        }
      }
      assert orphans[..|orphans|] == orphans;
    }

    /** Fails the new orphans of a lineage and syncs the case if there was one. */
    method ReconcileOrphanedBranches(root: TaskId) returns (reconciled: bool)
      requires Valid()
      modifies this`rows, this`cases
      ensures Valid()
      ensures reconciled == HasNewOrphan(old(Snapshot()), root)
      ensures Snapshot() == ReconcileOrphans(old(Snapshot()), root)
    {
      ghost var s := Snapshot();
      hide Structured, Scored, Linked, Lineage, Reachable, HasNewOrphan, Distinct, AlreadyOrphaned, OrphanedRow;
      ReconcileIsValid(cfg, s, root);
      OrphanLoopFacts(s, root);
      var reachable := ReachableLineageTasks(root);
      var orphans := Without(Lineage(order, rows, root), reachable);
      assert orphans == Orphans(s.order, s.rows, root);
      hide Orphans;
      reconciled := FailOrphans(orphans);
      OrphanRowsAre(s, rows, root);
      if reconciled {
        SyncCaseForRoot(root);
      }
    }

    /** Walks the stored runs of the case and stops each stalled one. */
    method ReconcileStalledAgentRuns(root: Task)
      modifies this`agentRuns
      ensures agentRuns == ReconcileAgentRuns(old(agentRuns), root, rows)
    {
      ghost var before := agentRuns;
      PassIsPointwise(before, root, rows);
      hide ReconcileAgentRuns;
      for i := 0 to |agentRuns|
        invariant |agentRuns| == |before|
        invariant forall k :: 0 <= k < i ==> agentRuns[k] == ReconcileAgentRun(before[k], root, rows)
        invariant forall k :: i <= k < |before| ==> agentRuns[k] == before[k]
      {
        var run := agentRuns[i];
        if run.caseId == root.root && run.Unfinished() {
          if run.taskId.Some? && run.taskId.value !in rows {
            run := run.(status := RunFailed, stopReason := Some("task_missing"));
          } else if RootTerminal(root) {
            run := run.(status := RunCancelled, stopReason := Some("case_terminal"));
          } else if run.taskId.Some? && TerminalStatus(rows[run.taskId.value].status) {
            run := run.(status := RunCancelled, stopReason := Some("task_terminal"));
          }
        }
        assert run == ReconcileAgentRun(before[i], root, rows);
        hide ReconcileAgentRun;
        agentRuns := agentRuns[i := run];
      }
    }
  }

  lemma ScanStep(ids: seq<TaskId>, i: nat, rows: Rows, root: TaskId)
    requires i < |ids| && ids[i] in rows
    ensures
      var kept, task := Scan(ids[..i], rows, root), rows[ids[i]];
      Scan(ids[..i + 1], rows, root) ==
      if ids[i] != root && task.parent.Some? && task.parent.value in kept then kept + [ids[i]] else kept
  {
    assert ids[..i + 1][..i] == ids[..i];
  }

  lemma ChildIsWellPlaced(s: Store, baseId: TaskId, child: Task)
    requires Structured(s) && baseId in s.rows
    requires child.parent == Some(s.rows[baseId].id) && child.root == s.rows[baseId].root && !child.best && child.rank.None?
    ensures WellPlaced(s, child)
  {
  }

  lemma AcceptedRowsAre(s: Store, rows: Rows, winner: TaskId, rank: nat)
    requires CanAccept(s, winner) && rank == Position(s.Members(s.rows[winner].root), winner) + 1
    requires rows.Keys == s.rows.Keys
    requires rows[s.rows[winner].root] == AcceptedRoot(s.rows[s.rows[winner].root], s.rows[winner], rank)
    requires forall x :: x in s.rows && x != s.rows[winner].root && x !in s.Members(s.rows[winner].root) ==> rows[x] == s.rows[x]
    requires forall x :: x in s.rows && x != s.rows[winner].root && x in s.Members(s.rows[winner].root) ==>
               rows[x] == AcceptedRow(s.rows[x], winner, rank)
    ensures rows == AcceptedRows(s, winner)
    ensures AcceptedRoot(s.rows[s.rows[winner].root], s.rows[winner], rank).id == s.rows[s.rows[winner].root].id
  {
  }

  lemma AcceptanceFacts(s: Store, winner: TaskId)
    requires Structured(s) && CanAccept(s, winner)
    ensures
      var root := s.rows[winner].root;
      var ids := s.Members(root);
      && root in s.rows && winner in ids && Distinct(ids) && s.rows[root].id == root && root in AcceptedRows(s, winner)
      && AcceptedRows(s, winner)[root].root == root
      && Linked(s.order, AcceptedRows(s, winner))
      && (forall i :: 0 <= i < |ids| ==> ids[i] in s.rows && s.rows[ids[i]].id == ids[i])
  {
    var root := s.rows[winner].root;
    RootsAreRoots(s, winner);
    LineageDistinct(s.order, s.rows, root);
    AcceptedRowsFacts(s, winner);
    SamePlacesKeepLinks(s.order, s.rows, AcceptedRows(s, winner));
    assert forall i :: 0 <= i < |s.Members(root)| ==> s.Members(root)[i] in s.Members(root);
    hide AcceptedRows, OneBest, Isolated, ParentsFirst, Distinct;
  }

  lemma FailureIsStored(cfg: Settings, s: Store, task: Task, childId: TaskId)
    requires Structured(s) && Loaded(s, task) && Fresh(s, childId)
    ensures
      var s1 := s.Put(task);
      Structured(s1) && Fresh(s1, childId) && task.id in s1.rows && s1.rows[task.id] == task
  {
    PutKeeps(s, task);
    hide Structured;
  }

  lemma RepairIsStored(cfg: Settings, s: Store, task: Task, childId: TaskId)
    requires Structured(s) && Loaded(s, task) && Fresh(s, childId)
    ensures
      var s1 := s.Put(task);
      var s2 := Persist(s1, RepairChild(task, childId));
      && (task.root in s1.rows ==> s1.rows[task.root].id == task.root)
      && (task.root in s2.rows ==> s2.rows[task.root].id == task.root)
  {
  }

  lemma FailurePrelude(cfg: Settings, s: Store, task: Task, childId: TaskId, issueCodes: seq<string>, context: FailureContext)
    requires Structured(s) && Loaded(s, task) && Fresh(s, childId) && task.status == Failed
    ensures
      var created := JudgeRepair(cfg, s.Put(task).Count(task.root), issueCodes).created;
      var s3 := AfterRepair(cfg, s, task, childId, issueCodes);
      var s4 := if created then s3 else EndFailure(s3, task, childId, JudgeEnding(cfg, s3, task, issueCodes, context));
      && Structured(s3)
      && (!created ==> Loaded(s3, task) && Fresh(s3, childId) && (task.parent.Some? ==> s3.rows[task.id] == task))
      && Linked(s4.order, s4.rows) && (task.root in s4.rows ==> s4.rows[task.root].root == task.root)
  {
    var created := JudgeRepair(cfg, s.Put(task).Count(task.root), issueCodes).created;
    var s3 := AfterRepair(cfg, s, task, childId, issueCodes);
    var ending := JudgeEnding(cfg, s3, task, issueCodes, context);
    var s4 := if created then s3 else EndFailure(s3, task, childId, ending);
    AfterRepairKeeps(cfg, s, task, childId, issueCodes);
    AfterRepairMoves(cfg, s, task, childId, issueCodes);
    assert task.parent.Some? ==> task.id != task.root by { assert task.id in s.rows; }
    if !created {
      StillLoaded(cfg, s, task, childId, issueCodes);
      AfterRepairInPlace(cfg, s, task, childId, issueCodes);
      EndFailureKeeps(s3, task, childId, ending);
      EndFailureMoves(cfg, s3, task, childId, issueCodes, context);
    }
    hide AfterRepair, EndFailure, JudgeRepair, JudgeEnding;
    RootsAreRoots(s4, task.id);
    hide Structured;
    assert SamePlace(s3.rows[task.id], s4.rows[task.id]);
  }

  lemma CompleteRunPrelude(cfg: Settings, s: Store, running: Task, childId: TaskId, score: int)
    requires Structured(s) && Loaded(s, running) && Fresh(s, childId)
    ensures
      var task := SuccessRow(cfg, running, score);
      var s1 := s.(scores := s.scores[task.id := score]).Put(task);
      var s2 := SyncRoot(s1, task);
      var s3 := RecordSuccess(s, task, score);
      && Structured(s1) && Held(s1, task)
      && Linked(s2.order, s2.rows) && (task.root in s2.rows ==> s2.rows[task.root].root == task.root)
      && Structured(s3) && Fresh(s3, childId) && task.id in s3.rows && s3.rows[task.id] == task
  {
    var task := SuccessRow(cfg, running, score);
    var s0 := s.(scores := s.scores[task.id := score]);
    CasesDoNotMatter(s, s0);
    PutKeeps(s0, task);
    RecordSuccessKeeps(cfg, s, running, score);
    RecordSuccessKeepsFresh(s, task, score, childId);
    RecordedRow(cfg, s, running, score);
    RootsAreRoots(RecordSuccess(s, task, score), task.id);
    hide Structured, SuccessRow, Loaded, Fresh;
  }

  lemma RecordedRow(cfg: Settings, s: Store, running: Task, score: int)
    requires Linked(s.order, s.rows) && Loaded(s, running)
    ensures
      var task := SuccessRow(cfg, running, score);
      var s3 := RecordSuccess(s, task, score);
      task.id in s3.rows && s3.rows[task.id] == task
  {
  }

  lemma ScheduleKeeps(cfg: Settings, s: Store, task: Task, childId: TaskId, guardOpen: bool)
    requires Structured(s) && Fresh(s, childId) && task.id in s.rows && s.rows[task.id] == task
    ensures Structured(ScheduleChallenger(cfg, s, task, childId, guardOpen))
  {
    hide Structured, WantsChallenger, CanChallenge;
    PersistKeeps(s, ChallengerChild(task, childId));
  }

  lemma DegradedWitness(s: Store, root: TaskId, id: TaskId)
    requires id in s.Members(root) && s.rows[id].parent.Some? && s.rows[id].mode == Some(Degraded)
    ensures HasDegradedAttempt(s, root)
  {
  }

  function DeleteAll(s: Store, ids: seq<TaskId>): Store
    decreases ids
  {
    if ids == [] then s else DeleteAll(s.Delete(ids[0]), ids[1..])
  }

  lemma StepIsValid(cfg: Settings, s: Store, step: Step)
    requires Structured(s) && Scored(cfg, s) && Enabled(s, step)
    ensures Structured(Apply(cfg, s, step)) && Scored(cfg, Apply(cfg, s, step))
    ensures Healthy(s) && Ordinary(step) ==> Healthy(Apply(cfg, s, step))
  {
    hide Structured, Scored, Apply, Healthy, Enabled;
    StepKeeps(cfg, s, step);
    StepKeepsScored(cfg, s, step);
    if Healthy(s) && Ordinary(step) {
      StepKeepsHealthy(cfg, s, step);
    }
  }

  lemma AcceptIsValid(cfg: Settings, s: Store, id: TaskId)
    requires Structured(s) && Scored(cfg, s)
    ensures Structured(Accept(s, id)) && Scored(cfg, Accept(s, id))
    ensures Healthy(s) ==> Healthy(Accept(s, id))
  {
    hide Structured, Scored, Healthy, Accept;
    StepIsValid(cfg, s, AcceptStep(id));
  }

  lemma DeleteIsValid(cfg: Settings, s: Store, id: TaskId)
    requires Structured(s) && Scored(cfg, s)
    ensures Structured(s.Delete(id)) && Scored(cfg, s.Delete(id))
  {
    hide Structured, Scored;
    StepIsValid(cfg, s, DeleteStep(id));
  }

  lemma ReconcileIsValid(cfg: Settings, s: Store, root: TaskId)
    requires Structured(s) && Scored(cfg, s)
    ensures Structured(ReconcileOrphans(s, root)) && Scored(cfg, ReconcileOrphans(s, root)) && Linked(s.order, s.rows)
  {
    hide Structured, Scored, ReconcileOrphans, Linked, Healthy;
    LinkedOf(s);
    StepIsValid(cfg, s, ReconcileStep(root));
  }

  lemma OrphanRowsAre(s: Store, rows: Rows, root: TaskId)
    requires rows.Keys == s.rows.Keys
    requires forall x :: x in s.rows ==>
               rows[x] == if x in Orphans(s.order, s.rows, root) && !AlreadyOrphaned(s.rows[x]) then OrphanedRow(s.rows[x]) else s.rows[x]
    ensures rows == OrphanRows(s, root)
    ensures !HasNewOrphan(s, root) ==> rows == s.rows
  {
    hide Orphans, AlreadyOrphaned, OrphanedRow, Lineage, Reachable;
    assert rows.Keys == OrphanRows(s, root).Keys;
    forall x | x in s.rows ensures rows[x] == OrphanRows(s, root)[x] {}
    hide OrphanRows;
    if !HasNewOrphan(s, root) {
      forall x | x in s.rows ensures rows[x] == s.rows[x] {}
    }
  }

  lemma RunIsValid(cfg: Settings, s: Store, id: TaskId, childId: TaskId, report: RunReport)
    requires Structured(s) && Scored(cfg, s) && Fresh(s, childId) && id in s.rows
    ensures
      var s' := Lifecycle.RunTask(cfg, s, id, childId, report);
      && Structured(s') && Scored(cfg, s')
      && (Healthy(s) && s.rows[id].Claimable() ==> Healthy(s'))
  {
    hide Structured, Scored, Healthy, Fresh;
    RunKeeps(cfg, s, id, childId, report);
    RunKeepsScored(cfg, s, id, childId, report);
    if Healthy(s) && s.rows[id].Claimable() {
      StepKeepsHealthy(cfg, s, RunStep(id, childId, report));
    }
  }

  lemma {:induction false} WithoutIsDistinct(ids: seq<TaskId>, drop: seq<TaskId>)
    requires Distinct(ids)
    ensures Distinct(Without(ids, drop))
  {
    if ids != [] {
      var n := |ids| - 1;
      WithoutIsDistinct(ids[..n], drop);
      var rest := Without(ids[..n], drop);
      assert ids[n] !in ids[..n];
      assert forall k :: 0 <= k < |rest| ==> rest[k] in rest;
    }
  }

  lemma OrphanLoopFacts(s: Store, root: TaskId)
    requires Structured(s)
    ensures
      var orphans := Orphans(s.order, s.rows, root);
      && Distinct(orphans)
      && (forall i, j :: 0 <= i < j < |orphans| ==> orphans[i] != orphans[j])
      && (forall id :: id in orphans ==> id in s.rows && s.rows[id].id == id && s.rows[id].root == root)
      && (HasNewOrphan(s, root) <==> exists x :: x in orphans && !AlreadyOrphaned(s.rows[x]))
      && Linked(s.order, OrphanRows(s, root))
      && (root in OrphanRows(s, root) && HasNewOrphan(s, root) ==> OrphanRows(s, root)[root].root == root)
  {
    LineageDistinct(s.order, s.rows, root);
    WithoutIsDistinct(s.Members(root), Reachable(s.order, s.rows, root));
    var orphans := Orphans(s.order, s.rows, root);
    assert forall id :: id in orphans ==> id in s.Members(root);
    OrphanRowsFacts(s, root);
    SamePlacesKeepLinks(s.order, s.rows, OrphanRows(s, root));
    if HasNewOrphan(s, root) {
      var x :| x in orphans && !AlreadyOrphaned(s.rows[x]);
      RootsAreRoots(s, x);
    }
    hide Structured, Linked, OrphanRows, Orphans, Reachable, Lineage;
  }
}
