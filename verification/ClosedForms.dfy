/** What each request leaves, in closed form: the rows afterwards told column by column from the rows before. Nothing
    here calls the functions that the requests are made of. */
module ClosedForms {
  import opened Wrappers
  import opened TaskModel
  import opened LineageGraph
  import opened TaskStore
  import opened Arbitration
  import opened QualityJudge
  import opened Lifecycle
  import opened Invariants
  import opened Progress
  import opened Health
  import opened Budget
  import opened Promotion

  // ------------------------------------------------------------------------ common columns

  ghost function Text(value: Option<string>, fallback: string): string {
    match value
    case None => fallback
    case Some(text) => if |text| == 0 then fallback else text
  }

  /** A child row: placed under its parent, waiting, with the parent's quality gate. */
  ghost function ChildRow(parent: Task, id: TaskId, challenger: bool, mode: Option<Mode>, generationMode: Option<string>,
                          tier: Option<string>): Task
  {
    Task(id := id, root := parent.root, parent := Some(parent.id), challenger := challenger, idempotencyKey := None,
         status := Queued, phase := AtQueue, generationMode := generationMode, gate := parent.gate, best := false, rank := None,
         delivery := Some(Pending), resolved := None, mode := mode, tier := tier, stopReason := None,
         repair := RepairState(attempted := false, children := 0, lastIssue := None, stopReason := None))
  }

  ghost function DeliveredRow(t: Task, winner: TaskId, mode: Option<Mode>, tier: Option<string>): Task {
    t.(status := Completed, phase := AtCompleted, delivery := Some(Delivered), resolved := Some(winner), mode := mode, tier := tier,
       stopReason := None)
  }

  /** The number of tasks of a lineage. */
  ghost function Size(s: Store, r: TaskId): nat {
    |s.Members(r)|
  }

  // ------------------------------------------------------------------------- a failing run

  datatype End = Repair | Degrade(tier: string) | Rescue(mode: Mode, tier: string) | GiveUpWith(reason: string)

  ghost predicate Repairable(cfg: Settings, count: nat, codes: seq<string>) {
    && cfg.autoRepairEnabled && |codes| > 0 && codes[0] in cfg.retryableIssueCodes
    && count - 1 < cfg.autoRepairMaxChildren && count < cfg.maxAttemptsPerRoot
  }

  /** Why no repair was scheduled. */
  ghost function RefusalReason(cfg: Settings, count: nat, codes: seq<string>): string {
    if !cfg.autoRepairEnabled then "disabled"
    else if |codes| == 0 then "missing_issue_code"
    else if codes[0] !in cfg.retryableIssueCodes then "non_retryable_issue"
    else "budget_exhausted"
  }

  ghost predicate Violation(codes: seq<string>) {
    |codes| > 0 && (codes[0] == "sandbox_policy_violation" || codes[0] == "runtime_policy_violation")
  }

  ghost predicate Undeliverable(codes: seq<string>) {
    Violation(codes) || (|codes| > 0 && codes[0] == "latex_dependency_missing")
  }

  ghost predicate Degradable(cfg: Settings, s: Store, t: Task, context: FailureContext) {
    && cfg.guaranteeEnabled && t.parent.Some? && t.mode != Some(Degraded)
    && (forall id :: id in s.rows && s.rows[id].root == t.root && s.rows[id].parent.Some? ==> s.rows[id].mode != Some(Degraded))
    && !context.humanReviewRequired
    && !("provider_" <= context.contractIssueCode)
    && context.contractIssueCode != "latex_dependency_missing"
    && context.contractIssueCode != "sandbox_policy_violation" && context.contractIssueCode != "runtime_policy_violation"
    && Size(s, t.root) < cfg.maxAttemptsPerRoot
  }

  /** How the run of a claimed task that fails will end. */
  ghost function Foreseen(cfg: Settings, s: Store, t: Task, codes: seq<string>, context: FailureContext): End {
    if Repairable(cfg, Size(s, t.root), codes) then Repair
    else if Violation(codes) then GiveUpWith(codes[0])
    else if Degradable(cfg, s, t, context) then Degrade(Text(context.fallbackMode, Text(t.generationMode, "guided_generate")))
    else if Undeliverable(codes) then GiveUpWith(codes[0])
    else if !cfg.guaranteeEnabled then GiveUpWith("disabled")
    else if !cfg.emergencyVideoAllowed then GiveUpWith("emergency_video_disabled")
    else if context.writerError.Some? then GiveUpWith(context.writerError.value)
    else if t.parent.None? then Rescue(EmergencyFallback, "emergency")
    else Rescue(Degraded, Text(t.generationMode, "guided_generate"))
  }

  /** The root with the outcome of the repair written on it. */
  ghost function RepairNoted(cfg: Settings, root: Task, count: nat, codes: seq<string>, repaired: bool): Task {
    root.(repair := RepairState(
            attempted := root.repair.attempted || cfg.autoRepairEnabled,
            children := if repaired then count else if count > 0 then count - 1 else 0,
            lastIssue := if |codes| > 0 then Some(codes[0]) else root.repair.lastIssue,
            stopReason := if repaired then None else Some(RefusalReason(cfg, count, codes))))
  }

  /** The failed task's row. A root that fails without a repair is written back without what was just noted on it. */
  ghost function FailedTask(cfg: Settings, count: nat, t: Task, codes: seq<string>, end: End): Task {
    var failed := t.(status := Failed, phase := AtFailed);
    match end
    case Repair => if t.parent.None? then RepairNoted(cfg, failed, count, codes, true) else failed
    case Degrade(_) => failed
    case Rescue(mode, tier) => DeliveredRow(failed, t.id, Some(mode), Some(tier))
    case GiveUpWith(reason) => failed.(delivery := Some(Undelivered), stopReason := Some(reason))
  }

  /** The row of its root, when that is another task. */
  ghost function FailedRoot(cfg: Settings, count: nat, root: Task, t: Task, codes: seq<string>, end: End): Task {
    var noted := RepairNoted(cfg, root, count, codes, end == Repair);
    match end
    case Repair => noted
    case Degrade(_) => noted
    case Rescue(mode, tier) => if t.challenger then noted else DeliveredRow(noted, t.id, Some(mode), Some(tier))
    case GiveUpWith(reason) => noted.(delivery := Some(Undelivered), stopReason := Some(reason))
  }

  ghost function FailedRows(cfg: Settings, s: Store, t: Task, childId: TaskId, codes: seq<string>, end: End): Rows
    requires t.root in s.rows
  {
    var count := Size(s, t.root);
    var rooted := s.rows[t.root := FailedRoot(cfg, count, s.rows[t.root], t, codes, end)];
    var settled := rooted[t.id := FailedTask(cfg, count, t, codes, end)];
    match end
    case Repair => settled[childId := ChildRow(t, childId, false, Some(Repaired), t.generationMode, None)]
    case Degrade(tier) => settled[childId := ChildRow(t, childId, false, Some(Degraded), Some(tier), Some(tier))]
    case _ => settled
  }

  ghost predicate Grown(s: Store, s': Store, end: End, childId: TaskId) {
    s'.order == if end.Repair? || end.Degrade? then s.order + [childId] else s.order
  }

  /** The claimed task: its generation mode is the one just classified. */
  ghost function Claimed(t: Task, generationMode: Option<string>): Task {
    match generationMode
    case None => t
    case Some(_) => t.(generationMode := generationMode)
  }

  // ---- why it is so

  lemma RepairJudged(cfg: Settings, count: nat, codes: seq<string>)
    requires count > 0
    ensures JudgeRepair(cfg, count, codes).created <==> Repairable(cfg, count, codes)
    ensures !Repairable(cfg, count, codes) ==> JudgeRepair(cfg, count, codes).reason == RefusalReason(cfg, count, codes)
    ensures JudgeRepair(cfg, count, codes).created ==> JudgeRepair(cfg, count, codes).reason == "created"
  {
  }

  lemma Degradables(cfg: Settings, s: Store, t: Task, context: FailureContext)
    requires Linked(s.order, s.rows)
    ensures MayDegrade(cfg, s, t, context) <==> Degradable(cfg, s, t, context)
  {
    assert forall id :: id in s.Members(t.root) <==> id in s.rows && s.rows[id].root == t.root by { hide ParentsFirst, Distinct; }
    hide Linked, Lineage;
  }

  lemma EndingJudged(cfg: Settings, s: Store, t: Task, codes: seq<string>, context: FailureContext)
    requires Linked(s.order, s.rows)
    ensures JudgeEnding(cfg, s, t, codes, context) ==
            if Violation(codes) then Abandoned(codes[0])
            else if Degradable(cfg, s, t, context) then DegradedAttempt(Text(context.fallbackMode, Text(t.generationMode, "guided_generate")))
            else if Undeliverable(codes) then Abandoned(codes[0])
            else if !cfg.guaranteeEnabled then Abandoned("disabled")
            else if !cfg.emergencyVideoAllowed then Abandoned("emergency_video_disabled")
            else if context.writerError.Some? then Abandoned(context.writerError.value)
            else if t.parent.None? then Ending.Emergency(EmergencyFallback, "emergency")
            else Ending.Emergency(Degraded, Text(t.generationMode, "guided_generate"))
  {
    Degradables(cfg, s, t, context);
    TextsAgree(context.fallbackMode, Text(t.generationMode, "guided_generate"));
    TextsAgree(t.generationMode, "guided_generate");
    hide MayDegrade, Degradable, Linked, TextOr, Text;
  }

  lemma TextsAgree(value: Option<string>, fallback: string)
    ensures TextOr(value, fallback) == Text(value, fallback)
  {
  }

  lemma NotedAgrees(cfg: Settings, root: Task, count: nat, codes: seq<string>)
    requires count > 0
    ensures
      var repaired := Repairable(cfg, count, codes);
      WithRepairState(root, if repaired then count + 1 else count, codes, JudgeRepair(cfg, count, codes)) ==
      RepairNoted(cfg, root, count, codes, repaired)
  {
    RepairJudged(cfg, count, codes);
    assert Repairable(cfg, count, codes) ==> cfg.autoRepairEnabled;
    assert "missing_issue_code" != "disabled" && "missing_issue_code" != "task_not_failed";
    hide JudgeRepair, Repairable;
  }

  lemma ChildrenAgree(t: Task, failed: Task, childId: TaskId, tier: string)
    requires failed == t.(status := failed.status, phase := failed.phase)
    ensures RepairChild(failed, childId) == ChildRow(t, childId, false, Some(Repaired), t.generationMode, None)
    ensures DegradedChild(failed, childId, tier) == ChildRow(t, childId, false, Some(Degraded), Some(tier), Some(tier))
  {
  }

  /** Storing a child makes its lineage one larger. */
  lemma PersistGrows(s: Store, child: Task)
    requires Structured(s) && Fresh(s, child.id) && WellPlaced(s, child) && child.parent.Some?
    ensures Size(Persist(s, child), child.root) == Size(s, child.root) + 1
  {
    var s' := Persist(s, child);
    PersistKeeps(s, child);
    PersistMoves(s, child);
    LinkedOf(s);
    LinkedOf(s');
    assert s'.order == s.order + [child.id];
    hide Structured, Linked, Persist, Moves, Lineage;
    MembersGrow(s, s', child.root);
  }

  lemma RepairedSize(cfg: Settings, s: Store, task: Task, childId: TaskId)
    requires Structured(s) && Loaded(s, task) && Fresh(s, childId)
    ensures Size(s.Put(task), task.root) == Size(s, task.root) > 0
    ensures Size(Persist(s.Put(task), RepairChild(task, childId)), task.root) == Size(s, task.root) + 1
  {
    RowKeyed(s, task.id);
    LinkedOf(s);
    PutIsInPlace(s, task);
    PutKeeps(s, task);
    assert Fresh(s.Put(task), childId) && WellPlaced(s.Put(task), RepairChild(task, childId));
    hide Structured, Fresh, Linked, Persist, Lineage;
    PersistGrows(s.Put(task), RepairChild(task, childId));
  }

  lemma AfterRepairRows(cfg: Settings, s: Store, task: Task, childId: TaskId, codes: seq<string>)
    requires Structured(s) && Loaded(s, task) && Fresh(s, childId) && task.root in s.rows
    ensures
      var s1 := AfterRepair(cfg, s, task, childId, codes);
      var count, rows := Size(s, task.root), s.rows[task.id := task];
      var repaired := Repairable(cfg, count, codes);
      && s1.order == (if repaired then s.order + [childId] else s.order)
      && s1.rows == (if repaired then rows[childId := RepairChild(task, childId)] else rows)
                    [task.root := RepairNoted(cfg, rows[task.root], count, codes, repaired)]
  {
    hide Structured, JudgeRepair, WithRepairState, RepairNoted, Repairable, Persist, Lineage, RecordRepairState;
    var count, rows := Size(s, task.root), s.rows[task.id := task];
    var verdict := JudgeRepair(cfg, s.Put(task).Count(task.root), codes);
    RepairedSize(cfg, s, task, childId);
    RepairJudged(cfg, count, codes);
    NotedAgrees(cfg, rows[task.root], count, codes);
    LinkedOf(s);
    assert s.rows[task.root].id == task.root && childId !in s.rows && s.Put(task).rows == rows by { hide ParentsFirst, Distinct; }
    assert childId != task.root;
    RepairedRows(s, task, childId);
    hide Linked, Fresh, Loaded;
    RecordRows(if verdict.created then Persist(s.Put(task), RepairChild(task, childId)) else s.Put(task), task.root, codes, verdict);
  }

  lemma RecordRows(s: Store, root: TaskId, codes: seq<string>, verdict: RepairVerdict)
    requires root in s.rows && s.rows[root].id == root
    ensures
      var s' := RecordRepairState(s, root, codes, verdict);
      s'.order == s.order && s'.rows == s.rows[root := WithRepairState(s.rows[root], Size(s, root), codes, verdict)]
  {
  }

  lemma AbandonedRows(s: Store, task: Task, reason: string)
    requires Linked(s.order, s.rows) && Loaded(s, task) && task.root in s.rows
    ensures
      var s', given := MarkDeliveryFailed(s, task, reason), task.(delivery := Some(Undelivered), stopReason := Some(reason));
      && s'.order == s.order
      && s'.rows == if task.id == task.root then s.rows[task.id := given]
                    else s.rows[task.id := given][task.root := s.rows[task.root].(delivery := Some(Undelivered), stopReason := Some(reason))]
  {
    assert task.id in s.rows && s.rows[task.root].id == task.root;
    hide Linked;
  }

  lemma DegradedRows(s: Store, task: Task, childId: TaskId, tier: string)
    ensures
      var s' := Persist(s, DegradedChild(task, childId, tier));
      s'.order == s.order + [childId] && s'.rows == s.rows[childId := DegradedChild(task, childId, tier)]
  {
  }

  /** The store when the repair was considered and refused. */
  lemma RefusedFacts(cfg: Settings, s: Store, task: Task, childId: TaskId, codes: seq<string>)
    requires Structured(s) && Loaded(s, task) && Fresh(s, childId) && task.root in s.rows
    requires !Repairable(cfg, Size(s, task.root), codes)
    ensures
      var s1 := AfterRepair(cfg, s, task, childId, codes);
      && Linked(s1.order, s1.rows) && Loaded(s1, task) && task.root in s1.rows && childId !in s1.rows
      && (forall context :: Degradable(cfg, s1, task, context) <==> Degradable(cfg, s, task, context))
  {
    RepairedSize(cfg, s, task, childId);
    RepairJudged(cfg, Size(s, task.root), codes);
    AfterRepairKeeps(cfg, s, task, childId, codes);
    StillLoaded(cfg, s, task, childId, codes);
    AfterRepairInPlace(cfg, s, task, childId, codes);
    var s1 := AfterRepair(cfg, s, task, childId, codes);
    LinkedOf(s);
    LinkedOf(s1);
    hide AfterRepair, JudgeRepair, Structured, Repairable, Fresh;
    DegradableInPlace(cfg, s, s1, task);
  }

  lemma DegradableInPlace(cfg: Settings, s: Store, s1: Store, task: Task)
    requires Loaded(s, task) && s1.order == s.order && s1.rows.Keys == s.rows.Keys
    requires s1.rows[task.id] == task.(repair := s1.rows[task.id].repair)
    requires forall other :: other in s.rows && other != task.id ==> s1.rows[other] == s.rows[other].(repair := s1.rows[other].repair)
    ensures forall context :: Degradable(cfg, s1, task, context) <==> Degradable(cfg, s, task, context)
  {
    assert SameLinks(s.order, s.rows, s1.rows);
    LineageFrame(s.order, s.rows, s1.rows, task.root);
    hide Lineage;
  }

  /** The rows between the repair and the end of a failure. */
  ghost function NotedRows(cfg: Settings, s: Store, running: Task, codes: seq<string>): Rows
    requires running.root in s.rows
  {
    var rows := s.rows[running.id := FailedRow(running)];
    rows[running.root := RepairNoted(cfg, rows[running.root], Size(s, running.root), codes, false)]
  }

  lemma DegradeCloses(cfg: Settings, s: Store, running: Task, childId: TaskId, codes: seq<string>, tier: string)
    requires running.root in s.rows && running.id in s.rows && running.id != running.root && childId !in s.rows
    ensures NotedRows(cfg, s, running, codes)[childId := DegradedChild(FailedRow(running), childId, tier)] ==
            FailedRows(cfg, s, running, childId, codes, Degrade(tier))
  {
    ChildrenAgree(running, FailedRow(running), childId, tier);
    hide RepairNoted;
  }

  lemma RescueCloses(cfg: Settings, s: Store, running: Task, childId: TaskId, codes: seq<string>, mode: Mode, tier: string)
    requires running.root in s.rows && running.id in s.rows && (running.id == running.root ==> !running.challenger)
    ensures
      var task := FailedRow(running);
      var delivered := DeliveredAs(task, Some(mode), Some(tier));
      var rows := NotedRows(cfg, s, running, codes)[running.id := delivered];
      (if running.id != running.root && running.challenger then rows else rows[running.root := Resolve(rows[running.root], delivered)])
      == FailedRows(cfg, s, running, childId, codes, Rescue(mode, tier))
  {
    hide RepairNoted;
  }

  lemma GiveUpCloses(cfg: Settings, s: Store, running: Task, childId: TaskId, codes: seq<string>, reason: string)
    requires running.root in s.rows && running.id in s.rows
    ensures
      var noted, given := NotedRows(cfg, s, running, codes), FailedRow(running).(delivery := Some(Undelivered), stopReason := Some(reason));
      (if running.id == running.root then noted[running.id := given]
       else noted[running.id := given][running.root := noted[running.root].(delivery := Some(Undelivered), stopReason := Some(reason))])
      == FailedRows(cfg, s, running, childId, codes, GiveUpWith(reason))
  {
    hide RepairNoted;
  }

  lemma RepairCloses(cfg: Settings, s: Store, running: Task, childId: TaskId, codes: seq<string>)
    requires running.root in s.rows && running.id in s.rows && childId !in s.rows && (running.parent.None? <==> running.id == running.root)
    ensures
      var rows := s.rows[running.id := FailedRow(running)];
      rows[childId := RepairChild(FailedRow(running), childId)]
          [running.root := RepairNoted(cfg, rows[running.root], Size(s, running.root), codes, true)]
      == FailedRows(cfg, s, running, childId, codes, Repair)
  {
    ChildrenAgree(running, FailedRow(running), childId, "");
    hide RepairNoted;
  }

  ghost function EndOf(ending: Ending): End {
    match ending
    case DegradedAttempt(tier) => Degrade(tier)
    case Emergency(mode, tier) => Rescue(mode, tier)
    case Abandoned(reason) => GiveUpWith(reason)
  }

  lemma EndingForeseen(cfg: Settings, s: Store, s1: Store, running: Task, codes: seq<string>, context: FailureContext)
    requires Linked(s1.order, s1.rows) && !Repairable(cfg, Size(s, running.root), codes)
    requires Degradable(cfg, s1, FailedRow(running), context) <==> Degradable(cfg, s, running, context)
    ensures EndOf(JudgeEnding(cfg, s1, FailedRow(running), codes, context)) == Foreseen(cfg, s, running, codes, context)
    ensures JudgeEnding(cfg, s1, FailedRow(running), codes, context).DegradedAttempt? ==> running.parent.Some?
  {
    hide JudgeEnding, Linked, Repairable, Lineage;
    EndingJudged(cfg, s1, FailedRow(running), codes, context);
    assert Degradable(cfg, s, running, context) ==> running.parent.Some?;
    hide Degradable;
  }

  lemma RefusalCloses(cfg: Settings, s: Store, s1: Store, running: Task, childId: TaskId, codes: seq<string>, context: FailureContext)
    requires running.root in s.rows && running.id in s.rows && childId !in s.rows && (running.parent.None? <==> running.id == running.root)
    requires !Repairable(cfg, Size(s, running.root), codes) && (running.id == running.root ==> !running.challenger)
    requires Linked(s1.order, s1.rows) && Loaded(s1, FailedRow(running)) && running.root in s1.rows && s1.order == s.order
    requires s1.rows == NotedRows(cfg, s, running, codes)
    requires Degradable(cfg, s1, FailedRow(running), context) <==> Degradable(cfg, s, running, context)
    ensures
      var task := FailedRow(running);
      var s', end := EndFailure(s1, task, childId, JudgeEnding(cfg, s1, task, codes, context)), Foreseen(cfg, s, running, codes, context);
      s'.rows == FailedRows(cfg, s, running, childId, codes, end) && Grown(s, s', end, childId)
  {
    hide JudgeEnding, Degradable, Repairable, NotedRows, FailedRows, Linked, Loaded, Persist, FinalizeDelivery, MarkDeliveryFailed, Foreseen;
    var task := FailedRow(running);
    var ending := JudgeEnding(cfg, s1, task, codes, context);
    EndingForeseen(cfg, s, s1, running, codes, context);
    match ending
    case DegradedAttempt(tier) =>
      DegradedRows(s1, task, childId, tier);
      DegradeCloses(cfg, s, running, childId, codes, tier);
    case Emergency(mode, tier) =>
      FinalizeRows(s1, task, mode, tier);
      RescueCloses(cfg, s, running, childId, codes, mode, tier);
    case Abandoned(reason) =>
      AbandonedRows(s1, task, reason);
      GiveUpCloses(cfg, s, running, childId, codes, reason);
  }

  lemma StatusDoesNotDegrade(cfg: Settings, s: Store, t: Task, context: FailureContext)
    ensures Degradable(cfg, s, FailedRow(t), context) <==> Degradable(cfg, s, t, context)
  {
  }

  /** The rows after a failure, from the rows before it. */
  lemma FailTaskCloses(cfg: Settings, s: Store, running: Task, childId: TaskId, codes: seq<string>, context: FailureContext)
    requires Structured(s) && Loaded(s, running) && Fresh(s, childId) && running.root in s.rows
    ensures
      var s', end := FailTask(cfg, s, running, childId, codes, context), Foreseen(cfg, s, running, codes, context);
      s'.rows == FailedRows(cfg, s, running, childId, codes, end) && Grown(s, s', end, childId)
  {
    hide Structured, AfterRepair, JudgeRepair, Repairable, RepairNoted, EndFailure, JudgeEnding, Degradable, FailedRows, Lineage;
    var task := FailedRow(running);
    var s1 := AfterRepair(cfg, s, task, childId, codes);
    var count := Size(s, task.root);
    TaskFacts(s, running);
    assert Loaded(s, task) && childId !in s.rows && running.id in s.rows;
    RepairedSize(cfg, s, task, childId);
    RepairJudged(cfg, count, codes);
    AfterRepairRows(cfg, s, task, childId, codes);
    hide Loaded, Fresh;
    if Repairable(cfg, count, codes) {
      RepairCloses(cfg, s, running, childId, codes);
    } else {
      RefusedFacts(cfg, s, task, childId, codes);
      StatusDoesNotDegrade(cfg, s, running, context);
      RefusalCloses(cfg, s, s1, running, childId, codes, context);
    }
  }

  lemma TaskFacts(s: Store, running: Task)
    requires Structured(s) && Loaded(s, running)
    ensures running.parent.None? <==> running.id == running.root
    ensures running.id == running.root ==> !running.challenger
    ensures running.id in s.rows && s.rows[running.id].root == running.root
  {
    hide OneBest, Isolated, ParentsFirst, Distinct;
    assert running.id in s.rows;
  }

  lemma StatusDoesNotMatter(cfg: Settings, s: Store, s0: Store, t: Task, childId: TaskId, codes: seq<string>, context: FailureContext)
    requires s0.order == s.order && s0.rows == s.rows && t.root in s.rows
    ensures
      var end := Foreseen(cfg, s, t, codes, context);
      && Foreseen(cfg, s0, t.(status := Running), codes, context) == end
      && FailedRows(cfg, s0, t.(status := Running), childId, codes, end) == FailedRows(cfg, s, t, childId, codes, end)
  {
    hide RepairNoted;
  }

  /** A failing run in closed form: how it ends is foreseen from the store before it, and the rows follow from that. */
  lemma FailingRunCloses(cfg: Settings, s: Store, id: TaskId, childId: TaskId, report: RunReport)
    requires Structured(s) && Enabled(s, RunStep(id, childId, report)) && report.Broken? && s.rows[id].root in s.rows
    ensures
      var t := Claimed(s.rows[id], report.generationMode);
      var s', end := RunTask(cfg, s, id, childId, report), Foreseen(cfg, s, t, report.issueCodes, report.context);
      && s'.rows == FailedRows(cfg, s, t, childId, report.issueCodes, end)
      && Grown(s, s', end, childId) && s'.scores == s.scores
  {
    hide Structured, Fresh, Loaded, FailTask, FailedRows, Foreseen;
    var t := Claimed(s.rows[id], report.generationMode);
    ClaimedIsLoaded(s, id, childId, report.generationMode);
    var s0 := s.EnsureCase(t.(status := Running));
    FailTaskCloses(cfg, s0, t.(status := Running), childId, report.issueCodes, report.context);
    FailTaskKeepsGates(cfg, s0, t.(status := Running), childId, report.issueCodes, report.context);
    StatusDoesNotMatter(cfg, s, s0, t, childId, report.issueCodes, report.context);
  }

  // ---------------------------------------------------------------------- a successful run

  /** Points for a rendered video. */
  ghost function Award(codes: seq<string>, previewCodes: seq<string>): int {
    9250 - (if |codes| > 0 then 500 else 0) - (if |previewCodes| > 0 then 500 else 0)
    - (if "static_previews" in previewCodes then 1250 else 0)
  }

  /** The row of a task that succeeds; a mode or tier it already has is kept. */
  ghost function SucceededTask(cfg: Settings, t: Task, points: int): Task {
    DeliveredRow(t.(gate := Some(if points < cfg.qualityGateMinScore then NeedsRevision else Accepted)), t.id,
                 match t.mode case Some(_) => t.mode case None => (if t.parent.Some? then Some(Repaired) else Some(Primary)),
                 match t.tier case Some(_) => t.tier
                 case None => Some(if t.parent.Some? then Text(t.generationMode, "guided_generate") else "primary"))
  }

  ghost function SucceededRows(s: Store, task: Task): Rows {
    var rows := s.rows[task.id := task];
    if task.root == task.id || task.root !in s.rows || task.challenger then rows
    else rows[task.root := DeliveredRow(s.rows[task.root], task.id, task.mode, task.tier)]
  }

  ghost predicate Challengeable(cfg: Settings, s: Store, task: Task, guardOpen: bool) {
    && cfg.workflowEnabled && cfg.autoChallengerEnabled && guardOpen
    && task.gate == Some(NeedsRevision) && task.mode != Some(Degraded) && task.mode != Some(EmergencyFallback)
    && Size(s, task.root) < cfg.maxAttemptsPerRoot && Size(s, task.root) - 1 < cfg.workflowMaxChildren
  }

  lemma AwardIsScore(codes: seq<string>, previewCodes: seq<string>)
    ensures TotalScore(true, codes, previewCodes) == Award(codes, previewCodes)
  {
  }

  lemma SucceededTaskIs(cfg: Settings, t: Task, points: int)
    ensures SuccessRow(cfg, t.(status := Running), points) == SucceededTask(cfg, t, points)
  {
  }

  lemma RecordSuccessRows(cfg: Settings, s: Store, running: Task, points: int)
    requires Structured(s) && Loaded(s, running)
    ensures
      var task := SuccessRow(cfg, running, points);
      var s1 := RecordSuccess(s, task, points);
      && s1.rows == SucceededRows(s, task) && s1.order == s.order && s1.scores == s.scores[task.id := points]
      && task.id in s1.rows && s1.rows[task.id] == task
  {
    hide Structured, Linked, SuccessRow, SyncRoot, Projection;
    RowKeyed(s, running.id);
    RootsAreRoots(s, running.id);
    var task := SuccessRow(cfg, running, points);
    SuccessFields(cfg, running, points);
    TaskFacts(s, running);
    SyncRootRows(s.(scores := s.scores[task.id := points]).Put(task), task);
    hide Loaded;
  }

  lemma SuccessFields(cfg: Settings, running: Task, points: int)
    ensures
      var task := SuccessRow(cfg, running, points);
      && task.id == running.id && task.root == running.root && task.challenger == running.challenger
      && Resolve(task, task) == task
  {
  }

  lemma SyncRootRows(s: Store, task: Task)
    requires task.id in s.rows && s.rows[task.id] == task && Resolve(task, task) == task
    requires (task.root in s.rows ==> s.rows[task.root].id == task.root) && (task.id == task.root ==> !task.challenger)
    ensures SyncRoot(s, task).order == s.order && SyncRoot(s, task).scores == s.scores
    ensures SyncRoot(s, task).rows == SucceededRows(s, task)
  {
    hide Projection;
  }

  lemma ChallengerRows(cfg: Settings, s: Store, task: Task, childId: TaskId, guardOpen: bool)
    requires Structured(s) && Fresh(s, childId) && task.id in s.rows && s.rows[task.id] == task && task.DeliveredCandidate()
    requires task.gate.Some?
    ensures
      var s' := ScheduleChallenger(cfg, s, task, childId, guardOpen);
      if Challengeable(cfg, s, task, guardOpen) then
        && s'.order == s.order + [childId] && s'.scores == s.scores
        && s'.rows == s.rows[childId := ChildRow(task, childId, true, None, task.generationMode, None)]
      else s' == s
  {
    hide Structured, Fresh, Lineage, Persist;
    RowKeyed(s, task.id);
    assert Size(s, task.root) > 0;
    assert ChallengerChild(task, childId) == ChildRow(task, childId, true, None, task.generationMode, None);
    PersistAdds(s, ChallengerChild(task, childId));
    var gate := task.gate.value;
    assert task.gate == Some(gate) && (gate == Accepted || gate == NeedsRevision);
    hide ChildRow, ChallengerChild;
  }

  // ---- the promotion of a challenger

  ghost function PointsOf(scores: map<TaskId, int>, id: TaskId): int {
    if id in scores then scores[id] else 0
  }

  ghost predicate ListedBefore(ids: seq<TaskId>, a: TaskId, b: TaskId) {
    exists i, j :: 0 <= i < j < |ids| && ids[i] == a && ids[j] == b
  }

  ghost predicate ApprovedTask(t: Task) {
    t.status == Completed && t.delivery == Some(Delivered) && t.gate == Some(Accepted)
  }

  /** A task is ahead of another: more points, or as many and it is selected, or neither is and it was created first. */
  ghost predicate AheadOf(s: Store, r: TaskId, a: TaskId, b: TaskId, selected: Option<TaskId>) {
    || PointsOf(s.scores, a) > PointsOf(s.scores, b)
    || (PointsOf(s.scores, a) == PointsOf(s.scores, b) && selected == Some(a))
    || (PointsOf(s.scores, a) == PointsOf(s.scores, b) && selected != Some(b) && ListedBefore(s.Members(r), a, b))
  }

  /** In a lineage with its case current, a task is recommended for promotion: it is approved, not the selected one, and
      ahead of every other approved task of its lineage. The selected task is what the root resolves to, else the first
      task of the lineage. */
  ghost predicate Preferred(s: Store, r: TaskId, id: TaskId) {
    && id in s.rows && r in s.rows && |s.Members(r)| > 0
    && var selected := if s.rows[r].resolved.Some? then s.rows[r].resolved else Some(s.Members(r)[0]);
    && selected != Some(id) && ApprovedTask(s.rows[id])
    && forall x :: x in s.rows && x != id && s.rows[x].root == r && ApprovedTask(s.rows[x]) ==> AheadOf(s, r, id, x, selected)
  }

  ghost predicate Promotable(cfg: Settings, s: Store, task: Task, guardOpen: bool, authorized: bool) {
    cfg.workflowEnabled && cfg.autoArbitrationEnabled && guardOpen && authorized && task.challenger && Preferred(s, task.root, task.id)
  }

  lemma MembersAre(s: Store, r: TaskId, id: TaskId)
    requires Linked(s.order, s.rows)
    ensures id in s.Members(r) <==> id in s.rows && s.rows[id].root == r
    ensures id in s.rows ==> s.rows[id].id == id
  {
    hide ParentsFirst, Distinct;
  }

  /** The board lists the lineage. */
  lemma BoardLists(s: Store, r: TaskId)
    requires Linked(s.order, s.rows)
    ensures
      var ids := s.Members(r);
      && (forall i :: 0 <= i < |ids| ==> ids[i] in s.rows && s.rows[ids[i]].root == r && s.rows[ids[i]].id == ids[i])
      && Distinct(ids)
  {
    LineageDistinct(s.order, s.rows, r);
    var ids := s.Members(r);
    forall i | 0 <= i < |ids| ensures ids[i] in s.rows && s.rows[ids[i]].root == r && s.rows[ids[i]].id == ids[i] {
      assert ids[i] in ids;
      MembersAre(s, r, ids[i]);
    }
    hide Linked, Lineage;
  }

  lemma EntriesRank(s: Store, r: TaskId, i: nat, j: nat, selected: Option<TaskId>)
    requires Linked(s.order, s.rows) && i < |s.Members(r)| && j < |s.Members(r)| && i != j
    requires forall k :: 0 <= k < |s.Members(r)| ==> s.Members(r)[k] in s.rows
    ensures
      var board, ids := Scoreboard(s.Members(r), s.rows, s.scores), s.Members(r);
      && board[i].id == ids[i] && board[j].id == ids[j] && ids[i] != ids[j]
      && (Outranks(board[i], board[j], selected) <==> AheadOf(s, r, ids[i], ids[j], selected))
  {
    BoardLists(s, r);
    var ids := s.Members(r);
    hide Linked, Lineage;
    assert ListedBefore(ids, ids[i], ids[j]) <==> i < j;
  }

  lemma EntryApproved(s: Store, r: TaskId, i: nat)
    requires i < |s.Members(r)| && forall k :: 0 <= k < |s.Members(r)| ==> s.Members(r)[k] in s.rows
    ensures Approved(Scoreboard(s.Members(r), s.rows, s.scores)[i]) <==> ApprovedTask(s.rows[s.Members(r)[i]])
  {
    hide Lineage;
  }

  lemma TopOfBoard(s: Store, r: TaskId, w: nat, selected: Option<TaskId>)
    requires Linked(s.order, s.rows) && w < |s.Members(r)|
    requires forall k :: 0 <= k < |s.Members(r)| ==> s.Members(r)[k] in s.rows
    ensures
      var board, id := Scoreboard(s.Members(r), s.rows, s.scores), s.Members(r)[w];
      TopApproved(board, board[w], selected) <==>
      && ApprovedTask(s.rows[id])
      && forall x :: x in s.rows && x != id && s.rows[x].root == r && ApprovedTask(s.rows[x]) ==> AheadOf(s, r, id, x, selected)
  {
    var ids := s.Members(r);
    var board := Scoreboard(ids, s.rows, s.scores);
    BoardLists(s, r);
    EntryApproved(s, r, w);
    assert board[w] in board;
    hide Scoreboard, Outranks, AheadOf, Approved, ApprovedTask, Lineage;
    if TopApproved(board, board[w], selected) {
      forall x | x in s.rows && x != ids[w] && s.rows[x].root == r && ApprovedTask(s.rows[x]) ensures AheadOf(s, r, ids[w], x, selected) {
        MembersAre(s, r, x);
        var j :| 0 <= j < |ids| && ids[j] == x;
        EntryApproved(s, r, j);
        EntriesRank(s, r, w, j, selected);
        assert board[j] in board && board[j] != board[w];
      }
    }
    if ApprovedTask(s.rows[ids[w]])
       && forall x :: x in s.rows && x != ids[w] && s.rows[x].root == r && ApprovedTask(s.rows[x]) ==> AheadOf(s, r, ids[w], x, selected) {
      forall e | e in board && e != board[w] && Approved(e) ensures Outranks(board[w], e, selected) {
        var j :| 0 <= j < |board| && board[j] == e;
        EntryApproved(s, r, j);
        EntriesRank(s, r, w, j, selected);
        MembersAre(s, r, ids[j]);
        assert ids[j] in ids;
      }
    }
  }

  lemma BoardIsNumbered(s: Store, r: TaskId)
    requires Linked(s.order, s.rows)
    ensures forall k :: 0 <= k < |s.Members(r)| ==> s.Members(r)[k] in s.rows
    ensures WellNumbered(Scoreboard(s.Members(r), s.rows, s.scores))
  {
    BoardLists(s, r);
    ScoreboardNumbered(s, r);
  }

  /** Arbitration promotes exactly the preferred task, if the case row names what the root resolves to. */
  lemma PreferredIsPromoted(s: Store, r: TaskId, id: TaskId)
    requires Linked(s.order, s.rows) && r in s.rows && id in s.rows && s.rows[id].root == r
    requires r in s.cases && s.cases[r].selected == s.rows[r].resolved
    ensures
      (Recommendation(s, r).action == PromoteChallenger && Recommendation(s, r).recommended == Some(id)) <==> Preferred(s, r, id)
  {
    hide Arbitrate, TopApproved, AnyApproved, NamesTopShipped, Busy, ShippedId, AnyShipped, ApprovedTask, AheadOf, Linked, Lineage,
      WellNumbered, Approved;
    var ids := s.Members(r);
    BoardIsNumbered(s, r);
    MembersAre(s, r, id);
    BoardLists(s, r);
    var board := Scoreboard(ids, s.rows, s.scores);
    var w :| 0 <= w < |ids| && ids[w] == id;
    var resolved := s.rows[r].resolved;
    var selected := if resolved.Some? then resolved else Some(ids[0]);
    assert selected == (if resolved.Some? then resolved else Some(board[0].id)) && board[w].id == id && board[w] in board;
    ArbitrationDecides(board, resolved, Some(s.cases[r].active));
    TopOfBoard(s, r, w, selected);
    ApprovedIsAny(board, board[w], selected);
    hide Scoreboard;
  }

  lemma ApprovedIsAny(board: seq<Entry>, w: Entry, selected: Option<TaskId>)
    ensures TopApproved(board, w, selected) ==> AnyApproved(board)
  {
  }

  lemma PromotableIs(cfg: Settings, s: Store, task: Task, guardOpen: bool, authorized: bool)
    requires Linked(s.order, s.rows) && task.root in s.rows && task.id in s.rows && s.rows[task.id] == task
    requires task.root in s.cases && s.cases[task.root].selected == s.rows[task.root].resolved
    ensures Promotes(cfg, s, task, guardOpen, authorized) <==> Promotable(cfg, s, task, guardOpen, authorized)
  {
    PreferredIsPromoted(s, task.root, task.id);
    assert Preferred(s, task.root, task.id) ==> ApprovedTask(task);
    hide Recommendation, Preferred, Linked;
  }

  // ---- an acceptance

  /** The rows after a winner was accepted in its lineage. */
  ghost function CrownedRows(s: Store, w: TaskId): Rows
    requires w in s.rows
  {
    var ids, t := s.Members(s.rows[w].root), s.rows[w];
    map id | id in s.rows ::
      var marked := if s.rows[id].root != t.root then s.rows[id]
                    else s.rows[id].(best := id == w, rank := if id == w then Some(PlaceOf(ids, w)) else None);
      if id == t.root then DeliveredRow(marked, w, t.mode, t.tier) else marked
  }

  /** The place of an identifier in a list, counted from one. */
  ghost function PlaceOf(ids: seq<TaskId>, w: TaskId): nat {
    if w in ids then 1 + |ListedAhead(ids, w)| else 0
  }

  ghost function ListedAhead(ids: seq<TaskId>, w: TaskId): seq<TaskId>
    requires w in ids
  {
    if ids[0] == w then [] else [ids[0]] + ListedAhead(ids[1..], w)
  }

  lemma {:induction false} PlaceIsPosition(ids: seq<TaskId>, w: TaskId)
    requires w in ids
    ensures |ListedAhead(ids, w)| == Position(ids, w)
  {
    if ids[0] != w {
      PlaceIsPosition(ids[1..], w);
    }
  }

  lemma CrownedAt(s: Store, w: TaskId, id: TaskId)
    requires Linked(s.order, s.rows) && CanAccept(s, w) && id in s.rows
    ensures AcceptedRows(s, w).Keys == s.rows.Keys && AcceptedRows(s, w)[id] == CrownedRows(s, w)[id]
  {
    AcceptedRowAt(s, w, id);
    PlaceIsPosition(s.Members(s.rows[w].root), w);
    assert s.rows[s.rows[w].root].root == s.rows[w].root && s.rows[s.rows[w].root].id == s.rows[w].root by {
      hide ParentsFirst, Distinct;
      assert w in s.rows && s.rows[w].root in s.rows;
    }
    MembersAre(s, s.rows[w].root, w);
    hide Linked, Lineage, Position, AcceptedRows, ListedAhead;
  }

  lemma WhoCanBeAccepted(s: Store, w: TaskId)
    requires Linked(s.order, s.rows)
    ensures CanAccept(s, w) <==> w in s.rows && s.rows[w].status == Completed && s.rows[w].root in s.rows
  {
    if w in s.rows {
      MembersAre(s, s.rows[w].root, w);
    }
    hide Linked, Lineage;
  }

  /** A stored completed task whose root is stored is accepted; no other is. */
  lemma AcceptCloses(s: Store, w: TaskId)
    requires Structured(s)
    ensures
      var s' := Accept(s, w);
      if w in s.rows && s.rows[w].status == Completed && s.rows[w].root in s.rows then
        s'.rows == CrownedRows(s, w) && s'.order == s.order && s'.scores == s.scores
      else s' == s
  {
    LinkedOf(s);
    hide Structured, Linked, AcceptedRows, CrownedRows, CanAccept;
    WhoCanBeAccepted(s, w);
    if CanAccept(s, w) {
      CrownedAt(s, w, w);
      CrownedKeys(s, w);
      forall id | id in s.rows ensures AcceptedRows(s, w)[id] == CrownedRows(s, w)[id] {
        CrownedAt(s, w, id);
      }
      assert AcceptedRows(s, w) == CrownedRows(s, w);
    }
  }

  lemma CrownedKeys(s: Store, w: TaskId)
    requires w in s.rows
    ensures CrownedRows(s, w).Keys == s.rows.Keys
  {
  }

  // ---- putting a success together

  lemma SyncedSelection(s: Store, r: TaskId)
    requires r in s.rows
    ensures r in s.SyncCase(r).cases && s.SyncCase(r).cases[r].selected == s.rows[r].resolved
  {
  }

  lemma SameTables(cfg: Settings, s: Store, s1: Store, task: Task, guardOpen: bool, authorized: bool)
    requires s1.order == s.order && s1.rows == s.rows && s1.scores == s.scores
    ensures Challengeable(cfg, s1, task, guardOpen) <==> Challengeable(cfg, s, task, guardOpen)
    ensures Promotable(cfg, s1, task, guardOpen, authorized) <==> Promotable(cfg, s, task, guardOpen, authorized)
    ensures task.id in s.rows ==> CrownedRows(s1, task.id) == CrownedRows(s, task.id)
  {
  }

  /** The store in which a success is recorded, before anything follows from it; the cases are left aside. */
  ghost function Succeeded(cfg: Settings, s: Store, t: Task, report: RunReport): Store
    requires report.Rendered?
  {
    var points := Award(report.issueCodes, report.previewIssueCodes);
    s.(rows := SucceededRows(s, SucceededTask(cfg, t, points)), scores := s.scores[t.id := points])
  }

  ghost predicate SucceedsAs(cfg: Settings, s: Store, s': Store, t: Task, childId: TaskId, report: RunReport)
    requires report.Rendered?
  {
    var task := SucceededTask(cfg, t, Award(report.issueCodes, report.previewIssueCodes));
    var s1 := Succeeded(cfg, s, t, report);
    && s'.scores == s1.scores && t.id in s1.rows
    && if Challengeable(cfg, s1, task, report.challengerGuardOpen) then
         && s'.rows == s1.rows[childId := ChildRow(task, childId, true, None, task.generationMode, None)]
         && s'.order == s.order + [childId]
       else
         && s'.order == s.order
         && s'.rows == if Promotable(cfg, s1, task, report.promotionGuardOpen, report.authorized) then CrownedRows(s1, t.id) else s1.rows
  }

  lemma EscalateCloses(cfg: Settings, s: Store, task: Task, childId: TaskId, report: RunReport)
    requires report.Rendered? && Structured(s) && Fresh(s, childId) && task.id in s.rows && s.rows[task.id] == task
    requires task.status == Completed && task.delivery == Some(Delivered) && task.gate.Some?
    requires task.root in s.rows && task.root in s.cases && s.cases[task.root].selected == s.rows[task.root].resolved
    ensures
      var s' := Escalate(cfg, s, task, childId, report);
      && s'.scores == s.scores
      && if Challengeable(cfg, s, task, report.challengerGuardOpen) then
           && s'.rows == s.rows[childId := ChildRow(task, childId, true, None, task.generationMode, None)]
           && s'.order == s.order + [childId]
         else
           && s'.order == s.order
           && s'.rows == if Promotable(cfg, s, task, report.promotionGuardOpen, report.authorized) then CrownedRows(s, task.id) else s.rows
  {
    LinkedOf(s);
    hide Structured, Fresh, Linked, ScheduleChallenger, Promotes, Accept, Promotable, Challengeable, CrownedRows;
    var s2 := ScheduleChallenger(cfg, s, task, childId, report.challengerGuardOpen);
    ChallengerRows(cfg, s, task, childId, report.challengerGuardOpen);
    RowKeyed(s, task.id);
    if Challengeable(cfg, s, task, report.challengerGuardOpen) {
      NeverBoth(cfg, s, s2, task, report);
    } else {
      PromotableIs(cfg, s, task, report.promotionGuardOpen, report.authorized);
      AcceptCloses(s, task.id);
    }
  }

  lemma NeverBoth(cfg: Settings, s: Store, s2: Store, task: Task, report: RunReport)
    requires report.Rendered? && Challengeable(cfg, s, task, report.challengerGuardOpen)
    ensures !Promotes(cfg, s2, task, report.promotionGuardOpen, report.authorized)
  {
    hide Recommendation;
  }

  lemma SuccessColumns(cfg: Settings, t: Task, points: int)
    ensures
      var task := SucceededTask(cfg, t, points);
      task.id == t.id && task.root == t.root && task.status == Completed && task.delivery == Some(Delivered) && task.gate.Some?
  {
  }

  lemma RecordedIs(cfg: Settings, s0: Store, s: Store, t: Task, report: RunReport)
    requires report.Rendered? && Structured(s0) && Loaded(s0, t.(status := Running))
    requires s0.order == s.order && s0.rows == s.rows && s0.scores == s.scores
    requires t.root in s.rows
    ensures
      var points := Award(report.issueCodes, report.previewIssueCodes);
      var task := SucceededTask(cfg, t, points);
      var s1, s2 := Succeeded(cfg, s, t, report), RecordSuccess(s0, task, points);
      && Structured(s2) && s2.order == s1.order && s2.rows == s1.rows && s2.scores == s1.scores
      && t.id in s2.rows && s2.rows[t.id] == task
      && t.root in s2.rows && t.root in s2.cases && s2.cases[t.root].selected == s2.rows[t.root].resolved
  {
    var points := Award(report.issueCodes, report.previewIssueCodes);
    var task := SucceededTask(cfg, t, points);
    hide Structured, SuccessRow, SucceededTask, SyncRoot, Loaded, Award;
    SucceededTaskIs(cfg, t, points);
    SuccessColumns(cfg, t, points);
    RecordSuccessRows(cfg, s0, t.(status := Running), points);
    RecordSuccessKeeps(cfg, s0, t.(status := Running), points);
    SyncedSelection(SyncRoot(s0.(scores := s0.scores[task.id := points]).Put(task), task), t.root);
    hide SucceededRows;
  }

  lemma RunUnfolds(cfg: Settings, s: Store, id: TaskId, childId: TaskId, report: RunReport)
    requires id in s.rows && s.rows[id].Claimable() && report.Rendered?
    ensures
      var t := Claimed(s.rows[id], report.generationMode);
      var points := Award(report.issueCodes, report.previewIssueCodes);
      var task := SucceededTask(cfg, t, points);
      RunTask(cfg, s, id, childId, report) ==
      Escalate(cfg, RecordSuccess(s.EnsureCase(t.(status := Running)), task, points), task, childId, report)
  {
    AwardIsScore(report.issueCodes, report.previewIssueCodes);
    SucceededTaskIs(cfg, Claimed(s.rows[id], report.generationMode), Award(report.issueCodes, report.previewIssueCodes));
    hide TotalScore, Award, SuccessRow, SucceededTask, Escalate, RecordSuccess;
  }

  lemma RecordedStaysFresh(cfg: Settings, s0: Store, t: Task, points: int, childId: TaskId)
    requires Structured(s0) && Loaded(s0, t.(status := Running)) && Fresh(s0, childId)
    ensures Fresh(RecordSuccess(s0, SucceededTask(cfg, t, points), points), childId)
  {
    SucceededTaskIs(cfg, t, points);
    LinkedOf(s0);
    assert Held(s0, SucceededTask(cfg, t, points)) && SucceededTask(cfg, t, points).resolved == Some(t.id);
    assert t.id in s0.rows;
    hide Structured, Linked, SuccessRow, SucceededTask, RecordSuccess;
    RecordSuccessKeepsFresh(s0, SucceededTask(cfg, t, points), points, childId);
  }

  /** A successful run in closed form: points, gate, delivery, the root's resolution, and then a challenger, a promotion
      or neither. */
  lemma SuccessfulRunCloses(cfg: Settings, s: Store, id: TaskId, childId: TaskId, report: RunReport)
    requires Structured(s) && Enabled(s, RunStep(id, childId, report)) && report.Rendered? && s.rows[id].root in s.rows
    ensures SucceedsAs(cfg, s, RunTask(cfg, s, id, childId, report), Claimed(s.rows[id], report.generationMode), childId, report)
  {
    hide Structured, SuccessRow, SucceededTask, RecordSuccess, Succeeded, Escalate, Award, Challengeable, Promotable, CrownedRows, Fresh,
      Loaded, RunTask;
    var t := Claimed(s.rows[id], report.generationMode);
    var points := Award(report.issueCodes, report.previewIssueCodes);
    var task := SucceededTask(cfg, t, points);
    var s0 := s.EnsureCase(t.(status := Running));
    var s1, s2 := Succeeded(cfg, s, t, report), RecordSuccess(s0, task, points);
    ClaimedIsLoaded(s, id, childId, report.generationMode);
    SuccessColumns(cfg, t, points);
    RunUnfolds(cfg, s, id, childId, report);
    RecordedIs(cfg, s0, s, t, report);
    RecordedStaysFresh(cfg, s0, t, points, childId);
    EscalateCloses(cfg, s2, task, childId, report);
    SameTables(cfg, s1, s2, task, report.challengerGuardOpen, report.authorized);
    SameTables(cfg, s1, s2, task, report.promotionGuardOpen, report.authorized);
    SuccessCombines(cfg, s, s1, s2, RunTask(cfg, s, id, childId, report), t, childId, report);
  }

  lemma SuccessCombines(cfg: Settings, s: Store, s1: Store, s2: Store, s': Store, t: Task, childId: TaskId, report: RunReport)
    requires report.Rendered? && s1 == Succeeded(cfg, s, t, report) && s2.order == s1.order && s2.rows == s1.rows && s2.scores == s1.scores
    requires t.id in s1.rows
    requires
      var task := SucceededTask(cfg, t, Award(report.issueCodes, report.previewIssueCodes));
      && task.id == t.id && s'.scores == s2.scores
      && (Challengeable(cfg, s1, task, report.challengerGuardOpen) <==> Challengeable(cfg, s2, task, report.challengerGuardOpen))
      && (Promotable(cfg, s1, task, report.promotionGuardOpen, report.authorized)
          <==> Promotable(cfg, s2, task, report.promotionGuardOpen, report.authorized))
      && CrownedRows(s2, t.id) == CrownedRows(s1, t.id)
      && if Challengeable(cfg, s2, task, report.challengerGuardOpen) then
           && s'.rows == s2.rows[childId := ChildRow(task, childId, true, None, task.generationMode, None)]
           && s'.order == s2.order + [childId]
         else
           && s'.order == s2.order
           && s'.rows == if Promotable(cfg, s2, task, report.promotionGuardOpen, report.authorized) then CrownedRows(s2, t.id) else s2.rows
    ensures SucceedsAs(cfg, s, s', t, childId, report)
  {
    hide Challengeable, Promotable, CrownedRows, SucceededTask, Award, SucceededRows;
  }

  // ------------------------------------------------------------------------ the other requests

  ghost predicate Unchanged(s: Store, s': Store) {
    s'.rows == s.rows && s'.order == s.order && s'.scores == s.scores
  }

  ghost predicate Added(s: Store, s': Store, row: Task) {
    s'.rows == s.rows[row.id := row] && s'.order == s.order + [row.id] && s'.scores == s.scores
  }

  ghost function RootRow(id: TaskId, key: Option<string>): Task {
    Task(id := id, root := id, parent := None, challenger := false, idempotencyKey := key,
         status := Queued, phase := AtQueue, generationMode := None, gate := None, best := false, rank := None,
         delivery := Some(Pending), resolved := None, mode := None, tier := None, stopReason := None,
         repair := RepairState(attempted := false, children := 0, lastIssue := None, stopReason := None))
  }

  ghost predicate KeyIsStored(s: Store, key: string) {
    exists id :: id in s.order && id in s.rows && s.rows[id].idempotencyKey == Some(key)
  }

  lemma KeyHolderFinds(s: Store, key: string)
    ensures KeyHolder(s.order, s.rows, key).Some? <==> KeyIsStored(s, key)
  {
    var found := KeyHolder(s.order, s.rows, key);
    if found.Some? {
      var id := found.value;
      assert id in s.order && id in s.rows;
      assert s.rows[id].idempotencyKey == Some(key);
      assert KeyIsStored(s, key);
    }
  }

  ghost function Busyness(s: Store): nat {
    |set id | id in s.rows && s.rows[id].status in {Queued, Revising, Running}|
  }

  lemma BusynessIsActive(s: Store)
    ensures ActiveCount(s) == Busyness(s)
  {
    assert (set id | id in s.rows && s.rows[id].status in {Queued, Revising, Running}) == set id | id in s.rows && s.rows[id].Active();
  }

  /** A creation adds a root, unless too many tasks are waiting or running or the key is stored already. */
  lemma CreateCloses(cfg: Settings, s: Store, id: TaskId, key: Option<string>)
    ensures
      var s' := Create(cfg, s, id, key);
      if Busyness(s) >= cfg.maxQueuedTasks || (key.Some? && KeyIsStored(s, key.value)) then Unchanged(s, s')
      else Added(s, s', RootRow(id, key))
  {
    hide KeyHolder, KeyIsStored, Projection, ActiveCount, Busyness, Persist;
    BusynessIsActive(s);
    RootsAgree(id, key);
    PersistAdds(s, RootRow(id, key));
    if key.Some? {
      KeyHolderFinds(s, key.value);
    }
    hide RootRow, NewRoot;
  }

  lemma RootsAgree(id: TaskId, key: Option<string>)
    ensures NewRoot(id, key) == RootRow(id, key)
  {
  }

  lemma PersistAdds(s: Store, row: Task)
    ensures Added(s, Persist(s, row), row)
  {
    hide Projection;
  }

  /** A revision adds a challenger to a delivered task if both budgets allow it, and a plain child to any other task. */
  lemma ReviseCloses(cfg: Settings, s: Store, base: TaskId, childId: TaskId)
    requires Linked(s.order, s.rows)
    ensures
      var s' := Revise(cfg, s, base, childId);
      if base !in s.rows then Unchanged(s, s')
      else
        var t := s.rows[base];
        var delivered := t.status == Completed && t.delivery == Some(Delivered);
        var count := Size(s, t.root);
        if delivered && (count >= cfg.maxAttemptsPerRoot || count - 1 >= cfg.workflowMaxChildren) then Unchanged(s, s')
        else Added(s, s', ChildRow(t, childId, delivered, None, t.generationMode, None))
  {
    hide Linked, Persist, Lineage, Added;
    if base in s.rows {
      MembersAre(s, s.rows[base].root, base);
      assert Size(s, s.rows[base].root) > 0;
      var t := s.rows[base];
      assert FromRevision(t, childId) == ChildRow(t, childId, false, None, t.generationMode, None);
      assert ChallengerChild(t, childId) == ChildRow(t, childId, true, None, t.generationMode, None);
      hide ChildRow, FromRevision, ChallengerChild;
      PersistAdds(s, FromRevision(t, childId));
      PersistAdds(s, ChallengerChild(t, childId));
    }
  }

  /** A retry adds a plain child to a failed task within the attempt limit. */
  lemma RetryCloses(cfg: Settings, s: Store, base: TaskId, childId: TaskId)
    ensures
      var s' := Retry(cfg, s, base, childId);
      if base in s.rows && s.rows[base].status == Failed && Size(s, s.rows[base].root) < cfg.maxAttemptsPerRoot then
        Added(s, s', ChildRow(s.rows[base], childId, false, None, s.rows[base].generationMode, None))
      else Unchanged(s, s')
  {
    hide Projection, Lineage;
  }

  /** A cancellation writes one row and nothing else, cases included; a run of a cancelled or missing task is skipped. */
  lemma CancelCloses(cfg: Settings, s: Store, id: TaskId, childId: TaskId, report: RunReport)
    requires Linked(s.order, s.rows)
    ensures
      var s' := Cancel(s, id);
      && (if id in s.rows then s' == s.(rows := s.rows[id := s.rows[id].(status := Cancelled, phase := AtCancelled)]) else s' == s)
      && RunTask(cfg, s', id, childId, report) == s'
  {
    hide ParentsFirst, Distinct;
  }

  /** The orphan pass fails the orphans of one lineage that are not failed as such already. */
  lemma ReconcileCloses(s: Store, r: TaskId, id: TaskId)
    requires Linked(s.order, s.rows) && id in s.rows
    ensures
      var s', t := ReconcileOrphans(s, r), s.rows[id];
      && s'.order == s.order && s'.scores == s.scores && s'.rows.Keys == s.rows.Keys
      && s'.rows[id] ==
         if id in Orphans(s.order, s.rows, r)
            && !(t.status == Failed && t.delivery == Some(Undelivered) && t.stopReason == Some("orphaned_branch"))
         then t.(status := Failed, phase := AtFailed, delivery := Some(Undelivered), stopReason := Some("orphaned_branch"))
         else t
  {
    hide Linked, Orphans, Projection;
  }

  /** A deletion takes one row, the case keyed by it and nothing else; the other tasks keep their order. */
  lemma DeleteCloses(s: Store, id: TaskId, a: TaskId, b: TaskId)
    ensures
      var s' := s.Delete(id);
      && s'.rows == s.rows - {id} && s'.cases == s.cases - {id} && s'.scores == s.scores
      && (a in s'.order <==> a in s.order && a != id)
      && (ListedBefore(s'.order, a, b) <==> ListedBefore(s.order, a, b) && a != id && b != id)
  {
    WithoutKeepsOrder(s.order, id, a, b);
  }

  lemma ListedBeforeOfMore(ids: seq<TaskId>, last: TaskId, a: TaskId, b: TaskId)
    ensures ListedBefore(ids + [last], a, b) <==> ListedBefore(ids, a, b) || (a in ids && b == last)
  {
    var more := ids + [last];
    if ListedBefore(ids, a, b) {
      var i, j :| 0 <= i < j < |ids| && ids[i] == a && ids[j] == b;
      assert more[i] == a && more[j] == b;
    }
    if a in ids && b == last {
      var i :| 0 <= i < |ids| && ids[i] == a;
      assert more[i] == a && more[|ids|] == b;
    }
  }

  lemma {:induction false} WithoutKeepsOrder(ids: seq<TaskId>, id: TaskId, a: TaskId, b: TaskId)
    ensures ListedBefore(Without(ids, [id]), a, b) <==> ListedBefore(ids, a, b) && a != id && b != id
  {
    if ids != [] {
      var n := |ids| - 1;
      var rest := Without(ids[..n], [id]);
      WithoutKeepsOrder(ids[..n], id, a, b);
      assert ids == ids[..n] + [ids[n]];
      ListedBeforeOfMore(ids[..n], ids[n], a, b);
      ListedBeforeOfMore(rest, ids[n], a, b);
      hide ListedBefore;
    }
  }

  // ------------------------------------------------------------------- what this means for runs

  lemma EndRows(cfg: Settings, s: Store, t: Task, childId: TaskId, codes: seq<string>, end: End)
    requires t.root in s.rows && t.id in s.rows && childId !in s.rows
    ensures
      var rows := FailedRows(cfg, s, t, childId, codes, end);
      && t.root in rows && t.id in rows
      && (childId in rows <==> end.Repair? || end.Degrade?)
      && (end.Repair? ==> rows[childId] == ChildRow(t, childId, false, Some(Repaired), t.generationMode, None))
      && (end.Degrade? ==> rows[childId] == ChildRow(t, childId, false, Some(Degraded), Some(end.tier), Some(end.tier)))
      && rows[t.id] == FailedTask(cfg, Size(s, t.root), t, codes, end)
      && (t.id != t.root ==> rows[t.root] == FailedRoot(cfg, Size(s, t.root), s.rows[t.root], t, codes, end))
  {
    hide ChildRow, FailedTask, FailedRoot, Lineage;
  }

  lemma RefusalNoted(cfg: Settings, count: nat, root: Task, t: Task, codes: seq<string>, end: End)
    ensures
      FailedRoot(cfg, count, root, t, codes, end).repair.stopReason == if end.Repair? then None else Some(RefusalReason(cfg, count, codes))
    ensures !end.Repair? ==> FailedTask(cfg, count, t, codes, end).repair == t.repair
  {
  }

  ghost predicate HoldsRepair(rows: Rows, childId: TaskId) {
    childId in rows && rows[childId].mode == Some(Repaired)
  }

  /** A pending child of a task, of the same lineage. */
  ghost predicate PendingChild(rows: Rows, childId: TaskId, t: Task) {
    && childId in rows && rows[childId].parent == Some(t.id) && rows[childId].root == t.root && !rows[childId].challenger
    && rows[childId].status == Queued && rows[childId].delivery == Some(Pending)
  }

  /** A failing run stores a pending repair of its task exactly when repairs are on, the first issue is retryable, and
      both the child budget and the attempt limit leave room. If it does not, the root of a child notes why not; a root
      keeps the columns it had. */
  lemma RepairsExactly(cfg: Settings, s: Store, id: TaskId, childId: TaskId, report: RunReport)
    requires Structured(s) && Enabled(s, RunStep(id, childId, report)) && report.Broken? && s.rows[id].root in s.rows
    ensures
      var s', t, codes := RunTask(cfg, s, id, childId, report), s.rows[id], report.issueCodes;
      var count := |s.Members(t.root)|;
      && t.root in s'.rows
      && (HoldsRepair(s'.rows, childId) <==>
            && cfg.autoRepairEnabled && codes != [] && codes[0] in cfg.retryableIssueCodes
            && count - 1 < cfg.autoRepairMaxChildren && count < cfg.maxAttemptsPerRoot)
      && (HoldsRepair(s'.rows, childId) ==> PendingChild(s'.rows, childId, t))
      && (id != t.root && HoldsRepair(s'.rows, childId) ==> s'.rows[t.root].repair.stopReason == None)
      && (id != t.root && !HoldsRepair(s'.rows, childId) ==>
            s'.rows[t.root].repair.stopReason ==
            Some(if !cfg.autoRepairEnabled then "disabled" else if codes == [] then "missing_issue_code"
                 else if codes[0] !in cfg.retryableIssueCodes then "non_retryable_issue" else "budget_exhausted"))
      && (id == t.root && !HoldsRepair(s'.rows, childId) ==> s'.rows[id].repair == t.repair)
  {
    hide Structured, RunTask, FailedRows, FailedRoot, FailedTask, Foreseen, Repairable, Lineage, Degradable;
    RowKeyed(s, id);
    FailingRunCloses(cfg, s, id, childId, report);
    var t, codes := Claimed(s.rows[id], report.generationMode), report.issueCodes;
    var end := Foreseen(cfg, s, t, codes, report.context);
    assert childId !in s.rows && t.root == s.rows[id].root && t.id == id && t.repair == s.rows[id].repair;
    hide Fresh, Claimed;
    EndRows(cfg, s, t, childId, codes, end);
    RefusalNoted(cfg, Size(s, t.root), s.rows[t.root], t, codes, end);
    RepairForeseen(cfg, s, t, codes, report.context);
  }

  lemma RepairForeseen(cfg: Settings, s: Store, t: Task, codes: seq<string>, context: FailureContext)
    ensures Foreseen(cfg, s, t, codes, context) == Repair <==>
            && cfg.autoRepairEnabled && codes != [] && codes[0] in cfg.retryableIssueCodes
            && |s.Members(t.root)| - 1 < cfg.autoRepairMaxChildren && |s.Members(t.root)| < cfg.maxAttemptsPerRoot
  {
    hide Degradable, Lineage;
  }

  /** A challenger that succeeds, reaches the minimum and outscores every approved task of its lineage becomes what the
      root resolves to, if arbitration is on, the guard is open, the acceptance authorized and it is not selected yet. */
  lemma OutscoringChallengerWins(cfg: Settings, s: Store, id: TaskId, childId: TaskId, report: RunReport, r: TaskId)
    requires Structured(s) && Enabled(s, RunStep(id, childId, report)) && report.Rendered?
    requires s.rows[id].root == r && r in s.rows && id != r && s.rows[id].challenger
    requires cfg.workflowEnabled && cfg.autoArbitrationEnabled && report.promotionGuardOpen && report.authorized
    requires Award(report.issueCodes, report.previewIssueCodes) >= cfg.qualityGateMinScore
    requires s.rows[r].resolved.Some? && s.rows[r].resolved != Some(id)
    requires forall x :: x in s.rows && x != id && s.rows[x].root == r && ApprovedTask(s.rows[x]) ==>
               PointsOf(s.scores, x) < Award(report.issueCodes, report.previewIssueCodes)
    ensures
      var s' := RunTask(cfg, s, id, childId, report);
      r in s'.rows && s'.rows[r].resolved == Some(id) && s'.rows[r].delivery == Some(Delivered) && id in s'.rows && s'.rows[id].best
  {
    SuccessfulRunCloses(cfg, s, id, childId, report);
    RowKeyed(s, id);
    LinkedOf(s);
    var t := Claimed(s.rows[id], report.generationMode);
    var points := Award(report.issueCodes, report.previewIssueCodes);
    var task, s1 := SucceededTask(cfg, t, points), Succeeded(cfg, s, t, report);
    assert task.gate == Some(Accepted) && task.challenger && task.root == r && task.id == id && ApprovedTask(task);
    assert s1.rows == s.rows[id := task] && s1.order == s.order && s1.scores == s.scores[id := points];
    hide Structured, Fresh, RunTask, Award, SucceededTask, Succeeded, Lineage;
    assert Preferred(s1, r, id) by { Outscores(s, s1, r, id, points); }
    hide Preferred;
    assert r in s1.rows && s1.rows[r].root == r by { RootsAreRoots(s, id); }
  }

  lemma Outscores(s: Store, s1: Store, r: TaskId, id: TaskId, points: int)
    requires Linked(s.order, s.rows) && id in s.rows && s.rows[id].root == r && r in s.rows && id != r && id in s1.rows && r in s1.rows
    requires s1.order == s.order && s1.scores == s.scores[id := points] && s1.rows == s.rows[id := s1.rows[id]]
    requires ApprovedTask(s1.rows[id]) && s1.rows[id].root == r && s.rows[r].resolved.Some? && s.rows[r].resolved != Some(id)
    requires forall x :: x in s.rows && x != id && s.rows[x].root == r && ApprovedTask(s.rows[x]) ==> PointsOf(s.scores, x) < points
    ensures Preferred(s1, r, id)
  {
    assert id in s.order;
    assert id in s1.Members(r);
    hide Linked, Lineage, ApprovedTask;
  }

  lemma SucceededFacts(cfg: Settings, s: Store, t: Task, report: RunReport, childId: TaskId)
    requires Linked(s.order, s.rows) && report.Rendered? && t.id in s.rows && SamePlace(s.rows[t.id], t) && childId !in s.rows
    requires t.root in s.rows
    ensures
      var points := Award(report.issueCodes, report.previewIssueCodes);
      var task, s1 := SucceededTask(cfg, t, points), Succeeded(cfg, s, t, report);
      && childId !in s1.rows && s1.rows.Keys == s.rows.Keys
      && task.id == t.id && task.root == t.root
      && (Challengeable(cfg, s1, task, report.challengerGuardOpen) <==>
            && cfg.workflowEnabled && cfg.autoChallengerEnabled && report.challengerGuardOpen
            && points < cfg.qualityGateMinScore && t.mode != Some(Degraded) && t.mode != Some(EmergencyFallback)
            && |s.Members(t.root)| < cfg.maxAttemptsPerRoot && |s.Members(t.root)| - 1 < cfg.workflowMaxChildren)
  {
    hide Linked, Award, Lineage;
    var points := Award(report.issueCodes, report.previewIssueCodes);
    var task := SucceededTask(cfg, t, points);
    assert task.gate == Some(NeedsRevision) <==> points < cfg.qualityGateMinScore;
    assert task.id == t.id && SamePlace(t, task);
    SucceededMembers(s, task);
    hide SucceededTask;
  }

  lemma ChallengerStored(cfg: Settings, s: Store, s': Store, t: Task, childId: TaskId, report: RunReport)
    requires report.Rendered? && SucceedsAs(cfg, s, s', t, childId, report)
    requires childId !in Succeeded(cfg, s, t, report).rows
    ensures
      var task := SucceededTask(cfg, t, Award(report.issueCodes, report.previewIssueCodes));
      && (childId in s'.rows <==> Challengeable(cfg, Succeeded(cfg, s, t, report), task, report.challengerGuardOpen))
      && (childId in s'.rows ==> s'.rows[childId] == ChildRow(task, childId, true, None, task.generationMode, None))
  {
    hide Challengeable, Promotable, SucceededTask, Succeeded, Award, CrownedRows, ChildRow;
    CrownedKeys(Succeeded(cfg, s, t, report), t.id);
  }

  /** A successful run stores a challenger exactly when challengers are on, the guard is open, the score misses the
      minimum, the delivery is a regular one and both budgets leave room. */
  lemma ChallengesExactly(cfg: Settings, s: Store, id: TaskId, childId: TaskId, report: RunReport)
    requires Structured(s) && Enabled(s, RunStep(id, childId, report)) && report.Rendered? && s.rows[id].root in s.rows
    ensures
      var s', r := RunTask(cfg, s, id, childId, report), s.rows[id].root;
      var count := |s.Members(r)|;
      && (childId in s'.rows <==>
            && cfg.workflowEnabled && cfg.autoChallengerEnabled && report.challengerGuardOpen
            && Award(report.issueCodes, report.previewIssueCodes) < cfg.qualityGateMinScore
            && s.rows[id].mode != Some(Degraded) && s.rows[id].mode != Some(EmergencyFallback)
            && count < cfg.maxAttemptsPerRoot && count - 1 < cfg.workflowMaxChildren)
      && (childId in s'.rows ==>
            && s'.rows[childId].parent == Some(id) && s'.rows[childId].root == r && s'.rows[childId].challenger
            && s'.rows[childId].status == Queued && s'.rows[childId].delivery == Some(Pending))
  {
    hide Structured, RunTask, SucceedsAs, Succeeded, SucceededTask, Challengeable, Award, Lineage, Linked;
    RowKeyed(s, id);
    LinkedOf(s);
    SuccessfulRunCloses(cfg, s, id, childId, report);
    var t := Claimed(s.rows[id], report.generationMode);
    assert childId !in s.rows && t.root == s.rows[id].root && t.id == id && t.mode == s.rows[id].mode && SamePlace(s.rows[id], t);
    hide Fresh, Claimed;
    SucceededFacts(cfg, s, t, report, childId);
    ChallengerStored(cfg, s, RunTask(cfg, s, id, childId, report), t, childId, report);
  }

  lemma SucceededMembers(s: Store, task: Task)
    requires Linked(s.order, s.rows) && task.id in s.rows && SamePlace(s.rows[task.id], task)
    ensures Lineage(s.order, SucceededRows(s, task), task.root) == s.Members(task.root)
  {
    hide ParentsFirst, Distinct;
    assert SameLinks(s.order, s.rows, SucceededRows(s, task));
    LineageFrame(s.order, s.rows, SucceededRows(s, task), task.root);
  }
}
