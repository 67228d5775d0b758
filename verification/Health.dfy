/** What the ordinary life cycle keeps: no stranded lineage, settled roots and coherent cases. */
module Health {
  import opened Wrappers
  import opened TaskModel
  import opened LineageGraph
  import opened TaskStore
  import opened Arbitration
  import opened QualityJudge
  import opened Lifecycle
  import opened Invariants
  import opened Progress

  // ----------------------------------------------------------------------- the predicates

  /** Roots and parents are stored with their descendants. */
  ghost predicate FamilyPresent(rows: Rows) {
    forall id {:trigger rows[id]} :: id in rows ==> rows[id].root in rows && ParentStored(rows, id)
  }

  /** A task that is still an open attempt: undecided delivery on the main line. */
  predicate Open(task: Task) {
    task.delivery == Some(Pending) && !task.challenger
  }

  /** While a root is undecided, so is every task of its lineage, and none of them is a challenger. */
  ghost predicate Settled(rows: Rows) {
    forall a, r :: a in rows && r in rows && rows[a].root == r && !Open(rows[a]) ==> Closed(rows[r].delivery)
  }

  /** Some task of the lineage is queued for the worker. */
  ghost predicate Waiting(rows: Rows, r: TaskId) {
    exists id :: id in rows && rows[id].root == r && rows[id].status == Queued
  }

  ghost predicate Alive(rows: Rows) {
    forall r :: r in rows && rows[r].root == r && rows[r].delivery == Some(Pending) ==> Waiting(rows, r)
  }

  ghost predicate CaseCurrent(s: Store, r: TaskId)
    requires r in s.rows
  {
    r in s.cases && s.cases[r] == Projection(s.order, s.rows, r)
  }

  ghost predicate Coherent(s: Store) {
    forall r :: r in s.rows && s.rows[r].root == r ==> CaseCurrent(s, r)
  }

  ghost predicate Healthy(s: Store) {
    Structured(s) && FamilyPresent(s.rows) && Settled(s.rows) && Alive(s.rows) && Coherent(s)
  }

  /** One lineage is in order: its root is decided, or every attempt is open and one is queued. */
  ghost predicate Handled(rows: Rows, r: TaskId) {
    r in rows && (
      || Closed(rows[r].delivery)
      || (Waiting(rows, r) && forall a :: a in rows && rows[a].root == r ==> Open(rows[a])))
  }

  lemma HandledIsSettled(rows: Rows)
    requires forall r :: r in rows && rows[r].root == r ==> Handled(rows, r)
    requires forall a, b :: a in rows && b in rows && rows[a].root == b ==> rows[b].root == b
    ensures Settled(rows) && Alive(rows)
  {
  }

  // ------------------------------------------------------------ a failed run's three ends

  /** A child was queued under the failed task, and no delivery decision was made. */
  ghost predicate ChildScheduled(s: Store, s': Store, id: TaskId, childId: TaskId)
  {
    && id in s.rows && s'.order == s.order + [childId]
    && s'.rows.Keys == s.rows.Keys + {childId}
    && s'.rows[childId].parent == Some(id) && s'.rows[childId].root == s.rows[id].root
    && s'.rows[childId].status == Queued && Open(s'.rows[childId]) && s'.rows[childId].resolved.None?
    && s'.rows[id].status == Failed
    && (forall other :: other in s.rows ==>
          s'.rows[other].delivery == s.rows[other].delivery && s'.rows[other].challenger == s.rows[other].challenger
          && s'.rows[other].resolved == s.rows[other].resolved && s'.rows[other].mode == s.rows[other].mode)
  }

  /** Only the row of the task and the row of its root may differ. */
  ghost predicate OnlyTheseRows(s: Store, s': Store, id: TaskId, root: TaskId) {
    && s'.order == s.order && s'.rows.Keys == s.rows.Keys
    && forall other :: other in s.rows && other != id && other != root ==> s'.rows[other] == s.rows[other]
  }

  /** The failed task was delivered after all; the root follows unless the task is a challenger. */
  ghost predicate RescuedDelivery(s: Store, s': Store, id: TaskId)
  {
    && id in s.rows && s.rows[id].root in s.rows
    && var root := s.rows[id].root;
    && OnlyTheseRows(s, s', id, root)
    && s'.rows[id].DeliveredCandidate() && s'.rows[id].resolved == Some(id)
    && s'.rows[id].stopReason.None?
    && (id == root || !s.rows[id].challenger ==>
          s'.rows[root].DeliveredCandidate() && s'.rows[root].resolved == Some(id) && s'.rows[root].stopReason.None?
          && s'.rows[root].mode == s'.rows[id].mode && s'.rows[root].tier == s'.rows[id].tier)
    && (id != root && s.rows[id].challenger ==>
          s'.rows[root] == s.rows[root].(repair := s'.rows[root].repair))
  }

  /** Delivery was given up, with the same reason on the task and on its root; what the root resolves to and
      everything else it says stays. */
  ghost predicate GivenUp(s: Store, s': Store, id: TaskId)
  {
    && id in s.rows && s.rows[id].root in s.rows
    && var root := s.rows[id].root;
    && OnlyTheseRows(s, s', id, root)
    && s'.rows[id].status == Failed
    && s'.rows[id].delivery == Some(Undelivered) && s'.rows[id].stopReason.Some?
    && s'.rows[root].delivery == Some(Undelivered) && s'.rows[root].stopReason == s'.rows[id].stopReason
    && s'.rows[root].resolved == s.rows[root].resolved
    && (id != root ==>
          s'.rows[root] == s.rows[root].(delivery := Some(Undelivered), stopReason := s'.rows[id].stopReason,
                                         repair := s'.rows[root].repair))
  }

  /** The failed run ended as decided, with the decided modes and reason. */
  ghost predicate EndsAs(s: Store, s': Store, id: TaskId, childId: TaskId, ending: Ending) {
    match ending
    case DegradedAttempt(generationMode) =>
      && ChildScheduled(s, s', id, childId) && childId in s'.rows
      && s'.rows[childId].mode == Some(Degraded) && s'.rows[childId].tier == Some(generationMode)
    case Emergency(mode, tier) =>
      && RescuedDelivery(s, s', id) && id in s'.rows
      && s'.rows[id].mode == Some(mode) && s'.rows[id].tier == Some(tier)
    case Abandoned(reason) => GivenUp(s, s', id) && id in s'.rows && s'.rows[id].stopReason == Some(reason)
  }

  lemma RecordRepairOnlyRepairs(s: Store, root: TaskId, issueCodes: seq<string>, verdict: RepairVerdict)
    requires root in s.rows ==> s.rows[root].id == root
    ensures
      var s' := RecordRepairState(s, root, issueCodes, verdict);
      && s'.order == s.order && s'.rows.Keys == s.rows.Keys
      && (forall id :: id in s.rows ==> s'.rows[id] == s.rows[id].(repair := s'.rows[id].repair))
      && (forall id :: id in s.rows && id != root ==> s'.rows[id] == s.rows[id])
  {
  }

  lemma RepairedRows(s: Store, task: Task, childId: TaskId)
    requires Linked(s.order, s.rows) && Loaded(s, task) && Fresh(s, childId)
    ensures
      var s2 := Persist(s.Put(task), RepairChild(task, childId));
      && s2.order == s.order + [childId] && s2.rows == s.rows[task.id := task][childId := RepairChild(task, childId)]
      && (task.root in s2.rows ==> s2.rows[task.root].id == task.root)
  {
    assert task.id in s.rows && s.rows[task.id].root == task.root && childId != task.root;
    hide Projection, ParentsFirst, Distinct;
  }

  lemma AfterRepairScheduled(cfg: Settings, s: Store, task: Task, childId: TaskId, issueCodes: seq<string>)
    requires Structured(s) && Loaded(s, task) && Fresh(s, childId) && task.status == Failed
    requires JudgeRepair(cfg, s.Put(task).Count(task.root), issueCodes).created
    ensures ChildScheduled(s, AfterRepair(cfg, s, task, childId, issueCodes), task.id, childId)
  {
    hide Structured, Linked, JudgeRepair, ChildScheduled, RecordRepairState;
    var s1 := s.Put(task);
    var s2 := Persist(s1, RepairChild(task, childId));
    LinkedOf(s);
    RepairedRows(s, task, childId);
    RecordRepairOnlyRepairs(s2, task.root, issueCodes, JudgeRepair(cfg, s1.Count(task.root), issueCodes));
    hide Persist, Loaded;
    ScheduledByRows(s, s2, AfterRepair(cfg, s, task, childId, issueCodes), task, RepairChild(task, childId));
  }

  lemma ScheduledByRows(s: Store, s2: Store, s3: Store, task: Task, child: Task)
    requires Loaded(s, task) && task.status == Failed && child.id !in s.rows
    requires s2.order == s.order + [child.id] && s2.rows == s.rows[task.id := task][child.id := child]
    requires s3.order == s2.order && s3.rows.Keys == s2.rows.Keys
    requires forall id :: id in s2.rows ==> s3.rows[id] == s2.rows[id].(repair := s3.rows[id].repair)
    requires child.parent == Some(task.id) && child.root == task.root && child.status == Queued && Open(child)
    requires child.resolved.None?
    ensures ChildScheduled(s, s3, task.id, child.id)
  {
  }

  lemma AfterRepairInPlace(cfg: Settings, s: Store, task: Task, childId: TaskId, issueCodes: seq<string>)
    requires Structured(s) && Loaded(s, task)
    requires !JudgeRepair(cfg, s.Put(task).Count(task.root), issueCodes).created
    ensures
      var s' := AfterRepair(cfg, s, task, childId, issueCodes);
      && s'.order == s.order && s'.rows.Keys == s.rows.Keys
      && s'.rows[task.id] == task.(repair := s'.rows[task.id].repair)
      && (task.id != task.root ==> s'.rows[task.id] == task)
      && (forall other :: other in s.rows && other != task.id ==> s'.rows[other] == s.rows[other].(repair := s'.rows[other].repair))
      && OnlyTheseRows(s, s', task.id, task.root)
  {
    var s1 := s.Put(task);
    assert task.root in s1.rows ==> s1.rows[task.root].id == task.root;
    hide Structured;
    RecordRepairOnlyRepairs(s1, task.root, issueCodes, JudgeRepair(cfg, s1.Count(task.root), issueCodes));
    hide JudgeRepair, RecordRepairState;
  }

  lemma DegradedIsScheduled(s: Store, task: Task, childId: TaskId, generationMode: string)
    requires task.id in s.rows && Loaded(s, task) && childId !in s.rows && s.rows[task.id].status == Failed
    ensures EndsAs(s, Persist(s, DegradedChild(task, childId, generationMode)), task.id, childId, DegradedAttempt(generationMode))
  {
  }

  lemma FinalizeRows(s: Store, task: Task, mode: Mode, tier: string)
    requires Linked(s.order, s.rows) && Loaded(s, task) && task.root in s.rows
    ensures
      var delivered := DeliveredAs(task, Some(mode), Some(tier));
      var s', rows := FinalizeDelivery(s, task, mode, tier), s.rows[task.id := delivered];
      && s'.order == s.order && task.root in rows && rows[task.root].id == task.root
      && s'.rows == if task.id != task.root && task.challenger then rows
                    else rows[task.root := Resolve(rows[task.root], delivered)]
  {
    assert task.id in s.rows && s.rows[task.root].id == task.root;
    hide Linked;
  }

  lemma FinalizeRescues(s: Store, task: Task, childId: TaskId, mode: Mode, tier: string)
    requires Linked(s.order, s.rows) && Loaded(s, task) && task.root in s.rows
    ensures EndsAs(s, FinalizeDelivery(s, task, mode, tier), task.id, childId, Emergency(mode, tier))
  {
    hide Linked, FinalizeDelivery;
    FinalizeRows(s, task, mode, tier);
    assert task.root in s.rows && task.id in s.rows;
    if task.id != task.root && task.challenger {
      assert FinalizeDelivery(s, task, mode, tier).rows[task.root] == s.rows[task.root];
    }
  }

  lemma MarkFailedGivesUp(s: Store, task: Task, childId: TaskId, reason: string)
    requires Linked(s.order, s.rows) && Loaded(s, task) && task.root in s.rows && task.status == Failed
    ensures EndsAs(s, MarkDeliveryFailed(s, task, reason), task.id, childId, Abandoned(reason))
  {
  }

  lemma EndsSince(s: Store, s1: Store, s2: Store, id: TaskId, childId: TaskId, ending: Ending)
    requires id in s.rows && s.rows[id].root in s.rows
    requires s1.order == s.order && s1.rows.Keys == s.rows.Keys
    requires s1.rows[id].root == s.rows[id].root && s1.rows[id].challenger == s.rows[id].challenger
    requires s1.rows[id].delivery == s.rows[id].delivery && s1.rows[id].resolved == s.rows[id].resolved
    requires s1.rows[id].mode == s.rows[id].mode
    requires forall other :: other in s.rows && other != id ==> s1.rows[other] == s.rows[other].(repair := s1.rows[other].repair)
    requires OnlyTheseRows(s, s1, id, s.rows[id].root)
    requires EndsAs(s1, s2, id, childId, ending)
    ensures EndsAs(s, s2, id, childId, ending)
  {
  }

  lemma EndsAfterRepair(cfg: Settings, s: Store, task: Task, childId: TaskId, issueCodes: seq<string>, ending: Ending)
    requires Structured(s) && Loaded(s, task) && Fresh(s, childId) && task.root in s.rows && task.status == Failed
    requires !JudgeRepair(cfg, s.Put(task).Count(task.root), issueCodes).created
    ensures
      EndsAs(s, EndFailure(AfterRepair(cfg, s, task, childId, issueCodes), task, childId, ending), task.id, childId, ending)
  {
    var s1 := AfterRepair(cfg, s, task, childId, issueCodes);
    AfterRepairInPlace(cfg, s, task, childId, issueCodes);
    AfterRepairKeeps(cfg, s, task, childId, issueCodes);
    StillLoaded(cfg, s, task, childId, issueCodes);
    assert Linked(s1.order, s1.rows);
    hide AfterRepair, Structured, Linked, EndFailure, EndsAs;
    EndFailureEnds(s1, task, childId, ending);
    EndsSince(s, s1, EndFailure(s1, task, childId, ending), task.id, childId, ending);
  }

  lemma EndFailureEnds(s: Store, task: Task, childId: TaskId, ending: Ending)
    requires Linked(s.order, s.rows) && Loaded(s, task) && task.root in s.rows && childId !in s.rows
    requires task.status == Failed && s.rows[task.id].status == Failed
    ensures EndsAs(s, EndFailure(s, task, childId, ending), task.id, childId, ending)
  {
    hide Linked, Persist, FinalizeDelivery, MarkDeliveryFailed, EndsAs;
    match ending
    case DegradedAttempt(generationMode) => DegradedIsScheduled(s, task, childId, generationMode);
    case Emergency(mode, tier) => FinalizeRescues(s, task, childId, mode, tier);
    case Abandoned(reason) => MarkFailedGivesUp(s, task, childId, reason);
  }

  /** A failing run that is not repaired ends as judged once the repair was considered. */
  lemma FailTaskEndsAs(cfg: Settings, s: Store, running: Task, childId: TaskId, issueCodes: seq<string>, context: FailureContext)
    requires Structured(s) && Loaded(s, running) && Fresh(s, childId) && running.root in s.rows
    ensures
      var task := FailedRow(running);
      var s1 := AfterRepair(cfg, s, task, childId, issueCodes);
      var s' := FailTask(cfg, s, running, childId, issueCodes, context);
      if JudgeRepair(cfg, s.Put(task).Count(task.root), issueCodes).created then ChildScheduled(s, s', running.id, childId)
      else EndsAs(s, s', running.id, childId, JudgeEnding(cfg, s1, task, issueCodes, context))
  {
    hide AfterRepair, EndFailure, JudgeEnding, JudgeRepair, Structured, Fresh, ChildScheduled, EndsAs;
    var task := FailedRow(running);
    assert Loaded(s, task);
    hide Loaded;
    var verdict := JudgeRepair(cfg, s.Put(task).Count(task.root), issueCodes);
    var s1 := AfterRepair(cfg, s, task, childId, issueCodes);
    var ending := JudgeEnding(cfg, s1, task, issueCodes, context);
    var s2 := if verdict.created then s1 else EndFailure(s1, task, childId, ending);
    if verdict.created {
      AfterRepairScheduled(cfg, s, task, childId, issueCodes);
    } else {
      EndsAfterRepair(cfg, s, task, childId, issueCodes, ending);
    }
    EndsIgnoreCases(s, s2, s2.SyncCase(task.root), task.id, childId, ending);
  }

  lemma EndsIgnoreCases(s: Store, s2: Store, s3: Store, id: TaskId, childId: TaskId, ending: Ending)
    requires s3.order == s2.order && s3.rows == s2.rows
    ensures ChildScheduled(s, s2, id, childId) <==> ChildScheduled(s, s3, id, childId)
    ensures EndsAs(s, s2, id, childId, ending) <==> EndsAs(s, s3, id, childId, ending)
  {
  }

  /** Every failing run queues a child, or delivers after all, or gives delivery up with a reason. */
  lemma FailTaskEnds(cfg: Settings, s: Store, running: Task, childId: TaskId, issueCodes: seq<string>, context: FailureContext)
    requires Structured(s) && Loaded(s, running) && Fresh(s, childId) && running.root in s.rows
    ensures
      var s' := FailTask(cfg, s, running, childId, issueCodes, context);
      || ChildScheduled(s, s', running.id, childId)
      || RescuedDelivery(s, s', running.id)
      || GivenUp(s, s', running.id)
  {
    FailTaskEndsAs(cfg, s, running, childId, issueCodes, context);
    hide FailTask, AfterRepair, JudgeRepair, JudgeEnding, Structured, Fresh, Loaded, ChildScheduled, RescuedDelivery, GivenUp;
  }

  /** The settings, the writer and the first issue all allow an emergency delivery. */
  predicate RescueAllowed(cfg: Settings, issueCodes: seq<string>, context: FailureContext) {
    && cfg.guaranteeEnabled && cfg.emergencyVideoAllowed && context.writerError.None?
    && AllowsEmergency(issueCodes)
  }

  /** What the ends of a failing run mean: a rescue was allowed, giving up means it was not, and a policy violation
      without a child is given up with its own code as the reason. */
  ghost predicate EndsByRule(cfg: Settings, s: Store, s': Store, id: TaskId, childId: TaskId, issueCodes: seq<string>, context: FailureContext) {
    && (RescuedDelivery(s, s', id) ==> RescueAllowed(cfg, issueCodes, context))
    && (GivenUp(s, s', id) ==> !RescueAllowed(cfg, issueCodes, context))
    && (issueCodes != [] && issueCodes[0] in POLICY_VIOLATIONS && !ChildScheduled(s, s', id, childId) ==>
          GivenUp(s, s', id) && id in s'.rows && s'.rows[id].stopReason == Some(issueCodes[0]))
  }

  lemma RuleOfEnding(cfg: Settings, s: Store, s1: Store, s': Store, task: Task, childId: TaskId, issueCodes: seq<string>, context: FailureContext)
    requires EndsAs(s, s', task.id, childId, JudgeEnding(cfg, s1, task, issueCodes, context))
    ensures EndsByRule(cfg, s, s', task.id, childId, issueCodes, context)
  {
    hide MayDegrade;
  }

  lemma RuleOfRepair(cfg: Settings, s: Store, s': Store, id: TaskId, childId: TaskId, issueCodes: seq<string>, context: FailureContext)
    requires ChildScheduled(s, s', id, childId)
    ensures EndsByRule(cfg, s, s', id, childId, issueCodes, context)
  {
  }

  lemma FailTaskEndsByRule(cfg: Settings, s: Store, running: Task, childId: TaskId, issueCodes: seq<string>, context: FailureContext)
    requires Structured(s) && Loaded(s, running) && Fresh(s, childId) && running.root in s.rows
    ensures EndsByRule(cfg, s, FailTask(cfg, s, running, childId, issueCodes, context), running.id, childId, issueCodes, context)
  {
    hide FailTask, AfterRepair, JudgeRepair, JudgeEnding, EndsAs, ChildScheduled, EndsByRule, Structured, Fresh, Loaded;
    var task := FailedRow(running);
    var s' := FailTask(cfg, s, running, childId, issueCodes, context);
    FailTaskEndsAs(cfg, s, running, childId, issueCodes, context);
    if JudgeRepair(cfg, s.Put(task).Count(task.root), issueCodes).created {
      RuleOfRepair(cfg, s, s', running.id, childId, issueCodes, context);
    } else {
      RuleOfEnding(cfg, s, AfterRepair(cfg, s, task, childId, issueCodes), s', task, childId, issueCodes, context);
    }
  }

  lemma RuleIgnoresCases(cfg: Settings, s: Store, s0: Store, s': Store, id: TaskId, childId: TaskId, issueCodes: seq<string>, context: FailureContext)
    requires s0.order == s.order && s0.rows == s.rows
    ensures EndsByRule(cfg, s0, s', id, childId, issueCodes, context) <==> EndsByRule(cfg, s, s', id, childId, issueCodes, context)
  {
  }

  // ------------------------------------------------------ the lineage is left in order

  lemma FailTaskHandled(cfg: Settings, s: Store, running: Task, childId: TaskId, issueCodes: seq<string>, context: FailureContext)
    requires Structured(s) && Settled(s.rows) && Loaded(s, running) && Fresh(s, childId) && running.root in s.rows
    ensures Handled(FailTask(cfg, s, running, childId, issueCodes, context).rows, running.root)
  {
    assert Linked(s.order, s.rows);
    assert running.id in s.rows && s.rows[running.id].root == running.root;
    hide FailTask, Structured, Linked, Settled, Loaded, Moves, ChildScheduled, RescuedDelivery, GivenUp, Fresh, Handled;
    FailTaskEnds(cfg, s, running, childId, issueCodes, context);
    FailTaskMoves(cfg, s, running, childId, issueCodes, context);
    EndsAreHandled(s, FailTask(cfg, s, running, childId, issueCodes, context), running.id, childId);
  }

  lemma EndsAreHandled(s: Store, s': Store, id: TaskId, childId: TaskId)
    requires Linked(s.order, s.rows) && Settled(s.rows) && id in s.rows && s.rows[id].root in s.rows
    requires Moves(s, s', s.rows[id].root)
    requires ChildScheduled(s, s', id, childId) || RescuedDelivery(s, s', id) || GivenUp(s, s', id)
    ensures Handled(s'.rows, s.rows[id].root)
  {
  }

  lemma SuccessClosesRoot(cfg: Settings, s: Store, running: Task, score: int)
    requires Structured(s) && Settled(s.rows) && Loaded(s, running) && running.root in s.rows
    ensures Closed(RecordSuccess(s, SuccessRow(cfg, running, score), score).rows[running.root].delivery)
  {
  }

  lemma CompleteRunHandled(cfg: Settings, s: Store, running: Task, childId: TaskId, report: RunReport)
    requires report.Rendered?
    requires Structured(s) && Settled(s.rows) && Loaded(s, running) && Fresh(s, childId) && running.root in s.rows
    ensures Handled(CompleteRun(cfg, s, running, childId, report).rows, running.root)
  {
    var score := TotalScore(true, report.issueCodes, report.previewIssueCodes);
    var task := SuccessRow(cfg, running, score);
    var s1 := RecordSuccess(s, task, score);
    SuccessClosesRoot(cfg, s, running, score);
    RecordSuccessFrame(s, task, score);
    RecordSuccessKeepsFresh(s, task, score, childId);
    RecordSuccessKeeps(cfg, s, running, score);
    hide RecordSuccess, Escalate, Structured;
    EscalateMoves(cfg, s1, task, childId, report);
  }

  lemma RunHandled(cfg: Settings, s: Store, id: TaskId, childId: TaskId, report: RunReport)
    requires Structured(s) && Settled(s.rows) && Fresh(s, childId)
    requires id in s.rows && s.rows[id].Claimable() && s.rows[id].root in s.rows
    ensures Handled(RunTask(cfg, s, id, childId, report).rows, s.rows[id].root)
  {
    ClaimedIsLoaded(s, id, childId, report.generationMode);
    hide Structured, CompleteRun, FailTask, Settled, Moves, Loaded, Fresh, Handled;
    var running := Classified(s.rows[id], report.generationMode).(status := Running);
    match report
    case Rendered(_, _, _, _, _, _) => CompleteRunHandled(cfg, s.EnsureCase(running), running, childId, report);
    case Broken(_, issueCodes, context) => FailTaskHandled(cfg, s.EnsureCase(running), running, childId, issueCodes, context);
  }

  /** A child stored under a task of a settled lineage leaves the lineage in order. */
  lemma PersistHandled(s: Store, child: Task)
    requires Linked(s.order, s.rows) && Settled(s.rows) && child.id !in s.rows && child.root in s.rows
    requires child.parent.Some? && child.parent.value in s.rows && s.rows[child.parent.value].root == child.root
    requires child.status == Queued && child.delivery == Some(Pending)
    requires child.challenger ==> s.rows[child.parent.value].delivery == Some(Delivered)
    ensures Handled(Persist(s, child).rows, child.root)
  {
    var s' := Persist(s, child);
    assert s'.rows == s.rows[child.id := child];
    hide Persist;
    assert Waiting(s'.rows, child.root);
    if !Closed(s.rows[child.root].delivery) {
      var p := child.parent.value;
      assert p in s.rows && s.rows[p].root == child.root && child.root in s.rows;
      assert Open(s.rows[p]);
      forall a | a in s'.rows && s'.rows[a].root == child.root ensures Open(s'.rows[a]) {
        if a != child.id {
          assert a in s.rows && s.rows[a].root == child.root;
        }
      }
    }
  }

  // --------------------------------------------------------------------- coherent cases

  /** Syncing restores the projection from any state, and a second sync changes nothing. */
  lemma SyncRestoresProjection(s: Store, r: TaskId)
    requires r in s.rows
    ensures CaseCurrent(s.SyncCase(r), r)
    ensures s.SyncCase(r).SyncCase(r) == s.SyncCase(r)
    ensures CaseCurrent(s, r) ==> s.SyncCase(r) == s
  {
  }

  lemma EscalateSynced(cfg: Settings, s: Store, task: Task, childId: TaskId, report: RunReport)
    requires report.Rendered? && Structured(s) && Fresh(s, childId)
    requires task.id in s.rows && s.rows[task.id].root == task.root && task.root in s.rows && CaseCurrent(s, task.root)
    ensures task.root in Escalate(cfg, s, task, childId, report).rows
    ensures CaseCurrent(Escalate(cfg, s, task, childId, report), task.root)
  {
  }

  lemma CompleteRunSynced(cfg: Settings, s: Store, running: Task, childId: TaskId, report: RunReport)
    requires report.Rendered?
    requires Structured(s) && Loaded(s, running) && Fresh(s, childId) && running.root in s.rows
    ensures running.root in CompleteRun(cfg, s, running, childId, report).rows
    ensures CaseCurrent(CompleteRun(cfg, s, running, childId, report), running.root)
  {
    var score := TotalScore(true, report.issueCodes, report.previewIssueCodes);
    var task := SuccessRow(cfg, running, score);
    var s1 := s.(scores := s.scores[task.id := score]).Put(task);
    RecordSuccessFrame(s, task, score);
    RecordSuccessKeepsFresh(s, task, score, childId);
    RecordSuccessKeeps(cfg, s, running, score);
    assert running.root in SyncRoot(s1, task).rows;
    SyncRestoresProjection(SyncRoot(s1, task), running.root);
    assert CaseCurrent(RecordSuccess(s, task, score), running.root);
    hide Structured, RecordSuccess, Escalate, CaseCurrent;
    EscalateSynced(cfg, RecordSuccess(s, task, score), task, childId, report);
  }

  lemma FailTaskSynced(cfg: Settings, s: Store, running: Task, childId: TaskId, issueCodes: seq<string>, context: FailureContext)
    requires Structured(s) && Loaded(s, running) && Fresh(s, childId) && running.root in s.rows
    ensures running.root in FailTask(cfg, s, running, childId, issueCodes, context).rows
    ensures CaseCurrent(FailTask(cfg, s, running, childId, issueCodes, context), running.root)
  {
    FailTaskMoves(cfg, s, running, childId, issueCodes, context);
    var task := FailedRow(running);
    var s1 := AfterRepair(cfg, s, task, childId, issueCodes);
    var s2 := if JudgeRepair(cfg, s.Put(task).Count(task.root), issueCodes).created then s1
              else EndFailure(s1, task, childId, JudgeEnding(cfg, s1, task, issueCodes, context));
    assert FailTask(cfg, s, running, childId, issueCodes, context) == s2.SyncCase(running.root);
    hide Structured, AfterRepair, EndFailure, JudgeEnding, JudgeRepair, FailTask;
    SyncRestoresProjection(s2, running.root);
  }

  lemma RunSynced(cfg: Settings, s: Store, id: TaskId, childId: TaskId, report: RunReport)
    requires Structured(s) && Fresh(s, childId)
    requires id in s.rows && s.rows[id].Claimable() && s.rows[id].root in s.rows
    ensures s.rows[id].root in RunTask(cfg, s, id, childId, report).rows
    ensures CaseCurrent(RunTask(cfg, s, id, childId, report), s.rows[id].root)
  {
    ClaimedIsLoaded(s, id, childId, report.generationMode);
    hide Structured, CompleteRun, FailTask, Loaded, Fresh, CaseCurrent;
    var running := Classified(s.rows[id], report.generationMode).(status := Running);
    match report
    case Rendered(_, _, _, _, _, _) => CompleteRunSynced(cfg, s.EnsureCase(running), running, childId, report);
    case Broken(_, issueCodes, context) => FailTaskSynced(cfg, s.EnsureCase(running), running, childId, issueCodes, context);
  }

  // -------------------------------------------------------------------------- one step

  /** The touched lineage is in order and its case current after an ordinary step. */
  ghost predicate LeftInOrder(s: Store, r: TaskId) {
    r in s.rows && Handled(s.rows, r) && CaseCurrent(s, r)
  }

  lemma PersistLeavesInOrder(s: Store, child: Task)
    requires Linked(s.order, s.rows) && Settled(s.rows) && child.id !in s.rows && child.root in s.rows
    requires child.parent.Some? && child.parent.value in s.rows && s.rows[child.parent.value].root == child.root
    requires child.status == Queued && child.delivery == Some(Pending)
    requires child.challenger ==> s.rows[child.parent.value].delivery == Some(Delivered)
    ensures LeftInOrder(Persist(s, child), child.root)
  {
    PersistHandled(s, child);
    SyncRestoresProjection(s.Insert(child).EnsureCase(child), child.root);
  }

  lemma CreateLeavesInOrder(cfg: Settings, s: Store, id: TaskId, key: Option<string>)
    requires Healthy(s) && Fresh(s, id)
    ensures Create(cfg, s, id, key) == s || LeftInOrder(Create(cfg, s, id, key), Touched(s, CreateStep(id, key)))
  {
    var holder := if key.Some? then KeyHolder(s.order, s.rows, key.value) else None;
    if holder.None? {
      var root := NewRoot(id, key);
      SyncRestoresProjection(s.Insert(root).EnsureCase(root), id);
      NewRootHandled(s, root);
    } else {
      var r := s.rows[holder.value].root;
      RootIsRoot(s, holder.value);
      SyncRestoresProjection(s.EnsureCase(s.rows[holder.value]), r);
      HealthyIsHandled(s, r);
      hide Healthy;
    }
  }

  lemma RootIsRoot(s: Store, id: TaskId)
    requires Linked(s.order, s.rows) && FamilyPresent(s.rows) && id in s.rows
    ensures s.rows[id].root in s.rows && s.rows[s.rows[id].root].root == s.rows[id].root
  {
  }

  lemma NewRootHandled(s: Store, root: Task)
    requires Fresh(s, root.id) && root.root == root.id && root.status == Queued && Open(root)
    ensures Handled(Persist(s, root).rows, root.id)
  {
  }

  lemma HealthyIsHandled(s: Store, r: TaskId)
    requires Settled(s.rows) && Alive(s.rows) && r in s.rows && s.rows[r].root == r
    ensures Handled(s.rows, r)
  {
  }

  lemma AcceptLeavesInOrder(s: Store, winner: TaskId)
    requires Structured(s) && CanAccept(s, winner)
    ensures LeftInOrder(Accept(s, winner), s.rows[winner].root)
  {
  }

  lemma NoBrokenChains(rows: Rows, id: TaskId)
    requires FamilyPresent(rows)
    ensures !HasDeletedAncestor(rows, id)
  {
    forall chain | |chain| > 1 ensures !IsBrokenChain(chain, rows, id) {
      var n := |chain| - 2;
      assert chain[n + 1] == chain[|chain| - 1];
      assert chain[n] in rows ==> ParentStored(rows, chain[n]);
    }
  }

  /** Where nothing was deleted no task is an orphan, and the orphan pass changes nothing. */
  lemma NothingToReconcile(s: Store, r: TaskId)
    requires Structured(s) && FamilyPresent(s.rows)
    ensures ReconcileOrphans(s, r) == s
  {
    LinkedOf(s);
    hide Structured;
    forall id | id in s.Members(r) ensures id !in Orphans(s.order, s.rows, r) {
      assert id in s.order && id in s.rows && s.rows[id].root == r;
      RootIsRoot(s, id);
      var k :| 0 <= k < |s.order| && s.order[k] == id;
      OrphanIffDeletedAncestor(s.order, s.rows, r, k);
      NoBrokenChains(s.rows, id);
    }
    hide Linked, Orphans, Lineage;
  }

  lemma StepLeavesInOrder(cfg: Settings, s: Store, step: Step)
    requires Healthy(s) && Enabled(s, step) && Ordinary(step)
    ensures Apply(cfg, s, step) == s || LeftInOrder(Apply(cfg, s, step), Touched(s, step))
  {
    hide Structured, Linked, Alive, Coherent, FamilyPresent, LeftInOrder, Settled, KeyHolder, RunTask, AcceptedRows, Persist;
    HealthyParts(s);
    LinkedOf(s);
    if step.id in s.rows {
      RowKeyed(s, step.id);
      RootIsRoot(s, step.id);
    }
    match step
    case CreateStep(id, key) => CreateLeavesInOrder(cfg, s, id, key);
    case RunStep(id, childId, report) =>
      RunHandled(cfg, s, id, childId, report);
      RunSynced(cfg, s, id, childId, report);
      LeftInOrderParts(RunTask(cfg, s, id, childId, report), s.rows[id].root);
    case ReviseStep(id, childId) =>
      if id in s.rows {
        PersistLeavesInOrder(s, FromRevision(s.rows[id], childId));
        if s.rows[id].DeliveredCandidate() {
          PersistLeavesInOrder(s, ChallengerChild(s.rows[id], childId));
        }
      }
    case RetryStep(id, childId) =>
      if id in s.rows {
        PersistLeavesInOrder(s, FromRevision(s.rows[id], childId));
      }
    case AcceptStep(id) =>
      if CanAccept(s, id) {
        AcceptLeavesInOrder(s, id);
      }
    case ReconcileStep(id) => NothingToReconcile(s, id);
  }

  lemma LeftInOrderParts(s: Store, r: TaskId)
    requires r in s.rows && Handled(s.rows, r) && CaseCurrent(s, r)
    ensures LeftInOrder(s, r)
  {
  }

  /** A lineage the step did not touch stays in order, with its case. */
  lemma ElsewhereStaysInOrder(s: Store, s': Store, r: TaskId, q: TaskId)
    requires Healthy(s) && Linked(s'.order, s'.rows) && Moves(s, s', r)
    requires q != r && q in s'.rows && s'.rows[q].root == q
    ensures LeftInOrder(s', q)
  {
    assert q in s.rows && s'.rows[q] == s.rows[q];
    HealthyIsHandled(s, q);
    HandledElsewhere(s, s', r, q);
    OtherLineagesUntouched(s, s', r, q);
    assert CaseCurrent(s, q);
    hide Healthy, Linked, Handled;
  }

  lemma HandledElsewhere(s: Store, s': Store, r: TaskId, q: TaskId)
    requires Moves(s, s', r) && Handled(s.rows, q)
    requires q != r && s.rows[q].root == q
    ensures Handled(s'.rows, q)
  {
  }

  lemma HealthyFromLineages(s: Store)
    requires Structured(s) && FamilyPresent(s.rows)
    requires forall q :: q in s.rows && s.rows[q].root == q ==> LeftInOrder(s, q)
    ensures Healthy(s)
  {
    HandledIsSettled(s.rows);
  }

  lemma ParentStays(s: Store, s': Store, r: TaskId, id: TaskId)
    requires Moves(s, s', r) && id in s.rows && ParentStored(s.rows, id)
    ensures ParentStored(s'.rows, id)
  {
    assert Advances(s.rows[id], s'.rows[id]);
    if s.rows[id].parent.Some? {
      var p := s.rows[id].parent.value;
      assert Advances(s.rows[p], s'.rows[p]);
    }
  }

  lemma FamilyStaysPresent(s: Store, s': Store, r: TaskId)
    requires FamilyPresent(s.rows) && Moves(s, s', r) && r in s'.rows
    ensures FamilyPresent(s'.rows)
  {
    hide ParentStored;
    forall id | id in s'.rows ensures s'.rows[id].root in s'.rows && ParentStored(s'.rows, id) {
      if id in s.rows {
        assert Advances(s.rows[id], s'.rows[id]);
        assert s.rows[id].root in s.rows && ParentStored(s.rows, id);
        ParentStays(s, s', r, id);
      }
    }
  }

  /** Each ordinary step keeps every lineage alive, settled and mirrored by its case. */
  lemma HealthyParts(s: Store)
    requires Healthy(s)
    ensures Structured(s) && FamilyPresent(s.rows) && Settled(s.rows)
  {
  }

  lemma StepKeepsHealthy(cfg: Settings, s: Store, step: Step)
    requires Healthy(s) && Enabled(s, step) && Ordinary(step)
    ensures Healthy(Apply(cfg, s, step))
  {
    hide Apply, Structured, Linked, Healthy, Moves, Enabled, FamilyPresent, Handled, CaseCurrent;
    var s', r := Apply(cfg, s, step), Touched(s, step);
    StepLeavesInOrder(cfg, s, step);
    if s' != s {
      assert r in s'.rows;
      hide LeftInOrder;
      HealthyParts(s);
      StepKeeps(cfg, s, step);
      StepMoves(cfg, s, step);
      LinkedOf(s);
      LinkedOf(s');
      FamilyStaysPresent(s, s', r);
      forall q | q in s'.rows && s'.rows[q].root == q ensures LeftInOrder(s', q) {
        if q != r {
          ElsewhereStaysInOrder(s, s', r, q);
        }
      }
      HealthyFromLineages(s');
    }
  }

  /** Over every ordinary run of the life cycle. */
  lemma {:induction false} RunsKeepHealthy(cfg: Settings, s: Store, steps: seq<Step>)
    requires Healthy(s) && IsRun(cfg, s, steps) && forall step :: step in steps ==> Ordinary(step)
    ensures Healthy(Exec(cfg, s, steps))
  {
    hide Healthy, Apply;
    if steps != [] {
      var n := |steps| - 1;
      RunsKeepHealthy(cfg, s, steps[..n]);
      assert steps[n] in steps;
      StepKeepsHealthy(cfg, Exec(cfg, s, steps[..n]), steps[n]);
    }
  }
}
