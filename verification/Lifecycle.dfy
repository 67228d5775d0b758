/** What each lifecycle operation does to the store, as functions. */
module Lifecycle {
  import opened Wrappers
  import opened TaskModel
  import opened LineageGraph
  import opened TaskStore
  import opened Arbitration
  import opened QualityJudge

  const DEFAULT_GENERATION_MODE := "guided_generate"

  // ------------------------------------------------------------------------- run reports

  /** What the rest of a failing run leaves for the decision: the failure contract and recovery plan on
      disk, and whether the emergency video writer succeeds. */
  datatype FailureContext = FailureContext(
    humanReviewRequired: bool,
    contractIssueCode: string,
    fallbackMode: Option<string>,
    writerError: Option<string>)

  /** The outcome of generating, rendering and validating, which happens outside the model. */
  datatype RunReport =
    | Rendered(generationMode: Option<string>, issueCodes: seq<string>, previewIssueCodes: seq<string>,
               challengerGuardOpen: bool, promotionGuardOpen: bool, authorized: bool)
    | Broken(generationMode: Option<string>, issueCodes: seq<string>, context: FailureContext)

  function Classified(task: Task, generationMode: Option<string>): Task {
    if generationMode.Some? then task.(generationMode := generationMode) else task
  }

  // ------------------------------------------------------------------ budgets and children

  function ChildCount(count: nat): nat {
    if count > 0 then count - 1 else 0
  }

  predicate AttemptsLeft(cfg: Settings, count: nat) {
    count < cfg.maxAttemptsPerRoot
  }

  predicate RepairBudgetLeft(cfg: Settings, count: nat) {
    ChildCount(count) < cfg.autoRepairMaxChildren && count < cfg.maxAttemptsPerRoot
  }

  predicate WorkflowBudgetLeft(cfg: Settings, count: nat) {
    ChildCount(count) < cfg.workflowMaxChildren
  }

  /** Storing a child: insert it, make sure there is a case, bring the case up to date. */
  function Persist(s: Store, child: Task): Store {
    s.Insert(child).EnsureCase(child).SyncCase(child.root)
  }

  // ------------------------------------------------------------------- root resolution

  function Resolve(root: Task, task: Task): Task {
    root.(delivery := Some(Delivered), resolved := Some(task.id), mode := task.mode, tier := task.tier,
          stopReason := None, status := Completed, phase := AtCompleted)
  }

  /** Re-point the root at a delivered task, unless that task is a challenger. */
  function SyncRoot(s: Store, task: Task): Store {
    if task.root !in s.rows then s
    else if task.id != task.root && task.challenger then s.SyncCase(task.root)
    else s.Put(Resolve(s.rows[task.root], task)).SyncCase(task.root)
  }

  function GiveUp(task: Task, reason: string): Task {
    task.(delivery := Some(Undelivered), stopReason := Some(reason))
  }

  function MarkDeliveryFailed(s: Store, task: Task, reason: string): Store {
    var s1 := s.Put(GiveUp(task, reason));
    if task.root == task.id || task.root !in s1.rows then s1
    else s1.Put(GiveUp(s1.rows[task.root], reason)).SyncCase(task.root)
  }

  function DeliveredAs(task: Task, mode: Option<Mode>, tier: Option<string>): Task {
    task.(status := Completed, phase := AtCompleted, delivery := Some(Delivered), resolved := Some(task.id),
          mode := mode, tier := tier, stopReason := None)
  }

  function FinalizeDelivery(s: Store, task: Task, mode: Mode, tier: string): Store {
    var delivered := DeliveredAs(task, Some(mode), Some(tier));
    SyncRoot(s.Put(delivered), delivered)
  }

  // ------------------------------------------------------------------------- acceptance

  function AcceptedRow(task: Task, winner: TaskId, rank: nat): Task {
    task.(best := task.id == winner, rank := if task.id == winner then Some(rank) else None)
  }

  function AcceptedRoot(root: Task, winner: Task, rank: nat): Task {
    root.(status := Completed, phase := AtCompleted, delivery := Some(Delivered), resolved := Some(winner.id),
          mode := winner.mode, tier := winner.tier, stopReason := None,
          best := winner.id == root.id, rank := if winner.id == root.id then Some(rank) else None)
  }

  function Position(ids: seq<TaskId>, id: TaskId): (p: nat)
    requires id in ids
    ensures p < |ids| && ids[p] == id && id !in ids[..p]
  {
    if ids[0] == id then 0 else 1 + Position(ids[1..], id)
  }

  /** The rows after an accept: the whole lineage re-marked, the root resolved to the winner. */
  function AcceptedRows(s: Store, winner: TaskId): Rows
    requires winner in s.rows && winner in s.Members(s.rows[winner].root)
  {
    var root, rank := s.rows[winner].root, Position(s.Members(s.rows[winner].root), winner) + 1;
    map id | id in s.rows ::
      if id == root then AcceptedRoot(s.rows[id], s.rows[winner], rank)
      else if id in s.Members(root) then AcceptedRow(s.rows[id], winner, rank)
      else s.rows[id]
  }

  predicate CanAccept(s: Store, winner: TaskId) {
    && winner in s.rows && s.rows[winner].status == Completed
    && winner in s.Members(s.rows[winner].root)
    && s.rows[winner].root in s.rows
  }

  function Accept(s: Store, winner: TaskId): Store {
    if CanAccept(s, winner) then s.(rows := AcceptedRows(s, winner)).SyncCase(s.rows[winner].root) else s
  }

  // --------------------------------------------------------------------- a failing run

  datatype RepairVerdict = RepairVerdict(created: bool, reason: string)

  function JudgeRepair(cfg: Settings, count: nat, issueCodes: seq<string>): RepairVerdict {
    if !cfg.autoRepairEnabled then RepairVerdict(false, "disabled")
    else if issueCodes == [] then RepairVerdict(false, "missing_issue_code")
    else if issueCodes[0] !in cfg.retryableIssueCodes then RepairVerdict(false, "non_retryable_issue")
    else if !RepairBudgetLeft(cfg, count) then RepairVerdict(false, "budget_exhausted")
    else RepairVerdict(true, "created")
  }

  function WithRepairState(root: Task, count: nat, issueCodes: seq<string>, verdict: RepairVerdict): Task {
    root.(repair := RepairState(
            root.repair.attempted || verdict.created || verdict.reason !in {"disabled", "task_not_failed"},
            ChildCount(count),
            if issueCodes != [] then Some(issueCodes[0]) else root.repair.lastIssue,
            if verdict.created then None else Some(verdict.reason)))
  }

  function RecordRepairState(s: Store, root: TaskId, issueCodes: seq<string>, verdict: RepairVerdict): Store {
    if root in s.rows then s.Put(WithRepairState(s.rows[root], s.Count(root), issueCodes, verdict)) else s
  }

  predicate StartsWith(text: string, prefix: string) {
    prefix <= text
  }

  const POLICY_VIOLATIONS := {"sandbox_policy_violation", "runtime_policy_violation"}
  const NO_DEGRADED_ISSUES := {"latex_dependency_missing", "sandbox_policy_violation", "runtime_policy_violation"}
  const NO_EMERGENCY_ISSUES := {"latex_dependency_missing", "sandbox_policy_violation", "runtime_policy_violation"}

  predicate HasDegradedAttempt(s: Store, root: TaskId) {
    exists id :: id in s.Members(root) && s.rows[id].parent.Some? && s.rows[id].mode == Some(Degraded)
  }

  predicate MayDegrade(cfg: Settings, s: Store, task: Task, context: FailureContext) {
    && cfg.guaranteeEnabled
    && task.parent.Some?
    && task.mode != Some(Degraded)
    && !HasDegradedAttempt(s, task.root)
    && !context.humanReviewRequired
    && !StartsWith(context.contractIssueCode, "provider_")
    && context.contractIssueCode !in NO_DEGRADED_ISSUES
    && AttemptsLeft(cfg, s.Count(task.root))
  }

  predicate AllowsEmergency(issueCodes: seq<string>) {
    issueCodes == [] || issueCodes[0] !in NO_EMERGENCY_ISSUES
  }

  /** How a failed run that was not repaired ends. */
  datatype Ending = DegradedAttempt(generationMode: string) | Emergency(mode: Mode, tier: string) | Abandoned(reason: string)

  function MaybeDeliver(cfg: Settings, task: Task, writerError: Option<string>): Ending {
    if !cfg.guaranteeEnabled then Abandoned("disabled")
    else if !cfg.emergencyVideoAllowed then Abandoned("emergency_video_disabled")
    else if writerError.Some? then Abandoned(writerError.value)
    else if task.parent.None? then Emergency(EmergencyFallback, "emergency")
    else Emergency(Degraded, TextOr(task.generationMode, DEFAULT_GENERATION_MODE))
  }

  function JudgeEnding(cfg: Settings, s: Store, task: Task, issueCodes: seq<string>, context: FailureContext): Ending {
    if issueCodes != [] && issueCodes[0] in POLICY_VIOLATIONS then Abandoned(issueCodes[0])
    else if MayDegrade(cfg, s, task, context) then
      DegradedAttempt(TextOr(context.fallbackMode, TextOr(task.generationMode, DEFAULT_GENERATION_MODE)))
    else if !AllowsEmergency(issueCodes) then Abandoned(issueCodes[0])
    else MaybeDeliver(cfg, task, context.writerError)
  }

  function EndFailure(s: Store, task: Task, childId: TaskId, ending: Ending): Store {
    match ending
    case DegradedAttempt(generationMode) => Persist(s, DegradedChild(task, childId, generationMode))
    case Emergency(mode, tier) => FinalizeDelivery(s, task, mode, tier)
    case Abandoned(reason) => MarkDeliveryFailed(s, task, reason)
  }

  function FailedRow(task: Task): Task {
    task.(status := Failed, phase := AtFailed)
  }

  /** The store once the failure is recorded, the repair considered and the repair state written. */
  function AfterRepair(cfg: Settings, s: Store, task: Task, childId: TaskId, issueCodes: seq<string>): Store {
    var s1 := s.Put(task);
    var verdict := JudgeRepair(cfg, s1.Count(task.root), issueCodes);
    RecordRepairState(if verdict.created then Persist(s1, RepairChild(task, childId)) else s1, task.root, issueCodes, verdict)
  }

  function FailTask(cfg: Settings, s: Store, running: Task, childId: TaskId, issueCodes: seq<string>, context: FailureContext): Store {
    var task := FailedRow(running);
    var verdict := JudgeRepair(cfg, s.Put(task).Count(task.root), issueCodes);
    var s1 := AfterRepair(cfg, s, task, childId, issueCodes);
    (if verdict.created then s1 else EndFailure(s1, task, childId, JudgeEnding(cfg, s1, task, issueCodes, context)))
    .SyncCase(task.root)
  }

  // ------------------------------------------------------------------- a successful run

  function SuccessRow(cfg: Settings, task: Task, score: int): Task {
    DeliveredAs(
      task.(gate := Some(if score >= cfg.qualityGateMinScore then Accepted else NeedsRevision)),
      if task.mode.Some? then task.mode else Some(if task.parent.None? then Primary else Repaired),
      if task.tier.Some? then task.tier
      else Some(if task.parent.None? then "primary" else TextOr(task.generationMode, DEFAULT_GENERATION_MODE)))
  }

  predicate WantsChallenger(cfg: Settings, task: Task, guardOpen: bool) {
    && cfg.workflowEnabled && cfg.autoChallengerEnabled
    && task.DeliveredCandidate()
    && task.gate != Some(Accepted)
    && task.mode != Some(Degraded) && task.mode != Some(EmergencyFallback)
    && guardOpen
  }

  predicate CanChallenge(cfg: Settings, s: Store, base: Task) {
    && base.DeliveredCandidate()
    && AttemptsLeft(cfg, s.Count(base.root))
    && WorkflowBudgetLeft(cfg, s.Count(base.root))
  }

  function ScheduleChallenger(cfg: Settings, s: Store, task: Task, childId: TaskId, guardOpen: bool): Store {
    if WantsChallenger(cfg, task, guardOpen) && CanChallenge(cfg, s, task) then Persist(s, ChallengerChild(task, childId)) else s
  }

  function Recommendation(s: Store, root: TaskId): Summary {
    var ids := s.Members(root);
    assert forall i :: 0 <= i < |ids| ==> ids[i] in ids;
    var selected := if root in s.cases then s.cases[root].selected else None;
    var active := if root in s.cases then Some(s.cases[root].active) else None;
    Arbitrate(Scoreboard(ids, s.rows, s.scores), selected, active)
  }

  predicate Promotes(cfg: Settings, s: Store, task: Task, guardOpen: bool, authorized: bool) {
    && cfg.workflowEnabled && cfg.autoArbitrationEnabled
    && task.challenger
    && task.DeliveredCandidate()
    && task.gate == Some(Accepted)
    && guardOpen
    && Recommendation(s, task.root).action == PromoteChallenger
    && Recommendation(s, task.root).recommended == Some(task.id)
    && authorized
  }

  function MaybePromote(cfg: Settings, s: Store, task: Task, guardOpen: bool, authorized: bool): Store {
    if Promotes(cfg, s, task, guardOpen, authorized) then Accept(s, task.id) else s
  }

  /** The store once the success is recorded and the root resolved, before any escalation. */
  function RecordSuccess(s: Store, task: Task, score: int): Store {
    var s1 := s.(scores := s.scores[task.id := score]).Put(task);
    SyncRoot(s1, task).SyncCase(task.root)
  }

  /** A delivered task may call for a challenger, or be promoted if it is one. */
  function Escalate(cfg: Settings, s: Store, task: Task, childId: TaskId, report: RunReport): Store
    requires report.Rendered?
  {
    MaybePromote(cfg, ScheduleChallenger(cfg, s, task, childId, report.challengerGuardOpen), task,
                 report.promotionGuardOpen, report.authorized)
  }

  function CompleteRun(cfg: Settings, s: Store, running: Task, childId: TaskId, report: RunReport): Store
    requires report.Rendered?
  {
    var score := TotalScore(true, report.issueCodes, report.previewIssueCodes);
    var task := SuccessRow(cfg, running, score);
    Escalate(cfg, RecordSuccess(s, task, score), task, childId, report)
  }

  function RunTask(cfg: Settings, s: Store, id: TaskId, childId: TaskId, report: RunReport): Store {
    if id !in s.rows || s.rows[id].status == Cancelled then s
    else
      var running := Classified(s.rows[id], report.generationMode).(status := Running);
      var s1 := s.EnsureCase(running);
      match report
      case Rendered(_, _, _, _, _, _) => CompleteRun(cfg, s1, running, childId, report)
      case Broken(_, issueCodes, context) => FailTask(cfg, s1, running, childId, issueCodes, context)
  }

  // ------------------------------------------------------------------- the other requests

  function ActiveCount(s: Store): nat {
    |set id | id in s.rows && s.rows[id].Active()|
  }

  /** The row that holds an idempotency key; the column is unique. */
  function KeyHolder(order: seq<TaskId>, rows: Rows, key: string): (found: Option<TaskId>)
    ensures found.Some? ==> found.value in order && found.value in rows && rows[found.value].idempotencyKey == Some(key)
    ensures found.None? ==> forall id :: id in order && id in rows ==> rows[id].idempotencyKey != Some(key)
  {
    if order == [] then None
    else if order[0] in rows && rows[order[0]].idempotencyKey == Some(key) then Some(order[0])
    else KeyHolder(order[1..], rows, key)
  }

  /** An empty key is not looked up, but the unique column still refuses to store it twice. */
  function Create(cfg: Settings, s: Store, id: TaskId, key: Option<string>): Store {
    if ActiveCount(s) >= cfg.maxQueuedTasks then s
    else
      var holder := if key.Some? then KeyHolder(s.order, s.rows, key.value) else None;
      if holder.None? then Persist(s, NewRoot(id, key))
      else if key == Some("") then s
      else s.EnsureCase(s.rows[holder.value]).SyncCase(s.rows[holder.value].root)
  }

  function Revise(cfg: Settings, s: Store, base: TaskId, childId: TaskId): Store {
    if base !in s.rows then s
    else if !s.rows[base].DeliveredCandidate() then Persist(s, FromRevision(s.rows[base], childId))
    else if CanChallenge(cfg, s, s.rows[base]) then Persist(s, ChallengerChild(s.rows[base], childId))
    else s
  }

  predicate CanRetry(cfg: Settings, s: Store, base: TaskId) {
    base in s.rows && s.rows[base].status == Failed && AttemptsLeft(cfg, s.Count(s.rows[base].root))
  }

  function Retry(cfg: Settings, s: Store, base: TaskId, childId: TaskId): Store {
    if CanRetry(cfg, s, base) then Persist(s, FromRevision(s.rows[base], childId)) else s
  }

  function Cancel(s: Store, id: TaskId): Store {
    if id in s.rows then s.Put(s.rows[id].(status := Cancelled, phase := AtCancelled)) else s
  }

  // ------------------------------------------------------------------------ reconciliation

  const ORPHANED := "orphaned_branch"

  predicate AlreadyOrphaned(task: Task) {
    task.status == Failed && task.delivery == Some(Undelivered) && task.stopReason == Some(ORPHANED)
  }

  function OrphanedRow(task: Task): Task {
    task.(status := Failed, phase := AtFailed, delivery := Some(Undelivered), stopReason := Some(ORPHANED))
  }

  function OrphanRows(s: Store, root: TaskId): Rows {
    map id | id in s.rows ::
      if id in Orphans(s.order, s.rows, root) && !AlreadyOrphaned(s.rows[id]) then OrphanedRow(s.rows[id]) else s.rows[id]
  }

  predicate HasNewOrphan(s: Store, root: TaskId) {
    exists id :: id in Orphans(s.order, s.rows, root) && !AlreadyOrphaned(s.rows[id])
  }

  function ReconcileOrphans(s: Store, root: TaskId): Store {
    if HasNewOrphan(s, root) then s.(rows := OrphanRows(s, root)).SyncCase(root) else s
  }

  // --------------------------------------------------------------------------------- runs

  datatype Step =
    | CreateStep(id: TaskId, key: Option<string>)
    | RunStep(id: TaskId, childId: TaskId, report: RunReport)
    | ReviseStep(id: TaskId, childId: TaskId)
    | RetryStep(id: TaskId, childId: TaskId)
    | AcceptStep(id: TaskId)
    | CancelStep(id: TaskId)
    | DeleteStep(id: TaskId)
    | ReconcileStep(id: TaskId)

  function Apply(cfg: Settings, s: Store, step: Step): Store {
    match step
    case CreateStep(id, key) => Create(cfg, s, id, key)
    case RunStep(id, childId, report) => RunTask(cfg, s, id, childId, report)
    case ReviseStep(id, childId) => Revise(cfg, s, id, childId)
    case RetryStep(id, childId) => Retry(cfg, s, id, childId)
    case AcceptStep(id) => Accept(s, id)
    case CancelStep(id) => Cancel(s, id)
    case DeleteStep(id) => s.Delete(id)
    case ReconcileStep(id) => ReconcileOrphans(s, id)
  }

  /** What the environment guarantees: identifiers are new, and the worker claims only waiting tasks. */
  predicate Enabled(s: Store, step: Step) {
    match step
    case CreateStep(id, _) => Fresh(s, id)
    case RunStep(id, childId, _) => id in s.rows && s.rows[id].Claimable() && Fresh(s, childId)
    case ReviseStep(_, childId) => Fresh(s, childId)
    case RetryStep(_, childId) => Fresh(s, childId)
    case AcceptStep(_) => true
    case CancelStep(_) => true
    case DeleteStep(_) => true
    case ReconcileStep(_) => true
  }

  function Exec(cfg: Settings, s: Store, steps: seq<Step>): Store {
    if steps == [] then s
    else Apply(cfg, Exec(cfg, s, steps[..|steps| - 1]), steps[|steps| - 1])
  }

  /** A run: every step is enabled where it is taken. */
  predicate IsRun(cfg: Settings, s: Store, steps: seq<Step>) {
    steps == [] || (IsRun(cfg, s, steps[..|steps| - 1]) && Enabled(Exec(cfg, s, steps[..|steps| - 1]), steps[|steps| - 1]))
  }

  /** The steps of the delivery life cycle proper: nothing is cancelled or deleted. */
  predicate Ordinary(step: Step) {
    !step.CancelStep? && !step.DeleteStep?
  }
}
