/** The task record, its enumerations, the settings that govern a lineage, and the
    constructors of child tasks. */
module TaskModel {
  import opened Wrappers

  /** An identifier drawn by uuid4; only equality is ever used. */
  type TaskId = int

  datatype Status = Queued | Running | Revising | Completed | Failed | Cancelled

  datatype Phase =
    | AtQueue | AtPlanning | AtRiskRouting | AtScenePlanning | AtGeneratingCode | AtStaticCheck
    | AtPreflightCheck | AtPreviewRender | AtPreviewValidation | AtRendering | AtFrameExtract
    | AtValidation | AtQualityJudging | AtEscalated | AtRevising | AtCompleted | AtFailed | AtCancelled

  datatype Gate = Accepted | NeedsRevision

  datatype Delivery = Pending | Delivered | Undelivered

  datatype Mode = Primary | Repaired | Degraded | EmergencyFallback

  /** The `repair_*` columns. */
  datatype RepairState = RepairState(attempted: bool, children: nat, lastIssue: Option<string>, stopReason: Option<string>)

  const NO_REPAIR := RepairState(false, 0, None, None)

  datatype Task = Task(
    id: TaskId,
    root: TaskId,
    parent: Option<TaskId>,
    challenger: bool,               // branch_kind is "challenger" or unset
    idempotencyKey: Option<string>,
    status: Status,
    phase: Phase,
    generationMode: Option<string>,
    gate: Option<Gate>,
    best: bool,
    rank: Option<nat>,
    delivery: Option<Delivery>,
    resolved: Option<TaskId>,
    mode: Option<Mode>,
    tier: Option<string>,
    stopReason: Option<string>,
    repair: RepairState)
  {
    predicate Claimable() {
      status == Queued || status == Revising
    }

    predicate Active() {
      status == Queued || status == Revising || status == Running
    }

    predicate DeliveredCandidate() {
      status == Completed && delivery == Some(Delivered)
    }
  }

  /** The settings the lifecycle reads. Scores and the minimum score are in ten-thousandths. */
  datatype Settings = Settings(
    maxQueuedTasks: int,
    maxAttemptsPerRoot: int,
    autoRepairEnabled: bool,
    autoRepairMaxChildren: int,
    retryableIssueCodes: set<string>,
    workflowEnabled: bool,
    autoChallengerEnabled: bool,
    autoArbitrationEnabled: bool,
    workflowMaxChildren: int,
    qualityGateMinScore: int,
    guaranteeEnabled: bool,
    emergencyVideoAllowed: bool)

  /** Python's `value or fallback` on an optional string. */
  function TextOr(value: Option<string>, fallback: string): (text: string)
    ensures fallback != "" ==> text != ""
  {
    if value.Some? && value.value != "" then value.value else fallback
  }

  function NewRoot(id: TaskId, key: Option<string>): Task {
    Task(id, id, None, false, key, Queued, AtQueue, None, None, false, None,
         Some(Pending), None, None, None, None, NO_REPAIR)
  }

  /** A revision keeps the lineage, the generation mode and the quality gate of its parent;
      everything about delivery and acceptance starts afresh. */
  function FromRevision(parent: Task, id: TaskId): Task {
    Task(id, parent.root, Some(parent.id), false, None, Queued, AtQueue, parent.generationMode, parent.gate,
         false, None, Some(Pending), None, None, None, None, NO_REPAIR)
  }

  function RepairChild(parent: Task, id: TaskId): Task {
    FromRevision(parent, id).(mode := Some(Repaired))
  }

  function DegradedChild(parent: Task, id: TaskId, generationMode: string): Task {
    FromRevision(parent, id).(mode := Some(Degraded), generationMode := Some(generationMode), tier := Some(generationMode))
  }

  function ChallengerChild(parent: Task, id: TaskId): Task {
    FromRevision(parent, id).(challenger := true)
  }
}
