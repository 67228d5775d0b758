/** The task table, the delivery cases derived from it and the quality scores. */
module TaskStore {
  import opened Wrappers
  import opened TaskModel
  import opened LineageGraph

  datatype CaseStatus =
    | CaseQueued | CasePlanning | CaseRunning | CaseReviewing | CaseRepairing
    | CaseBranching | CaseArbitrating | CaseCompleted | CaseFailed

  datatype DeliveryCase = DeliveryCase(
    root: TaskId,
    active: TaskId,
    selected: Option<TaskId>,
    status: CaseStatus,
    delivery: Delivery,
    mode: Option<Mode>,
    stopReason: Option<string>)

  // ------------------------------------------------------- what a case row should contain

  predicate IsArbitratingCandidate(root: Task, active: Task) {
    var selected := if root.resolved.Some? then root.resolved.value else root.id;
    && active.id != selected
    && active.challenger
    && active.DeliveredCandidate()
    && active.gate == Some(Accepted)
  }

  function DeriveCaseStatus(root: Task, active: Task): CaseStatus {
    if root.delivery == Some(Undelivered) then CaseFailed
    else if root.delivery == Some(Delivered) then
      if IsArbitratingCandidate(root, active) then CaseArbitrating
      else if active.id != (if root.resolved.Some? then root.resolved.value else root.id) && active.Active() then CaseBranching
      else CaseCompleted
    else if active.id != root.id && active.Active() then CaseRepairing
    else if active.phase in {AtPreviewValidation, AtValidation, AtQualityJudging} then CaseReviewing
    else if active.status == Running then CaseRunning
    else if active.phase in {AtScenePlanning, AtPlanning} then CasePlanning
    else CaseQueued
  }

  function ActiveTask(order: seq<TaskId>, rows: Rows, root: TaskId): (id: TaskId)
    requires root in rows
    ensures id in rows
  {
    var kept := Reachable(order, rows, root);
    if kept == [] then root
    else assert kept[|kept| - 1] in kept; kept[|kept| - 1]
  }

  function DeliveryOr(delivery: Option<Delivery>): Delivery {
    if delivery.Some? then delivery.value else Pending
  }

  /** The case row as computed from the root and the last reachable lineage task. */
  function Projection(order: seq<TaskId>, rows: Rows, root: TaskId): DeliveryCase
    requires root in rows
  {
    var task, active := rows[root], ActiveTask(order, rows, root);
    DeliveryCase(root, active, task.resolved, DeriveCaseStatus(task, rows[active]),
                 DeliveryOr(task.delivery), task.mode, task.stopReason)
  }

  // ---------------------------------------------------------------------------- the store

  datatype Store = Store(
    order: seq<TaskId>,
    rows: Rows,
    cases: map<TaskId, DeliveryCase>,
    scores: map<TaskId, int>)
  {
    /** An UPDATE by primary key: no row, no effect. */
    function Put(task: Task): Store {
      if task.id in rows then this.(rows := rows[task.id := task]) else this
    }

    function Insert(task: Task): Store {
      this.(order := order + [task.id], rows := rows[task.id := task])
    }

    /** Deleting a task drops its row and the case keyed by it; quality scores stay behind. */
    function Delete(id: TaskId): Store {
      Store(Without(order, [id]), rows - {id}, cases - {id}, scores)
    }

    function Members(root: TaskId): seq<TaskId> {
      Lineage(order, rows, root)
    }

    function Count(root: TaskId): nat {
      |Members(root)|
    }

    function EnsureCase(task: Task): Store {
      if task.root in cases then this
      else this.(cases := cases[task.root :=
          DeliveryCase(task.root, task.id, None, CaseQueued, DeliveryOr(task.delivery), task.mode, task.stopReason)])
    }

    /** What a sync by any identifier does: the case is keyed by the root of the task found under it. */
    function SyncCaseOf(id: TaskId): Store {
      if id in rows then this.(cases := cases[rows[id].root := Projection(order, rows, id)]) else this
    }

    /** The same for a root. */
    function SyncCase(root: TaskId): Store {
      if root in rows then this.(cases := cases[root := Projection(order, rows, root)]) else this
    }
  }

  const EMPTY := Store([], map[], map[], map[])

  /** uuid4 never returns an identifier the store has seen. */
  predicate Fresh(s: Store, id: TaskId) {
    && id !in s.rows && id !in s.cases && id !in s.scores
    && forall other :: other in s.rows ==>
         s.rows[other].root != id && s.rows[other].parent != Some(id) && s.rows[other].resolved != Some(id)
  }
}
