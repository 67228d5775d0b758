# Verification of the delivery lineage and its neighbours

A root video task grows a lineage: repairs, degraded attempts, retries, revisions and challengers. Each run of the
engine ends in success or failure, may queue one child, may re-point the root at a winner, and must keep the
delivery case in agreement. No single service guarantees that this ends well; the guarantees come from the interplay
of the engine, the task service, the escalation rules, arbitration, acceptance, the case service and cleanup. This
project models that interplay and proves it, and does the same for four smaller cores: the gateway session cache, the
session memory, the configuration merge with workflow memory pins, and the two resolvers of who a message addresses.

`dafny verify dfyconfig.toml` checks everything.

## How it is built

| files | what they hold |
|---|---|
| `TaskModel`, `LineageGraph`, `TaskStore` | tasks, lineages and the reachability scan, the store and the case projection |
| `Arbitration`, `QualityJudge` | scoreboard, choice of the best branch, recommendation, score |
| `Lifecycle` | what every operation does to the store, as functions, and runs as sequences of steps |
| `Engine` | the imperative engine: one object with the tables, each method tied to its `Lifecycle` function |
| `Invariants`, `Progress`, `Health`, `Budget`, `Promotion`, `DegradeOnce` | what the steps keep, how they move, when they stop |
| `Theorems`, `Winners`, `DeliveryLoss`, `Reconciliation`, `RepairRecord` | the results over every run from the empty store |
| `ClosedForms`, `CaseRules` | what each request leaves and what each case says, column by column from the rows before, without the functions of `Lifecycle` and `TaskStore` |
| `Scenarios` | concrete runs in which a promise is lost |
| `GatewaySessions`, `SessionMemory`, `ConfigMerge`, `PinnedMemory`, `Addressing` | the smaller cores, each with its own specification |

A step is a create, run, revise, retry, accept, cancel, delete or reconcile request. A run is any sequence of enabled
steps from the empty store. Ordinary runs leave out cancel and delete.

## Assumptions

- The store returns copies, an update overwrites the whole row of an existing key, and lineages are listed in the
  order of creation (`adapters/storage/sqlite_store.py:133-184` and `503-514`). Deleting a task drops the case keyed by
  it and the agent runs of both, and leaves its score (`727-736`); cases are keyed by their roots.
- Identifiers drawn by uuid4 have never been seen by the store (`Fresh`, `FreshIds`).
- The worker runs only queued or revising tasks, and one run is atomic. What happens outside the model during a run is
  its report: a rendered video with its issue codes, or a list of issues with what the failure contract and the
  emergency writer would say.
- Auto repair shares the task service that has the case service (`server/app.py:279-285`).
- Scores are integers in ten-thousandths, and every sum of four dimensions is a multiple of four there, so rounding is
  exact. Instants are integers in microseconds of the clock's own zone. Identifiers of tasks are opaque integers.
- Authorization and rollout guards are flags. Texts are already compacted when the session memory records them.

## What turned out not to hold

- Cancelling strands an undecided lineage exactly when it takes the last queued task (`Theorems.CancelStrandsExactly`,
  `Scenarios.CancelledRootIsStranded`), and can leave its case stale (`Theorems.CancelKeepsCaseExactly`).
- A delivered root does not always stay delivered: a run of its lineage that gives up fails it, and nothing else does
  (`DeliveryLoss.StepLosesDelivery`, with a run in which it happens in `DeliveryLoss.ChallengerFailsDeliveredRoot`).
- Revisions of undelivered tasks have no attempt limit; the lineage bound counts them (`Budget.LineageBound`,
  `Budget.FreeRevisionAlwaysInserts`).
- A root that fails without a repair child forgets the repair columns just stored
  (`RepairRecord.RootFailureForgetsRepairState`, `Scenarios.RootForgetsRepair`).
- A cap of zero bounds nothing (`SessionMemory.BoundNeedsPositiveCap`).
- The merge is not associative in general (`ConfigMerge.AssociativeIff`).
- Pinning an id with surrounding blanks makes log and list disagree (`PinnedMemory.PinNeedsCleanId`).
- Colons in channels and agents can make two addresses share a session key (`GatewaySessions.KeysCollideExactly`).
- A deletion can let a lineage be degraded a second time (`DegradeOnce.StepDegradesExactly`, `Scenarios.DegradedTwice`).
- The two resolvers can differ over internal agent turns (`Addressing.ResolversAgreeExactly`).

## Model

| member | source | states |
|---|---|---|
| LineageGraph.ScanIsExact | src/video_agent/application/lineage_graph.py:8-21 | With parents listed before children, the single pass keeps a task if and only if a path of parent links leads down to it from the root |
| LineageGraph.ScanNeedsParentsFirst | src/video_agent/application/lineage_graph.py:12-21 | Without that order the pass is wrong: a child listed before its parent is a descendant but is not kept |
| LineageGraph.OrphanIffDeletedAncestor | src/video_agent/application/lineage_graph.py:24-29 | With the root stored, a task is orphaned if and only if some ancestor was deleted, and reachable if and only if it descends from the root |
| LineageGraph.ReachableAndOrphansPartition | src/video_agent/application/lineage_graph.py:8-29 | Every lineage task is reachable or orphaned, never both |
| Reconciliation.ReachabilityIsExact | src/video_agent/application/cleanup_service.py:36-43 | Both facts hold in every reachable store: creations and deletions, whatever their order, keep parents before children |
| Invariants.InsertKeeps | src/video_agent/domain/models.py:73-128 | Storing a new root or a child of a stored task keeps the links, the parent order, the single winner and challenger isolation |
| Invariants.DeleteKeeps | src/video_agent/application/cleanup_service.py:36-43 | Deleting any row, a root included, keeps the same structure, although it may orphan tasks |
| Arbitration.BuildBranchScoreboard | src/video_agent/application/branch_arbitration.py:8-45 | The board has one entry per lineage task, in order, carrying its status, gate and score under its position |
| Arbitration.BuildArbitrationSummary | src/video_agent/application/branch_arbitration.py:48-99 | The reassigned locals end up as the arbitration function says, for every board, selection and active task; what that function decides is ArbitrationDecides |
| Arbitration.BestIsUniqueMinimum | src/video_agent/application/branch_arbitration.py:144-156 | The chosen candidate is the one and only entry that beats all others by score, then incumbency, then lineage position |
| Arbitration.ArbitrationIgnoresListOrder | src/video_agent/application/branch_arbitration.py:48-99 | With an incumbent selected, any listing of the same entries gives the same recommendation |
| Arbitration.ArbitrationDoesNotFlap | src/video_agent/application/branch_arbitration.py:58-97 | Arbitrating again with the recommended task selected recommends it again and never promotes; it answers keep_incumbent exactly when some candidate is delivered and either one is accepted or the active branch is at rest |
| Arbitration.PromotionOutscores | src/video_agent/application/branch_arbitration.py:58-76 | A promotion recommends an accepted candidate that no accepted candidate outscores, and strictly beats an accepted incumbent |
| Arbitration.ArbitrationDecides | src/video_agent/application/branch_arbitration.py:48-99 | Over the entries alone, for every numbered board: with an approved entry, exactly the one that outranks every other approved entry is recommended, kept if it is the incumbent and else promoted; without one it waits for a busy active branch, keeps a shipped incumbent, names the top shipped entry, or waits with the incumbent, each with its reason |
| ClosedForms.PreferredIsPromoted | src/video_agent/application/workflow_quality_escalation.py:217-262 | In a lineage whose case is current arbitration promotes a task if and only if it is approved, not the one selected, and ahead of every other approved task of the lineage by points, selection and age |
| ClosedForms.OutscoringChallengerWins | src/video_agent/application/workflow_quality_escalation.py:177-286 | Lifted to runs: a challenger that succeeds, reaches the minimum and outscores every approved task of its lineage is what the root resolves to and is best, under open settings, guard and authorization |
| QualityJudge.TotalScore | src/video_agent/application/quality_judge_service.py:18-30 | The score is 0.925 less 0.125 for an uncompleted run, 0.125 for static previews, 0.05 for any issue and 0.05 for any preview issue; rounding is exact |
| Invariants.AcceptKeeps | src/video_agent/application/task_service_acceptance.py:26-62 | Accepting keeps links, one winner and challenger isolation, although the root row is written from an earlier copy |
| Invariants.AcceptedRowsFacts | src/video_agent/application/task_service_acceptance.py:42-60 | What an accept does to each row: only the winner is best, ranks are 1-based positions, nothing else of the lineage changes but the root's resolution, other lineages are untouched |
| Invariants.FailTaskKeeps | src/video_agent/application/workflow_engine.py:563-776 | A failing run keeps the structural invariants whatever branch it takes |
| Invariants.RecordSuccessKeeps | src/video_agent/application/workflow_engine.py:475-498 | Recording a success keeps the structural invariants; the root is re-pointed only to a task that is no challenger |
| Progress.StepKeeps | src/video_agent/application/task_service.py:156-594 | Every step (create, run, revise, retry, accept, cancel, delete, reconcile) keeps the structural invariants |
| Progress.StepMoves | src/video_agent/application/workflow_engine.py:563-1047 | A step that deletes nothing touches one lineage only, and its rows only move forwards: decided roots stay decided, finished tasks do not return to the queue, degraded children stay degraded |
| Theorems.RunsOnlyAdvance | src/video_agent/application/workflow_engine.py:984-1047 | The same over whole runs: in particular a root never returns to pending |
| Theorems.LineagesDoNotInterfere | src/video_agent/application/task_service_child_tasks.py:84-152 | In every reachable store a step on one lineage, deletions included, leaves the tasks, the order and the case of every other lineage alone |
| Theorems.NoStrandedLineage | src/video_agent/application/workflow_engine.py:690-721 | Over every run of create, run, revise, retry, accept and reconcile steps, a root whose delivery is undecided has a queued task in its lineage |
| Theorems.CancelStrandsExactly | src/video_agent/application/task_service.py:586-594 | Cancelling leaves a queued task behind if and only if another one was queued; otherwise the lineage is stranded |
| Scenarios.CancelledRootIsStranded | src/video_agent/application/task_service.py:586-594 | Two steps from the empty store do it: a root is created and cancelled, and stays pending with nothing queued |
| Theorems.CancelKeepsCaseExactly | src/video_agent/application/task_service.py:586-594 | A cancellation, which syncs nothing, leaves a current case current if and only if the task was not the active one or the case is queued, completed or failed |
| Health.FailTaskEnds | src/video_agent/application/workflow_engine.py:690-721 | A failing run queues a child without a delivery decision, or delivers (the root follows unless the task is a challenger), or gives up with the same reason on task and root, whose other columns stay; no third row changes in the last two |
| Theorems.FailedRunEndsOnce | src/video_agent/application/workflow_engine.py:690-721 | In every reachable store of the ordinary life cycle exactly one of these three ends occurs |
| Theorems.FailedRunEndsByRule | src/video_agent/application/workflow_engine.py:690-721 | A rescue happens only if the settings, the writer and the first issue allow it, and giving up only if one of them does not; a policy violation that queues no child is given up with its own code as the reason |
| ClosedForms.RepairJudged | src/video_agent/application/auto_repair_service.py:43-87 | A repair is scheduled if and only if repairs are on, there is an issue, the first is retryable, and the children and the tasks are within their limits; otherwise the reason is the first of these that fails |
| ClosedForms.RepairsExactly | src/video_agent/application/auto_repair_service.py:43-87 | A failing run stores a pending repair of its task if and only if these conditions hold of the store before it; otherwise the root of a child notes which failed first, and a root keeps its repair columns |
| ClosedForms.FailingRunCloses | src/video_agent/application/workflow_engine.py:563-776 | A failing run in closed form: from the settings, the rows, the issues and the report alone, every row afterwards column by column and the order of the table, for a repair, a degraded attempt, a rescue and giving up |
| ClosedForms.SuccessfulRunCloses | src/video_agent/application/workflow_engine.py:454-512 | A successful run in closed form: points, gate, mode, tier and delivery of the task, the root's resolution, and then a challenger child, a promotion or neither, with every row and score told |
| ClosedForms.ChallengesExactly | src/video_agent/application/workflow_quality_escalation.py:80-174 | A successful run stores a challenger if and only if challengers are on, the guard is open, the points miss the minimum, the delivery is neither degraded nor an emergency, and both budgets leave room |
| ClosedForms.AcceptCloses | src/video_agent/application/task_service_acceptance.py:21-75 | An acceptance goes through exactly for a stored completed task whose root is stored, and then marks, ranks and resolves row by row as told |
| ClosedForms.CreateCloses | src/video_agent/application/task_service.py:156-249 | A creation adds a waiting root unless too many tasks are queued, revising or running or its key is stored already; then no row changes |
| ClosedForms.ReviseCloses | src/video_agent/application/task_service.py:394-446 | A revision adds a challenger to a delivered task if both budgets leave room and a plain child to any other task, with the columns of the new row told |
| ClosedForms.RetryCloses | src/video_agent/application/task_service.py:477-500 | A retry adds a plain child exactly to a stored failed task within the attempt limit |
| ClosedForms.CancelCloses | src/video_agent/application/task_service.py:586-594 | A cancellation writes status and phase of one row and nothing else in the store, cases included, and a later run of that task is skipped |
| ClosedForms.DeleteCloses | src/video_agent/adapters/storage/sqlite_store.py:727-736 | A deletion takes one row and the case keyed by it, keeps every score, and leaves the other tasks in their order |
| ClosedForms.ReconcileCloses | src/video_agent/application/case_reliability_service.py:323-353 | The orphan pass fails exactly the orphans of the lineage that are not failed as such already, and changes no other row |
| Health.FailTaskEndsAs | src/video_agent/application/delivery_guarantee_service.py:38-62 | The end that was decided is the end that is stored: the degraded child's tier, the rescued task's mode and tier, the reason of giving up |
| Health.SyncRestoresProjection | src/video_agent/application/delivery_case_service.py:45-64 | Syncing makes the case equal the projection from any store, and a second sync changes nothing |
| Theorems.CasesAreCoherent | src/video_agent/application/delivery_case_service.py:45-64 | Over every ordinary run each root's case equals the projection of the root and the last reachable task; what the projection says is CasesTell |
| CaseRules.CasesTell | src/video_agent/application/delivery_case_service.py:399-439 | Over every ordinary run each root's case names the newest task of its lineage and tells selected task, delivery, mode and stop reason of the root, and each of the nine statuses holds if and only if its own condition on the two rows does: failed iff the root is given up, arbitrating, branching or completed iff it is delivered and the newest task contends, works or neither, repairing, reviewing, running, planning or queued while it is undecided |
| CaseRules.SyncOfTells | src/video_agent/application/delivery_case_service.py:45-64 | A sync under another identifier: a missing task changes nothing, and a task that is no root overwrites the case of its root with its own state |
| CaseRules.EnsureTells | src/video_agent/application/delivery_case_service.py:29-43 | The first case of a lineage is queued and tells the task at hand; a case that is there is kept, and so is every other |
| CaseRules.RepeatedKeyTells | src/video_agent/application/task_service.py:230-238 | A creation that repeats a stored key finds the holder of the key, stores no row, and leaves the case of the holder's root telling the root and its last descendant |
| CaseRules.RequestsTell | src/video_agent/application/delivery_case_service.py:45-64 | In every reachable store, whatever was cancelled or deleted, a create, run, revise, retry, accept or reconcile request that changes anything leaves the case of its lineage telling the root and its last descendant in the same way |
| CaseRules.ActiveIsLastDescendant | src/video_agent/application/lineage_graph.py:8-21 | In every linked store, whatever was deleted, the active task is the last listed task that a path of parent links leads to from the root |
| CaseRules.SyncTells | src/video_agent/application/delivery_case_service.py:45-64 | A sync of a stored root makes its case tell that task and the root in the same way, and touches no other case |
| Health.NothingToReconcile | src/video_agent/application/case_reliability_service.py:323-353 | Where roots and parents are stored the orphan pass changes nothing, so it cannot harm a run without deletions |
| Health.StepKeepsHealthy | src/video_agent/application/workflow_engine.py:140-533 | Every ordinary step keeps lineages alive, roots settled and cases current together |
| DeliveryLoss.StepLosesDelivery | src/video_agent/application/workflow_engine.py:1008-1026 | Whatever the step, a delivered root that is not deleted stops being delivered if and only if the step is a failing run of its lineage, by a challenger or any other child, that gives up; that can be read off the store before the run |
| DeliveryLoss.GivesUpAsForeseen | src/video_agent/application/workflow_engine.py:690-721 | The end judged after the repair was considered is the one foreseen before the run: no repair, and either a policy violation or neither a degraded attempt nor a rescue possible |
| DeliveryLoss.DeliveryLasts | src/video_agent/application/workflow_engine.py:1028-1047 | Over every run a delivered root stays delivered as long as it is not deleted and no run of its lineage gives up |
| DeliveryLoss.ChallengerFailsDeliveredRoot | src/video_agent/application/workflow_engine.py:1014-1024 | It does happen: four ordinary steps from the empty store deliver a root, challenge it, and fail it through its challenger, while it still resolves to itself |
| Budget.LineageBound | src/video_agent/application/task_service.py:794-814 | Over every run, deletions included, a lineage never exceeds max(1, attempt limit) tasks plus the revisions of undelivered tasks, which ignore the limit |
| Budget.FreeRevisionAlwaysInserts | src/video_agent/application/task_service.py:416-446 | A revision of an undelivered task adds a task to its lineage whatever the limit and however many there are |
| Budget.StepInserts | src/video_agent/application/auto_repair_service.py:77-87 | A step inserts at most one row, and only within the attempt limit, unless it creates a root or revises an undelivered task |
| Budget.RunUsesWork | src/video_agent/application/workflow_quality_escalation.py:26-77 | A worker run strictly lowers remaining attempts plus queued tasks of its lineage |
| Theorems.AutonomousLoopIsBounded | src/video_agent/application/workflow_quality_escalation.py:139-174 | Over any sequence of worker runs, on whatever lineages, at most as many are taken in a lineage as there is work in it |
| Theorems.AutonomousLoopStops | src/video_agent/application/workflow_engine.py:508-512 | After any sequence of worker runs, if nothing is left to claim in a lineage, its root is delivered or failed |
| DegradeOnce.DegradedAttemptsAreBounded | src/video_agent/application/workflow_quality_escalation.py:28-33 | Over every run a lineage sees at most one degraded attempt, counting one it held at first, and one more for each deletion that took its last degraded child |
| DegradeOnce.AtMostOneDegradedAttempt | src/video_agent/application/workflow_quality_escalation.py:28-33 | Hence at most one over every run without deletions, and none once the lineage holds one |
| DegradeOnce.StepDegradesExactly | src/video_agent/application/workflow_quality_escalation.py:26-77 | With the root stored, a step creates a degraded attempt if and only if it is a failing run of the lineage that is not repaired, violates no policy and may be degraded, all read off the store before it |
| DegradeOnce.DeletionReopensExactly | src/video_agent/application/cleanup_service.py:36-43 | A deletion leaves a lineage without a degraded child if and only if it takes the last one, which is what the rule above asks for |
| Scenarios.DegradedTwice | src/video_agent/application/workflow_quality_escalation.py:296-300 | A run of seven steps from the empty store creates two degraded attempts in one lineage, the first of which was deleted in between |
| DegradeOnce.DegradeNeedsNone | src/video_agent/application/workflow_quality_escalation.py:296-300 | A step that creates a degraded attempt found none before and leaves one, and any other step keeps one unless it deletes the last |
| Winners.AcceptMarksOneWinner | src/video_agent/application/task_service_acceptance.py:41-62 | After an accept exactly one lineage task is best, its rank is its position counted from one, all other ranks are empty, and the root is delivered and resolves to it |
| Winners.AtMostOneBest | src/video_agent/application/task_service_acceptance.py:41-60 | In every reachable store a lineage has at most one best task, and exactly the best tasks have a rank |
| Winners.RootsResolveToAcceptedChallengers | src/video_agent/application/workflow_engine.py:1028-1047 | In every reachable store a root that resolves to a stored challenger resolves to one accepted as best |
| Winners.ChallengerRunIsIsolated | src/video_agent/application/workflow_engine.py:1033-1036 | A successful challenger run promotes the challenger, which passed the gate, exactly if the promotion was decided, and otherwise leaves the root row exactly as it was |
| Winners.PromotionIsMonotone | src/video_agent/application/workflow_quality_escalation.py:217-286 | With a fixed minimum score and a still delivered incumbent, a challenger's run that changes the selected task selects the challenger at no lower a score, strictly higher if the incumbent is accepted |
| Promotion.StepKeepsScored | src/video_agent/application/workflow_engine.py:459-471 | In every step a scored task stays accepted if and only if its score reaches the minimum |
| Promotion.PromotionOutscoresIncumbent | src/video_agent/application/workflow_quality_escalation.py:217-262 | At the decision point a promotable challenger scores at least the incumbent's score |
| RepairRecord.RootFailureForgetsRepairState | src/video_agent/application/workflow_engine.py:842-856 | The repair columns stored on the root survive exactly when the failing task is not the root or a repair child was created; otherwise the root's stale copy overwrites them |
| Scenarios.RootForgetsRepair | src/video_agent/application/workflow_engine.py:842-856 | Two steps from the empty store do it: the issue and the reason just stored are gone from the failed root |
| Reconciliation.OrphanPassReachesFixpoint | src/video_agent/application/case_reliability_service.py:323-353 | After the orphan pass every orphan is failed as orphaned_branch, all other rows and the reachable set are untouched, and a second pass changes nothing |
| Reconciliation.OrphanPassSyncs | src/video_agent/application/case_reliability_service.py:351-353 | A pass that changed a row leaves the case of its root current |
| Reconciliation.StalledRunPassReachesFixpoint | src/video_agent/application/case_reliability_service.py:269-321 | A second pass over the same tasks changes nothing; finished runs and runs of other cases are untouched; a run stays unfinished exactly when it was, its case is not over, and its task is stored and not over |
| Reconciliation.StalledRunsTell | src/video_agent/application/case_reliability_service.py:269-321 | Each run afterwards, from the rows: failed as task_missing, else cancelled as case_terminal, else cancelled as task_terminal, each under its exact condition, or as it was |
| Engine.WorkflowEngine.ReachableLineageTasks | src/video_agent/application/lineage_graph.py:8-21 | The loop over the lineage returns the scan's result |
| Engine.WorkflowEngine.SyncCaseForRoot | src/video_agent/application/delivery_case_service.py:45-64 | The case row of the stored task's root becomes the projection, for a root and for any other identifier; a missing task changes nothing; what the projection says is SyncTells |
| Engine.WorkflowEngine.PersistChildTask | src/video_agent/application/task_service_child_tasks.py:84-134 | The child is appended, its case ensured and synced, nothing else changes |
| Engine.WorkflowEngine.CreateAutoRepairTask | src/video_agent/application/task_service.py:502-529 | Succeeds exactly for a stored failed task within the attempt limit, and then stores a pending repair child of it |
| Engine.WorkflowEngine.CreateDegradedDeliveryTask | src/video_agent/application/task_service.py:531-584 | Succeeds under the same conditions, with a child marked degraded that carries the fallback generation mode as its tier |
| Engine.WorkflowEngine.CreateChallengerTask | src/video_agent/application/task_service.py:448-461 | Succeeds exactly for a delivered task within both the attempt and the workflow budget, and then stores a challenger of it |
| Engine.WorkflowEngine.SyncRootDeliveryResolution | src/video_agent/application/workflow_engine.py:1028-1047 | The root takes over the delivered task unless that is a challenger; the case is synced either way |
| Engine.WorkflowEngine.MarkDeliveryFailed | src/video_agent/application/workflow_engine.py:1008-1026 | Task and root are marked failed with the reason; the case is synced only from a child |
| Engine.WorkflowEngine.FinalizeGuaranteedDelivery | src/video_agent/application/workflow_engine.py:984-1006 | The failed task is delivered with the given mode and tier and the root follows |
| Engine.WorkflowEngine.MarkBest | src/video_agent/application/task_service_acceptance.py:41-50 | The loop re-marks each loaded lineage row and returns the winner's 1-based position |
| Engine.WorkflowEngine.AcceptTaskAsBest | src/video_agent/application/task_service_acceptance.py:21-75 | Succeeds exactly for a stored completed task with a stored root; the new store is the accepted one, else nothing changes |
| Engine.WorkflowEngine.MaybeScheduleRepair | src/video_agent/application/auto_repair_service.py:43-87 | A child is stored exactly when the verdict says created, and the verdict is the one that RepairJudged tells from the settings, the first issue and the budgets |
| Engine.WorkflowEngine.RecordRepairState | src/video_agent/application/workflow_engine.py:842-856 | The root's repair columns are set from the verdict and the recounted lineage |
| Engine.WorkflowEngine.MaybeScheduleDegradedDelivery | src/video_agent/application/workflow_quality_escalation.py:17-77 | A degraded child is stored exactly when the settings, the failure contract, the lineage's history and the budget allow it |
| Engine.WorkflowEngine.FailTask | src/video_agent/application/workflow_engine.py:563-776 | The whole failure path ends in the specified store |
| Engine.WorkflowEngine.MaybeScheduleQualityChallenger | src/video_agent/application/workflow_quality_escalation.py:80-174 | A challenger is stored exactly for a delivered, unaccepted, regular delivery with an open guard and budget left |
| Engine.WorkflowEngine.MaybeAutoPromoteChallenger | src/video_agent/application/workflow_quality_escalation.py:177-286 | The challenger is accepted exactly when arbitration recommends promoting this task and the principal is authorized |
| Engine.WorkflowEngine.CompleteRun | src/video_agent/application/workflow_engine.py:454-512 | The success path: score, gate, delivery, root resolution, then escalation, ends in the specified store |
| Engine.WorkflowEngine.RunTask | src/video_agent/application/workflow_engine.py:140-533 | A claimed task is run to success or failure as specified; invariants are kept; a cancelled task is skipped |
| Engine.WorkflowEngine.CreateVideoTask | src/video_agent/application/task_service.py:156-249 | Fails exactly when the queue is full or an empty key is already stored; a key that is already stored returns its holder; otherwise a new root with its case is stored; health is kept |
| Engine.WorkflowEngine.ReviseAuthorizedTask | src/video_agent/application/task_service.py:394-446 | A delivered task gets a challenger within the budgets, an undelivered one gets a child without any limit |
| Engine.WorkflowEngine.RetryAuthorizedTask | src/video_agent/application/task_service.py:477-500 | Succeeds exactly for a stored failed task within the attempt limit |
| Engine.WorkflowEngine.AcceptBestVersion | src/video_agent/application/task_service.py:301-309 | The request keeps all invariants, and succeeds exactly when the task can be accepted |
| Engine.WorkflowEngine.CancelVideoTask | src/video_agent/application/task_service.py:586-594 | Only the task's row changes: neither the root nor the case is touched |
| Engine.WorkflowEngine.DeleteTask | src/video_agent/adapters/storage/sqlite_store.py:727-736 | The row, the case keyed by it and the agent runs that belong to either are dropped; the structural invariants survive |
| Engine.WorkflowEngine.DeleteCandidates | src/video_agent/application/cleanup_service.py:36-43 | Candidates are deleted one by one, rows, cases and agent runs alike, and counted |
| Reconciliation.RunsWithoutExactly | src/video_agent/adapters/storage/sqlite_store.py:733-733 | Exactly the agent runs of the deleted tasks and of their cases are gone |
| Engine.WorkflowEngine.ReconcileOrphanedBranches | src/video_agent/application/case_reliability_service.py:323-353 | The loop fails exactly the new orphans, reports whether there were any, and then syncs the case |
| Engine.WorkflowEngine.ReconcileStalledAgentRuns | src/video_agent/application/case_reliability_service.py:269-321 | The loop leaves each stored run as the per-run rule says |
| GatewaySessions.KeysCollideExactly | src/video_agent/openclaw/gateway_sessions.py:116-146 | For all routes that have keys: two different addresses share a key if and only if, with the same kind and agent, one channel is the other with a colon and the piece the rooms differ by, or one agent is the other with a colon and a piece of what follows |
| GatewaySessions.KeysIdentifyAddresses | src/video_agent/openclaw/gateway_sessions.py:116-146 | Hence, with no colon in the agents and in the channels that are used, two routes get equal keys if and only if they have the same kind and the same normalised agent, channel and identity |
| GatewaySessions.KeySpells | src/video_agent/openclaw/gateway_sessions.py:116-146 | A key is refused exactly when the address lacks a required identity, and otherwise spells the address; KeyIsSpelled tells both from the route's own fields |
| GatewaySessions.KeyIsSpelled | src/video_agent/openclaw/gateway_sessions.py:116-146 | For every route and text: the text is the key if and only if it is spelled, literally, with the agent or default, the channel or its default, and the peer, room or job if that is not empty, else the source if that is not empty; a key is refused exactly when nothing identifies the other side, which a job never needs |
| GatewaySessions.SourceIsOnlyAFallback | src/video_agent/openclaw/gateway_sessions.py:121-134 | With a peer, room or job id the key does not depend on the source id at all |
| GatewaySessions.PeerKeepsSession | src/video_agent/openclaw/gateway_sessions.py:72-114 | Under the per-peer scope two messages of one peer to one agent, whatever their sources, share a session if and only if no reset falls between them |
| GatewaySessions.ColonsCollide | src/video_agent/openclaw/gateway_sessions.py:127-132 | A piece of a room, even an empty one, can be moved behind a colon in the channel: two different addresses get one key |
| GatewaySessions.AgentColonsCollide | src/video_agent/openclaw/gateway_sessions.py:117-136 | A colon in the agent fails too: the main direct messages of one agent and a scheduled job of another get one key |
| GatewaySessions.Policy.Normalize | src/video_agent/openclaw/gateway_sessions.py:39-44 | The hour is clamped to 0..23 from either side and unchanged inside; an idle limit is dropped if and only if it is not positive, and else unchanged, like the scope |
| GatewaySessions.BoundaryIsLatest | src/video_agent/openclaw/gateway_sessions.py:164-172 | The computed boundary is the latest reset instant that is not ahead of the clock |
| GatewaySessions.DailyResetIsExact | src/video_agent/openclaw/gateway_sessions.py:164-173 | The daily rule fires if and only if some reset instant lies after the creation and not after now |
| GatewaySessions.ReusedIsYoung | src/video_agent/openclaw/gateway_sessions.py:91-106 | A reused session is less than 24 hours old and was active less than the idle limit ago |
| GatewaySessions.GatewaySessionService.Resolve | src/video_agent/openclaw/gateway_sessions.py:72-114 | The method answers and stores as the specified call; RespondTells and RefusalStoresNothing tell what that is |
| GatewaySessions.RespondTells | src/video_agent/openclaw/gateway_sessions.py:72-114 | For a route with a key: when a session is opened and with which of the three reasons or none, each if and only if its condition on the clock, the stored record and the kind holds, the six columns of the record, and that only this key is written |
| GatewaySessions.RefusalStoresNothing | src/video_agent/openclaw/gateway_sessions.py:116-146 | A route is refused exactly when nothing identifies the other side, and then nothing is stored |
| GatewaySessions.CacheTellsHistory | src/video_agent/openclaw/gateway_sessions.py:91-108 | The stored record names the call that opened the session and the one that last used it, and all calls on the key in between returned that session |
| GatewaySessions.ReuseIsExact | src/video_agent/openclaw/gateway_sessions.py:79-106 | A call reuses a session if and only if it is no cron call, the key was used before, no reset instant passed since that session was opened, and its last use is within the idle limit |
| GatewaySessions.SessionsAreNotShared | src/video_agent/openclaw/gateway_sessions.py:148-162 | Over whole traces distinct keys never share a session id |
| GatewaySessions.ReplacedIsGone | src/video_agent/openclaw/gateway_sessions.py:91-108 | A session id that was replaced on its key is never returned again |
| GatewaySessions.CronIsFresh | src/video_agent/openclaw/gateway_sessions.py:81-89 | A cron call always returns a session id no earlier call returned, and no later call on a separable route returns it |
| SessionMemory.SessionMemoryService.RecordTaskCreated | src/video_agent/application/session_memory_service.py:30-84 | The snapshot stored is the specified one; a first record without a goal is refused and stores nothing |
| SessionMemory.SessionMemoryService.RecordTaskOutcome | src/video_agent/application/session_memory_service.py:115-163 | The remembered root's entry is updated in place; an unknown root or a task without session stores nothing |
| SessionMemory.StoredTells | src/video_agent/application/session_memory_service.py:30-163 | From the tables: nothing is stored without a session, for a first creation without a goal or for an outcome of an unknown root; otherwise a creation puts its root's entry last with its attempt last in it, an outcome rewrites its root's entry in place, the agent is the task's or else the previous one, and no other session changes |
| SessionMemory.TailOfSmallCap | src/video_agent/application/session_memory_service.py:60-78 | A cap of zero keeps everything and a negative one drops that many from the front |
| SessionMemory.MemoryIsLru | src/video_agent/application/session_memory_service.py:39-78 | After any records that were taken the entries' roots are the last max_entries roots by most recent creation |
| SessionMemory.MemoryRefinesHistory | src/video_agent/application/session_memory_service.py:30-163 | Entries are the remembered roots, each once and within both caps, and each tells the stay of its root: goal, latest event and result, and its last creations as attempts, each with the status, result and references of the last outcome that concerned it |
| SessionMemory.LatestIsLast | src/video_agent/application/session_memory_service.py:131-141 | If no task is created twice in a stay, an attempt tells simply the last event of its task |
| SessionMemory.RefusedLeaveNoTrace | src/video_agent/application/session_memory_service.py:44-51 | A first record without a goal changes nothing, now or later: dropping refused creations from a history gives the same memory |
| SessionMemory.RootsOfRecord | src/video_agent/application/session_memory_service.py:115-163 | An outcome neither reorders nor evicts; a creation moves its root to the back and evicts from the front |
| SessionMemory.EvictionCommutes | src/video_agent/application/session_memory_service.py:77-78 | Forgetting old values first does not change what is remembered later, if at least one is kept |
| SessionMemory.BoundNeedsPositiveCap | src/video_agent/application/session_memory_service.py:77-78 | The entry bound holds over all histories if and only if the cap is at least one |
| SessionMemory.SessionsAreIndependent | src/video_agent/application/session_memory_service.py:34-84 | Each session's entries depend on its own events only |
| ConfigMerge.DeepMerge | src/video_agent/application/preference_resolver.py:45-53 | The loop over the overriding keys yields the recursive merge |
| ConfigMerge.ResolveEffectiveRequestConfig | src/video_agent/application/preference_resolver.py:26-37 | The five layers are folded in order, a missing layer as an empty one |
| ConfigMerge.MergeIsByPriority | src/video_agent/application/preference_resolver.py:45-53 | At every path the overriding layer decides if it settles the path (holds something there, or a non-dictionary above), else the base shows through |
| ConfigMerge.HighestLayerDecides | src/video_agent/application/preference_resolver.py:34-37 | At every path the effective configuration holds what the dictionary of the highest given layer that settles the path holds there, and nothing if none does; a missing layer settles nothing |
| ConfigMerge.SamePathsSameConfig | src/video_agent/application/preference_resolver.py:26-53 | What is held at all paths determines the configuration, so the path-wise law leaves nothing open |
| ConfigMerge.EmptyIsIdentity | src/video_agent/application/preference_resolver.py:36-36 | The empty layer is the identity on both sides |
| ConfigMerge.MergeIsIdempotent | src/video_agent/application/preference_resolver.py:45-53 | Merging a layer twice is merging it once |
| ConfigMerge.AssociativeIff | src/video_agent/application/preference_resolver.py:45-53 | Merging is associative exactly when no non-dictionary of the middle layer hides, between two dictionaries, something the highest layer does not settle |
| PinnedMemory.StripCleans | src/video_agent/application/task_memory_context.py:134-142 | Stripping yields a clean id or nothing, and leaves exactly the clean ids unchanged |
| PinnedMemory.SpacesAre | src/video_agent/application/task_memory_context.py:139-139 | The characters that are stripped, by code point: the ASCII blanks and separators and the Unicode spaces |
| PinnedMemory.StripIsExact | src/video_agent/application/task_memory_context.py:134-142 | A text strips to a core if and only if the core is clean and only blanks surround it, and to nothing if and only if it is blank |
| PinnedMemory.NormalizeTells | src/video_agent/application/task_memory_context.py:134-142 | A normalised list holds the core of every text that has one, once, in the order in which the cores first appear |
| PinnedMemory.PinnedTells | src/video_agent/application/task_memory_context.py:9-15 | The pinned ids are the structured list if any text in it is not blank, and else the legacy ids |
| PinnedMemory.LegacyIdsSurvive | src/video_agent/application/task_memory_context.py:9-15 | A task that holds legacy ids only keeps them, in order, through its first pin |
| PinnedMemory.WrittenIsRead | src/video_agent/application/task_memory_context.py:9-15 | A clean list without duplicates is read back as written; the mirror does not bring ids back after the last one is gone |
| PinnedMemory.WorkflowMemory.PinWorkflowMemory | src/video_agent/application/workflow_collaboration_service.py:226-259 | The list and its mirror gain the id if the whole list resolves, and an event is logged only if it was new |
| PinnedMemory.WorkflowMemory.UnpinWorkflowMemory | src/video_agent/application/workflow_collaboration_service.py:261-294 | The id is removed from both places if the rest resolves, and an event is logged only if it was there |
| PinnedMemory.PinTells | src/video_agent/application/workflow_collaboration_service.py:226-259 | A pin goes through if and only if every pinned id and the new one resolve; both places then hold the list with the id, at the back if it is new, and exactly a new one is logged; otherwise nothing changes |
| PinnedMemory.UnpinTells | src/video_agent/application/workflow_collaboration_service.py:261-294 | An unpin goes through if and only if every other pinned id resolves; both places then hold exactly these in their order, and exactly the removal of a pinned id is logged; otherwise nothing changes |
| PinnedMemory.WorkflowMemory.ApplyWorkflowMemoryUpdates | src/video_agent/application/workflow_collaboration_service.py:296-327 | Unpins then pins are applied one by one; the first failure stops the batch where it is |
| PinnedMemory.PinKeeps | src/video_agent/application/workflow_collaboration_service.py:226-259 | A clean pin leaves both places equal, appends the id if it is new, and the log accounts for the list |
| PinnedMemory.UnpinKeeps | src/video_agent/application/workflow_collaboration_service.py:261-294 | An unpin leaves both places equal without the id, and the log accounts for the list |
| PinnedMemory.PinNeedsCleanId | src/video_agent/application/workflow_collaboration_service.py:239-255 | A pin keeps the log in agreement with the list if and only if the id is trimmed and not blank |
| PinnedMemory.BatchKeeps | src/video_agent/application/workflow_collaboration_service.py:304-327 | A batch yields the old list without the unpins, then the new pins in order; it goes through exactly when the list resolves after the first unpin and after the last pin; a batch that stops half-way still agrees with its log |
| PinnedMemory.RunsKeepLog | src/video_agent/application/workflow_collaboration_service.py:226-327 | Over every run the replayed log is the current list, each event recorded the list it led to, and the two places agree once written |
| Addressing.ResolversAgreeExactly | src/video_agent/application/video_thread_service.py:437-496 | With nobody named explicitly, filter-then-search and search-with-skips agree if and only if somebody is named before the speakers are asked, or the product-safe turns alone lead to the same participant as all turns, through all fallbacks |
| Addressing.ResolversAgree | src/video_agent/application/video_projection_composer_target.py:84-182 | In particular they agree when every agent turn whose speaker is a participant is product-safe |
| Addressing.ComposerFindsFirst | src/video_agent/application/video_projection_composer_target.py:84-182 | The projection finds a participant if and only if it is the one the first of six ways leads to: last participant of the responsible agent, last addressed turn, last run and last safe agent turn of the iteration, last addressed turn and last safe agent turn anywhere; nobody if and only if none leads anywhere |
| Addressing.ThreadFindsFirst | src/video_agent/application/video_thread_service.py:437-496 | The thread service does the same over all agent turns, and with an explicit id finds the last participant that has it, or fails if and only if none has |
| Addressing.SkippingIsFilteringInScope | src/video_agent/application/video_projection_composer_target.py:168-182 | The projection's search with skips finds the last speaker of the product-safe turns of the iteration |
| Addressing.HiddenSpeakersDisagree | src/video_agent/application/video_projection_composer_target.py:168-182 | A family of inputs on which they differ: nothing else names anyone and the speaking turns are all internal; the service finds a speaker and the projection nobody |
| Addressing.LatestSpeakerWins | src/video_agent/application/video_thread_service.py:547-558 | The speaker found is that of the latest turn that has one |
| Addressing.ById | src/video_agent/application/video_thread_service.py:445-445 | The table finds the last participant with the id, and nothing only if there is none |

## Left out

- Generation, rendering, validation, preview and emergency video writing: foreign calls; their outcome is a run report.
- Task columns that decide nothing about delivery (titles, profiles, artifacts, attempt counters, risk level), and the
  phases a task passes through during a run.
- Events, snapshots, journals, agent-run recording, case memory and agent learning records.
- An infrastructure exception after a success was recorded; in particular a challenger promoted after its root row was
  deleted, where acceptance raises after the success is stored. The model leaves the store as the success left it.
- Interleaving of workers on one lineage, leases, requeueing of stale tasks.
- The rest of the watchdog pass: resuming failed leaves, syncing delivered descendants, missing artifacts, runtime
  failure; only its orphan and stalled-run passes are modelled.
- The ancestor guardrails of the repair prompt: they choose prompt text, not the outcome.
- The scorecards are read from the store alone; a score file on disk that disagrees with it is not modelled.
- Failure reasons of memory resolution, and who may pin: a pin resolves or it does not.
- Summaries, digests and items of pinned memories; clearing a session memory and its summary text.
- The order of keys in merged dictionaries.
- Time zones and daylight saving: the reset hour is read off the clock that is passed in.
- Threads, iterations and composer summaries beyond the choice of the addressed participant.
- SessionMemory.MemoryIsLru: speaks of histories without refused creations; MemoryRefinesHistory covers all histories.
- Winners.PromotionIsMonotone: speaks of an incumbent that is still delivered and of one fixed minimum score; the canary may change that score between runs.
- Theorems.NoStrandedLineage: leaves out cancel and delete steps, which can strand a lineage.
