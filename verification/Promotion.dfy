/** Scores against gates, and what an automatic promotion does to the quality of the selected task. */
module Promotion {
  import opened Wrappers
  import opened TaskModel
  import opened LineageGraph
  import opened TaskStore
  import opened Arbitration
  import opened QualityJudge
  import opened Lifecycle
  import opened Invariants
  import opened Health

  /** With a fixed minimum score, a scored task is accepted exactly when its score reaches it. */
  ghost predicate Scored(cfg: Settings, s: Store) {
    forall id :: id in s.rows && id in s.scores ==>
      s.scores[id] >= 0 && (s.rows[id].gate == Some(Accepted) <==> s.scores[id] >= cfg.qualityGateMinScore)
  }

  // --------------------------------------------- gates change only when a score is recorded

  ghost predicate GatesKept(s: Store, s': Store) {
    && s'.scores == s.scores
    && forall id :: id in s'.rows && id in s.scores ==> id in s.rows && s'.rows[id].gate == s.rows[id].gate
  }

  lemma GatesKeptTransitive(s: Store, s': Store, s'': Store)
    requires GatesKept(s, s') && GatesKept(s', s'')
    ensures GatesKept(s, s'')
  {
  }

  lemma GatesKeptScored(cfg: Settings, s: Store, s': Store)
    requires Scored(cfg, s) && GatesKept(s, s')
    ensures Scored(cfg, s')
  {
  }

  lemma PutKeepsGates(s: Store, t: Task)
    requires t.id in s.rows ==> t.gate == s.rows[t.id].gate
    ensures GatesKept(s, s.Put(t))
  {
  }

  lemma PersistKeepsGates(s: Store, child: Task)
    requires child.id !in s.scores
    ensures GatesKept(s, Persist(s, child))
  {
  }

  lemma SyncRootKeepsGates(s: Store, task: Task)
    requires Linked(s.order, s.rows)
    ensures GatesKept(s, SyncRoot(s, task))
  {
  }

  lemma FinalizeKeepsGates(s: Store, task: Task, mode: Mode, tier: string)
    requires Linked(s.order, s.rows) && Loaded(s, task)
    ensures GatesKept(s, FinalizeDelivery(s, task, mode, tier))
  {
    var delivered := DeliveredAs(task, Some(mode), Some(tier));
    var s1 := s.Put(delivered);
    PutKeepsGates(s, delivered);
    assert Linked(s1.order, s1.rows);
    hide Linked, SyncRoot;
    SyncRootKeepsGates(s1, delivered);
  }

  lemma MarkFailedKeepsGates(s: Store, task: Task, reason: string)
    requires Linked(s.order, s.rows) && Loaded(s, task)
    ensures GatesKept(s, MarkDeliveryFailed(s, task, reason))
  {
  }

  lemma AfterRepairKeepsGates(cfg: Settings, s: Store, task: Task, childId: TaskId, issueCodes: seq<string>)
    requires Linked(s.order, s.rows) && Loaded(s, task) && Fresh(s, childId)
    ensures GatesKept(s, AfterRepair(cfg, s, task, childId, issueCodes))
  {
    var s1 := s.Put(task);
    PutKeepsGates(s, task);
    var verdict := JudgeRepair(cfg, s1.Count(task.root), issueCodes);
    var s2 := if verdict.created then Persist(s1, RepairChild(task, childId)) else s1;
    PersistKeepsGates(s1, RepairChild(task, childId));
    assert task.root in s2.rows ==> s2.rows[task.root].id == task.root;
    hide Linked, JudgeRepair, Persist, GatesKept;
    if task.root in s2.rows {
      PutKeepsGates(s2, WithRepairState(s2.rows[task.root], s2.Count(task.root), issueCodes, verdict));
      GatesKeptTransitive(s, s2, s2.Put(WithRepairState(s2.rows[task.root], s2.Count(task.root), issueCodes, verdict)));
    }
  }

  lemma EndFailureKeepsGates(s: Store, task: Task, childId: TaskId, ending: Ending)
    requires Linked(s.order, s.rows) && Loaded(s, task) && childId !in s.scores
    ensures GatesKept(s, EndFailure(s, task, childId, ending))
  {
    hide Linked, Loaded, GatesKept, Persist, FinalizeDelivery, MarkDeliveryFailed;
    match ending
    case DegradedAttempt(generationMode) => PersistKeepsGates(s, DegradedChild(task, childId, generationMode));
    case Emergency(mode, tier) => FinalizeKeepsGates(s, task, mode, tier);
    case Abandoned(reason) => MarkFailedKeepsGates(s, task, reason);
  }

  lemma FailTaskKeepsGates(cfg: Settings, s: Store, running: Task, childId: TaskId, issueCodes: seq<string>, context: FailureContext)
    requires Structured(s) && Loaded(s, running) && Fresh(s, childId)
    ensures GatesKept(s, FailTask(cfg, s, running, childId, issueCodes, context))
  {
    var task := FailedRow(running);
    var s1 := AfterRepair(cfg, s, task, childId, issueCodes);
    var verdict := JudgeRepair(cfg, s.Put(task).Count(task.root), issueCodes);
    var ending := JudgeEnding(cfg, s1, task, issueCodes, context);
    var s2 := if verdict.created then s1 else EndFailure(s1, task, childId, ending);
    AfterRepairKeepsGates(cfg, s, task, childId, issueCodes);
    if !verdict.created {
      AfterRepairKeeps(cfg, s, task, childId, issueCodes);
      StillLoaded(cfg, s, task, childId, issueCodes);
      LinkedOf(s1);
      hide AfterRepair, JudgeRepair, JudgeEnding, EndFailure, GatesKept, Linked, Structured;
      EndFailureKeepsGates(s1, task, childId, ending);
      GatesKeptTransitive(s, s1, s2);
    }
    assert GatesKept(s, s2);
    hide AfterRepair, EndFailure, JudgeRepair, JudgeEnding, Structured, Loaded, Fresh;
  }

  lemma AcceptKeepsGates(s: Store, winner: TaskId)
    requires Linked(s.order, s.rows)
    ensures GatesKept(s, Accept(s, winner))
  {
  }

  lemma RecordSuccessScored(cfg: Settings, s: Store, running: Task, score: int)
    requires Structured(s) && Loaded(s, running) && score >= 0 && Scored(cfg, s)
    ensures Scored(cfg, RecordSuccess(s, SuccessRow(cfg, running, score), score))
  {
    var task := SuccessRow(cfg, running, score);
    var s1 := s.(scores := s.scores[task.id := score]).Put(task);
    hide OneBest, Isolated, SyncRoot;
    assert Scored(cfg, s1) by { hide Linked, RootsPlain; }
    hide Scored, SuccessRow;
    assert Linked(s1.order, s1.rows);
    hide Linked;
    SyncRootKeepsGates(s1, task);
    GatesKeptScored(cfg, s1, SyncRoot(s1, task));
  }

  lemma CompleteRunScored(cfg: Settings, s: Store, running: Task, childId: TaskId, report: RunReport)
    requires report.Rendered?
    requires Structured(s) && Loaded(s, running) && Fresh(s, childId) && Scored(cfg, s)
    ensures Scored(cfg, CompleteRun(cfg, s, running, childId, report))
  {
    var score := TotalScore(true, report.issueCodes, report.previewIssueCodes);
    var task := SuccessRow(cfg, running, score);
    var s1 := RecordSuccess(s, task, score);
    var s2 := ScheduleChallenger(cfg, s1, task, childId, report.challengerGuardOpen);
    RecordSuccessScored(cfg, s, running, score);
    RecordSuccessFrame(s, task, score);
    RecordSuccessKeepsFresh(s, task, score, childId);
    RecordSuccessKeeps(cfg, s, running, score);
    hide Structured, RecordSuccess, Scored, Promotes, CanChallenge, WantsChallenger, Fresh;
    if s2 != s1 {
      PersistKeeps(s1, ChallengerChild(task, childId));
      PersistKeepsGates(s1, ChallengerChild(task, childId));
      GatesKeptScored(cfg, s1, s2);
    }
    assert Linked(s2.order, s2.rows) by { LinkedOf(s2); }
    AcceptKeepsGates(s2, task.id);
    GatesKeptScored(cfg, s2, Accept(s2, task.id));
  }

  lemma RunKeepsScored(cfg: Settings, s: Store, id: TaskId, childId: TaskId, report: RunReport)
    requires Structured(s) && Scored(cfg, s) && Fresh(s, childId) && id in s.rows
    ensures Scored(cfg, RunTask(cfg, s, id, childId, report))
  {
    ClaimedIsLoaded(s, id, childId, report.generationMode);
    var running := Classified(s.rows[id], report.generationMode).(status := Running);
    var s1 := s.EnsureCase(running);
    assert Scored(cfg, s1);
    hide Structured, Scored, CompleteRun, FailTask, Loaded, Fresh;
    match report
    case Rendered(_, _, _, _, _, _) => CompleteRunScored(cfg, s1, running, childId, report);
    case Broken(_, issueCodes, context) =>
      FailTaskKeepsGates(cfg, s1, running, childId, issueCodes, context);
      GatesKeptScored(cfg, s1, FailTask(cfg, s1, running, childId, issueCodes, context));
  }

  lemma ReconcileKeepsGates(s: Store, root: TaskId)
    ensures GatesKept(s, ReconcileOrphans(s, root))
  {
  }

  lemma CreateKeepsGates(cfg: Settings, s: Store, id: TaskId, key: Option<string>)
    requires id !in s.scores
    ensures GatesKept(s, Create(cfg, s, id, key))
  {
  }

  lemma DescendantsKeepGates(cfg: Settings, s: Store, id: TaskId, childId: TaskId)
    requires childId !in s.scores
    ensures GatesKept(s, Revise(cfg, s, id, childId)) && GatesKept(s, Retry(cfg, s, id, childId))
  {
  }

  lemma RemovalKeepsGates(s: Store, id: TaskId)
    requires Linked(s.order, s.rows)
    ensures GatesKept(s, Cancel(s, id)) && GatesKept(s, s.Delete(id))
  {
  }

  lemma StepKeepsScored(cfg: Settings, s: Store, step: Step)
    requires Structured(s) && Scored(cfg, s) && Enabled(s, step)
    ensures Scored(cfg, Apply(cfg, s, step))
  {
    LinkedOf(s);
    hide Structured, Scored, Linked, GatesKept, RunTask, Accept, ReconcileOrphans, Create, Revise, Retry, Cancel;
    if step.RunStep? {
      RunKeepsScored(cfg, s, step.id, step.childId, step.report);
    } else {
      match step
      case AcceptStep(id) => AcceptKeepsGates(s, id);
      case ReconcileStep(id) => ReconcileKeepsGates(s, id);
      case CreateStep(id, key) => CreateKeepsGates(cfg, s, id, key);
      case ReviseStep(id, childId) => DescendantsKeepGates(cfg, s, id, childId);
      case RetryStep(id, childId) => DescendantsKeepGates(cfg, s, id, childId);
      case CancelStep(id) => RemovalKeepsGates(s, id);
      case DeleteStep(id) => RemovalKeepsGates(s, id);
      GatesKeptScored(cfg, s, Apply(cfg, s, step));
    }
  }

  // ----------------------------------------------------------------- automatic promotion

  function ScoreOf(s: Store, id: TaskId): int {
    if id in s.scores then s.scores[id] else 0
  }

  /** The scoreboard entry of a listed task. */
  lemma ScoreboardEntry(s: Store, r: TaskId, id: TaskId) returns (e: Entry)
    requires Linked(s.order, s.rows) && id in s.rows && s.rows[id].root == r
    requires forall i :: 0 <= i < |s.Members(r)| ==> s.Members(r)[i] in s.rows
    ensures e in Scoreboard(s.Members(r), s.rows, s.scores)
    ensures e.id == id && e.Value() == ScoreOf(s, id) && e.gate == s.rows[id].gate
    ensures e.DeliveredCandidate() <==> s.rows[id].DeliveredCandidate()
  {
    var ids := s.Members(r);
    assert id in s.order;
    assert id in ids;
    var k :| 0 <= k < |ids| && ids[k] == id;
    e := EntryOf(s.rows[id], k, s.scores);
    assert Scoreboard(ids, s.rows, s.scores)[k] == e;
  }

  lemma ScoreboardNumbered(s: Store, r: TaskId)
    requires Linked(s.order, s.rows)
    requires forall i :: 0 <= i < |s.Members(r)| ==> s.Members(r)[i] in s.rows
    ensures WellNumbered(Scoreboard(s.Members(r), s.rows, s.scores))
  {
    LineageDistinct(s.order, s.rows, r);
    var ids := s.Members(r);
    assert forall i :: 0 <= i < |ids| ==> s.rows[ids[i]].id == ids[i];
  }

  /** The state in which promotion is decided: the accepted challenger's success is recorded. */
  lemma PromotionOutscoresIncumbent(cfg: Settings, s: Store, task: Task, r: TaskId, incumbent: TaskId, guardOpen: bool, authorized: bool)
    requires Structured(s) && Scored(cfg, s) && task.root == r && r in s.rows && CaseCurrent(s, r)
    requires task.id in s.rows && s.rows[task.id] == task && task.id in s.scores
    requires Promotes(cfg, s, task, guardOpen, authorized)
    requires s.rows[r].resolved == Some(incumbent) && incumbent in s.rows
    requires s.rows[incumbent].root == r && s.rows[incumbent].DeliveredCandidate()
    ensures ScoreOf(s, task.id) >= ScoreOf(s, incumbent)
    ensures s.rows[incumbent].gate == Some(Accepted) ==> ScoreOf(s, task.id) > ScoreOf(s, incumbent)
  {
    assert s.scores[task.id] >= cfg.qualityGateMinScore && s.scores[task.id] >= 0;
    assert incumbent in s.scores && s.rows[incumbent].gate != Some(Accepted) ==> s.scores[incumbent] < cfg.qualityGateMinScore;
    LinkedOf(s);
    hide Structured, Scored;
    var ids := s.Members(r);
    assert forall i :: 0 <= i < |ids| ==> ids[i] in ids;
    ScoreboardNumbered(s, r);
    var winner := ScoreboardEntry(s, r, task.id);
    var held := ScoreboardEntry(s, r, incumbent);
    hide Linked, Scoreboard, Arbitrate;
    if s.rows[incumbent].gate == Some(Accepted) {
      PromotionOutscores(Scoreboard(ids, s.rows, s.scores), Some(incumbent), Some(s.cases[r].active), winner, held);
    }
  }

  /** A challenger's successful run either promotes it or leaves the root row exactly as it was. */
  lemma ChallengerRunOnRoot(cfg: Settings, s: Store, running: Task, childId: TaskId, report: RunReport)
    requires report.Rendered?
    requires Structured(s) && Loaded(s, running) && Fresh(s, childId) && running.root in s.rows
    requires running.challenger && running.id != running.root
    ensures
      var r := running.root;
      var score := TotalScore(true, report.issueCodes, report.previewIssueCodes);
      var task := SuccessRow(cfg, running, score);
      var s1 := RecordSuccess(s, task, score);
      var s' := CompleteRun(cfg, s, running, childId, report);
      && s1.rows == s.rows[running.id := task] && s1.scores == s.scores[running.id := score]
      && r in s1.rows && CaseCurrent(s1, r)
      && r in s'.rows
      && if Promotes(cfg, s1, task, report.promotionGuardOpen, report.authorized) then s' == Accept(s1, running.id)
         else s'.rows[r] == s.rows[r]
  {
    var r := running.root;
    var score := TotalScore(true, report.issueCodes, report.previewIssueCodes);
    var task := SuccessRow(cfg, running, score);
    var s0 := s.(scores := s.scores[task.id := score]).Put(task);
    var s1 := RecordSuccess(s, task, score);
    assert SyncRoot(s0, task) == s0.SyncCase(r);
    SyncRestoresProjection(s0.SyncCase(r), r);
    assert s1 == s0.SyncCase(r).SyncCase(r);
    assert s1.rows == s.rows[running.id := task] && CaseCurrent(s1, r);
    assert childId !in s.rows && childId != r;
    hide Structured, RecordSuccess, CaseCurrent, Fresh, CanChallenge, Recommendation, CanAccept, AcceptedRows;
    var s2 := ScheduleChallenger(cfg, s1, task, childId, report.challengerGuardOpen);
    assert s2.rows[r] == s.rows[r];
    assert task.gate == Some(Accepted) ==> s2 == s1;
  }

  /** The task as a successful run records it. */
  function FinishedTask(cfg: Settings, s: Store, id: TaskId, report: RunReport): Task
    requires report.Rendered? && id in s.rows
  {
    SuccessRow(cfg, Classified(s.rows[id], report.generationMode).(status := Running),
               TotalScore(true, report.issueCodes, report.previewIssueCodes))
  }

  /** The store in which the promotion of a challenger is decided: its success is recorded. */
  function Finished(cfg: Settings, s: Store, id: TaskId, report: RunReport): Store
    requires report.Rendered? && id in s.rows
  {
    var running := Classified(s.rows[id], report.generationMode).(status := Running);
    RecordSuccess(s.EnsureCase(running), FinishedTask(cfg, s, id, report), TotalScore(true, report.issueCodes, report.previewIssueCodes))
  }

  /** The promotion decision of a successful challenger run. */
  predicate PromotedBy(cfg: Settings, s: Store, id: TaskId, report: RunReport)
    requires report.Rendered? && id in s.rows
  {
    Promotes(cfg, Finished(cfg, s, id, report), FinishedTask(cfg, s, id, report), report.promotionGuardOpen, report.authorized)
  }

  /** The same, from the claim: promoted as decided there, or the root row is exactly as it was. */
  lemma ChallengerRun(cfg: Settings, s: Store, id: TaskId, childId: TaskId, report: RunReport, r: TaskId)
    requires Structured(s) && report.Rendered? && Enabled(s, RunStep(id, childId, report))
    requires r in s.rows && s.rows[id].root == r && id != r && s.rows[id].challenger
    ensures
      var task, s1 := FinishedTask(cfg, s, id, report), Finished(cfg, s, id, report);
      && task.id == id && task.root == r && task.status == Completed
      && s1.rows == s.rows[id := task] && s1.order == s.order && id in s1.scores
      && Structured(s1) && CaseCurrent(s1, r) && (Scored(cfg, s) ==> Scored(cfg, s1))
    ensures
      var s' := RunTask(cfg, s, id, childId, report);
      if PromotedBy(cfg, s, id, report) then s' == Accept(Finished(cfg, s, id, report), id)
      else r in s'.rows && s'.rows[r] == s.rows[r]
  {
    hide Structured, CompleteRun, RecordSuccess, Fresh, CaseCurrent, Promotes;
    ClaimedIsLoaded(s, id, childId, report.generationMode);
    var score := TotalScore(true, report.issueCodes, report.previewIssueCodes);
    var running := Classified(s.rows[id], report.generationMode).(status := Running);
    var s0 := s.EnsureCase(running);
    assert Scored(cfg, s) ==> Scored(cfg, s0);
    LinkedOf(s0);
    hide Scored, Linked;
    RecordSuccessFrame(s0, FinishedTask(cfg, s, id, report), score);
    ChallengerRunOnRoot(cfg, s0, running, childId, report);
    hide Loaded;
    RecordSuccessKeeps(cfg, s0, running, score);
    if Scored(cfg, s0) {
      RecordSuccessScored(cfg, s0, running, score);
    }
  }
}
