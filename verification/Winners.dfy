/** Which task a root resolves to: one winner, challengers kept apart, and promotion that never lowers quality. */
module Winners {
  import opened Wrappers
  import opened TaskModel
  import opened LineageGraph
  import opened TaskStore
  import opened Arbitration
  import opened Lifecycle
  import opened Invariants
  import opened Progress
  import opened Health
  import opened Promotion
  import opened Theorems

  // ----------------------------------------------------------------------------- accept

  /** After an accept exactly one task of the lineage is best, its rank is its position in the lineage counted
      from one, every other rank is empty, and the root resolves to it, although the root row is written last
      from a copy made before the ranks were assigned. */
  lemma AcceptMarksOneWinner(s: Store, winner: TaskId)
    requires Linked(s.order, s.rows) && CanAccept(s, winner)
    ensures
      var s', r := Accept(s, winner), s.rows[winner].root;
      var ids := s'.Members(r);
      && r in s'.rows && s'.rows[r].resolved == Some(winner) && s'.rows[r].delivery == Some(Delivered)
      && ids == s.Members(r)
      && (forall i :: 0 <= i < |ids| ==> ids[i] in s'.rows && (s'.rows[ids[i]].best <==> ids[i] == winner))
      && (forall i :: 0 <= i < |ids| ==> s'.rows[ids[i]].rank == if ids[i] == winner then Some(i + 1) else None)
  {
    var r, rows := s.rows[winner].root, AcceptedRows(s, winner);
    AcceptedRowsFacts(s, winner);
    hide AcceptedRows;
    LineageFrame(s.order, s.rows, rows, r);
    LineageDistinct(s.order, s.rows, r);
    var ids := s.Members(r);
    forall i | 0 <= i < |ids|
      ensures ids[i] in rows && (rows[ids[i]].best <==> ids[i] == winner)
      ensures rows[ids[i]].rank == if ids[i] == winner then Some(i + 1) else None
    {
      assert ids[i] in ids;
    }
  }

  /** In every reachable store a lineage has at most one best task, and exactly the best tasks are ranked. */
  lemma AtMostOneBest(cfg: Settings, steps: seq<Step>, a: TaskId, b: TaskId)
    requires IsRun(cfg, EMPTY, steps)
    requires a in After(cfg, steps).rows && b in After(cfg, steps).rows
    requires After(cfg, steps).rows[a].root == After(cfg, steps).rows[b].root
    ensures After(cfg, steps).rows[a].best && After(cfg, steps).rows[b].best ==> a == b
    ensures After(cfg, steps).rows[a].best <==> After(cfg, steps).rows[a].rank.Some?
  {
    RunsKeep(cfg, EMPTY, steps);
  }

  // ------------------------------------------------------------------------ challengers

  /** In every reachable store, a root that resolves to a challenger resolves to one accepted as best. */
  lemma RootsResolveToAcceptedChallengers(cfg: Settings, steps: seq<Step>, r: TaskId, c: TaskId)
    requires IsRun(cfg, EMPTY, steps)
    requires r in After(cfg, steps).rows && After(cfg, steps).rows[r].root == r
    requires c in After(cfg, steps).rows && After(cfg, steps).rows[r].resolved == Some(c)
    ensures After(cfg, steps).rows[c].root == r
    ensures After(cfg, steps).rows[c].challenger ==> After(cfg, steps).rows[c].best
  {
    RunsKeep(cfg, EMPTY, steps);
  }

  /** Exactly if the promotion was decided, the root resolves to the challenger, which passed the quality gate and is
      best; otherwise the root row is as it was. */
  ghost predicate PromotedOrUntouched(cfg: Settings, s: Store, s': Store, r: TaskId, id: TaskId, report: RunReport)
    requires report.Rendered? && id in s.rows && r in s.rows
  {
    && r in s'.rows
    && if PromotedBy(cfg, s, id, report) then
         id in s'.rows && s'.rows[r].resolved == Some(id) && s'.rows[r].delivery == Some(Delivered)
         && s'.rows[id].best && s'.rows[id].gate == Some(Accepted)
       else s'.rows[r] == s.rows[r]
  }

  /** A challenger's successful run promotes the challenger as decided, or leaves the root row alone. */
  lemma ChallengerRunIsIsolated(cfg: Settings, steps: seq<Step>, s: Store, id: TaskId, childId: TaskId, report: RunReport,
                                r: TaskId)
    requires IsRun(cfg, EMPTY, steps) && s == After(cfg, steps)
    requires Enabled(s, RunStep(id, childId, report)) && report.Rendered?
    requires s.rows[id].root == r && id != r && s.rows[id].challenger && r in s.rows
    ensures PromotedOrUntouched(cfg, s, RunTask(cfg, s, id, childId, report), r, id, report)
  {
    RunsKeep(cfg, EMPTY, steps);
    hide Structured, RunTask, Fresh, CaseCurrent, Promotes, Exec, IsRun, Finished, FinishedTask;
    var task, s1 := FinishedTask(cfg, s, id, report), Finished(cfg, s, id, report);
    ChallengerRun(cfg, s, id, childId, report, r);
    if PromotedBy(cfg, s, id, report) {
      PromotesAccepted(cfg, s1, task, report.promotionGuardOpen, report.authorized);
      WinnerIsBest(s1, task);
    }
  }

  lemma WinnerIsBest(s: Store, task: Task)
    requires Structured(s) && task.id in s.rows && s.rows[task.id] == task && task.status == Completed && task.root in s.rows
    ensures
      var s' := Accept(s, task.id);
      && task.id in s'.rows && task.root in s'.rows
      && s'.rows[task.root].resolved == Some(task.id) && s'.rows[task.root].delivery == Some(Delivered)
      && s'.rows[task.id].best && s'.rows[task.id].gate == task.gate
  {
  }

  lemma PromotesAccepted(cfg: Settings, s: Store, task: Task, guardOpen: bool, authorized: bool)
    requires Promotes(cfg, s, task, guardOpen, authorized)
    ensures task.gate == Some(Accepted)
  {
  }

  // ------------------------------------------------------------------ quality monotonicity

  /** The root still resolves to the incumbent, or to a challenger that does not lower the selected quality. */
  ghost predicate NoLossOfQuality(s: Store, s': Store, r: TaskId, incumbent: TaskId, id: TaskId)
    requires incumbent in s.rows
  {
    r in s'.rows && (s'.rows[r].resolved != Some(incumbent) ==>
      && s'.rows[r].resolved == Some(id)
      && ScoreOf(s', id) >= ScoreOf(s', incumbent)
      && (s.rows[incumbent].gate == Some(Accepted) ==> ScoreOf(s', id) > ScoreOf(s', incumbent)))
  }

  /** With a fixed minimum score and an incumbent that is still delivered, a challenger's run that changes the
      selected task selects the challenger itself, never at a lower score, and at a strictly higher one when the
      incumbent is accepted by the quality gate. */
  lemma PromotionIsMonotone(cfg: Settings, steps: seq<Step>, s: Store, id: TaskId, childId: TaskId, report: RunReport,
                            r: TaskId, incumbent: TaskId)
    requires IsRun(cfg, EMPTY, steps) && s == After(cfg, steps)
    requires report.Rendered? && Enabled(s, RunStep(id, childId, report))
    requires s.rows[id].root == r && id != r && s.rows[id].challenger
    requires r in s.rows && s.rows[r].resolved == Some(incumbent)
    requires incumbent in s.rows && s.rows[incumbent].DeliveredCandidate()
    ensures NoLossOfQuality(s, RunTask(cfg, s, id, childId, report), r, incumbent, id)
  {
    RunsKeep(cfg, EMPTY, steps);
    RunsKeepScored(cfg, EMPTY, steps);
    assert s.rows[r].root == r && s.rows[incumbent].root == r by {
      assert id in s.rows && s.rows[id].root == r && r in s.rows;
    }
    hide Scored, Structured, RunTask, Fresh, CaseCurrent, Promotes, Finished, FinishedTask;
    var task, s1 := FinishedTask(cfg, s, id, report), Finished(cfg, s, id, report);
    ChallengerRun(cfg, s, id, childId, report, r);
    if PromotedBy(cfg, s, id, report) {
      PromotedWins(cfg, s1, task, r, incumbent, report.promotionGuardOpen, report.authorized);
    }
  }

  lemma PromotedWins(cfg: Settings, s: Store, task: Task, r: TaskId, incumbent: TaskId, guardOpen: bool, authorized: bool)
    requires Structured(s) && Scored(cfg, s) && task.root == r && r in s.rows && CaseCurrent(s, r)
    requires task.id in s.rows && s.rows[task.id] == task && task.id in s.scores && task.status == Completed
    requires Promotes(cfg, s, task, guardOpen, authorized)
    requires s.rows[r].resolved == Some(incumbent) && incumbent in s.rows && s.rows[incumbent].root == r
    requires incumbent == task.id || s.rows[incumbent].DeliveredCandidate()
    ensures
      var s' := Accept(s, task.id);
      && r in s'.rows && s'.rows[r].resolved == Some(task.id) && s'.scores == s.scores
      && (incumbent != task.id ==>
            && ScoreOf(s', task.id) >= ScoreOf(s', incumbent)
            && (s.rows[incumbent].gate == Some(Accepted) ==> ScoreOf(s', task.id) > ScoreOf(s', incumbent)))
  {
    LinkedOf(s);
    assert task.id in s.order && task.id in s.Members(r);
    assert CanAccept(s, task.id);
    AcceptedRowsFacts(s, task.id);
    hide AcceptedRows, Structured, Scored, Linked, Promotes, CaseCurrent;
    if incumbent != task.id {
      PromotionOutscoresIncumbent(cfg, s, task, r, incumbent, guardOpen, authorized);
    }
  }
}
