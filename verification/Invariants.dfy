/** What every reachable store satisfies, and that each step keeps it. */
module Invariants {
  import opened Wrappers
  import opened TaskModel
  import opened LineageGraph
  import opened TaskStore
  import opened Lifecycle

  // ------------------------------------------------------------------------ the invariant

  ghost predicate RootsPlain(rows: Rows) {
    forall id :: id in rows && rows[id].parent.None? ==> !rows[id].challenger
  }

  /** At most one best task in a lineage, and exactly the best tasks carry a rank. */
  ghost predicate OneBest(rows: Rows) {
    && (forall a, b :: a in rows && b in rows && rows[a].best && rows[b].best && rows[a].root == rows[b].root ==> a == b)
    && (forall id :: id in rows ==> (rows[id].best <==> rows[id].rank.Some?))
  }

  /** A root resolves only inside its own lineage, and to a challenger only once that is accepted as best. */
  ghost predicate Isolated(rows: Rows) {
    forall r, c :: r in rows && c in rows && rows[r].root == r && rows[r].resolved == Some(c) ==>
      rows[c].root == r && (rows[c].challenger ==> rows[c].best)
  }

  ghost predicate Structured(s: Store) {
    && Linked(s.order, s.rows)
    && RootsPlain(s.rows)
    && OneBest(s.rows)
    && Isolated(s.rows)
  }

  lemma LinkedOf(s: Store)
    requires Structured(s)
    ensures Linked(s.order, s.rows)
  {
  }

  lemma RowKeyed(s: Store, id: TaskId)
    requires Structured(s) && id in s.rows
    ensures s.rows[id].id == id && id in s.order && id in s.Members(s.rows[id].root)
  {
  }

  lemma RootsAreRoots(s: Store, id: TaskId)
    requires Structured(s) && id in s.rows
    ensures s.rows[id].root in s.rows ==> s.rows[s.rows[id].root].root == s.rows[id].root
    ensures Linked(s.order, s.rows)
    ensures s.rows[id].root in s.rows ==> s.rows[s.rows[id].root].id == s.rows[id].root
  {
  }

  // --------------------------------------------------------------- rows never change place

  predicate SamePlace(old_: Task, new_: Task) {
    && new_.id == old_.id && new_.root == old_.root && new_.parent == old_.parent
    && new_.challenger == old_.challenger && new_.idempotencyKey == old_.idempotencyKey
  }

  predicate SameAcceptance(old_: Task, new_: Task) {
    new_.best == old_.best && new_.rank == old_.rank
  }

  /** Writing a row back keeps its place and acceptance; a root may only be re-pointed inside its lineage at a
      task that is no challenger. */
  ghost predicate HarmlessPut(s: Store, t: Task) {
    && t.id in s.rows
    && SamePlace(s.rows[t.id], t) && SameAcceptance(s.rows[t.id], t)
    && (|| t.parent.Some?
        || t.resolved == s.rows[t.id].resolved
        || (t.resolved.Some? && t.resolved.value in s.rows
            && s.rows[t.resolved.value].root == t.root && !s.rows[t.resolved.value].challenger))
  }

  lemma SameMarksKeepBest(rows: Rows, rows': Rows)
    requires OneBest(rows) && rows'.Keys == rows.Keys
    requires forall id :: id in rows ==> SamePlace(rows[id], rows'[id]) && SameAcceptance(rows[id], rows'[id])
    ensures OneBest(rows')
  {
  }

  lemma HarmlessKeepsIsolated(s: Store, t: Task)
    requires Linked(s.order, s.rows) && RootsPlain(s.rows) && Isolated(s.rows) && HarmlessPut(s, t)
    ensures Isolated(s.rows[t.id := t])
  {
    hide ParentsFirst, Distinct;
  }

  lemma PutKeeps(s: Store, t: Task)
    requires Structured(s) && HarmlessPut(s, t)
    ensures Structured(s.Put(t))
  {
    hide Linked, OneBest, Isolated, RootsPlain;
    var rows := s.rows[t.id := t];
    SamePlacesKeepLinks(s.order, s.rows, rows);
    SameMarksKeepBest(s.rows, rows);
    HarmlessKeepsIsolated(s, t);
  }

  /** A new row is either a root of its own or the child of a stored task. */
  ghost predicate WellPlaced(s: Store, t: Task) {
    && !t.best && t.rank.None?
    && (|| (t.parent.None? && t.root == t.id && !t.challenger && t.resolved.None?)
        || (t.parent.Some? && t.parent.value in s.rows && t.root == s.rows[t.parent.value].root))
  }

  lemma AppendKeepsLinks(order: seq<TaskId>, rows: Rows, t: Task)
    requires Linked(order, rows)
    requires t.id !in rows
    requires forall other :: other in rows ==> rows[other].parent != Some(t.id) && rows[other].root != t.id
    requires t.parent.None? <==> t.root == t.id
    requires t.parent.Some? ==> t.parent.value in rows && t.root == rows[t.parent.value].root
    ensures Linked(order + [t.id], rows[t.id := t])
  {
    var order', rows' := order + [t.id], rows[t.id := t];
    var n := |order|;
    assert forall i :: 0 <= i < n ==> order[i] in order;
    assert forall id :: id in order' <==> id in order || id == t.id;
    forall a, b | a in rows' && b in rows' && rows'[a].root == b ensures rows'[b].root == b {
      if b != t.id {
        var known := if a == t.id then t.parent.value else a;
        assert known in rows && b in rows && rows[known].root == b;
      }
    }
    forall i, j | 0 <= i < |order'| && 0 <= j < |order'| && order'[j] in rows' && rows'[order'[j]].parent == Some(order'[i])
      ensures i < j
    {
      assert i != n;
      if j < n {
        assert order[j] in order && order'[j] == order[j];
        assert rows[order[j]].parent == Some(order[i]);
      }
    }
  }

  lemma InsertKeeps(s: Store, t: Task)
    requires Structured(s) && Fresh(s, t.id) && WellPlaced(s, t)
    ensures Structured(s.Insert(t))
  {
    var rows := s.rows[t.id := t];
    assert forall other :: other in s.rows ==> s.rows[other].root != t.id && s.rows[other].parent != Some(t.id);
    AppendKeepsLinks(s.order, s.rows, t);
    hide Linked;
    assert OneBest(rows) by { hide Isolated; }
    assert Isolated(rows) by {
      hide OneBest;
      forall r, c | r in rows && c in rows && rows[r].root == r && rows[r].resolved == Some(c)
        ensures rows[c].root == r && (rows[c].challenger ==> rows[c].best)
      {
        assert r in s.rows && c in s.rows;
      }
    }
  }

  lemma CasesDoNotMatter(s: Store, s': Store)
    requires s'.order == s.order && s'.rows == s.rows
    ensures Structured(s) <==> Structured(s')
  {
  }

  lemma {:induction false} WithoutKeepsOrder(ids: seq<TaskId>, drop: seq<TaskId>, rows: Rows, rows': Rows)
    requires Distinct(ids) && ParentsFirst(ids, rows)
    requires forall id :: id in rows' ==> id in rows && rows'[id] == rows[id]
    ensures Distinct(Without(ids, drop)) && ParentsFirst(Without(ids, drop), rows')
  {
    if ids != [] {
      var n := |ids| - 1;
      WithoutKeepsOrder(ids[..n], drop, rows, rows');
      var rest := Without(ids[..n], drop);
      assert ids[n] !in ids[..n];
      assert forall k :: 0 <= k < |rest| ==> rest[k] in rest;
      forall i, j | 0 <= i <= |rest| && 0 <= j < |rest| && rest[j] in rows'
                    && rows'[rest[j]].parent == Some((rest + [ids[n]])[i])
        ensures i < |rest|
      {
        assert rest[j] in rest;
        var k :| 0 <= k < n && ids[..n][k] == rest[j];
        assert ids[k] == rest[j];
      }
    }
  }

  lemma DeleteKeeps(s: Store, id: TaskId)
    requires Structured(s)
    ensures Structured(s.Delete(id))
  {
    WithoutKeepsOrder(s.order, [id], s.rows, s.Delete(id).rows);
  }

  /** Links survive any rewriting of rows that keeps their place. */
  lemma SamePlacesKeepLinks(order: seq<TaskId>, rows: Rows, rows': Rows)
    requires Linked(order, rows) && RootsPlain(rows)
    requires rows'.Keys == rows.Keys && forall id :: id in rows ==> SamePlace(rows[id], rows'[id])
    ensures Linked(order, rows') && RootsPlain(rows')
  {
  }

  lemma AcceptedRowAt(s: Store, winner: TaskId, id: TaskId)
    requires Linked(s.order, s.rows) && CanAccept(s, winner) && id in s.rows
    ensures
      var root := s.rows[winner].root;
      var rank := Position(s.Members(root), winner) + 1;
      && s.rows[id].id == id
      && AcceptedRows(s, winner).Keys == s.rows.Keys
      && AcceptedRows(s, winner)[id] ==
         if id == root then AcceptedRoot(s.rows[id], s.rows[winner], rank)
         else if s.rows[id].root == root then AcceptedRow(s.rows[id], winner, rank)
         else s.rows[id]
  {
    assert id in s.order && s.rows[id].id == id;
    assert id in s.Members(s.rows[winner].root) <==> s.rows[id].root == s.rows[winner].root;
    hide Linked, Lineage, Position;
  }

  lemma AcceptedRowsFacts(s: Store, winner: TaskId)
    requires Linked(s.order, s.rows) && CanAccept(s, winner)
    ensures
      var root, rows := s.rows[winner].root, AcceptedRows(s, winner);
      && rows.Keys == s.rows.Keys
      && (forall id :: id in s.rows ==> SamePlace(s.rows[id], rows[id]) && rows[id].gate == s.rows[id].gate)
      && (forall id :: id in s.rows && s.rows[id].root == root ==>
            (rows[id].best <==> id == winner)
            && rows[id].rank == if id == winner then Some(Position(s.Members(root), winner) + 1) else None)
      && (forall id :: id in s.rows && s.rows[id].root != root && id != root ==> rows[id] == s.rows[id])
      && rows[root].resolved == Some(winner) && rows[root].delivery == Some(Delivered)
      && (forall id :: id in s.rows && id != root ==>
            rows[id] == s.rows[id].(best := rows[id].best, rank := rows[id].rank))
  {
    hide Linked, Lineage, Position, AcceptedRows;
    var rows := AcceptedRows(s, winner);
    AcceptedRowAt(s, winner, winner);
    AcceptedRowAt(s, winner, s.rows[winner].root);
    forall id | id in s.rows
      ensures SamePlace(s.rows[id], rows[id]) && rows[id].gate == s.rows[id].gate
      ensures s.rows[id].root == s.rows[winner].root ==>
                (rows[id].best <==> id == winner)
                && rows[id].rank == if id == winner then Some(Position(s.Members(s.rows[winner].root), winner) + 1) else None
      ensures id != s.rows[winner].root ==> rows[id] == s.rows[id].(best := rows[id].best, rank := rows[id].rank)
      ensures id != s.rows[winner].root && s.rows[id].root != s.rows[winner].root ==> rows[id] == s.rows[id]
    {
      AcceptedRowAt(s, winner, id);
    }
  }

  lemma AcceptedIsOneBest(s: Store, winner: TaskId)
    requires Structured(s) && CanAccept(s, winner)
    ensures OneBest(AcceptedRows(s, winner))
  {
    hide AcceptedRows, Isolated, ParentsFirst, Distinct, RootsPlain, Position;
    AcceptedRowsFacts(s, winner);
    hide Linked;
  }

  lemma AcceptedIsIsolated(s: Store, winner: TaskId)
    requires Structured(s) && CanAccept(s, winner)
    ensures Isolated(AcceptedRows(s, winner))
  {
  }

  lemma AcceptKeeps(s: Store, winner: TaskId)
    requires Structured(s)
    ensures Structured(Accept(s, winner))
  {
    if CanAccept(s, winner) {
      var s1 := s.(rows := AcceptedRows(s, winner));
      assert Structured(s1) by {
        AcceptedRowsFacts(s, winner);
        SamePlacesKeepLinks(s.order, s.rows, s1.rows);
        AcceptedIsOneBest(s, winner);
        AcceptedIsIsolated(s, winner);
        hide AcceptedRows, Linked, OneBest, Isolated, RootsPlain;
      }
      hide AcceptedRows, Structured;
      CasesDoNotMatter(s1, Accept(s, winner));
    }
  }

  lemma SameResolutionsKeepIsolated(rows: Rows, rows': Rows)
    requires Isolated(rows) && rows'.Keys == rows.Keys
    requires forall id :: id in rows ==>
               SamePlace(rows[id], rows'[id]) && SameAcceptance(rows[id], rows'[id]) && rows'[id].resolved == rows[id].resolved
    ensures Isolated(rows')
  {
  }

  lemma ReconcileKeeps(s: Store, root: TaskId)
    requires Structured(s)
    ensures Structured(ReconcileOrphans(s, root))
  {
    hide Linked, OneBest, Isolated, RootsPlain, OrphanRows;
    var s1 := s.(rows := OrphanRows(s, root));
    OrphanRowsFacts(s, root);
    SamePlacesKeepLinks(s.order, s.rows, s1.rows);
    SameMarksKeepBest(s.rows, s1.rows);
    SameResolutionsKeepIsolated(s.rows, s1.rows);
    assert Structured(s1);
    hide Structured;
    if HasNewOrphan(s, root) {
      CasesDoNotMatter(s1, ReconcileOrphans(s, root));
    }
  }

  lemma OrphanRowsFacts(s: Store, root: TaskId)
    ensures
      var rows := OrphanRows(s, root);
      && rows.Keys == s.rows.Keys
      && forall id :: id in s.rows ==>
           && SamePlace(s.rows[id], rows[id]) && SameAcceptance(s.rows[id], rows[id])
           && rows[id].gate == s.rows[id].gate && rows[id].resolved == s.rows[id].resolved
           && rows[id].mode == s.rows[id].mode
           && (rows[id] == s.rows[id] || rows[id] == OrphanedRow(s.rows[id]))
  {
  }

  // ------------------------------------------------------------------ the pieces of a run

  lemma PersistKeeps(s: Store, child: Task)
    requires Structured(s) && Fresh(s, child.id) && WellPlaced(s, child)
    ensures Structured(Persist(s, child))
  {
    InsertKeeps(s, child);
    CasesDoNotMatter(s.Insert(child), Persist(s, child));
  }

  /** A task as the engine holds it in memory: its stored row may differ in the repair columns and in status. */
  ghost predicate Held(s: Store, task: Task) {
    && task.id in s.rows
    && SamePlace(s.rows[task.id], task) && SameAcceptance(s.rows[task.id], task)
  }

  lemma SyncRootKeeps(s: Store, task: Task)
    requires Structured(s) && Held(s, task)
    ensures Structured(SyncRoot(s, task))
  {
    if task.root in s.rows && !(task.id != task.root && task.challenger) {
      var root := Resolve(s.rows[task.root], task);
      assert HarmlessPut(s, root) by {
        assert s.rows[task.id].root == task.root;
      }
      PutKeeps(s, root);
      CasesDoNotMatter(s.Put(root), SyncRoot(s, task));
    } else {
      CasesDoNotMatter(s, SyncRoot(s, task));
    }
  }

  lemma FinalizeKeeps(s: Store, task: Task, mode: Mode, tier: string)
    requires Structured(s) && Held(s, task)
    ensures Structured(FinalizeDelivery(s, task, mode, tier))
  {
    var delivered := DeliveredAs(task, Some(mode), Some(tier));
    PutKeeps(s, delivered);
    SyncRootKeeps(s.Put(delivered), delivered);
  }

  lemma MarkFailedKeeps(s: Store, task: Task, reason: string)
    requires Structured(s) && Held(s, task) && task.resolved == s.rows[task.id].resolved
    ensures Structured(MarkDeliveryFailed(s, task, reason))
  {
    var s1 := s.Put(GiveUp(task, reason));
    PutKeeps(s, GiveUp(task, reason));
    if task.root != task.id && task.root in s1.rows {
      PutKeeps(s1, GiveUp(s1.rows[task.root], reason));
      CasesDoNotMatter(s1.Put(GiveUp(s1.rows[task.root], reason)), MarkDeliveryFailed(s, task, reason));
    }
  }

  lemma RecordRepairKeeps(s: Store, root: TaskId, issueCodes: seq<string>, verdict: RepairVerdict)
    requires Structured(s)
    ensures Structured(RecordRepairState(s, root, issueCodes, verdict))
  {
    if root in s.rows {
      PutKeeps(s, WithRepairState(s.rows[root], s.Count(root), issueCodes, verdict));
    }
  }

  /** The in-memory task agrees with its row in everything but status, phase, generation mode and repair columns. */
  ghost predicate Loaded(s: Store, task: Task) {
    && Held(s, task)
    && task.gate == s.rows[task.id].gate && task.resolved == s.rows[task.id].resolved
    && task.delivery == s.rows[task.id].delivery && task.mode == s.rows[task.id].mode
  }

  /** A claimed task, as the run starts. */
  lemma ClaimedIsLoaded(s: Store, id: TaskId, childId: TaskId, generationMode: Option<string>)
    requires Structured(s) && Fresh(s, childId) && id in s.rows
    ensures
      var running := Classified(s.rows[id], generationMode).(status := Running);
      var s1 := s.EnsureCase(running);
      && Structured(s1) && Loaded(s1, running) && Fresh(s1, childId)
      && s1.rows == s.rows && s1.order == s.order && s1.scores == s.scores
      && running.root == s.rows[id].root && running.id == id
  {
  }

  lemma AfterRepairKeeps(cfg: Settings, s: Store, task: Task, childId: TaskId, issueCodes: seq<string>)
    requires Structured(s) && Loaded(s, task) && Fresh(s, childId)
    ensures Structured(AfterRepair(cfg, s, task, childId, issueCodes))
  {
    hide Structured;
    var s1 := s.Put(task);
    PutKeeps(s, task);
    var verdict := JudgeRepair(cfg, s1.Count(task.root), issueCodes);
    if verdict.created {
      PersistKeeps(s1, RepairChild(task, childId));
      RecordRepairKeeps(Persist(s1, RepairChild(task, childId)), task.root, issueCodes, verdict);
    } else {
      RecordRepairKeeps(s1, task.root, issueCodes, verdict);
    }
  }

  lemma StillLoaded(cfg: Settings, s: Store, task: Task, childId: TaskId, issueCodes: seq<string>)
    requires Structured(s) && Loaded(s, task) && Fresh(s, childId)
    requires !JudgeRepair(cfg, s.Put(task).Count(task.root), issueCodes).created
    ensures Loaded(AfterRepair(cfg, s, task, childId, issueCodes), task)
    ensures Fresh(AfterRepair(cfg, s, task, childId, issueCodes), childId)
  {
    var s1 := s.Put(task);
    assert Fresh(s1, childId);
    if task.root in s1.rows {
      assert s1.rows[task.root].id == task.root;
    }
  }

  lemma EndFailureKeeps(s: Store, task: Task, childId: TaskId, ending: Ending)
    requires Structured(s) && Loaded(s, task) && Fresh(s, childId)
    ensures Structured(EndFailure(s, task, childId, ending))
  {
    hide Structured;
    match ending
    case DegradedAttempt(generationMode) => PersistKeeps(s, DegradedChild(task, childId, generationMode));
    case Emergency(mode, tier) => FinalizeKeeps(s, task, mode, tier);
    case Abandoned(reason) => MarkFailedKeeps(s, task, reason);
  }

  lemma FailTaskKeeps(cfg: Settings, s: Store, running: Task, childId: TaskId, issueCodes: seq<string>, context: FailureContext)
    requires Structured(s) && Loaded(s, running) && Fresh(s, childId)
    ensures Structured(FailTask(cfg, s, running, childId, issueCodes, context))
  {
    hide Structured;
    var task := FailedRow(running);
    var verdict := JudgeRepair(cfg, s.Put(task).Count(task.root), issueCodes);
    var s1 := AfterRepair(cfg, s, task, childId, issueCodes);
    AfterRepairKeeps(cfg, s, task, childId, issueCodes);
    if !verdict.created {
      StillLoaded(cfg, s, task, childId, issueCodes);
      EndFailureKeeps(s1, task, childId, JudgeEnding(cfg, s1, task, issueCodes, context));
    }
    hide AfterRepair, EndFailure, JudgeEnding, JudgeRepair, Loaded, Fresh;
    var s2 := if verdict.created then s1 else EndFailure(s1, task, childId, JudgeEnding(cfg, s1, task, issueCodes, context));
    CasesDoNotMatter(s2, s2.SyncCase(task.root));
  }

  /** A recorded success rewrites rows in place; nothing is inserted. */
  lemma RecordSuccessFrame(s: Store, task: Task, score: int)
    requires Linked(s.order, s.rows) && Held(s, task)
    ensures
      var s' := RecordSuccess(s, task, score);
      && s'.order == s.order && s'.rows.Keys == s.rows.Keys
      && s'.rows[task.id].root == task.root && s'.rows[task.id].parent == task.parent
      && s'.scores == s.scores[task.id := score]
  {
  }

  lemma RecordSuccessKeepsFresh(s: Store, task: Task, score: int, childId: TaskId)
    requires Linked(s.order, s.rows) && Held(s, task) && Fresh(s, childId) && task.resolved == Some(task.id)
    ensures Fresh(RecordSuccess(s, task, score), childId)
  {
    var s1 := s.(scores := s.scores[task.id := score]).Put(task);
    assert Fresh(s1, childId);
    if task.root in s1.rows {
      var root := s1.rows[task.root];
      assert root.root != childId && root.id == task.root;
    }
  }

  lemma SuccessIsHarmless(cfg: Settings, s: Store, running: Task, score: int)
    requires Structured(s) && Loaded(s, running)
    ensures
      var task := SuccessRow(cfg, running, score);
      var s0 := s.(scores := s.scores[task.id := score]);
      && HarmlessPut(s0, task) && Held(s0.Put(task), task) && s0.Put(task).rows == s.rows[task.id := task]
  {
    hide Linked, OneBest, Isolated;
  }

  lemma RecordSuccessKeeps(cfg: Settings, s: Store, running: Task, score: int)
    requires Structured(s) && Loaded(s, running)
    ensures Structured(RecordSuccess(s, SuccessRow(cfg, running, score), score))
  {
    var task := SuccessRow(cfg, running, score);
    var s0 := s.(scores := s.scores[task.id := score]);
    SuccessIsHarmless(cfg, s, running, score);
    hide Structured, SuccessRow, HarmlessPut, Loaded, SyncRoot;
    CasesDoNotMatter(s, s0);
    PutKeeps(s0, task);
    SyncRootKeeps(s0.Put(task), task);
    CasesDoNotMatter(SyncRoot(s0.Put(task), task), RecordSuccess(s, task, score));
  }
}
