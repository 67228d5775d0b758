/** What a case row says, column by column and status by status, from the rows of its root and of the task it names. */
module CaseRules {
  import opened Wrappers
  import opened TaskModel
  import opened LineageGraph
  import opened TaskStore
  import opened Lifecycle
  import opened Invariants
  import opened Progress
  import opened Health
  import opened Theorems

  // ------------------------------------------------------------------------ the active task

  /** The descendant of the root that the lineage lists last. */
  ghost predicate LastDescendant(ids: seq<TaskId>, rows: Rows, root: TaskId, id: TaskId) {
    exists k :: 0 <= k < |ids| && ids[k] == id && Descends(ids, rows, root, id)
                && forall j :: k < j < |ids| ==> !Descends(ids, rows, root, ids[j])
  }

  /** Along a path of parent links tasks are listed later and later. */
  lemma {:induction false} RootComesFirst(path: seq<TaskId>, ids: seq<TaskId>, rows: Rows, root: TaskId, i: nat, j: nat)
    requires ParentsFirst(ids, rows) && i < |ids| && j < |ids| && ids[i] == root && i != j
    requires Distinct(ids) && IsPath(path, ids, rows, root, ids[j])
    ensures i < j
    decreases |path|
  {
    var n := |path| - 1;
    assert path[n] == ids[j];
    var p :| 0 <= p < |ids| && ids[p] == path[n - 1];
    if p != i {
      assert IsPath(path[..n], ids, rows, root, ids[p]);
      RootComesFirst(path[..n], ids, rows, root, i, p);
    }
  }

  lemma {:induction false} ScanEnds(ids: seq<TaskId>, rows: Rows, root: TaskId) returns (k: nat)
    requires Distinct(ids) && ParentsFirst(ids, rows) && root in ids
    ensures k < |ids| && Scan(ids, rows, root)[|Scan(ids, rows, root)| - 1] == ids[k]
    ensures forall j :: k < j < |ids| ==> ids[j] !in Scan(ids, rows, root)
  {
    var n := |ids| - 1;
    var last := ids[n];
    var earlier, kept := Scan(ids[..n], rows, root), Scan(ids, rows, root);
    assert last !in ids[..n];
    if kept != earlier {
      k := n;
    } else if last != root {
      assert ParentsFirst(ids[..n], rows);
      k := ScanEnds(ids[..n], rows, root);
    } else {
      forall j | 0 <= j < n ensures ids[j] !in kept {
        if ids[j] in kept {
          ScanIsSound(ids, rows, root, ids[j]);
          var path :| IsPath(path, ids, rows, root, ids[j]);
          RootComesFirst(path, ids, rows, root, n, j);
        }
      }
      k := n;
      assert kept[|kept| - 1] in kept;
    }
  }

  /** The active task is the last listed descendant of the root, whatever was deleted below it. */
  lemma ActiveIsLastDescendant(s: Store, r: TaskId)
    requires Linked(s.order, s.rows) && r in s.rows && s.rows[r].root == r
    ensures LastDescendant(s.Members(r), s.rows, r, ActiveTask(s.order, s.rows, r))
  {
    var ids := s.Members(r);
    LineageDistinct(s.order, s.rows, r);
    LineageParentsFirst(s.order, s.rows, r);
    var k := ScanEnds(ids, s.rows, r);
    forall j | k <= j < |ids| ensures Descends(ids, s.rows, r, ids[j]) <==> j == k {
      ScanIsExact(ids, s.rows, r, ids[j]);
      var kept := Scan(ids, s.rows, r);
      assert kept[|kept| - 1] in kept;
    }
  }

  /** The task of a lineage that was created last. */
  ghost predicate Newest(s: Store, r: TaskId, id: TaskId) {
    exists k :: 0 <= k < |s.order| && s.order[k] == id && id in s.rows && s.rows[id].root == r
                && forall j :: k < j < |s.order| ==> s.order[j] in s.rows && s.rows[s.order[j]].root != r
  }

  lemma ListedDescends(s: Store, r: TaskId, id: TaskId)
    requires Linked(s.order, s.rows) && FamilyPresent(s.rows) && r in s.rows && s.rows[r].root == r
    requires id in s.rows && s.rows[id].root == r
    ensures Descends(s.Members(r), s.rows, r, id)
  {
    var k :| 0 <= k < |s.order| && s.order[k] == id;
    OrphanIffDeletedAncestor(s.order, s.rows, r, k);
    NoBrokenChains(s.rows, id);
    assert id in s.Members(r);
    hide Linked, Lineage, Descends;
    ReachableAndOrphansPartition(s.order, s.rows, r, id);
  }

  /** Tasks listed after another one of their lineage are listed after it in the lineage too. */
  lemma LaterInLineage(s: Store, r: TaskId, k: nat, j: nat, p: nat) returns (q: nat)
    requires Distinct(s.order) && k < j < |s.order| && p < |s.Members(r)| && s.Members(r)[p] == s.order[k]
    requires s.order[j] in s.rows && s.rows[s.order[j]].root == r
    ensures p < q < |s.Members(r)| && s.Members(r)[q] == s.order[j]
  {
    var ids := s.Members(r);
    LineageDistinct(s.order, s.rows, r);
    assert s.order[k] in ids && s.order[j] in ids;
    hide Lineage;
    var p', q' := LineagePosition(s.order, s.rows, r, k, j);
    assert p' == p;
    q := q';
  }

  /** Where nothing was deleted the active task is the newest of its lineage. */
  lemma ActiveIsNewest(s: Store, r: TaskId)
    requires Linked(s.order, s.rows) && FamilyPresent(s.rows) && r in s.rows && s.rows[r].root == r
    ensures Newest(s, r, ActiveTask(s.order, s.rows, r))
  {
    var ids, a := s.Members(r), ActiveTask(s.order, s.rows, r);
    ActiveIsLastDescendant(s, r);
    var p :| 0 <= p < |ids| && ids[p] == a && Descends(ids, s.rows, r, a) && forall j :: p < j < |ids| ==> !Descends(ids, s.rows, r, ids[j]);
    assert Distinct(s.order) && forall id :: id in s.order <==> id in s.rows;
    assert a in ids;
    hide Linked, Descends, Lineage, ActiveTask, FamilyPresent;
    var k :| 0 <= k < |s.order| && s.order[k] == a;
    forall j | k < j < |s.order| ensures s.order[j] in s.rows && s.rows[s.order[j]].root != r {
      assert s.order[j] in s.order;
      if s.rows[s.order[j]].root == r {
        var q := LaterInLineage(s, r, k, j, p);
        ListedDescends(s, r, ids[q]);
      }
    }
  }

  // ----------------------------------------------------------------------------- the columns

  ghost predicate Undecided(root: Task) {
    root.delivery != Some(Delivered) && root.delivery != Some(Undelivered)
  }

  /** The task is not the one its root resolves to; a root that resolves to nothing resolves to itself. */
  ghost predicate Aside(root: Task, task: Task) {
    match root.resolved
    case None => task.id != root.id
    case Some(target) => task.id != target
  }

  ghost predicate Contending(task: Task) {
    task.challenger && task.status == Completed && task.delivery == Some(Delivered) && task.gate == Some(Accepted)
  }

  ghost predicate Busy(task: Task) {
    task.status == Queued || task.status == Revising || task.status == Running
  }

  ghost predicate UnderReview(task: Task) {
    task.phase == AtPreviewValidation || task.phase == AtValidation || task.phase == AtQualityJudging
  }

  ghost predicate BeingPlanned(task: Task) {
    task.phase == AtScenePlanning || task.phase == AtPlanning
  }

  /** Each status of a case has its own condition on the root and the active task. */
  ghost predicate StatusTells(status: CaseStatus, root: Task, task: Task) {
    && (status == CaseFailed <==> root.delivery == Some(Undelivered))
    && (status == CaseArbitrating <==> root.delivery == Some(Delivered) && Aside(root, task) && Contending(task))
    && (status == CaseBranching <==> root.delivery == Some(Delivered) && Aside(root, task) && Busy(task))
    && (status == CaseCompleted <==> root.delivery == Some(Delivered) && !(Aside(root, task) && (Contending(task) || Busy(task))))
    && var waiting := Undecided(root) && !(task.id != root.id && Busy(task));
    && (status == CaseRepairing <==> Undecided(root) && task.id != root.id && Busy(task))
    && (status == CaseReviewing <==> waiting && UnderReview(task))
    && (status == CaseRunning <==> waiting && !UnderReview(task) && task.status == Running)
    && (status == CasePlanning <==> waiting && !UnderReview(task) && task.status != Running && BeingPlanned(task))
    && (status == CaseQueued <==> waiting && !UnderReview(task) && task.status != Running && !BeingPlanned(task))
  }

  /** A case row tells the state of a lineage. */
  ghost predicate Tells(row: DeliveryCase, root: Task, task: Task) {
    && row.root == root.id && row.active == task.id && row.selected == root.resolved
    && row.delivery == (if Undecided(root) then Pending else root.delivery.value)
    && row.mode == root.mode && row.stopReason == root.stopReason
    && StatusTells(row.status, root, task)
  }

  lemma StatusIsTold(root: Task, task: Task)
    ensures StatusTells(DeriveCaseStatus(root, task), root, task)
  {
    AsideIsOther(root, task);
    ContendingIsCandidate(root, task);
    hide Aside, Contending, IsArbitratingCandidate;
  }

  lemma AsideIsOther(root: Task, task: Task)
    ensures Aside(root, task) <==> task.id != (if root.resolved.Some? then root.resolved.value else root.id)
  {
  }

  lemma ContendingIsCandidate(root: Task, task: Task)
    ensures IsArbitratingCandidate(root, task) <==> Aside(root, task) && Contending(task)
    ensures Contending(task) ==> !Busy(task)
  {
  }

  lemma ProjectionTells(s: Store, r: TaskId)
    requires Linked(s.order, s.rows) && r in s.rows && s.rows[r].root == r
    ensures Tells(Projection(s.order, s.rows, r), s.rows[r], s.rows[ActiveTask(s.order, s.rows, r)])
  {
    var a := ActiveTask(s.order, s.rows, r);
    assert s.rows[r].id == r && s.rows[a].id == a by { hide ParentsFirst, Distinct; }
    StatusIsTold(s.rows[r], s.rows[a]);
    hide Linked, ActiveTask, DeriveCaseStatus, StatusTells;
  }

  // ------------------------------------------------------------------------- over every run

  /** In every ordinary run the case of a root names the newest task of its lineage and tells the state of the two; each
      of the nine statuses has its own condition on their rows. */
  lemma CasesTell(cfg: Settings, steps: seq<Step>, s: Store, r: TaskId) returns (newest: TaskId)
    requires OrdinaryRun(cfg, steps) && s == After(cfg, steps)
    requires r in s.rows && s.rows[r].root == r
    ensures Newest(s, r, newest) && newest in s.rows && r in s.cases && Tells(s.cases[r], s.rows[r], s.rows[newest])
  {
    OrdinaryRunsAreHealthy(cfg, steps);
    HealthyParts(s);
    LinkedOf(s);
    assert CaseCurrent(s, r) by { hide Structured, FamilyPresent, Settled, Alive; }
    newest := ActiveTask(s.order, s.rows, r);
    hide Healthy, Structured, Linked, FamilyPresent, Newest, Tells, ActiveTask, Settled;
    ActiveIsNewest(s, r);
    ProjectionTells(s, r);
  }

  /** A sync of a stored root, in any linked store, makes its case tell the last listed descendant of the root. */
  lemma SyncTells(s: Store, r: TaskId) returns (active: TaskId)
    requires Linked(s.order, s.rows) && r in s.rows && s.rows[r].root == r
    ensures
      && s.SyncCase(r).cases.Keys == s.cases.Keys + {r}
      && LastDescendant(s.Members(r), s.rows, r, active) && active in s.rows
      && Tells(s.SyncCase(r).cases[r], s.rows[r], s.rows[active])
  {
    active := ActiveTask(s.order, s.rows, r);
    ActiveIsLastDescendant(s, r);
    ProjectionTells(s, r);
    hide Linked, ActiveTask, Tells, Projection, LastDescendant;
  }

  lemma MemberStored(s: Store, r: TaskId)
    requires s.Members(r) != []
    ensures exists x :: x in s.rows && s.rows[x].root == r
  {
    var x := s.Members(r)[0];
    assert x in s.Members(r);
    assert x in s.rows && s.rows[x].root == r;
  }

  lemma NothingUnderOther(s: Store, id: TaskId)
    requires Linked(s.order, s.rows) && id in s.rows && s.rows[id].root != id
    ensures s.Members(id) == [] && ActiveTask(s.order, s.rows, id) == id
  {
    if s.Members(id) != [] {
      MemberStored(s, id);
    }
  }

  /** A sync under another identifier: a missing task changes nothing, a root is synced as such, and any other task
      overwrites the case of its root with its own state. */
  lemma SyncOfTells(s: Store, id: TaskId)
    requires Linked(s.order, s.rows)
    ensures id !in s.rows ==> s.SyncCaseOf(id) == s
    ensures id in s.rows && s.rows[id].root == id ==> s.SyncCaseOf(id) == s.SyncCase(id)
    ensures id in s.rows && s.rows[id].root != id ==>
              var r, s' := s.rows[id].root, s.SyncCaseOf(id);
              r in s'.cases && s' == s.(cases := s.cases[r := s'.cases[r]]) && Tells(s'.cases[r], s.rows[id], s.rows[id])
  {
    if id in s.rows {
      assert s.rows[id].id == id by { hide ParentsFirst, Distinct; }
      if s.rows[id].root != id {
        NothingUnderOther(s, id);
        StatusIsTold(s.rows[id], s.rows[id]);
      }
      hide Linked, ActiveTask, DeriveCaseStatus, StatusTells;
    }
  }

  lemma RootOfStored(s: Store, id: TaskId)
    requires Linked(s.order, s.rows) && id in s.rows && s.rows[id].root in s.rows
    ensures s.rows[s.rows[id].root].root == s.rows[id].root
  {
    hide ParentsFirst, Distinct;
  }

  /** The first case row of a lineage is written from the task at hand; a row that is there already is kept. */
  lemma EnsureTells(s: Store, task: Task)
    ensures
      var s', r := s.EnsureCase(task), task.root;
      && r in s'.cases && s' == s.(cases := s.cases[r := s'.cases[r]])
      && if r in s.cases then s'.cases[r] == s.cases[r]
         else
           var row := s'.cases[r];
           && row.root == r && row.active == task.id && row.selected == None && row.status == CaseQueued
           && row.delivery == (if Undecided(task) then Pending else task.delivery.value)
           && row.mode == task.mode && row.stopReason == task.stopReason
  {
    if task.root in s.cases {
      assert s.cases == s.cases[task.root := s.cases[task.root]];
    }
  }

  lemma HolderFound(s: Store, key: string, holder: TaskId)
    requires Linked(s.order, s.rows) && holder in s.rows && s.rows[holder].idempotencyKey == Some(key)
    requires forall other :: other in s.rows && other != holder ==> s.rows[other].idempotencyKey != Some(key)
    ensures KeyHolder(s.order, s.rows, key) == Some(holder)
  {
    assert holder in s.order;
    hide Linked;
  }

  /** A creation that repeats a stored key answers with the task that holds it, and syncs the case of that task's root. */
  lemma RepeatedKeyTells(cfg: Settings, s: Store, id: TaskId, key: string, holder: TaskId) returns (active: TaskId)
    requires Linked(s.order, s.rows) && ActiveCount(s) < cfg.maxQueuedTasks && key != ""
    requires holder in s.rows && s.rows[holder].idempotencyKey == Some(key) && s.rows[holder].root in s.rows
    requires forall other :: other in s.rows && other != holder ==> s.rows[other].idempotencyKey != Some(key)
    ensures
      var s', r := Create(cfg, s, id, Some(key)), s.rows[holder].root;
      && KeyHolder(s.order, s.rows, key) == Some(holder)
      && s'.rows == s.rows && s'.order == s.order && s'.scores == s.scores
      && LastDescendant(s.Members(r), s.rows, r, active) && active in s.rows
      && r in s'.cases && s'.cases == s.cases[r := s'.cases[r]] && Tells(s'.cases[r], s.rows[r], s.rows[active])
  {
    hide Linked, ActiveTask, Tells, Projection, LastDescendant, ActiveCount, KeyHolder, Lineage;
    var r := s.rows[holder].root;
    HolderFound(s, key, holder);
    RootOfStored(s, holder);
    active := ActiveTask(s.order, s.rows, r);
    ActiveIsLastDescendant(s, r);
    ProjectionTells(s, r);
    SyncAfterEnsure(s, s.rows[holder]);
  }

  lemma SyncAfterEnsure(s: Store, task: Task)
    requires task.root in s.rows
    ensures s.EnsureCase(task).SyncCase(task.root) == s.(cases := s.cases[task.root := Projection(s.order, s.rows, task.root)])
  {
    hide Projection;
    if task.root !in s.cases {
      var row := s.EnsureCase(task).cases[task.root];
      var next := Projection(s.order, s.rows, task.root);
      assert s.cases[task.root := row][task.root := next] == s.cases[task.root := next];
    }
  }

  lemma PersistSyncs(s: Store, child: Task)
    requires child.root in Persist(s, child).rows
    ensures CaseCurrent(Persist(s, child), child.root)
  {
    SyncRestoresProjection(s.Insert(child).EnsureCase(child), child.root);
  }

  lemma CreateSyncs(cfg: Settings, s: Store, id: TaskId, key: Option<string>)
    requires Structured(s)
    ensures
      var s', r := Create(cfg, s, id, key), Touched(s, CreateStep(id, key));
      s' == s || r !in s'.rows || CaseCurrent(s', r)
  {
    hide Structured, CaseCurrent, Persist, ActiveCount;
    var holder := if key.Some? then KeyHolder(s.order, s.rows, key.value) else None;
    if holder.None? {
      var root := NewRoot(id, key);
      if id in Persist(s, root).rows {
        PersistSyncs(s, root);
      }
    } else {
      var r := s.rows[holder.value].root;
      if r in s.rows {
        SyncRestoresProjection(s.EnsureCase(s.rows[holder.value]), r);
      }
    }
  }

  lemma StepSyncs(cfg: Settings, s: Store, step: Step)
    requires Structured(s) && Enabled(s, step) && Ordinary(step) && (step.RunStep? ==> Touched(s, step) in s.rows)
    ensures
      var s', r := Apply(cfg, s, step), Touched(s, step);
      s' == s || r !in s'.rows || CaseCurrent(s', r)
  {
    hide Structured, CaseCurrent, Persist, RunTask, AcceptedRows, Fresh, Create, ReconcileOrphans;
    match step
    case CreateStep(id, key) => CreateSyncs(cfg, s, id, key);
    case RunStep(id, childId, report) =>
      RunSynced(cfg, s, id, childId, report);
    case ReviseStep(id, childId) =>
      if id in s.rows {
        ChildSyncs(s, FromRevision(s.rows[id], childId));
        ChildSyncs(s, ChallengerChild(s.rows[id], childId));
      }
    case RetryStep(id, childId) =>
      if id in s.rows {
        ChildSyncs(s, FromRevision(s.rows[id], childId));
      }
    case AcceptStep(id) =>
      if CanAccept(s, id) {
        AcceptSyncs(s, id);
      }
    case ReconcileStep(id) => PassSyncs(s, id);
  }

  lemma ChildSyncs(s: Store, child: Task)
    ensures child.root !in Persist(s, child).rows || CaseCurrent(Persist(s, child), child.root)
  {
    hide CaseCurrent, Persist;
    if child.root in Persist(s, child).rows {
      PersistSyncs(s, child);
    }
  }

  lemma PassSyncs(s: Store, id: TaskId)
    ensures
      var s' := ReconcileOrphans(s, id);
      s' == s || id !in s'.rows || CaseCurrent(s', id)
  {
    hide CaseCurrent, OrphanRows, HasNewOrphan, Projection;
    if HasNewOrphan(s, id) && id in OrphanRows(s, id) {
      SyncRestoresProjection(s.(rows := OrphanRows(s, id)), id);
    }
  }

  lemma AcceptSyncs(s: Store, id: TaskId)
    requires CanAccept(s, id)
    ensures s.rows[id].root in Accept(s, id).rows && CaseCurrent(Accept(s, id), s.rows[id].root)
  {
    SyncRestoresProjection(s.(rows := AcceptedRows(s, id)), s.rows[id].root);
  }

  lemma OrphansHaveRoot(s: Store, r: TaskId) returns (id: TaskId)
    requires HasNewOrphan(s, r)
    ensures id in s.rows && s.rows[id].root == r
  {
    id :| id in Orphans(s.order, s.rows, r) && !AlreadyOrphaned(s.rows[id]);
  }

  lemma TouchedIsRoot(cfg: Settings, s: Store, step: Step)
    requires Structured(s) && Enabled(s, step) && Ordinary(step)
    requires Touched(s, step) in Apply(cfg, s, step).rows && Apply(cfg, s, step) != s
    ensures Apply(cfg, s, step).rows[Touched(s, step)].root == Touched(s, step)
  {
    hide Structured, Linked, Moves, HasNewOrphan, OrphanRows, KeyHolder, RunTask, Persist, AcceptedRows, ActiveCount, CanAccept, CanChallenge;
    var s', r := Apply(cfg, s, step), Touched(s, step);
    LinkedOf(s);
    StepMoves(cfg, s, step);
    if r in s.rows {
      var id := step.id;
      if step.ReconcileStep? {
        id := OrphansHaveRoot(s, r);
      } else if step.CreateStep? && step.key.Some? && KeyHolder(s.order, s.rows, step.key.value).Some? {
        id := KeyHolder(s.order, s.rows, step.key.value).value;
      }
      assert id in s.rows && s.rows[id].root == r;
      RootOfStored(s, id);
    }
    hide Apply, Touched;
    MovedRoot(s, s', r);
  }

  lemma MovedRoot(s: Store, s': Store, r: TaskId)
    requires Moves(s, s', r) && r in s'.rows && (r in s.rows ==> s.rows[r].root == r)
    ensures s'.rows[r].root == r
  {
  }

  /** Whatever happened before, cancellations and deletions included: a create, run, revise, retry, accept or reconcile
      request that changes anything leaves the case of its lineage, if its root is stored, telling the root and its last
      descendant. */
  lemma RequestsTell(cfg: Settings, steps: seq<Step>, s: Store, step: Step) returns (active: TaskId)
    requires IsRun(cfg, EMPTY, steps) && s == After(cfg, steps) && Enabled(s, step) && Ordinary(step)
    requires (step.RunStep? ==> Touched(s, step) in s.rows)
    requires Touched(s, step) in Apply(cfg, s, step).rows && Apply(cfg, s, step) != s
    ensures
      var s', r := Apply(cfg, s, step), Touched(s, step);
      && s'.rows[r].root == r
      && LastDescendant(s'.Members(r), s'.rows, r, active) && active in s'.rows
      && r in s'.cases && Tells(s'.cases[r], s'.rows[r], s'.rows[active])
  {
    RunsKeep(cfg, EMPTY, steps);
    StepKeeps(cfg, s, step);
    StepSyncs(cfg, s, step);
    var s', r := Apply(cfg, s, step), Touched(s, step);
    LinkedOf(s');
    TouchedIsRoot(cfg, s, step);
    hide Structured, Linked, Apply, Tells, LastDescendant, ActiveTask, Touched;
    active := ActiveTask(s'.order, s'.rows, r);
    ActiveIsLastDescendant(s', r);
    ProjectionTells(s', r);
  }
}
