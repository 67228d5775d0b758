/** The reliability passes: orphaned branches and stalled agent runs, and that each reaches a fixpoint. */
module Reconciliation {
  import opened Wrappers
  import opened TaskModel
  import opened LineageGraph
  import opened TaskStore
  import opened Lifecycle
  import opened Invariants
  import opened Progress
  import opened Health
  import opened Theorems

  // ----------------------------------------------------------------------- reachability

  /** In every reachable store, the single-pass scan from a stored root finds exactly its descendants, and the
      rest of the lineage is exactly the tasks with a deleted ancestor. */
  lemma ReachabilityIsExact(cfg: Settings, steps: seq<Step>, s: Store, r: TaskId, id: TaskId)
    requires IsRun(cfg, EMPTY, steps) && s == After(cfg, steps)
    requires r in s.rows && s.rows[r].root == r && id in s.rows && s.rows[id].root == r
    ensures id in Reachable(s.order, s.rows, r) <==> Descends(s.Members(r), s.rows, r, id)
    ensures id in Orphans(s.order, s.rows, r) <==> HasDeletedAncestor(s.rows, id)
    ensures id in Reachable(s.order, s.rows, r) <==> id !in Orphans(s.order, s.rows, r)
  {
    RunsKeep(cfg, EMPTY, steps);
    assert id in s.order;
    var k :| 0 <= k < |s.order| && s.order[k] == id;
    hide OneBest, Isolated, RootsPlain;
    OrphanIffDeletedAncestor(s.order, s.rows, r, k);
    ReachableAndOrphansPartition(s.order, s.rows, r, id);
  }

  // ------------------------------------------------------------------------ the orphan pass

  /** After the pass every orphan is failed as such, every other row and the reachable set are untouched, and a
      second pass changes nothing. */
  lemma OrphanPassReachesFixpoint(s: Store, r: TaskId)
    requires Linked(s.order, s.rows)
    ensures
      var s' := ReconcileOrphans(s, r);
      && s'.Members(r) == s.Members(r)
      && Reachable(s'.order, s'.rows, r) == Reachable(s.order, s.rows, r)
      && (forall id :: id in Orphans(s.order, s.rows, r) ==> id in s'.rows && AlreadyOrphaned(s'.rows[id]))
      && (forall id :: id in s.rows && id !in Orphans(s.order, s.rows, r) ==> id in s'.rows && s'.rows[id] == s.rows[id])
      && ReconcileOrphans(s', r) == s'
  {
    var s' := ReconcileOrphans(s, r);
    OrphanPassKeepsLinks(s, r);
    OrphanRowsExactly(s, r);
    hide Linked, Orphans, Reachable, Lineage, OrphanRows;
    assert !HasNewOrphan(s', r);
  }

  lemma OrphanRowsExactly(s: Store, r: TaskId)
    ensures ReconcileOrphans(s, r).rows == OrphanRows(s, r)
    ensures forall id :: id in Orphans(s.order, s.rows, r) ==>
              id in s.rows && id in OrphanRows(s, r) && AlreadyOrphaned(OrphanRows(s, r)[id])
    ensures forall id :: id in s.rows && id !in Orphans(s.order, s.rows, r) ==>
              id in OrphanRows(s, r) && OrphanRows(s, r)[id] == s.rows[id]
  {
    assert forall id :: id in Orphans(s.order, s.rows, r) ==> id in s.Members(r);
    hide Orphans, Reachable, Lineage;
    if !HasNewOrphan(s, r) {
      forall id | id in s.rows ensures OrphanRows(s, r)[id] == s.rows[id] {
        assert id in Orphans(s.order, s.rows, r) ==> AlreadyOrphaned(s.rows[id]);
      }
      assert OrphanRows(s, r) == s.rows;
    }
  }

  lemma OrphanPassKeepsLinks(s: Store, r: TaskId)
    requires Linked(s.order, s.rows)
    ensures
      var s' := ReconcileOrphans(s, r);
      && s'.order == s.order && s'.Members(r) == s.Members(r)
      && Reachable(s'.order, s'.rows, r) == Reachable(s.order, s.rows, r)
      && Orphans(s'.order, s'.rows, r) == Orphans(s.order, s.rows, r)
  {
    OrphanRowsFacts(s, r);
    assert SameLinks(s.order, s.rows, OrphanRows(s, r));
    hide Linked, OrphanRows;
    ReachableFrame(s.order, s.rows, OrphanRows(s, r), r);
  }

  /** A pass that changed anything leaves the case of its root current. */
  lemma OrphanPassSyncs(s: Store, r: TaskId)
    requires r in s.rows && HasNewOrphan(s, r)
    ensures r in ReconcileOrphans(s, r).rows && CaseCurrent(ReconcileOrphans(s, r), r)
  {
  }

  // -------------------------------------------------------------------- stalled agent runs

  datatype AgentRunStatus = RunQueued | RunRunning | RunCompleted | RunFailed | RunCancelled

  datatype AgentRun = AgentRun(
    id: int,
    caseId: TaskId,
    taskId: Option<TaskId>,
    status: AgentRunStatus,
    stopReason: Option<string>)
  {
    predicate Unfinished() {
      status == RunQueued || status == RunRunning
    }
  }

  predicate TerminalStatus(status: Status) {
    status == Completed || status == Failed || status == Cancelled
  }

  predicate RootTerminal(root: Task) {
    root.delivery == Some(Delivered) || root.delivery == Some(Undelivered) || TerminalStatus(root.status)
  }

  /** Deleting tasks deletes the runs that belong to them or to their cases; the others stay in order. */
  function RunsWithout(runs: seq<AgentRun>, ids: seq<TaskId>): seq<AgentRun> {
    if runs == [] then []
    else
      var last := runs[|runs| - 1];
      var rest := RunsWithout(runs[..|runs| - 1], ids);
      if last.caseId in ids || (last.taskId.Some? && last.taskId.value in ids) then rest else rest + [last]
  }

  /** No run of a deleted task or of its case is left, and every other run is. */
  lemma {:induction false} RunsWithoutExactly(runs: seq<AgentRun>, ids: seq<TaskId>, run: AgentRun)
    ensures run in RunsWithout(runs, ids) <==>
            run in runs && run.caseId !in ids && (run.taskId.Some? ==> run.taskId.value !in ids)
  {
    if runs != [] {
      var n := |runs| - 1;
      RunsWithoutExactly(runs[..n], ids, run);
      assert runs == runs[..n] + [runs[n]];
    }
  }

  lemma {:induction false} RunsWithoutNone(runs: seq<AgentRun>)
    ensures RunsWithout(runs, []) == runs
  {
    if runs != [] {
      RunsWithoutNone(runs[..|runs| - 1]);
    }
  }

  lemma {:induction false} RunsWithoutFirst(runs: seq<AgentRun>, ids: seq<TaskId>)
    requires ids != []
    ensures RunsWithout(RunsWithout(runs, [ids[0]]), ids[1..]) == RunsWithout(runs, ids)
  {
    if runs != [] {
      var n := |runs| - 1;
      RunsWithoutFirst(runs[..n], ids);
      assert ids == [ids[0]] + ids[1..];
      var rest := RunsWithout(runs[..n], [ids[0]]);
      assert (rest + [runs[n]])[..|rest|] == rest;
    }
  }

  /** An unfinished run of the case is failed when its task is gone, and cancelled when the case or its task is over. */
  function ReconcileAgentRun(run: AgentRun, root: Task, rows: Rows): AgentRun {
    if run.caseId != root.root || !run.Unfinished() then run
    else if run.taskId.Some? && run.taskId.value !in rows then run.(status := RunFailed, stopReason := Some("task_missing"))
    else if RootTerminal(root) then run.(status := RunCancelled, stopReason := Some("case_terminal"))
    else if run.taskId.Some? && TerminalStatus(rows[run.taskId.value].status) then
      run.(status := RunCancelled, stopReason := Some("task_terminal"))
    else run
  }

  function ReconcileAgentRuns(runs: seq<AgentRun>, root: Task, rows: Rows): seq<AgentRun> {
    if runs == [] then []
    else ReconcileAgentRuns(runs[..|runs| - 1], root, rows) + [ReconcileAgentRun(runs[|runs| - 1], root, rows)]
  }

  lemma {:induction false} PassIsPointwise(runs: seq<AgentRun>, root: Task, rows: Rows)
    ensures
      var after := ReconcileAgentRuns(runs, root, rows);
      |after| == |runs| && forall i :: 0 <= i < |runs| ==> after[i] == ReconcileAgentRun(runs[i], root, rows)
  {
    if runs != [] {
      PassIsPointwise(runs[..|runs| - 1], root, rows);
    }
  }

  /** A second pass over unchanged tasks changes nothing; runs of other cases and finished runs are never touched;
      and a run of the case stays unfinished exactly when it was, its case is not over, and its task is stored and
      not over. */
  lemma StalledRunPassReachesFixpoint(runs: seq<AgentRun>, root: Task, rows: Rows)
    ensures
      var after := ReconcileAgentRuns(runs, root, rows);
      && ReconcileAgentRuns(after, root, rows) == after
      && |after| == |runs|
      && (forall i :: 0 <= i < |runs| && (runs[i].caseId != root.root || !runs[i].Unfinished()) ==> after[i] == runs[i])
      && (forall i :: 0 <= i < |runs| && runs[i].caseId == root.root ==>
            (after[i].Unfinished() <==>
              && runs[i].Unfinished() && !RootTerminal(root)
              && (runs[i].taskId.Some? ==>
                    runs[i].taskId.value in rows && !TerminalStatus(rows[runs[i].taskId.value].status))))
  {
    PassIsPointwise(runs, root, rows);
    PassIsPointwise(ReconcileAgentRuns(runs, root, rows), root, rows);
    hide ReconcileAgentRuns;
  }

  ghost predicate Over(task: Task) {
    task.status == Completed || task.status == Failed || task.status == Cancelled
  }

  /** What the pass makes of each run, told from the rows: a waiting or running run of the case fails when it names a
      task that is gone; otherwise it is cancelled because the root is delivered, given up or over, and else because its
      task is over; every other run stays. */
  lemma StalledRunsTell(runs: seq<AgentRun>, root: Task, rows: Rows, i: nat)
    requires i < |runs|
    ensures |ReconcileAgentRuns(runs, root, rows)| == |runs|
    ensures
      var run, after := runs[i], ReconcileAgentRuns(runs, root, rows)[i];
      var stalled := run.caseId == root.root && (run.status == RunQueued || run.status == RunRunning);
      var gone := run.taskId != None && run.taskId.value !in rows;
      var closed := root.delivery == Some(Delivered) || root.delivery == Some(Undelivered) || Over(root);
      var over := run.taskId != None && run.taskId.value in rows && Over(rows[run.taskId.value]);
      && (stalled && gone ==> after == run.(status := RunFailed, stopReason := Some("task_missing")))
      && (stalled && !gone && closed ==> after == run.(status := RunCancelled, stopReason := Some("case_terminal")))
      && (stalled && !gone && !closed && over ==> after == run.(status := RunCancelled, stopReason := Some("task_terminal")))
      && (!stalled || (!gone && !closed && !over) ==> after == run)
  {
    PassIsPointwise(runs, root, rows);
    hide ReconcileAgentRuns;
  }
}
