/** Lineages in creation order, the single-pass reachability scan over them, and the proof
    that the scan is the transitive closure of the parent links. */
module LineageGraph {
  import opened Wrappers
  import opened TaskModel

  type Rows = map<TaskId, Task>

  /** The tasks of one lineage, in creation order. */
  function Lineage(order: seq<TaskId>, rows: Rows, root: TaskId): (ids: seq<TaskId>)
    ensures forall id {:trigger id in ids} :: id in ids <==> id in order && id in rows && rows[id].root == root
    ensures |ids| <= |order|
  {
    if order == [] then []
    else
      var last := order[|order| - 1];
      var earlier := Lineage(order[..|order| - 1], rows, root);
      if last in rows && rows[last].root == root then earlier + [last] else earlier
  }

  /** The scan over a lineage: the root first, then each task whose parent was already kept. */
  function Scan(ids: seq<TaskId>, rows: Rows, root: TaskId): (kept: seq<TaskId>)
    ensures |kept| > 0 && kept[0] == root
    ensures forall id :: id in kept ==> id == root || id in ids
  {
    if ids == [] then [root]
    else
      var last := ids[|ids| - 1];
      var kept := Scan(ids[..|ids| - 1], rows, root);
      if last != root && last in rows && rows[last].parent.Some? && rows[last].parent.value in kept then kept + [last]
      else kept
  }

  function Reachable(order: seq<TaskId>, rows: Rows, root: TaskId): seq<TaskId> {
    var ids := Lineage(order, rows, root);
    if root in ids then Scan(ids, rows, root) else []
  }

  function Orphans(order: seq<TaskId>, rows: Rows, root: TaskId): (ids: seq<TaskId>)
    ensures forall id {:trigger id in ids} :: id in ids <==> id in Lineage(order, rows, root) && id !in Reachable(order, rows, root)
  {
    Without(Lineage(order, rows, root), Reachable(order, rows, root))
  }

  function Without(ids: seq<TaskId>, drop: seq<TaskId>): (rest: seq<TaskId>)
    ensures forall id {:trigger id in rest} :: id in rest <==> id in ids && id !in drop
  {
    if ids == [] then []
    else
      var last := ids[|ids| - 1];
      var rest := Without(ids[..|ids| - 1], drop);
      if last in drop then rest else rest + [last]
  }

  // --------------------------------------------------------------- the closure, as a path

  /** A path of parent links from the root down to a task, inside one set of tasks. */
  ghost predicate IsPath(path: seq<TaskId>, ids: seq<TaskId>, rows: Rows, root: TaskId, id: TaskId) {
    && |path| > 0 && path[0] == root && path[|path| - 1] == id
    && forall i :: 0 < i < |path| ==>
         path[i] in ids && path[i] in rows && rows[path[i]].parent == Some(path[i - 1])
  }

  ghost predicate Descends(ids: seq<TaskId>, rows: Rows, root: TaskId, id: TaskId) {
    exists path :: IsPath(path, ids, rows, root, id)
  }

  /** A chain of parent links that starts at a task and leaves the table. */
  ghost predicate IsBrokenChain(chain: seq<TaskId>, rows: Rows, id: TaskId) {
    && |chain| > 1 && chain[0] == id && chain[|chain| - 1] !in rows
    && forall i :: 0 <= i < |chain| - 1 ==> chain[i] in rows && rows[chain[i]].parent == Some(chain[i + 1])
  }

  ghost predicate HasDeletedAncestor(rows: Rows, id: TaskId) {
    exists chain :: IsBrokenChain(chain, rows, id)
  }

  // ------------------------------------------------------------------ order in the table

  ghost predicate Distinct(ids: seq<TaskId>) {
    forall i, j :: 0 <= i < j < |ids| ==> ids[i] != ids[j]
  }

  /** Every parent that is still listed comes before its children. */
  ghost predicate ParentsFirst(ids: seq<TaskId>, rows: Rows) {
    forall i, j :: 0 <= i < |ids| && 0 <= j < |ids| && ids[j] in rows && rows[ids[j]].parent == Some(ids[i]) ==> i < j
  }

  lemma {:induction false} LineagePosition(order: seq<TaskId>, rows: Rows, root: TaskId, i: nat, j: nat)
    returns (p: nat, q: nat)
    requires Distinct(order)
    requires i < j < |order|
    requires order[i] in Lineage(order, rows, root) && order[j] in Lineage(order, rows, root)
    ensures p < q < |Lineage(order, rows, root)|
    ensures Lineage(order, rows, root)[p] == order[i] && Lineage(order, rows, root)[q] == order[j]
  {
    var n := |order| - 1;
    var shorter := order[..n];
    var ids := Lineage(order, rows, root);
    if j < n {
      p, q := LineagePosition(shorter, rows, root, i, j);
    } else {
      assert order[i] == shorter[i];
      p :| 0 <= p < |Lineage(shorter, rows, root)| && Lineage(shorter, rows, root)[p] == order[i];
      q := |ids| - 1;
    }
  }

  lemma {:induction false} LineageDistinct(order: seq<TaskId>, rows: Rows, root: TaskId)
    requires Distinct(order)
    ensures Distinct(Lineage(order, rows, root))
  {
    if order != [] {
      var n := |order| - 1;
      LineageDistinct(order[..n], rows, root);
      var earlier := Lineage(order[..n], rows, root);
      assert order[n] !in order[..n];
      assert forall k :: 0 <= k < |earlier| ==> earlier[k] in earlier;
    }
  }

  lemma LineageParentsFirst(order: seq<TaskId>, rows: Rows, root: TaskId)
    requires Distinct(order) && ParentsFirst(order, rows)
    ensures ParentsFirst(Lineage(order, rows, root), rows)
  {
    var ids := Lineage(order, rows, root);
    LineageDistinct(order, rows, root);
    forall i, j | 0 <= i < |ids| && 0 <= j < |ids| && ids[j] in rows && rows[ids[j]].parent == Some(ids[i])
      ensures i < j
    {
      assert ids[i] in ids && ids[j] in ids;
      var a :| 0 <= a < |order| && order[a] == ids[i];
      var b :| 0 <= b < |order| && order[b] == ids[j];
      assert a < b;
      var p, q := LineagePosition(order, rows, root, a, b);
      assert p == i && q == j;
    }
  }

  // ------------------------------------------------------- the scan is exactly the closure

  lemma PathWidens(path: seq<TaskId>, ids: seq<TaskId>, wider: seq<TaskId>, rows: Rows, root: TaskId, id: TaskId)
    requires IsPath(path, ids, rows, root, id) && ids <= wider
    ensures IsPath(path, wider, rows, root, id)
  {
  }

  /** Whatever the scan keeps is a descendant of the root; no order is needed for this half. */
  lemma {:induction false} ScanIsSound(ids: seq<TaskId>, rows: Rows, root: TaskId, id: TaskId)
    requires id in Scan(ids, rows, root)
    ensures Descends(ids, rows, root, id)
  {
    if ids == [] {
      assert IsPath([root], ids, rows, root, id);
    } else {
      var n := |ids| - 1;
      var last := ids[n];
      var earlier := Scan(ids[..n], rows, root);
      var near := if id in earlier then id else rows[last].parent.value;
      ScanIsSound(ids[..n], rows, root, near);
      var path :| IsPath(path, ids[..n], rows, root, near);
      PathWidens(path, ids[..n], ids, rows, root, near);
      if id !in earlier {
        assert IsPath(path + [last], ids, rows, root, last);
      }
    }
  }

  lemma {:induction false} ScanGrows(ids: seq<TaskId>, n: nat, rows: Rows, root: TaskId)
    requires n <= |ids|
    ensures forall id :: id in Scan(ids[..n], rows, root) ==> id in Scan(ids, rows, root)
    decreases |ids| - n
  {
    if n == |ids| {
      assert ids[..n] == ids;
    } else {
      assert ids[..n + 1][..n] == ids[..n];
      ScanGrows(ids, n + 1, rows, root);
    }
  }

  /** With parents before children, a descendant is already kept when its own position is scanned. */
  lemma {:induction false} KeptAtItsPosition(ids: seq<TaskId>, rows: Rows, root: TaskId, path: seq<TaskId>, k: nat)
    requires ParentsFirst(ids, rows) && root in ids && k < |ids|
    requires IsPath(path, ids, rows, root, ids[k])
    ensures ids[k] in Scan(ids[..k + 1], rows, root)
    decreases |path|
  {
    if |path| > 1 {
      var parent := path[|path| - 2];
      assert parent in ids;
      var i :| 0 <= i < |ids| && ids[i] == parent;
      assert i < k;
      assert IsPath(path[..|path| - 1], ids, rows, root, ids[i]);
      KeptAtItsPosition(ids, rows, root, path[..|path| - 1], i);
      assert ids[..k][..i + 1] == ids[..i + 1];
      ScanGrows(ids[..k], i + 1, rows, root);
      assert ids[..k + 1][..k] == ids[..k];
    }
  }

  /** The single pass equals the transitive closure of the parent links from the root. */
  lemma ScanIsExact(ids: seq<TaskId>, rows: Rows, root: TaskId, id: TaskId)
    requires ParentsFirst(ids, rows) && root in ids
    ensures id in Scan(ids, rows, root) <==> Descends(ids, rows, root, id)
  {
    if id in Scan(ids, rows, root) {
      ScanIsSound(ids, rows, root, id);
    }
    if Descends(ids, rows, root, id) {
      var path :| IsPath(path, ids, rows, root, id);
      assert id in ids;
      var k :| 0 <= k < |ids| && ids[k] == id;
      KeptAtItsPosition(ids, rows, root, path, k);
      ScanGrows(ids, k + 1, rows, root);
    }
  }

  /** Without that order the scan can miss a descendant: a child listed before its parent. */
  lemma ScanNeedsParentsFirst(child: TaskId, parent: TaskId, root: TaskId, rows: Rows)
    requires child != parent && parent != root && child != root
    requires child in rows && rows[child].parent == Some(parent)
    requires parent in rows && rows[parent].parent == Some(root)
    ensures Descends([root, child, parent], rows, root, child)
    ensures child !in Scan([root, child, parent], rows, root)
  {
    var ids := [root, child, parent];
    assert IsPath([root, parent, child], ids, rows, root, child);
    assert ids[..2] == [root, child] && ids[..2][..1] == [root] && ids[..1][..0] == [];
    assert Scan(ids[..1], rows, root) == [root];
    assert Scan(ids[..2], rows, root) == [root];
  }

  // --------------------------------------------------------------------------- orphans

  /** What every stored lineage satisfies, whatever has been deleted from it. */
  ghost predicate Linked(order: seq<TaskId>, rows: Rows) {
    && Distinct(order)
    && (forall id :: id in order <==> id in rows)
    && ParentsFirst(order, rows)
    && (forall id :: id in rows ==> rows[id].id == id)
    && (forall id :: id in rows ==> (rows[id].parent.None? <==> rows[id].root == id))
    && (forall a, b :: a in rows && b in rows && rows[a].parent == Some(b) ==> rows[a].root == rows[b].root)
    && (forall a, b :: a in rows && b in rows && rows[a].root == b ==> rows[b].root == b)
  }

  lemma DescendsThroughParent(ids: seq<TaskId>, rows: Rows, root: TaskId, id: TaskId)
    requires id in ids && id in rows && id != root && rows[id].parent.Some?
    ensures Descends(ids, rows, root, id) <==> Descends(ids, rows, root, rows[id].parent.value)
  {
    var parent := rows[id].parent.value;
    if Descends(ids, rows, root, id) {
      var path :| IsPath(path, ids, rows, root, id);
      assert IsPath(path[..|path| - 1], ids, rows, root, parent);
    }
    if Descends(ids, rows, root, parent) {
      var path :| IsPath(path, ids, rows, root, parent);
      assert IsPath(path + [id], ids, rows, root, id);
    }
  }

  lemma BrokenThroughParent(rows: Rows, id: TaskId)
    requires id in rows && rows[id].parent.Some?
    ensures HasDeletedAncestor(rows, id) <==>
            rows[id].parent.value !in rows || HasDeletedAncestor(rows, rows[id].parent.value)
  {
    var parent := rows[id].parent.value;
    if HasDeletedAncestor(rows, id) && parent in rows {
      var chain :| IsBrokenChain(chain, rows, id);
      assert chain[1] == parent;
      assert IsBrokenChain(chain[1..], rows, parent);
    }
    if parent !in rows {
      assert IsBrokenChain([id, parent], rows, id);
    } else if HasDeletedAncestor(rows, parent) {
      var chain :| IsBrokenChain(chain, rows, parent);
      assert IsBrokenChain([id] + chain, rows, id);
    }
  }

  lemma RootHasNoDeletedAncestor(rows: Rows, id: TaskId)
    requires id in rows && rows[id].parent.None?
    ensures !HasDeletedAncestor(rows, id)
  {
    forall chain | |chain| > 1 && chain[0] == id ensures !IsBrokenChain(chain, rows, id) {
      assert rows[chain[0]].parent != Some(chain[1]);
    }
  }

  /** With the root present, a task of the lineage is an orphan exactly when some ancestor was deleted. */
  lemma {:induction false} OrphanIffDeletedAncestor(order: seq<TaskId>, rows: Rows, root: TaskId, k: nat)
    requires Linked(order, rows) && root in rows && rows[root].root == root
    requires k < |order| && rows[order[k]].root == root
    ensures order[k] in Orphans(order, rows, root) <==> HasDeletedAncestor(rows, order[k])
    ensures order[k] in Reachable(order, rows, root) <==> Descends(Lineage(order, rows, root), rows, root, order[k])
    decreases k
  {
    var id := order[k];
    var ids := Lineage(order, rows, root);
    LineageParentsFirst(order, rows, root);
    ScanIsExact(ids, rows, root, id);
    if id != root {
      var parent := rows[id].parent.value;
      DescendsThroughParent(ids, rows, root, id);
      BrokenThroughParent(rows, id);
      ScanIsExact(ids, rows, root, parent);
      if parent in rows {
        var j :| 0 <= j < |order| && order[j] == parent;
        OrphanIffDeletedAncestor(order, rows, root, j);
      } else {
        assert parent !in ids;
      }
    } else {
      RootHasNoDeletedAncestor(rows, id);
    }
  }

  /** Reachable and orphaned tasks partition the lineage. */
  lemma ReachableAndOrphansPartition(order: seq<TaskId>, rows: Rows, root: TaskId, id: TaskId)
    ensures id in Lineage(order, rows, root) <==> (id in Reachable(order, rows, root) || id in Orphans(order, rows, root))
    ensures !(id in Reachable(order, rows, root) && id in Orphans(order, rows, root))
  {
  }

  // ------------------------------------------------------------------------------ frames

  /** The scan looks only at the lineage and parent columns. */
  ghost predicate SameLinks(ids: seq<TaskId>, rows: Rows, rows': Rows) {
    forall id :: id in ids ==>
      (id in rows <==> id in rows') && (id in rows ==> rows[id].root == rows'[id].root && rows[id].parent == rows'[id].parent)
  }

  lemma {:induction false} LineageFrame(order: seq<TaskId>, rows: Rows, rows': Rows, root: TaskId)
    requires SameLinks(order, rows, rows')
    ensures Lineage(order, rows, root) == Lineage(order, rows', root)
  {
    if order != [] {
      LineageFrame(order[..|order| - 1], rows, rows', root);
    }
  }

  lemma {:induction false} ScanFrame(ids: seq<TaskId>, rows: Rows, rows': Rows, root: TaskId)
    requires SameLinks(ids, rows, rows')
    ensures Scan(ids, rows, root) == Scan(ids, rows', root)
  {
    if ids != [] {
      ScanFrame(ids[..|ids| - 1], rows, rows', root);
    }
  }

  lemma ReachableFrame(order: seq<TaskId>, rows: Rows, rows': Rows, root: TaskId)
    requires SameLinks(order, rows, rows')
    ensures Lineage(order, rows, root) == Lineage(order, rows', root)
    ensures Reachable(order, rows, root) == Reachable(order, rows', root)
  {
    LineageFrame(order, rows, rows', root);
    ScanFrame(Lineage(order, rows, root), rows, rows', root);
  }
}
