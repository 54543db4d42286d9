/** Collecting a goal's sprint and everything below it through parent pointers, cycles included. */
module SprintClosure {
  import opened Text

  datatype Sprint = Sprint(id: string, parentId: Option<string>)

  /** A row counts as a child when its parent id is set and not empty. */
  predicate HasParent(row: Sprint, parent: string) {
    row.parentId == Some(parent) && parent != ""
  }

  /** The ids whose parent is `parent`, in row order. */
  function ChildrenOf(rows: seq<Sprint>, parent: string): (children: seq<string>)
    ensures forall c :: c in children <==> IsChild(rows, parent, c)
  {
    if rows == [] then []
    else
      var before := ChildrenOf(rows[..|rows| - 1], parent);
      var last := rows[|rows| - 1];
      assert rows == rows[..|rows| - 1] + [last];
      if HasParent(last, parent) then before + [last.id] else before
  }

  predicate IsChild(rows: seq<Sprint>, parent: string, child: string) {
    exists row :: row in rows && HasParent(row, parent) && row.id == child
  }

  /** A walk down from parent to child. */
  ghost predicate Descent(rows: seq<Sprint>, path: seq<string>) {
    path != [] && forall i :: 0 <= i < |path| - 1 ==> IsChild(rows, path[i], path[i + 1])
  }

  ghost predicate DescentTo(rows: seq<Sprint>, root: string, id: string, path: seq<string>) {
    Descent(rows, path) && path[0] == root && path[|path| - 1] == id
  }

  ghost predicate Reachable(rows: seq<Sprint>, root: string, id: string) {
    exists path :: DescentTo(rows, root, id, path)
  }

  lemma ReachableRoot(rows: seq<Sprint>, root: string)
    ensures Reachable(rows, root, root)
  {
    assert DescentTo(rows, root, root, [root]);
  }

  lemma ReachableChild(rows: seq<Sprint>, root: string, id: string, child: string)
    requires Reachable(rows, root, id) && IsChild(rows, id, child)
    ensures Reachable(rows, root, child)
  {
    var path :| DescentTo(rows, root, id, path);
    assert DescentTo(rows, root, child, path + [child]);
  }

  /** A set that holds the root and is closed under children holds everything reachable. */
  lemma {:induction false} ClosedHoldsDescent(rows: seq<Sprint>, path: seq<string>, ids: seq<string>)
    requires Descent(rows, path) && path[0] in ids
    requires forall x, c :: x in ids && IsChild(rows, x, c) ==> c in ids
    ensures path[|path| - 1] in ids
    decreases |path|
  {
    if |path| > 1 {
      assert IsChild(rows, path[0], path[1]);
      ClosedHoldsDescent(rows, path[1..], ids);
    }
  }

  predicate Distinct(s: seq<string>) {
    forall i, j :: 0 <= i < j < |s| ==> s[i] != s[j]
  }

  method GroupByParent(rows: seq<Sprint>) returns (children: map<string, seq<string>>)
    ensures forall p :: (if p in children then children[p] else []) == ChildrenOf(rows, p)
  {
    children := map[];
    for i := 0 to |rows|
      invariant forall p :: (if p in children then children[p] else []) == ChildrenOf(rows[..i], p)
    {
      var row := rows[i];
      ghost var before := children;
      assert rows[..i + 1][..i] == rows[..i] && rows[..i + 1][i] == row;
      if row.parentId.None? || row.parentId.value == "" { continue; }
      var parent := row.parentId.value;
      var current := if parent in children then children[parent] else [];
      children := children[parent := current + [row.id]];
      forall p ensures (if p in children then children[p] else []) == ChildrenOf(rows[..i + 1], p) {
        assert (if p in before then before[p] else []) == ChildrenOf(rows[..i], p);
      }
    }
    assert rows[..|rows|] == rows;
  }

  /** `collectChildSprintIds`. */
  method CollectChildSprintIds(rows: seq<Sprint>, rootId: string) returns (result: seq<string>)
    ensures result != [] && result[0] == rootId
    ensures Distinct(result)
    ensures forall id :: id in result <==> Reachable(rows, rootId, id)
  {
    var childrenByParent := GroupByParent(rows);
    result := [];
    var queue := [rootId];
    ghost var all := {rootId} + set row | row in rows :: row.id;
    ReachableRoot(rows, rootId);
    while queue != []
      invariant Distinct(result)
      invariant if result == [] then queue == [rootId] else result[0] == rootId
      invariant forall id :: id in result || id in queue ==> id in all && Reachable(rows, rootId, id)
      invariant forall x, c :: x in result && IsChild(rows, x, c) ==> c in result || c in queue
      decreases all - (set id | id in result), |queue|
    {
      var id := queue[0];
      ghost var waiting := queue;
      queue := queue[1..];
      assert forall x :: x in waiting <==> x == id || x in queue;
      if id in result { continue; }
      ghost var before := result;
      result := result + [id];
      var children := if id in childrenByParent then childrenByParent[id] else [];
      queue := queue + children;
      forall c | IsChild(rows, id, c) ensures c in all { }
      forall c | c in children ensures Reachable(rows, rootId, c) { ReachableChild(rows, rootId, id, c); }
      assert id in all - (set x | x in before) && id !in all - (set x | x in result);
    }
    forall id | Reachable(rows, rootId, id) ensures id in result {
      var path :| DescentTo(rows, rootId, id, path);
      ClosedHoldsDescent(rows, path, result);
    }
  }
}
