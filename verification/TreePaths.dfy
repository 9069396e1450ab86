/** Child-index paths, ancestry and differences (agent/tree/tree.go, agent/tree/diff.go,
    agent/types/node.go). */
module TreePaths {
  import opened Messages
  import opened TreeModel
  import opened TreeOps
  import opened TreeRuns

  type TreePath = seq<int>

  /** NodePath: the index of each node of the path among its parent's children. */
  function NodePath(t: TreeView, n: NodeId): TreePath
    requires Inv(t) && n in t.nodes
    decreases t.nodes[n].depth
  {
    assert ParentOk(t.nodes, n) && NodeOk(t, n);
    if t.nodes[n].parent == "" then []
    else
      ListedUnderParent(t, n);
      NodePath(t, t.nodes[n].parent) + [IndexIn(Kids(t, t.nodes[n].parent), n)]
  }

  lemma ListedUnderParent(t: TreeView, n: NodeId)
    requires Inv(t) && n in t.nodes && t.nodes[n].parent != ""
    ensures n in Kids(t, t.nodes[n].parent)
  {
    assert NodeOk(t, n) && KidsOk(t, t.nodes[n].parent);
  }

  /** Follows child indices down from the root. */
  function Descend(t: TreeView, path: TreePath): Option<NodeId> {
    if path == [] then Some(t.root)
    else
      var p, i := Descend(t, path[..|path| - 1]), path[|path| - 1];
      if p.Some? && 0 <= i < |Kids(t, p.value)| then Some(Kids(t, p.value)[i]) else None
  }

  /** NodePath leads back to the node. */
  lemma {:induction false} DescendNodePath(t: TreeView, n: NodeId)
    requires Inv(t) && n in t.nodes
    ensures Descend(t, NodePath(t, n)) == Some(n)
    decreases t.nodes[n].depth
  {
    assert ParentOk(t.nodes, n) && NodeOk(t, n);
    if t.nodes[n].parent != "" {
      ListedUnderParent(t, n);
      DescendNodePath(t, t.nodes[n].parent);
      var p := NodePath(t, n);
      assert p[..|p| - 1] == NodePath(t, t.nodes[n].parent);
    }
  }

  lemma NodePathInjective(t: TreeView, m: NodeId, n: NodeId)
    requires Inv(t) && m in t.nodes && n in t.nodes
    ensures NodePath(t, m) == NodePath(t, n) <==> m == n
  {
    DescendNodePath(t, m);
    DescendNodePath(t, n);
  }

  /** Whatever happens to the tree later, the path of a node stays what it is. */
  lemma {:induction false} NodePathStable(t: TreeView, t': TreeView, n: NodeId)
    requires Inv(t) && Inv(t') && Grows(t, t') && n in t.nodes
    ensures NodePath(t', n) == NodePath(t, n)
    decreases t.nodes[n].depth
  {
    assert ParentOk(t.nodes, n) && NodeOk(t, n);
    if t.nodes[n].parent != "" {
      var p := t.nodes[n].parent;
      NodePathStable(t, t', p);
      ListedUnderParent(t, n);
      IndexInExtension(Kids(t, p), Kids(t', p), n);
    }
  }

  lemma {:induction false} IndexInExtension(s: seq<NodeId>, s': seq<NodeId>, x: NodeId)
    requires s <= s' && x in s
    ensures x in s' && IndexIn(s', x) == IndexIn(s, x)
  {
    if s[0] != x {
      assert s'[1..][..|s| - 1] == s[1..];
      IndexInExtension(s[1..], s'[1..], x);
    }
  }

  /** No later operation changes the path of a node. */
  lemma NodePathKept(t: TreeView, op: Op, n: NodeId)
    requires Inv(t) && OracleOk(t, op) && n in t.nodes
    ensures Inv(Step(t, op)) && n in Step(t, op).nodes && NodePath(Step(t, op), n) == NodePath(t, n)
  {
    StepKeepsInv(t, op);
    NodePathStable(t, Step(t, op), n);
  }

  // ---- ancestry ----

  /** IsAncestorOf: a strict prefix. */
  method IsAncestorOf(p: TreePath, other: TreePath) returns (r: bool)
    ensures r <==> p < other
  {
    if |p| >= |other| {
      return false;
    }
    for i := 0 to |p|
      invariant p[..i] == other[..i]
    {
      if other[i] != p[i] {
        return false;
      }
    }
    assert p[..|p|] == p;
    return true;
  }

  /** Parent: one level up; nil from the root and its children. */
  function ParentPath(p: TreePath): TreePath {
    if |p| <= 1 then [] else p[..|p| - 1]
  }

  /** Parent of a node's path is the path of its parent. */
  lemma ParentPathIsParents(t: TreeView, n: NodeId)
    requires Inv(t) && n in t.nodes && t.nodes[n].parent != ""
    ensures t.nodes[n].parent in t.nodes && ParentPath(NodePath(t, n)) == NodePath(t, t.nodes[n].parent)
  {
    assert ParentOk(t.nodes, n);
    ListedUnderParent(t, n);
    var p := NodePath(t, n);
    assert p[..|p| - 1] == NodePath(t, t.nodes[n].parent);
  }

  lemma {:induction false} NodePathLength(t: TreeView, n: NodeId)
    requires Inv(t) && n in t.nodes
    ensures |NodePath(t, n)| == |PathOf(t.nodes, n)| - 1
    decreases t.nodes[n].depth
  {
    assert ParentOk(t.nodes, n);
    if t.nodes[n].parent != "" {
      NodePathLength(t, t.nodes[n].parent);
    }
  }

  /** The node path of an ancestor is the prefix that is as long as the ancestor is deep. */
  lemma {:induction false} NodePathOfAncestor(t: TreeView, n: NodeId, i: nat)
    requires Inv(t) && n in t.nodes && i < |PathOf(t.nodes, n)|
    ensures PathOf(t.nodes, n)[i] in t.nodes && |NodePath(t, n)| == |PathOf(t.nodes, n)| - 1
    ensures NodePath(t, PathOf(t.nodes, n)[i]) == NodePath(t, n)[..i]
    decreases t.nodes[n].depth
  {
    assert ParentOk(t.nodes, n);
    NodePathLength(t, n);
    if t.nodes[n].parent == "" || i == |PathOf(t.nodes, n)| - 1 {
      assert NodePath(t, n)[..i] == NodePath(t, n);
    } else {
      NodePathOfAncestor(t, t.nodes[n].parent, i);
      assert NodePath(t, n)[..i] == NodePath(t, t.nodes[n].parent)[..i];
    }
  }

  /** IsAncestorOf on node paths is being a proper ancestor. */
  lemma AncestorIffPrefix(t: TreeView, a: NodeId, b: NodeId)
    requires Inv(t) && a in t.nodes && b in t.nodes
    ensures NodePath(t, a) < NodePath(t, b) <==> a != b && a in PathOf(t.nodes, b)
  {
    var pa, pb := NodePath(t, a), NodePath(t, b);
    if a in PathOf(t.nodes, b) {
      var i :| 0 <= i < |PathOf(t.nodes, b)| && PathOf(t.nodes, b)[i] == a;
      NodePathOfAncestor(t, b, i);
      NodePathInjective(t, a, b);
    }
    if pa < pb {
      NodePathLength(t, b);
      NodePathOfAncestor(t, b, |pa|);
      var c := PathOf(t.nodes, b)[|pa|];
      assert NodePath(t, c) == pb[..|pa|] == pa;
      NodePathInjective(t, a, c);
    }
  }

  // ---- differences ----

  datatype DiffOp = Added | Removed

  datatype NodeDiff = NodeDiff(op: DiffOp, node: NodeId, path: TreePath, message: Message, depth: nat)

  datatype TreeDiff = TreeDiff(commonAncestor: NodeId, commonPath: seq<NodeId>, added: seq<NodeDiff>,
                               removed: seq<NodeDiff>)

  function Entry(t: TreeView, op: DiffOp, n: NodeId): NodeDiff
    requires Inv(t) && n in t.nodes
  {
    NodeDiff(op, n, NodePath(t, n), t.nodes[n].message, t.nodes[n].depth)
  }

  ghost predicate AllNodes(t: TreeView, ids: seq<NodeId>) {
    forall i | 0 <= i < |ids| :: ids[i] in t.nodes
  }

  function Entries(t: TreeView, op: DiffOp, ids: seq<NodeId>): seq<NodeDiff>
    requires Inv(t) && AllNodes(t, ids)
  {
    seq(|ids|, i requires 0 <= i < |ids| => Entry(t, op, ids[i]))
  }

  /** How long two paths agree. */
  function CommonLength(p: seq<NodeId>, q: seq<NodeId>): (n: nat)
    ensures n <= |p| && n <= |q| && forall k | 0 <= k < n :: p[k] == q[k]
    ensures n < |p| && n < |q| ==> p[n] != q[n]
  {
    if |p| == 0 || |q| == 0 || p[0] != q[0] then 0
    else
      CommonLength(p[1..], q[1..]) + 1
  }

  lemma PathsAgree(p: seq<NodeId>, q: seq<NodeId>)
    ensures p[..CommonLength(p, q)] == q[..CommonLength(p, q)]
  {
  }

  lemma {:induction false} CommonAtLeast(p: seq<NodeId>, q: seq<NodeId>, k: nat)
    requires k <= |p| && k <= |q| && p[..k] == q[..k]
    ensures k <= CommonLength(p, q)
  {
    if k > 0 {
      assert p[0] == p[..k][0] && q[0] == q[..k][0];
      assert p[1..][..k - 1] == p[..k][1..] && q[1..][..k - 1] == q[..k][1..];
      CommonAtLeast(p[1..], q[1..], k - 1);
    }
  }

  lemma {:induction false} CommonSymmetric(p: seq<NodeId>, q: seq<NodeId>)
    ensures CommonLength(p, q) == CommonLength(q, p)
  {
    if |p| > 0 && |q| > 0 && p[0] == q[0] {
      CommonSymmetric(p[1..], q[1..]);
    }
  }

  /** Diff, of two nodes of the tree. */
  function Diff(t: TreeView, from: NodeId, to: NodeId): TreeDiff
    requires Inv(t) && from in t.nodes && to in t.nodes
  {
    PathSteps(t.nodes, from);
    PathSteps(t.nodes, to);
    PathFromRoot(t, from);
    PathFromRoot(t, to);
    var p, q := PathOf(t.nodes, from), PathOf(t.nodes, to);
    var n := CommonLength(p, q);
    TreeDiff(p[n - 1], p[..n], Entries(t, Added, q[n..]), Entries(t, Removed, p[n..]))
  }

  ghost function Ids(entries: seq<NodeDiff>): seq<NodeId> {
    seq(|entries|, i requires 0 <= i < |entries| => entries[i].node)
  }

  lemma IdsOfEntries(t: TreeView, op: DiffOp, ids: seq<NodeId>)
    requires Inv(t) && AllNodes(t, ids)
    ensures Ids(Entries(t, op, ids)) == ids
  {
  }

  lemma DiffSides(t: TreeView, from: NodeId, to: NodeId)
    requires Inv(t) && from in t.nodes && to in t.nodes
    ensures var d, p, q := Diff(t, from, to), PathOf(t.nodes, from), PathOf(t.nodes, to);
      && 0 < |d.commonPath| == CommonLength(p, q) && d.commonAncestor == p[|d.commonPath| - 1]
      && d.commonPath == p[..|d.commonPath|] && d.commonPath == q[..|d.commonPath|]
      && Ids(d.removed) == p[|d.commonPath|..] && Ids(d.added) == q[|d.commonPath|..]
  {
    var p, q := PathOf(t.nodes, from), PathOf(t.nodes, to);
    var n := CommonLength(p, q);
    PathSteps(t.nodes, from);
    PathSteps(t.nodes, to);
    PathFromRoot(t, from);
    PathFromRoot(t, to);
    IdsOfEntries(t, Removed, p[n..]);
    IdsOfEntries(t, Added, q[n..]);
    PathsAgree(p, q);
  }

  /** Diff reports the deepest common ancestor, and splits both paths at it. */
  lemma DiffSplitsPaths(t: TreeView, from: NodeId, to: NodeId)
    requires Inv(t) && from in t.nodes && to in t.nodes
    ensures var d := Diff(t, from, to);
      && d.commonPath + Ids(d.removed) == PathOf(t.nodes, from)
      && d.commonPath + Ids(d.added) == PathOf(t.nodes, to)
      && d.commonAncestor in t.nodes && d.commonAncestor in PathOf(t.nodes, from)
        && d.commonAncestor in PathOf(t.nodes, to)
      && d.commonPath == PathOf(t.nodes, d.commonAncestor)
  {
    var d, p, q := Diff(t, from, to), PathOf(t.nodes, from), PathOf(t.nodes, to);
    var n := |d.commonPath|;
    DiffSides(t, from, to);
    assert p[n - 1] == p[..n][n - 1] == q[..n][n - 1] == q[n - 1];
    PathPrefix(t.nodes, from, n - 1);
    SplitAt(p, n);
    SplitAt(q, n);
  }

  /** An entry of a difference is about a node of the tree: its message, its depth, and a path that leads
      to it. */
  ghost predicate EntrySays(t: TreeView, op: DiffOp, e: NodeDiff) {
    && e.op == op && e.node in t.nodes && Descend(t, e.path) == Some(e.node)
    && e.message == t.nodes[e.node].message && e.depth == t.nodes[e.node].depth
  }

  lemma EntriesSay(t: TreeView, op: DiffOp, ids: seq<NodeId>)
    requires Inv(t) && AllNodes(t, ids)
    ensures forall e | e in Entries(t, op, ids) :: EntrySays(t, op, e)
  {
    forall i | 0 <= i < |ids| ensures EntrySays(t, op, Entry(t, op, ids[i])) {
      DescendNodePath(t, ids[i]);
    }
  }

  lemma DiffEntriesSay(t: TreeView, from: NodeId, to: NodeId)
    requires Inv(t) && from in t.nodes && to in t.nodes
    ensures forall e | e in Diff(t, from, to).added :: EntrySays(t, Added, e)
    ensures forall e | e in Diff(t, from, to).removed :: EntrySays(t, Removed, e)
  {
    var n := CommonLength(PathOf(t.nodes, from), PathOf(t.nodes, to));
    PathSteps(t.nodes, from);
    PathSteps(t.nodes, to);
    EntriesSay(t, Added, PathOf(t.nodes, to)[n..]);
    EntriesSay(t, Removed, PathOf(t.nodes, from)[n..]);
  }

  lemma SplitAt(s: seq<NodeId>, n: nat)
    requires n <= |s|
    ensures s[..n] + s[n..] == s
  {
  }

  lemma DiffIsDeepest(t: TreeView, from: NodeId, to: NodeId, a: NodeId)
    requires Inv(t) && from in t.nodes && to in t.nodes
    requires a in PathOf(t.nodes, from) && a in PathOf(t.nodes, to)
    ensures a in Diff(t, from, to).commonPath
  {
    var p, q := PathOf(t.nodes, from), PathOf(t.nodes, to);
    var i :| 0 <= i < |p| && p[i] == a;
    var j :| 0 <= j < |q| && q[j] == a;
    PathMeet(t.nodes, from, to, i, j);
    CommonAtLeast(p, q, i + 1);
    assert p[..CommonLength(p, q)][i] == a;
  }

  /** Swapping the arguments swaps what was added and what was removed. */
  lemma DiffSymmetric(t: TreeView, from: NodeId, to: NodeId)
    requires Inv(t) && from in t.nodes && to in t.nodes
    ensures var d, e := Diff(t, from, to), Diff(t, to, from);
      && e.commonAncestor == d.commonAncestor && e.commonPath == d.commonPath
      && Ids(e.added) == Ids(d.removed) && Ids(e.removed) == Ids(d.added)
  {
    var p, q := PathOf(t.nodes, from), PathOf(t.nodes, to);
    PathSteps(t.nodes, from);
    PathSteps(t.nodes, to);
    PathFromRoot(t, from);
    PathFromRoot(t, to);
    CommonSymmetric(p, q);
    var n := CommonLength(p, q);
    PathsAgree(p, q);
    IdsOfEntries(t, Added, p[n..]);
    IdsOfEntries(t, Removed, p[n..]);
    IdsOfEntries(t, Added, q[n..]);
    IdsOfEntries(t, Removed, q[n..]);
  }
}
