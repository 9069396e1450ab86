/** The conversation tree as a value (agent/tree/tree.go, agent/types/node.go).

    This is what a Tree object stands for; the class in ConversationTree.dfy is proved against it. */
module TreeModel {
  import opened Sequences
  import opened Messages

  type NodeId = string
  type BranchId = string
  type CheckpointId = string

  datatype NodeState = Active | Archived | Compacted | Feedback

  /** A node; the empty parent marks the root. */
  datatype NodeView = NodeView(
    parent: NodeId,
    message: Message,
    state: NodeState,
    version: nat,
    depth: nat,
    branch: BranchId,
    archivedBy: string,
    summaryOf: seq<NodeId>)

  datatype Checkpoint = Checkpoint(branch: BranchId, node: NodeId, name: string)

  type Nodes = map<NodeId, NodeView>

  datatype TreeView = TreeView(
    nodes: Nodes,
    children: map<NodeId, seq<NodeId>>,
    root: NodeId,
    branches: map<BranchId, NodeId>,
    active: BranchId,
    checkpoints: map<CheckpointId, Checkpoint>)

  /** Versions are 64-bit and wrap. */
  function NextVersion(v: nat): nat {
    (v + 1) % 0x1_0000_0000_0000_0000
  }

  /** The children of `p` in order; a node without an entry has none. */
  function Kids(t: TreeView, p: NodeId): seq<NodeId> {
    if p in t.children then t.children[p] else []
  }

  // ---- the invariant ----

  /** The parent exists and is strictly shallower.  Depth is not always parent + 1: clones made by
      Compact keep their old depth. */
  ghost predicate ParentOk(nodes: Nodes, n: NodeId) {
    n in nodes && nodes[n].parent != "" ==>
      nodes[n].parent in nodes && nodes[nodes[n].parent].depth < nodes[n].depth
  }

  ghost predicate Rooted(nodes: Nodes) {
    "" !in nodes && forall n {:trigger ParentOk(nodes, n)} :: ParentOk(nodes, n)
  }

  /** `c` is listed under `p` exactly when `p` is its parent, and only once. */
  ghost predicate KidsOk(t: TreeView, p: NodeId) {
    && Distinct(Kids(t, p))
    && forall c :: c in Kids(t, p) <==> c in t.nodes && c != t.root && t.nodes[c].parent == p
  }

  ghost predicate NodeOk(t: TreeView, n: NodeId) {
    n in t.nodes ==>
      && (t.nodes[n].parent == "" <==> n == t.root)
      && t.nodes[n].branch in t.branches
      && (t.nodes[n].state == Feedback ==> Kids(t, n) == [])
  }

  ghost predicate Inv(t: TreeView) {
    && Rooted(t.nodes)
    && t.root in t.nodes && t.nodes[t.root].state == Active
    && (forall p {:trigger KidsOk(t, p)} :: KidsOk(t, p))
    && (forall n {:trigger NodeOk(t, n)} :: NodeOk(t, n))
    && (forall b | b in t.branches :: t.branches[b] in t.nodes)
    && t.active in t.branches
    && (forall c | c in t.checkpoints ::
          t.checkpoints[c].node in t.nodes && t.checkpoints[c].branch in t.branches)
  }

  // ---- paths ----

  /** The nodes from the root down to `n`. */
  function PathOf(nodes: Nodes, n: NodeId): seq<NodeId>
    requires Rooted(nodes) && n in nodes
    decreases nodes[n].depth
  {
    assert ParentOk(nodes, n);
    if nodes[n].parent == "" then [n] else PathOf(nodes, nodes[n].parent) + [n]
  }

  /** Every step of a path leads from a parent to its child, and the depth grows along it. */
  lemma {:induction false} PathSteps(nodes: Nodes, n: NodeId)
    requires Rooted(nodes) && n in nodes
    ensures var p := PathOf(nodes, n);
      && |p| > 0 && p[|p| - 1] == n
      && (forall i | 0 <= i < |p| :: p[i] in nodes)
      && nodes[p[0]].parent == ""
      && (forall i | 0 < i < |p| :: nodes[p[i]].parent == p[i - 1])
      && (forall i, j | 0 <= i < j < |p| :: nodes[p[i]].depth < nodes[p[j]].depth)
    decreases nodes[n].depth
  {
    assert ParentOk(nodes, n);
    if nodes[n].parent != "" {
      PathSteps(nodes, nodes[n].parent);
    }
  }

  /** A path cut off at one of its nodes is that node's path. */
  lemma {:induction false} PathPrefix(nodes: Nodes, n: NodeId, i: nat)
    requires Rooted(nodes) && n in nodes && i < |PathOf(nodes, n)|
    ensures PathOf(nodes, n)[i] in nodes
    ensures PathOf(nodes, PathOf(nodes, n)[i]) == PathOf(nodes, n)[..i + 1]
    decreases nodes[n].depth
  {
    assert ParentOk(nodes, n);
    var p := PathOf(nodes, n);
    if i == |p| - 1 {
      assert p[..i + 1] == p;
    } else {
      PathPrefix(nodes, nodes[n].parent, i);
      assert PathOf(nodes, nodes[n].parent) == p[..|p| - 1];
      assert p[..|p| - 1][..i + 1] == p[..i + 1];
    }
  }

  lemma PathDistinct(nodes: Nodes, n: NodeId)
    requires Rooted(nodes) && n in nodes
    ensures Distinct(PathOf(nodes, n))
  {
    PathSteps(nodes, n);
  }

  /** A node stands at the same place on every path it is on. */
  lemma PathMeet(nodes: Nodes, m: NodeId, n: NodeId, i: nat, j: nat)
    requires Rooted(nodes) && m in nodes && n in nodes
    requires i < |PathOf(nodes, m)| && j < |PathOf(nodes, n)| && PathOf(nodes, m)[i] == PathOf(nodes, n)[j]
    ensures i == j && PathOf(nodes, m)[..i + 1] == PathOf(nodes, n)[..i + 1]
  {
    PathPrefix(nodes, m, i);
    PathPrefix(nodes, n, j);
  }

  /** `nodes'` has all of `nodes`, under the same parents. */
  ghost predicate Extends(nodes: Nodes, nodes': Nodes) {
    forall n | n in nodes :: n in nodes' && nodes'[n].parent == nodes[n].parent
  }

  lemma {:induction false} PathFrame(nodes: Nodes, nodes': Nodes, n: NodeId)
    requires Rooted(nodes) && Rooted(nodes') && Extends(nodes, nodes') && n in nodes
    ensures PathOf(nodes', n) == PathOf(nodes, n)
    decreases nodes[n].depth
  {
    assert ParentOk(nodes, n);
    if nodes[n].parent != "" {
      PathFrame(nodes, nodes', nodes[n].parent);
    }
  }

  // ---- flattening ----

  function Visible(nodes: Nodes, ids: seq<NodeId>): seq<Message>
    requires forall i | 0 <= i < |ids| :: ids[i] in nodes
  {
    if ids == [] then []
    else
      var n := ids[|ids| - 1];
      Visible(nodes, ids[..|ids| - 1]) + if nodes[n].state == Archived then [] else [nodes[n].message]
  }

  lemma {:induction false} VisibleConcat(nodes: Nodes, a: seq<NodeId>, b: seq<NodeId>)
    requires forall i | 0 <= i < |a| :: a[i] in nodes
    requires forall i | 0 <= i < |b| :: b[i] in nodes
    ensures Visible(nodes, a + b) == Visible(nodes, a) + Visible(nodes, b)
  {
    if b == [] {
      assert a + b == a;
    } else {
      VisibleConcat(nodes, a, b[..|b| - 1]);
      assert (a + b)[..|a + b| - 1] == a + b[..|b| - 1];
    }
  }

  /** `n` contributes the same to a flattening in both. */
  ghost predicate SameLook(nodes: Nodes, nodes': Nodes, n: NodeId) {
    && n in nodes && n in nodes' && nodes'[n].message == nodes[n].message
    && (nodes'[n].state == Archived <==> nodes[n].state == Archived)
  }

  lemma {:induction false} VisibleFrame(nodes: Nodes, nodes': Nodes, ids: seq<NodeId>)
    requires forall i | 0 <= i < |ids| :: ids[i] in nodes && ids[i] in nodes' && SameLook(nodes, nodes', ids[i])
    ensures Visible(nodes', ids) == Visible(nodes, ids)
  {
    if ids != [] {
      VisibleFrame(nodes, nodes', ids[..|ids| - 1]);
    }
  }

  /** Flatten: the messages of the nodes on the path that are not archived. */
  function Flatten(nodes: Nodes, n: NodeId): seq<Message>
    requires Rooted(nodes) && n in nodes
  {
    PathSteps(nodes, n);
    Visible(nodes, PathOf(nodes, n))
  }

  lemma FlattenFrame(nodes: Nodes, nodes': Nodes, n: NodeId)
    requires Rooted(nodes) && Rooted(nodes') && Extends(nodes, nodes') && n in nodes
    requires forall m | m in PathOf(nodes, n) :: SameLook(nodes, nodes', m)
    ensures Flatten(nodes', n) == Flatten(nodes, n)
  {
    PathFrame(nodes, nodes', n);
    PathSteps(nodes, n);
    VisibleFrame(nodes, nodes', PathOf(nodes, n));
  }

  function FlattenBranch(t: TreeView, b: BranchId): seq<Message>
    requires Inv(t) && b in t.branches
  {
    Flatten(t.nodes, t.branches[b])
  }

  // ---- adding a node ----

  /** Every operation that grows the tree does so by this step: the node is stored, listed last
      under its parent, and becomes the tip of the branch it carries. */
  function AddNode(t: TreeView, id: NodeId, view: NodeView): TreeView {
    t.(nodes := t.nodes[id := view],
       children := t.children[view.parent := Kids(t, view.parent) + [id]],
       branches := t.branches[view.branch := id])
  }

  ghost predicate CanAdd(t: TreeView, id: NodeId, view: NodeView) {
    && id != "" && id !in t.nodes
    && view.parent in t.nodes && t.nodes[view.parent].state != Feedback
    && t.nodes[view.parent].depth < view.depth
  }

  /** A node with a child is not a feedback leaf; so UpdateUserMessage needs no check of its own. */
  lemma ParentIsNoLeaf(t: TreeView, n: NodeId)
    requires Inv(t) && n in t.nodes && n != t.root
    ensures t.nodes[n].parent in t.nodes && t.nodes[t.nodes[n].parent].state != Feedback
  {
    assert NodeOk(t, n) && ParentOk(t.nodes, n);
    assert KidsOk(t, t.nodes[n].parent);
    assert n in Kids(t, t.nodes[n].parent);
    assert NodeOk(t, t.nodes[n].parent);
  }

  lemma AddNodeKidsOk(t: TreeView, id: NodeId, view: NodeView, p: NodeId)
    requires Inv(t) && CanAdd(t, id, view)
    ensures KidsOk(AddNode(t, id, view), p)
  {
    assert KidsOk(t, p);
    assert NodeOk(t, view.parent);
  }

  lemma NoKidsOutside(t: TreeView, p: NodeId)
    requires Inv(t) && p !in t.nodes && p != ""
    ensures Kids(t, p) == []
  {
    assert KidsOk(t, p);
    assert Kids(t, p) != [] ==> Kids(t, p)[0] in Kids(t, p);
    forall c ensures c !in Kids(t, p) {
      assert ParentOk(t.nodes, c);
    }
  }

  lemma AddNodeKeepsInv(t: TreeView, id: NodeId, view: NodeView)
    requires Inv(t) && CanAdd(t, id, view)
    ensures Inv(AddNode(t, id, view))
  {
    var t' := AddNode(t, id, view);
    NoKidsOutside(t, id);
    forall n ensures ParentOk(t'.nodes, n) {
      assert ParentOk(t.nodes, n);
    }
    forall p ensures KidsOk(t', p) {
      AddNodeKidsOk(t, id, view, p);
    }
    forall n ensures NodeOk(t', n) {
      assert NodeOk(t, n);
    }
  }

  /** Old nodes keep their paths and flattenings. */
  lemma AddNodeOld(t: TreeView, id: NodeId, view: NodeView, n: NodeId)
    requires Inv(t) && CanAdd(t, id, view) && n in t.nodes
    ensures Inv(AddNode(t, id, view))
    ensures PathOf(AddNode(t, id, view).nodes, n) == PathOf(t.nodes, n)
    ensures Flatten(AddNode(t, id, view).nodes, n) == Flatten(t.nodes, n)
  {
    var t' := AddNode(t, id, view);
    AddNodeKeepsInv(t, id, view);
    PathSteps(t.nodes, n);
    PathFrame(t.nodes, t'.nodes, n);
    FlattenFrame(t.nodes, t'.nodes, n);
  }

  /** The new node extends its parent's path and flattening. */
  lemma AddNodeNew(t: TreeView, id: NodeId, view: NodeView)
    requires Inv(t) && CanAdd(t, id, view)
    ensures Inv(AddNode(t, id, view))
    ensures PathOf(AddNode(t, id, view).nodes, id) == PathOf(t.nodes, view.parent) + [id]
    ensures Flatten(AddNode(t, id, view).nodes, id)
         == Flatten(t.nodes, view.parent) + if view.state == Archived then [] else [view.message]
  {
    var nodes' := AddNode(t, id, view).nodes;
    AddNodeOld(t, id, view, view.parent);
    PathSteps(nodes', id);
    PathSteps(nodes', view.parent);
    assert PathOf(nodes', id) == PathOf(nodes', view.parent) + [id];
    VisibleConcat(nodes', PathOf(nodes', view.parent), [id]);
    assert Visible(nodes', [id][..0]) == [];
  }
}
