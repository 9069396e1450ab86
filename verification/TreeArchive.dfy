/** Recursive archiving and restoring (agent/tree/tree.go). */
module TreeArchive {
  import opened Sequences
  import opened TreeModel
  import opened TreeOps
  import opened TreeRuns

  // ---- the recursion marks exactly the subtree ----

  /** `n` and the subtrees of `kids` marked, as after some rounds of the recursion. */
  ghost function MarkSome(nodes: Nodes, n: NodeId, kids: seq<NodeId>, state: NodeState, who: string): Nodes
    requires Rooted(nodes)
  {
    map m | m in nodes :: if m == n || Below(nodes, kids, m) then Marked(nodes[m], state, who) else nodes[m]
  }

  ghost predicate Below(nodes: Nodes, kids: seq<NodeId>, m: NodeId)
    requires Rooted(nodes) && m in nodes
  {
    exists k | k in kids :: k in PathOf(nodes, m)
  }

  /** A node below `n` has exactly one child of `n` on its path. */
  lemma BelowOneKid(t: TreeView, n: NodeId, m: NodeId)
    requires Inv(t) && n in t.nodes && m in t.nodes
    ensures n in PathOf(t.nodes, m) <==> m == n || Below(t.nodes, Kids(t, n), m)
    ensures !Below(t.nodes, Kids(t, n), n)
    ensures forall a, b | a in Kids(t, n) && b in Kids(t, n) && a in PathOf(t.nodes, m) && b in PathOf(t.nodes, m) ::
      a == b
  {
    var path := PathOf(t.nodes, m);
    PathSteps(t.nodes, m);
    assert KidsOk(t, n);
    forall k | k in Kids(t, n) && k in path
      ensures n in path && exists i :: 0 < i < |path| && path[i] == k && path[i - 1] == n
    {
      var i :| 0 <= i < |path| && path[i] == k;
      assert NodeOk(t, k) && ParentOk(t.nodes, k);
      assert path[i - 1] == n;
    }
    if n in path && m != n {
      var i :| 0 <= i < |path| && path[i] == n;
      assert NodeOk(t, path[i + 1]) && ParentOk(t.nodes, path[i + 1]);
      assert path[i + 1] in Kids(t, n);
    }
    NoKidOnOwnPath(t, n);
  }

  lemma NoKidOnOwnPath(t: TreeView, n: NodeId)
    requires Inv(t) && n in t.nodes
    ensures !Below(t.nodes, Kids(t, n), n)
  {
    assert KidsOk(t, n);
    PathSteps(t.nodes, n);
    forall k | k in Kids(t, n) ensures k !in PathOf(t.nodes, n) {
      assert ParentOk(t.nodes, k);
    }
  }

  lemma MarkSomeShape(nodes: Nodes, n: NodeId, kids: seq<NodeId>, state: NodeState, who: string)
    requires Rooted(nodes)
    ensures Rooted(MarkSome(nodes, n, kids, state, who))
    ensures forall m | m in nodes :: PathOf(MarkSome(nodes, n, kids, state, who), m) == PathOf(nodes, m)
  {
    var nodes' := MarkSome(nodes, n, kids, state, who);
    forall m ensures ParentOk(nodes', m) {
      assert ParentOk(nodes, m);
    }
    forall m | m in nodes ensures PathOf(nodes', m) == PathOf(nodes, m) {
      PathFrame(nodes, nodes', m);
    }
  }

  /** One more round: the subtree of the next child. */
  lemma MarkSomeStep(t: TreeView, n: NodeId, i: nat, state: NodeState, who: string)
    requires Inv(t) && n in t.nodes && i < |Kids(t, n)|
    ensures var done := MarkSome(t.nodes, n, Kids(t, n)[..i], state, who);
      && Rooted(done)
      && MarkAll(done, Kids(t, n)[i], true, state, who) == MarkSome(t.nodes, n, Kids(t, n)[..i + 1], state, who)
  {
    MarkSomeShape(t.nodes, n, Kids(t, n)[..i], state, who);
    forall m | m in t.nodes ensures MarkedNext(t, n, i, m, state, who) {
      assert KidsOk(t, n);
      BelowOneKid(t, n, m);
      BelowFront(t.nodes, Kids(t, n), i, m);
    }
  }

  ghost predicate MarkedNext(t: TreeView, n: NodeId, i: nat, m: NodeId, state: NodeState, who: string)
    requires Inv(t) && n in t.nodes && i < |Kids(t, n)| && m in t.nodes
    requires Rooted(MarkSome(t.nodes, n, Kids(t, n)[..i], state, who))
  {
    var done := MarkSome(t.nodes, n, Kids(t, n)[..i], state, who);
    MarkAll(done, Kids(t, n)[i], true, state, who)[m] == MarkSome(t.nodes, n, Kids(t, n)[..i + 1], state, who)[m]
  }

  lemma BelowFront(nodes: Nodes, kids: seq<NodeId>, i: nat, m: NodeId)
    requires Rooted(nodes) && m in nodes && i < |kids| && Distinct(kids)
    requires forall a, b | a in kids && b in kids && a in PathOf(nodes, m) && b in PathOf(nodes, m) :: a == b
    ensures Below(nodes, kids[..i + 1], m) <==> Below(nodes, kids[..i], m) || kids[i] in PathOf(nodes, m)
    ensures kids[i] in PathOf(nodes, m) ==> !Below(nodes, kids[..i], m) && Below(nodes, kids, m)
  {
    assert kids[..i + 1] == kids[..i] + [kids[i]];
    assert kids[i] in kids;
  }

  /** Before the first round only the node itself, which is all there is without recursion. */
  lemma MarkNone(t: TreeView, n: NodeId, state: NodeState, who: string)
    requires Inv(t) && n in t.nodes
    ensures MarkSome(t.nodes, n, [], state, who) == t.nodes[n := Marked(t.nodes[n], state, who)]
    ensures MarkAll(t.nodes, n, false, state, who) == t.nodes[n := Marked(t.nodes[n], state, who)]
  {
  }

  lemma KidIsDeeper(t: TreeView, n: NodeId, i: nat)
    requires Inv(t) && n in t.nodes && i < |Kids(t, n)|
    ensures Kids(t, n)[i] in t.nodes && t.nodes[n].depth < t.nodes[Kids(t, n)[i]].depth && Kids(t, n)[i] != t.root
  {
    assert KidsOk(t, n) && Kids(t, n)[i] in Kids(t, n);
    assert NodeOk(t, Kids(t, n)[i]) && ParentOk(t.nodes, Kids(t, n)[i]);
  }

  /** The rounds keep the invariant, so that the recursion may enter the next child. */
  lemma MarkSomeKeepsInv(t: TreeView, n: NodeId, i: nat, state: NodeState, who: string)
    requires Inv(t) && n in t.nodes && i <= |Kids(t, n)|
    requires state == Active || (state == Archived && n != t.root)
    ensures Inv(t.(nodes := MarkSome(t.nodes, n, Kids(t, n)[..i], state, who)))
  {
    var t' := t.(nodes := MarkSome(t.nodes, n, Kids(t, n)[..i], state, who));
    MarkSomeShape(t.nodes, n, Kids(t, n)[..i], state, who);
    RootUnmarked(t, n, i);
    forall p ensures KidsOk(t', p) {
      assert KidsOk(t, p);
    }
    forall m ensures NodeOk(t', m) {
      assert NodeOk(t, m);
    }
  }

  lemma RootUnmarked(t: TreeView, n: NodeId, i: nat)
    requires Inv(t) && n in t.nodes && i <= |Kids(t, n)|
    ensures !Below(t.nodes, Kids(t, n)[..i], t.root)
  {
    assert NodeOk(t, t.root) && KidsOk(t, n);
    assert PathOf(t.nodes, t.root) == [t.root];
    forall k | k in Kids(t, n)[..i] ensures k !in PathOf(t.nodes, t.root) {
      assert k in Kids(t, n);
    }
  }

  ghost function Deeper(nodes: Nodes, n: NodeId): set<NodeId>
    requires n in nodes
  {
    set m | m in nodes && nodes[m].depth > nodes[n].depth
  }

  /** All that one round of the recursion needs. */
  lemma MarkRound(t: TreeView, n: NodeId, i: nat, state: NodeState, who: string)
    requires Inv(t) && n in t.nodes && i < |Kids(t, n)|
    requires state == Active || (state == Archived && n != t.root)
    ensures var done := MarkSome(t.nodes, n, Kids(t, n)[..i], state, who);
      && Inv(t.(nodes := done))
      && MarkAll(done, Kids(t, n)[i], true, state, who) == MarkSome(t.nodes, n, Kids(t, n)[..i + 1], state, who)
    ensures Kids(t, n)[i] in t.nodes && Kids(t, n)[i] != t.root
    ensures Deeper(MarkSome(t.nodes, n, Kids(t, n)[..i], state, who), Kids(t, n)[i]) < Deeper(t.nodes, n)
  {
    MarkSomeStep(t, n, i, state, who);
    MarkSomeKeepsInv(t, n, i, state, who);
    KidIsDeeper(t, n, i);
    assert Kids(t, n)[i] in Deeper(t.nodes, n);
  }

  /** After all rounds exactly the nodes whose path leads through `n` are marked. */
  lemma MarkSomeAll(t: TreeView, n: NodeId, state: NodeState, who: string)
    requires Inv(t) && n in t.nodes
    ensures MarkSome(t.nodes, n, Kids(t, n), state, who) == MarkAll(t.nodes, n, true, state, who)
  {
    forall m | m in t.nodes
      ensures MarkSome(t.nodes, n, Kids(t, n), state, who)[m] == MarkAll(t.nodes, n, true, state, who)[m]
    {
      BelowOneKid(t, n, m);
    }
  }

  // ---- restoring ----

  /** Showing more nodes makes a flattening longer. */
  lemma {:induction false} VisibleGrows(nodes: Nodes, nodes': Nodes, ids: seq<NodeId>)
    requires forall i | 0 <= i < |ids| :: ids[i] in nodes && ids[i] in nodes'
    requires forall i | 0 <= i < |ids| && nodes'[ids[i]].state == Archived :: nodes[ids[i]].state == Archived
    ensures |Visible(nodes, ids)| <= |Visible(nodes', ids)|
  {
    if ids != [] {
      VisibleGrows(nodes, nodes', ids[..|ids| - 1]);
    }
  }

  /** `nodes'` is `nodes` with everything below `n` active, and nothing else changed for a reader. */
  ghost predicate Revived(nodes: Nodes, nodes': Nodes, n: NodeId)
    requires Rooted(nodes)
  {
    && Rooted(nodes') && nodes'.Keys == nodes.Keys && Extends(nodes, nodes')
    && forall m | m in nodes ::
         && nodes'[m].message == nodes[m].message
         && nodes'[m].state == if n in PathOf(nodes, m) then Active else nodes[m].state
  }

  /** Archiving a subtree and then restoring it. */
  function ArchivedAndRestored(t: TreeView, n: NodeId, who: string): TreeView
    requires Inv(t) && Archive(t, n, who, true).Ok?
  {
    var archived := Archive(t, n, who, true).value;
    assert NodeOk(t, n);
    MarkAllKeepsInv(t, n, true, Archived, who);
    Restore(archived, n, true).value
  }

  lemma ArchiveRestoreRevives(t: TreeView, n: NodeId, who: string)
    requires Inv(t) && Archive(t, n, who, true).Ok?
    ensures Revived(t.nodes, ArchivedAndRestored(t, n, who).nodes, n)
  {
    var marked := MarkAll(t.nodes, n, true, Archived, who);
    MarkAllShape(t.nodes, n, true, Archived, who);
    MarkAllShape(marked, n, true, Active, "");
    forall m | m in t.nodes ensures PathOf(marked, m) == PathOf(t.nodes, m) {
      PathFrame(t.nodes, marked, m);
    }
  }

  /** A recursive restore after a recursive archive gives back every flattening exactly when no
      node of the subtree had been archived before. */
  lemma RestoreUndoesArchiveIff(t: TreeView, n: NodeId, who: string)
    requires Inv(t) && Archive(t, n, who, true).Ok?
    ensures var nodes' := ArchivedAndRestored(t, n, who).nodes;
      && Rooted(nodes') && nodes'.Keys == t.nodes.Keys
      && ((forall m | m in t.nodes :: Flatten(nodes', m) == Flatten(t.nodes, m))
         <==> (forall m | m in t.nodes && n in PathOf(t.nodes, m) :: t.nodes[m].state != Archived))
  {
    ArchiveRestoreRevives(t, n, who);
    RevivedIff(t.nodes, ArchivedAndRestored(t, n, who).nodes, n);
  }

  lemma RevivedIff(nodes: Nodes, nodes': Nodes, n: NodeId)
    requires Rooted(nodes) && Revived(nodes, nodes', n)
    ensures (forall m | m in nodes :: Flatten(nodes', m) == Flatten(nodes, m))
       <==> (forall m | m in nodes && n in PathOf(nodes, m) :: nodes[m].state != Archived)
  {
    if m :| m in nodes && n in PathOf(nodes, m) && nodes[m].state == Archived {
      RevivedShowsMore(nodes, nodes', n, m);
    } else {
      forall m | m in nodes ensures Flatten(nodes', m) == Flatten(nodes, m) {
        RevivedShowsSame(nodes, nodes', n, m);
      }
    }
  }

  lemma RevivedShowsSame(nodes: Nodes, nodes': Nodes, n: NodeId, m: NodeId)
    requires Rooted(nodes) && Revived(nodes, nodes', n) && m in nodes
    requires forall k | k in nodes && n in PathOf(nodes, k) :: nodes[k].state != Archived
    ensures Flatten(nodes', m) == Flatten(nodes, m)
  {
    PathSteps(nodes, m);
    FlattenFrame(nodes, nodes', m);
  }

  lemma RevivedShowsMore(nodes: Nodes, nodes': Nodes, n: NodeId, m: NodeId)
    requires Rooted(nodes) && Revived(nodes, nodes', n)
    requires m in nodes && n in PathOf(nodes, m) && nodes[m].state == Archived
    ensures |Flatten(nodes, m)| < |Flatten(nodes', m)|
  {
    var path := PathOf(nodes, m);
    PathSteps(nodes, m);
    PathFrame(nodes, nodes', m);
    VisibleGrows(nodes, nodes', path[..|path| - 1]);
  }
}
