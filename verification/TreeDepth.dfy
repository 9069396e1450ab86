/** When a node's depth is its parent's plus one (agent/tree/tree.go, agent/tree/compact.go). */
module TreeDepth {
  import opened Messages
  import opened TreeModel
  import opened TreeOps
  import opened TreeCompact
  import opened TreeRuns

  ghost predicate ExactAt(nodes: Nodes, n: NodeId) {
    n in nodes && nodes[n].parent != "" ==>
      nodes[n].parent in nodes && nodes[n].depth == nodes[nodes[n].parent].depth + 1
  }

  /** Every node but the root is one deeper than its parent. */
  ghost predicate Exact(nodes: Nodes) {
    forall n {:trigger ExactAt(nodes, n)} :: ExactAt(nodes, n)
  }

  lemma ExactAdd(t: TreeView, id: NodeId, view: NodeView)
    requires Inv(t) && CanAdd(t, id, view)
    ensures Exact(AddNode(t, id, view).nodes) <==> Exact(t.nodes) && view.depth == t.nodes[view.parent].depth + 1
  {
    var nodes' := AddNode(t, id, view).nodes;
    forall n | n != id ensures ExactAt(nodes', n) <==> ExactAt(t.nodes, n) {
      assert ParentOk(t.nodes, n);
    }
    assert ExactAt(t.nodes, id);
    assert ExactAt(nodes', id) <==> view.depth == t.nodes[view.parent].depth + 1;
    if Exact(nodes') {
      forall n ensures ExactAt(t.nodes, n) {
        assert ExactAt(nodes', n);
      }
    }
  }

  /** Marking nodes touches no depth. */
  lemma ExactMark(nodes: Nodes, n: NodeId, recursive: bool, state: NodeState, who: string)
    requires Rooted(nodes)
    ensures Exact(MarkAll(nodes, n, recursive, state, who)) <==> Exact(nodes)
  {
    var nodes' := MarkAll(nodes, n, recursive, state, who);
    forall m ensures ExactAt(nodes', m) <==> ExactAt(nodes, m) {
    }
    if Exact(nodes') {
      forall m ensures ExactAt(nodes, m) {
        assert ExactAt(nodes', m);
      }
    }
  }

  // ---- compaction ----

  /** Each node of `rest` is one deeper than the one before it. */
  ghost predicate Consecutive(nodes: Nodes, rest: seq<NodeId>) {
    && AllIn(rest, nodes)
    && forall k | 0 < k < |rest| :: nodes[rest[k]].depth == nodes[rest[k - 1]].depth + 1
  }

  /** The chain of clones is exact if its first clone is. */
  lemma {:induction false} ExactGraft(t: TreeView, prev: NodeId, rest: seq<NodeId>, ids: seq<NodeId>, branch: BranchId,
                                      orig: Nodes, k: nat)
    requires CanGraft(t, prev, rest, ids, orig) && Consecutive(orig, rest) && k <= |rest|
    requires Exact(t.nodes)
    ensures Exact(Graft(t, prev, rest, ids, branch, orig, k).nodes)
       <==> k == 0 || orig[rest[0]].depth == t.nodes[prev].depth + 1
  {
    if k > 0 {
      ExactGraft(t, prev, rest, ids, branch, orig, k - 1);
      CloneFits(t, prev, rest, ids, branch, orig, k - 1);
      ExactAdd(Graft(t, prev, rest, ids, branch, orig, k - 1), ids[k - 1],
               CloneView(orig[rest[k - 1]], CloneParent(prev, ids, k - 1), branch));
    }
  }

  lemma CloneFits(t: TreeView, prev: NodeId, rest: seq<NodeId>, ids: seq<NodeId>, branch: BranchId, orig: Nodes, k: nat)
    requires CanGraft(t, prev, rest, ids, orig) && k < |rest|
    ensures var t1, above := Graft(t, prev, rest, ids, branch, orig, k), CloneParent(prev, ids, k);
      && Inv(t1) && CanAdd(t1, ids[k], CloneView(orig[rest[k]], above, branch))
      && t1.nodes[above].depth == if k == 0 then t.nodes[prev].depth else orig[rest[k - 1]].depth
  {
    GraftIsOk(t, prev, rest, ids, branch, orig, k);
  }

  lemma BehindConsecutive(t: TreeView, b: BranchId, plan: Plan)
    requires GoodPlan(t, b, plan) && Exact(t.nodes)
    ensures Consecutive(t.nodes, Behind(plan))
    ensures Behind(plan) != [] ==>
      t.nodes[Behind(plan)[0]].depth == t.nodes[plan.chosen[|plan.chosen| - 1]].depth + 1
  {
    ExactPath(t, t.branches[b]);
    TailConsecutive(t.nodes, plan.path, IndexIn(plan.path, plan.chosen[|plan.chosen| - 1]));
  }

  lemma TailConsecutive(nodes: Nodes, path: seq<NodeId>, j: nat)
    requires Consecutive(nodes, path) && j < |path|
    ensures Consecutive(nodes, path[j + 1..])
    ensures path[j + 1..] != [] ==> nodes[path[j + 1..][0]].depth == nodes[path[j]].depth + 1
  {
  }

  lemma ExactPath(t: TreeView, n: NodeId)
    requires Inv(t) && n in t.nodes && Exact(t.nodes)
    ensures Consecutive(t.nodes, PathOf(t.nodes, n))
  {
    var path := PathOf(t.nodes, n);
    PathSteps(t.nodes, n);
    forall i | 0 < i < |path| ensures t.nodes[path[i]].depth == t.nodes[path[i - 1]].depth + 1 {
      assert ExactAt(t.nodes, path[i]) && path[i - 1] in t.nodes;
    }
  }

  /** Executing a plan keeps depths exact unless the chosen nodes span more than one level and there
      is something behind them. */
  lemma ExactExecute(t: TreeView, b: BranchId, plan: Plan, branch: BranchId, ids: seq<NodeId>)
    requires GoodPlan(t, b, plan) && FreshIds(t, ids) && |plan.path| < |ids| && Exact(t.nodes)
    ensures Exact(ExecutePlan(t, plan, branch, ids).nodes)
       <==> Behind(plan) == [] || t.nodes[plan.chosen[0]].depth == t.nodes[plan.chosen[|plan.chosen| - 1]].depth
  {
    var view := SummaryView(t.nodes[plan.chosen[0]], plan.chosen, plan.summary, branch);
    SummaryStep(t, b, plan, ids, branch);
    BehindConsecutive(t, b, plan);
    SummaryExact(t, plan.chosen[0], ids[0], view);
    ExactGraft(AddNode(t, ids[0], view), ids[0], Behind(plan), ids[1..], branch, t.nodes, |Behind(plan)|);
  }

  lemma SummaryExact(t: TreeView, first: NodeId, id: NodeId, view: NodeView)
    requires Inv(t) && CanAdd(t, id, view) && Exact(t.nodes) && first in t.nodes
    requires view.parent == t.nodes[first].parent && view.depth == t.nodes[first].depth
    ensures Exact(AddNode(t, id, view).nodes)
  {
    assert ExactAt(t.nodes, first) && NodeOk(t, first) && ParentOk(t.nodes, view.parent);
    ExactAdd(t, id, view);
  }

  /** With four candidates or more two are chosen, and others remain behind them. */
  lemma ChosenSpan(t: TreeView, b: BranchId, svc: Services, opts: CompactOpts, plan: Plan)
    requires Inv(t) && IsPlan(t, b, svc, opts, plan)
    ensures var n := |Candidates(t.nodes, plan.path, Spared(t, b, opts), |plan.path|)|;
      && (n >= 4 <==> t.nodes[plan.chosen[0]].depth != t.nodes[plan.chosen[|plan.chosen| - 1]].depth)
      && (n >= 4 ==> Behind(plan) != [])
  {
    var candidates := Candidates(t.nodes, plan.path, Spared(t, b, opts), |plan.path|);
    ChosenAscending(t, b, svc, opts, plan);
    if |candidates| >= 4 {
      PathSteps(t.nodes, t.branches[b]);
      CandidatesInOrder(t.nodes, plan.path, Spared(t, b, opts), |plan.path|);
      CandidatesOnPath(t.nodes, plan.path, Spared(t, b, opts), |plan.path|);
      assert candidates[|plan.chosen|] in candidates;
      NotLast(t.nodes, plan.path, candidates[|plan.chosen| - 1], candidates[|plan.chosen|]);
    }
  }

  lemma NotLast(nodes: Nodes, path: seq<NodeId>, m: NodeId, n: NodeId)
    requires Ascending(nodes, path) && m in path && n in path && nodes[m].depth < nodes[n].depth
    ensures TreeOps.After(path, m) != []
  {
  }

  /** The compactions that leave a clone too deep for its new parent. */
  ghost predicate Jumps(t: TreeView, b: BranchId, svc: Services, opts: CompactOpts)
    requires Inv(t)
  {
    Compacts(t, b, svc, opts) && |CandidatesOf(t, b, opts)| >= 4
  }

  /** Where every depth is exact, it stays so under every operation but a compaction of four candidates
      or more, which always breaks it. */
  lemma ExactIff(t: TreeView, op: Op)
    requires Inv(t) && OracleOk(t, op) && Exact(t.nodes)
    ensures Exact(Step(t, op).nodes) <==> !(op.CompactOp? && Jumps(t, op.branch, op.svc, op.opts))
  {
    if Apply(t, op).Ok? {
      match op
      case AddChildOp(p, msg, id) =>
        ExactAdd(t, id, ChildView(t, p, msg, Active, t.nodes[p].branch));
      case AddFeedbackOp(p, msg, id, tag) =>
        ExactAdd(t, id, ChildView(t, p, msg, Feedback, FeedbackBranch(tag)));
      case BranchOp(from, name, msg, id, tag) =>
        ExactAdd(t, id, ChildView(t, from, msg, Active, BranchName(t, name, tag)));
      case UpdateOp(n, content, id, tag) =>
        assert NodeOk(t, n);
        ParentIsNoLeaf(t, n);
        ExactAdd(t, id, ChildView(t, t.nodes[n].parent, UserMessage(content), Active, EditBranch(tag)));
      case SetActiveOp(_) =>
      case ArchiveOp(n, who, recursive) =>
        ExactMark(t.nodes, n, recursive, Archived, who);
      case RestoreOp(n, recursive) =>
        ExactMark(t.nodes, n, recursive, Active, "");
      case CheckpointOp(_, _, _) =>
      case RewindOp(_, _) =>
      case CompactOp(b, svc, opts, ids, tag) =>
        ExactCompact(t, b, svc, opts, ids, tag);
    }
  }

  lemma ExactCompact(t: TreeView, b: BranchId, svc: Services, opts: CompactOpts, ids: seq<NodeId>, tag: string)
    requires Inv(t) && Exact(t.nodes) && FreshIds(t, ids)
    requires b in t.branches ==> |PathOf(t.nodes, t.branches[b])| < |ids|
    requires Compact(t, b, svc, opts, ids, tag).Ok?
    ensures Exact(Compact(t, b, svc, opts, ids, tag).value.0.nodes) <==> !Jumps(t, b, svc, opts)
  {
    var plan := CompactPlan(t, b, svc, opts).value;
    CompactsIff(t, b, svc, opts);
    if plan.Replace? {
      PlanIs(t, b, svc, opts, plan);
      PlanIsGood(t, b, svc, opts, plan);
      ChosenSpan(t, b, svc, opts, plan);
      ExactExecute(t, b, plan, CompactBranch(b, tag), ids);
    }
  }
}
