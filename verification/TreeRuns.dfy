/** Every operation keeps the tree's invariant, over whole runs; and which branch an operation
    touches (agent/tree/tree.go). */
module TreeRuns {
  import opened Verdicts
  import opened Messages
  import opened TreeModel
  import opened TreeOps
  import opened TreeCompact

  datatype Op =
    | AddChildOp(parent: NodeId, msg: Message, id: NodeId)
    | AddFeedbackOp(parent: NodeId, msg: Message, id: NodeId, tag: string)
    | BranchOp(from: NodeId, name: BranchId, msg: Message, id: NodeId, tag: string)
    | UpdateOp(node: NodeId, content: seq<UserContent>, id: NodeId, tag: string)
    | SetActiveOp(branch: BranchId)
    | ArchiveOp(node: NodeId, who: string, recursive: bool)
    | RestoreOp(node: NodeId, recursive: bool)
    | CheckpointOp(branch: BranchId, cpName: string, cpId: CheckpointId)
    | RewindOp(cp: CheckpointId, tag: string)
    | CompactOp(branch: BranchId, svc: Services, opts: CompactOpts, ids: seq<NodeId>, tag: string)

  ghost predicate FreshNode(t: TreeView, id: NodeId) {
    id != "" && id !in t.nodes
  }

  /** What NewID is assumed to deliver: identifiers and generated branch names not in use. */
  ghost predicate OracleOk(t: TreeView, op: Op)
    requires Inv(t)
  {
    match op
    case AddChildOp(_, _, id) => FreshNode(t, id)
    case AddFeedbackOp(_, _, id, tag) => FreshNode(t, id) && FeedbackBranch(tag) !in t.branches
    case BranchOp(_, name, _, id, tag) => FreshNode(t, id) && BranchName(t, name, tag) !in t.branches
    case UpdateOp(_, _, id, tag) => FreshNode(t, id) && EditBranch(tag) !in t.branches
    case SetActiveOp(_) => true
    case ArchiveOp(_, _, _) => true
    case RestoreOp(_, _) => true
    case CheckpointOp(_, _, id) => id !in t.checkpoints
    case RewindOp(cp, tag) => cp in t.checkpoints ==> RewindBranch(t, cp, tag) !in t.branches
    case CompactOp(b, _, _, ids, tag) =>
      && FreshIds(t, ids) && CompactBranch(b, tag) !in t.branches
      && (b in t.branches ==> |PathOf(t.nodes, t.branches[b])| < |ids|)
  }

  ghost function Apply(t: TreeView, op: Op): Outcome
    requires Inv(t) && OracleOk(t, op)
  {
    match op
    case AddChildOp(p, msg, id) => AddChild(t, p, msg, id)
    case AddFeedbackOp(p, msg, id, tag) => AddFeedback(t, p, msg, id, tag)
    case BranchOp(from, name, msg, id, tag) => Branch(t, from, name, msg, id, tag)
    case UpdateOp(n, content, id, tag) => UpdateUserMessage(t, n, content, id, tag)
    case SetActiveOp(b) => SetActive(t, b)
    case ArchiveOp(n, who, recursive) => Archive(t, n, who, recursive)
    case RestoreOp(n, recursive) => Restore(t, n, recursive)
    case CheckpointOp(b, name, id) => MakeCheckpoint(t, b, name, id)
    case RewindOp(cp, tag) => Rewind(t, cp, tag)
    case CompactOp(b, svc, opts, ids, tag) =>
      var r := Compact(t, b, svc, opts, ids, tag);
      if r.Err? then Err(r.error) else Ok(r.value.0)
  }

  /** An operation that fails changes nothing. */
  ghost function Step(t: TreeView, op: Op): TreeView
    requires Inv(t) && OracleOk(t, op)
  {
    var r := Apply(t, op);
    if r.Ok? then r.value else t
  }

  // ---- growth ----

  /** Nothing is moved or taken away: nodes keep their parents, children lists only get longer. */
  ghost predicate Grows(t: TreeView, t': TreeView) {
    && Extends(t.nodes, t'.nodes) && t'.root == t.root
    && (forall p :: Kids(t, p) <= Kids(t', p))
    && (forall b | b in t.branches :: b in t'.branches)
  }

  lemma GrowsTransitive(t: TreeView, t': TreeView, t'': TreeView)
    requires Grows(t, t') && Grows(t', t'')
    ensures Grows(t, t'')
  {
    forall p ensures Kids(t, p) <= Kids(t'', p) {
      assert Kids(t, p) <= Kids(t', p) && Kids(t', p) <= Kids(t'', p);
    }
  }

  lemma AddNodeGrows(t: TreeView, id: NodeId, view: NodeView)
    requires id !in t.nodes
    ensures Grows(t, AddNode(t, id, view))
  {
  }

  lemma {:induction false} GraftGrows(t: TreeView, prev: NodeId, rest: seq<NodeId>, ids: seq<NodeId>,
                                      branch: BranchId, orig: Nodes, k: nat)
    requires k <= |rest| <= |ids| && AllIn(rest, orig) && FreshIds(t, ids)
    ensures Grows(t, Graft(t, prev, rest, ids, branch, orig, k))
    ensures forall i | k <= i < |ids| :: ids[i] !in Graft(t, prev, rest, ids, branch, orig, k).nodes
  {
    if k > 0 {
      GraftGrows(t, prev, rest, ids, branch, orig, k - 1);
      var t1 := Graft(t, prev, rest, ids, branch, orig, k - 1);
      var view := CloneView(orig[rest[k - 1]], CloneParent(prev, ids, k - 1), branch);
      AddNodeGrows(t1, ids[k - 1], view);
      GrowsTransitive(t, t1, AddNode(t1, ids[k - 1], view));
    }
  }

  // ---- the invariant ----

  lemma MarkAllShape(nodes: Nodes, n: NodeId, recursive: bool, state: NodeState, who: string)
    requires Rooted(nodes)
    ensures Rooted(MarkAll(nodes, n, recursive, state, who))
    ensures Extends(nodes, MarkAll(nodes, n, recursive, state, who))
  {
    var nodes' := MarkAll(nodes, n, recursive, state, who);
    forall m ensures ParentOk(nodes', m) {
      assert ParentOk(nodes, m);
    }
  }

  lemma MarkAllKeepsInv(t: TreeView, n: NodeId, recursive: bool, state: NodeState, who: string)
    requires Inv(t) && n in t.nodes
    requires state == Active || (state == Archived && n != t.root)
    ensures Inv(t.(nodes := MarkAll(t.nodes, n, recursive, state, who)))
    ensures Grows(t, t.(nodes := MarkAll(t.nodes, n, recursive, state, who)))
  {
    var t' := t.(nodes := MarkAll(t.nodes, n, recursive, state, who));
    MarkAllShape(t.nodes, n, recursive, state, who);
    assert NodeOk(t, t.root);
    assert t'.nodes[t.root].state == Active;
    forall p ensures KidsOk(t', p) {
      assert KidsOk(t, p);
    }
    forall m ensures NodeOk(t', m) {
      assert NodeOk(t, m);
    }
  }

  lemma SameShapeKeepsInv(t: TreeView, t': TreeView)
    requires Inv(t) && t'.nodes == t.nodes && t'.children == t.children && t'.root == t.root
    requires forall b | b in t.branches :: b in t'.branches
    requires forall b | b in t'.branches :: t'.branches[b] in t'.nodes
    requires t'.active in t'.branches
    requires forall c | c in t'.checkpoints ::
      t'.checkpoints[c].node in t'.nodes && t'.checkpoints[c].branch in t'.branches
    ensures Inv(t') && Grows(t, t')
  {
    forall p ensures KidsOk(t', p) {
      assert KidsOk(t, p);
    }
    forall n ensures NodeOk(t', n) {
      assert NodeOk(t, n);
    }
  }

  lemma AddKeepsInv(t: TreeView, id: NodeId, view: NodeView)
    requires Inv(t) && CanAdd(t, id, view)
    ensures Inv(AddNode(t, id, view)) && Grows(t, AddNode(t, id, view))
  {
    AddNodeKeepsInv(t, id, view);
    AddNodeGrows(t, id, view);
  }

  lemma CompactKeepsInv(t: TreeView, b: BranchId, svc: Services, opts: CompactOpts, ids: seq<NodeId>, tag: string)
    requires Inv(t) && FreshIds(t, ids) && (b in t.branches ==> |PathOf(t.nodes, t.branches[b])| < |ids|)
    requires Compact(t, b, svc, opts, ids, tag).Ok?
    ensures Inv(Compact(t, b, svc, opts, ids, tag).value.0) && Grows(t, Compact(t, b, svc, opts, ids, tag).value.0)
  {
    CompactsToPlan(t, b, svc, opts, ids, tag);
    PlanKeepsInv(t, b, CompactPlan(t, b, svc, opts).value, CompactBranch(b, tag), ids);
  }

  lemma CompactsToPlan(t: TreeView, b: BranchId, svc: Services, opts: CompactOpts, ids: seq<NodeId>, tag: string)
    requires Inv(t) && (b in t.branches ==> |PathOf(t.nodes, t.branches[b])| < |ids|)
    requires Compact(t, b, svc, opts, ids, tag).Ok?
    ensures CompactPlan(t, b, svc, opts).Ok?
    ensures var plan := CompactPlan(t, b, svc, opts).value;
      && (plan.Replace? ==> GoodPlan(t, b, plan) && |plan.path| < |ids|)
      && Compact(t, b, svc, opts, ids, tag).value.0
         == if plan.Replace? then ExecutePlan(t, plan, CompactBranch(b, tag), ids) else t
  {
    var plan := CompactPlan(t, b, svc, opts).value;
    if plan.Replace? {
      PlanIs(t, b, svc, opts, plan);
      PlanIsGood(t, b, svc, opts, plan);
    }
  }

  lemma PlanKeepsInv(t: TreeView, b: BranchId, plan: Plan, branch: BranchId, ids: seq<NodeId>)
    requires Inv(t) && (plan.Replace? ==> GoodPlan(t, b, plan) && FreshIds(t, ids) && |plan.path| < |ids|)
    ensures var t' := if plan.Replace? then ExecutePlan(t, plan, branch, ids) else t; Inv(t') && Grows(t, t')
  {
    if plan.Replace? {
      ExecuteKeepsInv(t, b, plan, branch, ids);
    }
  }

  lemma ExecuteKeepsInv(t: TreeView, b: BranchId, plan: Plan, branch: BranchId, ids: seq<NodeId>)
    requires GoodPlan(t, b, plan) && FreshIds(t, ids) && |plan.path| < |ids|
    ensures Inv(ExecutePlan(t, plan, branch, ids)) && Grows(t, ExecutePlan(t, plan, branch, ids))
  {
    var view := SummaryView(t.nodes[plan.chosen[0]], plan.chosen, plan.summary, branch);
    CompactEffect(t, b, plan, ids, branch);
    SummaryStep(t, b, plan, ids, branch);
    SummaryAndGraftGrow(t, ids, view, Behind(plan), branch);
  }

  lemma SummaryAndGraftGrow(t: TreeView, ids: seq<NodeId>, view: NodeView, rest: seq<NodeId>, branch: BranchId)
    requires FreshIds(t, ids) && |rest| < |ids| && AllIn(rest, t.nodes)
    ensures Grows(t, Graft(AddNode(t, ids[0], view), ids[0], rest, ids[1..], branch, t.nodes, |rest|))
  {
    var t1 := AddNode(t, ids[0], view);
    AddNodeGrows(t, ids[0], view);
    assert FreshIds(t1, ids[1..]);
    GraftGrows(t1, ids[0], rest, ids[1..], branch, t.nodes, |rest|);
    GrowsTransitive(t, t1, Graft(t1, ids[0], rest, ids[1..], branch, t.nodes, |rest|));
  }

  lemma AddingKeepsInv(t: TreeView, op: Op)
    requires Inv(t) && OracleOk(t, op) && (op.AddChildOp? || op.AddFeedbackOp? || op.BranchOp? || op.UpdateOp?)
    ensures Inv(Step(t, op)) && Grows(t, Step(t, op))
  {
    match op
    case AddChildOp(p, msg, id) =>
      if Apply(t, op).Ok? {
        AddKeepsInv(t, id, ChildView(t, p, msg, Active, t.nodes[p].branch));
      }
    case AddFeedbackOp(p, msg, id, tag) =>
      if Apply(t, op).Ok? {
        AddKeepsInv(t, id, ChildView(t, p, msg, Feedback, FeedbackBranch(tag)));
      }
    case BranchOp(from, name, msg, id, tag) =>
      if Apply(t, op).Ok? {
        AddKeepsInv(t, id, ChildView(t, from, msg, Active, BranchName(t, name, tag)));
      }
    case UpdateOp(n, content, id, tag) =>
      if Apply(t, op).Ok? {
        assert NodeOk(t, n);
        ParentIsNoLeaf(t, n);
        AddKeepsInv(t, id, ChildView(t, t.nodes[n].parent, UserMessage(content), Active, EditBranch(tag)));
      }
    case _ =>
  }

  /** Every operation keeps the invariant, and only ever grows the tree. */
  lemma StepKeepsInv(t: TreeView, op: Op)
    requires Inv(t) && OracleOk(t, op)
    ensures Inv(Step(t, op)) && Grows(t, Step(t, op))
  {
    match op
    case AddChildOp(_, _, _) => AddingKeepsInv(t, op);
    case AddFeedbackOp(_, _, _, _) => AddingKeepsInv(t, op);
    case BranchOp(_, _, _, _, _) => AddingKeepsInv(t, op);
    case UpdateOp(_, _, _, _) => AddingKeepsInv(t, op);
    case SetActiveOp(_) =>
      SameShapeKeepsInv(t, Step(t, op));
    case ArchiveOp(n, who, recursive) =>
      if Apply(t, op).Ok? {
        assert NodeOk(t, n);
        MarkAllKeepsInv(t, n, recursive, Archived, who);
      }
    case RestoreOp(n, recursive) =>
      if Apply(t, op).Ok? {
        MarkAllKeepsInv(t, n, recursive, Active, "");
      }
    case CheckpointOp(_, _, _) =>
      SameShapeKeepsInv(t, Step(t, op));
    case RewindOp(_, _) =>
      SameShapeKeepsInv(t, Step(t, op));
    case CompactOp(b, svc, opts, ids, tag) =>
      if Apply(t, op).Ok? {
        CompactKeepsInv(t, b, svc, opts, ids, tag);
      }
  }

  // ---- runs ----

  /** A new tree: a root on branch "main". */
  function NewTree(systemMsg: Message, rootId: NodeId): TreeView {
    TreeView(map[rootId := NodeView("", systemMsg, Active, 1, 0, "main", "", [])],
             map[], rootId, map["main" := rootId], "main", map[])
  }

  lemma NewTreeInv(systemMsg: Message, rootId: NodeId)
    requires rootId != ""
    ensures Inv(NewTree(systemMsg, rootId)) && TipsOwned(NewTree(systemMsg, rootId))
  {
    var t := NewTree(systemMsg, rootId);
    forall n ensures ParentOk(t.nodes, n) {
    }
    forall p ensures KidsOk(t, p) {
    }
    forall n ensures NodeOk(t, n) {
    }
  }

  /** `states` is the run of `ops` from a new tree, with identifiers as the oracle promises.  From
      a state without the invariant anything may follow, so the theorem below has to show that
      there is no such state. */
  ghost predicate Run(states: seq<TreeView>, ops: seq<Op>) {
    && |states| == |ops| + 1
    && (exists msg, id :: id != "" && states[0] == NewTree(msg, id))
    && forall i | 0 <= i < |ops| :: Takes(states[i], ops[i], states[i + 1]) == Yes
  }

  ghost function Takes(t: TreeView, op: Op, t': TreeView): Verdict {
    if Inv(t) ==> OracleOk(t, op) && t' == Step(t, op) then Yes else No
  }

  lemma TakesKeepsInv(t: TreeView, op: Op, t': TreeView)
    requires Inv(t) && Takes(t, op, t') == Yes
    ensures Inv(t')
  {
    StepKeepsInv(t, op);
  }

  /** In every state of every run the tree is well-formed, so paths end and start at the root. */
  lemma {:induction false} RunKeepsInv(states: seq<TreeView>, ops: seq<Op>, i: nat)
    requires Run(states, ops) && i < |states|
    ensures Inv(states[i])
    ensures forall n | n in states[i].nodes :: PathOf(states[i].nodes, n)[0] == states[i].root
  {
    if i == 0 {
      var msg, id :| id != "" && states[0] == NewTree(msg, id);
      NewTreeInv(msg, id);
    } else {
      RunKeepsInv(states, ops, i - 1);
      TakesKeepsInv(states[i - 1], ops[i - 1], states[i]);
    }
    forall n | n in states[i].nodes ensures PathOf(states[i].nodes, n)[0] == states[i].root {
      PathFromRoot(states[i], n);
    }
  }

  lemma PathFromRoot(t: TreeView, n: NodeId)
    requires Inv(t) && n in t.nodes
    ensures PathOf(t.nodes, n)[0] == t.root
  {
    PathSteps(t.nodes, n);
    assert NodeOk(t, PathOf(t.nodes, n)[0]);
  }

  // ---- branches ----

  /** Every branch owns its tip: the tip carries the branch's identifier. */
  ghost predicate TipsOwned(t: TreeView) {
    forall b | b in t.branches :: t.branches[b] in t.nodes && t.nodes[t.branches[b]].branch == b
  }

  /** Every operation but a Rewind to a checkpoint that exists keeps tips owned; that one always breaks
      it. */
  lemma TipsOwnedIffNoRewind(t: TreeView, op: Op)
    requires Inv(t) && OracleOk(t, op) && TipsOwned(t)
    ensures TipsOwned(Step(t, op)) <==> !(op.RewindOp? && op.cp in t.checkpoints)
  {
    if op.RewindOp? && Apply(t, op).Ok? {
      var b, tip := RewindBranch(t, op.cp, op.tag), t.checkpoints[op.cp].node;
      assert NodeOk(t, tip);
      assert Step(t, op).branches[b] == tip && t.nodes[tip].branch != b;
    } else if op.CompactOp? && Apply(t, op).Ok? {
      CompactTips(t, op.branch, op.svc, op.opts, op.ids, op.tag);
    }
  }

  lemma CompactTips(t: TreeView, b: BranchId, svc: Services, opts: CompactOpts, ids: seq<NodeId>, tag: string)
    requires Inv(t) && TipsOwned(t)
    requires FreshIds(t, ids) && (b in t.branches ==> |PathOf(t.nodes, t.branches[b])| < |ids|)
    requires Compact(t, b, svc, opts, ids, tag).Ok?
    ensures TipsOwned(Compact(t, b, svc, opts, ids, tag).value.0)
  {
    var plan := CompactPlan(t, b, svc, opts).value;
    if plan.Replace? {
      PlanIs(t, b, svc, opts, plan);
      PlanIsGood(t, b, svc, opts, plan);
      ExecuteTips(t, b, plan, CompactBranch(b, tag), ids);
    }
  }

  lemma ExecuteTips(t: TreeView, b: BranchId, plan: Plan, branch: BranchId, ids: seq<NodeId>)
    requires GoodPlan(t, b, plan) && FreshIds(t, ids) && |plan.path| < |ids| && TipsOwned(t)
    ensures TipsOwned(ExecutePlan(t, plan, branch, ids))
  {
    CompactEffect(t, b, plan, ids, branch);
  }

  /** AddChild makes the branch of the parent read as the parent's history and the message, and
      leaves every other branch as it was. */
  lemma AddChildIsolated(t: TreeView, p: NodeId, msg: Message, id: NodeId)
    requires Inv(t) && FreshNode(t, id) && AddChild(t, p, msg, id).Ok?
    ensures var t' := AddChild(t, p, msg, id).value;
      && Inv(t')
      && t.nodes[p].branch in t'.branches
      && FlattenBranch(t', t.nodes[p].branch) == Flatten(t.nodes, p) + [msg]
      && forall c | c in t.branches && c != t.nodes[p].branch ::
           c in t'.branches && FlattenBranch(t', c) == FlattenBranch(t, c)
  {
    var view := ChildView(t, p, msg, Active, t.nodes[p].branch);
    AddNodeNew(t, id, view);
    forall c | c in t.branches && c != t.nodes[p].branch
      ensures FlattenBranch(AddNode(t, id, view), c) == FlattenBranch(t, c)
    {
      AddNodeOld(t, id, view, t.branches[c]);
    }
  }

  /** Appending at the tip of a branch that owns it extends exactly that branch. */
  lemma AppendExtendsBranch(t: TreeView, b: BranchId, msg: Message, id: NodeId)
    requires Inv(t) && FreshNode(t, id) && b in t.branches && t.nodes[t.branches[b]].branch == b
    requires AddChild(t, t.branches[b], msg, id).Ok?
    ensures var t' := AddChild(t, t.branches[b], msg, id).value;
      && Inv(t') && t'.branches == t.branches[b := id] && t'.nodes[id].branch == b && t'.nodes[id].state == Active
      && FlattenBranch(t', b) == FlattenBranch(t, b) + [msg]
      && forall c | c in t.branches && c != b :: FlattenBranch(t', c) == FlattenBranch(t, c)
  {
    AddChildIsolated(t, t.branches[b], msg, id);
  }

  /** At the tip of a rewound branch it does not: the branch named stays as it was. */
  lemma AppendAfterRewind(t: TreeView, b: BranchId, msg: Message, id: NodeId)
    requires Inv(t) && FreshNode(t, id) && b in t.branches && t.nodes[t.branches[b]].branch != b
    requires AddChild(t, t.branches[b], msg, id).Ok?
    ensures var t' := AddChild(t, t.branches[b], msg, id).value;
      Inv(t') && t'.branches[b] == t.branches[b] && FlattenBranch(t', b) == FlattenBranch(t, b)
  {
    AddChildIsolated(t, t.branches[b], msg, id);
  }
}
