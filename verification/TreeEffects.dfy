/** What each operation of the conversation tree does, in terms of nodes, messages and names alone
    (agent/tree/tree.go, agent/tree/compact.go). */
module TreeEffects {
  import opened Verdicts
  import opened Messages
  import opened TreeModel
  import opened TreeOps
  import opened TreeCompact
  import opened TreeRuns

  /** A new tree has one branch, which is active and reads as the system message. */
  lemma NewTreeReads(systemMsg: Message, rootId: NodeId)
    requires rootId != ""
    ensures var t := NewTree(systemMsg, rootId);
      && Inv(t) && t.root == rootId && t.nodes.Keys == {rootId} && t.branches == map["main" := rootId]
      && t.active == "main" && t.checkpoints == map[] && FlattenBranch(t, "main") == [systemMsg]
  {
    var t := NewTree(systemMsg, rootId);
    NewTreeInv(systemMsg, rootId);
    assert PathOf(t.nodes, rootId) == [rootId] && Visible(t.nodes, [rootId][..0]) == [];
  }

  // ---- growing the tree ----

  /** Adding a child, a feedback leaf or a branch is refused exactly under a node that is missing,
      archived or a feedback leaf. */
  lemma AddingRefusedIff(t: TreeView, p: NodeId, msg: Message, id: NodeId, tag: string, name: BranchId)
    ensures AddChild(t, p, msg, id).Ok? <==> p in t.nodes && t.nodes[p].state in {Active, Compacted}
    ensures AddFeedback(t, p, msg, id, tag).Ok? <==> p in t.nodes && t.nodes[p].state in {Active, Compacted}
    ensures Branch(t, p, name, msg, id, tag).Ok? <==> p in t.nodes && t.nodes[p].state in {Active, Compacted}
    ensures p !in t.nodes || t.nodes[p].state in {Archived, Feedback} ==>
      AddChild(t, p, msg, id) == AddFeedback(t, p, msg, id, tag) == Branch(t, p, name, msg, id, tag)
      == Err(if p !in t.nodes then NodeNotFound
             else if t.nodes[p].state == Archived then NodeIsArchived else NodeIsLeaf)
  {
  }

  /** Editing is refused exactly for a missing node, the root, and anything but a user message. */
  lemma EditingRefusedIff(t: TreeView, n: NodeId, content: seq<UserContent>, id: NodeId, tag: string)
    requires Inv(t)
    ensures UpdateUserMessage(t, n, content, id, tag).Ok? <==>
      n in t.nodes && n != t.root && t.nodes[n].message.UserMessage?
    ensures UpdateUserMessage(t, n, content, id, tag).Err? ==>
      UpdateUserMessage(t, n, content, id, tag).error
      == if n !in t.nodes then NodeNotFound else if n == t.root then RootImmutable else InvalidBranchPoint
  {
    assert NodeOk(t, n) && ParentOk(t.nodes, n);
  }

  /** A node `id` with `msg` has been added last under `p`, as the tip of `b`, which reads as the history
      of `p` and the message.  Nothing else has changed. */
  ghost predicate Adds(t: TreeView, t': TreeView, p: NodeId, b: BranchId, msg: Message, id: NodeId, state: NodeState)
    requires Inv(t) && p in t.nodes
  {
    && Inv(t') && t'.nodes == t.nodes[id := NodeView(p, msg, state, 1, t.nodes[p].depth + 1, b, "", [])]
    && Kids(t', p) == Kids(t, p) + [id] && (forall q | q != p :: Kids(t', q) == Kids(t, q))
    && t'.root == t.root && t'.active == t.active && t'.checkpoints == t.checkpoints
    && t'.branches == t.branches[b := id]
    && PathOf(t'.nodes, id) == PathOf(t.nodes, p) + [id] && FlattenBranch(t', b) == Flatten(t.nodes, p) + [msg]
    && forall c {:trigger ReadsSame(t, t', c)} | c in t.branches && c != b :: ReadsSame(t, t', c)
  }

  lemma AddsNode(t: TreeView, p: NodeId, b: BranchId, msg: Message, id: NodeId, state: NodeState)
    requires Inv(t) && FreshNode(t, id) && p in t.nodes && t.nodes[p].state != Feedback && state != Archived
    ensures Adds(t, AddNode(t, id, ChildView(t, p, msg, state, b)), p, b, msg, id, state)
  {
    var view := ChildView(t, p, msg, state, b);
    AddNodeNew(t, id, view);
    forall c | c in t.branches && c != b ensures ReadsSame(t, AddNode(t, id, view), c) {
      AddNodeOld(t, id, view, t.branches[c]);
    }
  }

  lemma AddChildAdds(t: TreeView, p: NodeId, msg: Message, id: NodeId)
    requires Inv(t) && FreshNode(t, id) && AddChild(t, p, msg, id).Ok?
    ensures Adds(t, AddChild(t, p, msg, id).value, p, t.nodes[p].branch, msg, id, Active)
  {
    AddsNode(t, p, t.nodes[p].branch, msg, id, Active);
  }

  /** Feedback hangs under the node it is about, on a branch of its own, and takes no children. */
  lemma AddFeedbackAdds(t: TreeView, p: NodeId, msg: Message, id: NodeId, tag: string)
    requires Inv(t) && FreshNode(t, id) && AddFeedback(t, p, msg, id, tag).Ok?
    ensures var t' := AddFeedback(t, p, msg, id, tag).value;
      && Adds(t, t', p, "feedback-" + tag, msg, id, Feedback)
      && forall m, i :: AddChild(t', id, m, i) == Err(NodeIsLeaf)
  {
    AddsNode(t, p, "feedback-" + tag, msg, id, Feedback);
  }

  /** The branch has the name asked for, or one that starts with it when that is taken. */
  lemma BranchAdds(t: TreeView, from: NodeId, name: BranchId, msg: Message, id: NodeId, tag: string)
    requires Inv(t) && FreshNode(t, id) && Branch(t, from, name, msg, id, tag).Ok?
    ensures Adds(t, Branch(t, from, name, msg, id, tag).value, from,
                 if name in t.branches then name + "-" + tag else name, msg, id, Active)
  {
    AddsNode(t, from, if name in t.branches then name + "-" + tag else name, msg, id, Active);
  }

  /** An edit stands next to the node: its branch reads as what came before that, and the new content. */
  lemma UpdateAdds(t: TreeView, n: NodeId, content: seq<UserContent>, id: NodeId, tag: string)
    requires Inv(t) && FreshNode(t, id) && UpdateUserMessage(t, n, content, id, tag).Ok?
    ensures t.nodes[n].parent in t.nodes
    ensures Adds(t, UpdateUserMessage(t, n, content, id, tag).value, t.nodes[n].parent, "edit-" + tag,
                 UserMessage(content), id, Active)
  {
    assert NodeOk(t, n);
    ParentIsNoLeaf(t, n);
    AddsNode(t, t.nodes[n].parent, "edit-" + tag, UserMessage(content), id, Active);
  }

  // ---- archiving, and the active branch ----

  /** `n` and, if asked, all nodes below it carry the new state and who archived them, and one version
      more; all other nodes are as they were. */
  ghost predicate Marks(t: TreeView, t': TreeView, n: NodeId, recursive: bool, state: NodeState, who: string)
    requires Inv(t)
  {
    && t' == t.(nodes := t'.nodes) && t'.nodes.Keys == t.nodes.Keys
    && forall m | m in t.nodes ::
         t'.nodes[m] == if m == n || (recursive && n in PathOf(t.nodes, m))
                        then t.nodes[m].(state := state, archivedBy := who,
                                         version := (t.nodes[m].version + 1) % 0x1_0000_0000_0000_0000)
                        else t.nodes[m]
  }

  lemma MarkAllMarks(t: TreeView, n: NodeId, recursive: bool, state: NodeState, who: string)
    requires Inv(t) && n in t.nodes
    ensures Marks(t, t.(nodes := MarkAll(t.nodes, n, recursive, state, who)), n, recursive, state, who)
  {
    PathSteps(t.nodes, n);
  }

  /** Archive refuses a missing node and the root; else it marks exactly what it was asked to. */
  lemma ArchiveMarks(t: TreeView, n: NodeId, who: string, recursive: bool)
    requires Inv(t)
    ensures Archive(t, n, who, recursive).Ok? <==> n in t.nodes && n != t.root
    ensures Archive(t, n, who, recursive).Ok? ==>
      Marks(t, Archive(t, n, who, recursive).value, n, recursive, Archived, who)
    ensures Archive(t, n, who, recursive).Err? ==>
      Archive(t, n, who, recursive).error == if n in t.nodes then RootImmutable else NodeNotFound
  {
    assert NodeOk(t, n);
    if n in t.nodes {
      MarkAllMarks(t, n, recursive, Archived, who);
    }
  }

  lemma RestoreMarks(t: TreeView, n: NodeId, recursive: bool)
    requires Inv(t)
    ensures Restore(t, n, recursive).Ok? <==> n in t.nodes
    ensures Restore(t, n, recursive).Ok? ==> Marks(t, Restore(t, n, recursive).value, n, recursive, Active, "")
    ensures Restore(t, n, recursive).Err? ==> Restore(t, n, recursive).error == NodeNotFound
  {
    if n in t.nodes {
      MarkAllMarks(t, n, recursive, Active, "");
    }
  }

  lemma SetActiveOnly(t: TreeView, b: BranchId)
    ensures SetActive(t, b).Ok? <==> b in t.branches
    ensures SetActive(t, b).Ok? ==>
      var t' := SetActive(t, b).value;
      && t'.active == b && t'.nodes == t.nodes && t'.children == t.children && t'.root == t.root
      && t'.branches == t.branches && t'.checkpoints == t.checkpoints
    ensures SetActive(t, b).Err? ==> SetActive(t, b).error == BranchNotFound
  {
  }

  // ---- going back ----

  /** No operation forgets or changes a checkpoint. */
  lemma CheckpointKept(t: TreeView, op: Op, cp: CheckpointId)
    requires Inv(t) && OracleOk(t, op) && cp in t.checkpoints
    ensures cp in Step(t, op).checkpoints && Step(t, op).checkpoints[cp] == t.checkpoints[cp]
  {
    if op.CompactOp? && Apply(t, op).Ok? {
      CompactKeepsCheckpoints(t, op.branch, op.svc, op.opts, op.ids, op.tag);
    }
  }

  lemma CompactKeepsCheckpoints(t: TreeView, b: BranchId, svc: Services, opts: CompactOpts, ids: seq<NodeId>,
                                tag: string)
    requires Inv(t) && FreshIds(t, ids) && (b in t.branches ==> |PathOf(t.nodes, t.branches[b])| < |ids|)
    requires Compact(t, b, svc, opts, ids, tag).Ok?
    ensures Compact(t, b, svc, opts, ids, tag).value.0.checkpoints == t.checkpoints
  {
    CompactsToPlan(t, b, svc, opts, ids, tag);
    var plan := CompactPlan(t, b, svc, opts).value;
    if plan.Replace? {
      CompactEffect(t, b, plan, ids, CompactBranch(b, tag));
    }
  }

  /** Rewinding to a checkpoint made here and now makes a branch with the tip, and so the history, of the
      branch that was marked; all else stays. */
  lemma RewindReturns(t: TreeView, b: BranchId, name: string, id: CheckpointId, tag: string)
    requires Inv(t) && b in t.branches && "rewind-" + name + "-" + tag !in t.branches
    ensures MakeCheckpoint(t, b, name, id).Ok?
    ensures var t1 := MakeCheckpoint(t, b, name, id).value;
      && t1.checkpoints.Keys == t.checkpoints.Keys + {id}
      && Rewind(t1, id, tag) == Ok(t1.(branches := t.branches["rewind-" + name + "-" + tag := t.branches[b]]))
  {
  }

  /** The run of `ops` from `states[from]` on, whatever the tree was like before. */
  ghost predicate RunFrom(states: seq<TreeView>, ops: seq<Op>) {
    && |states| == |ops| + 1 && Inv(states[0])
    && forall i | 0 <= i < |ops| :: Takes(states[i], ops[i], states[i + 1]) == Yes
  }

  /** `t'` has all nodes of `t` under the same parents, and its checkpoints. */
  ghost predicate KeepsPlaces(t: TreeView, t': TreeView) {
    && Extends(t.nodes, t'.nodes)
    && forall cp | cp in t.checkpoints :: cp in t'.checkpoints && t'.checkpoints[cp] == t.checkpoints[cp]
  }

  lemma TakesKeepsPlaces(t: TreeView, op: Op, t': TreeView)
    requires Inv(t) && Takes(t, op, t') == Yes
    ensures Inv(t') && KeepsPlaces(t, t')
  {
    StepKeepsInv(t, op);
    forall cp | cp in t.checkpoints ensures cp in t'.checkpoints && t'.checkpoints[cp] == t.checkpoints[cp] {
      CheckpointKept(t, op, cp);
    }
  }

  lemma {:induction false} RunFromKeeps(states: seq<TreeView>, ops: seq<Op>, i: nat)
    requires RunFrom(states, ops) && i < |states|
    ensures Inv(states[i]) && KeepsPlaces(states[0], states[i])
  {
    if i > 0 {
      RunFromKeeps(states, ops, i - 1);
      TakesKeepsPlaces(states[i - 1], ops[i - 1], states[i]);
    }
  }

  /** Whatever was done since the checkpoint, rewinding to it succeeds, and the new branch has the path
      that the marked branch had then; nothing else has changed. */
  lemma RewindReturnsLater(t: TreeView, b: BranchId, name: string, id: CheckpointId, states: seq<TreeView>,
                           ops: seq<Op>, tag: string)
    requires Inv(t) && b in t.branches
    requires RunFrom(states, ops) && MakeCheckpoint(t, b, name, id) == Ok(states[0])
    ensures var last, branch := states[|ops|], "rewind-" + name + "-" + tag;
      && Rewind(last, id, tag) == Ok(last.(branches := last.branches[branch := t.branches[b]]))
      && Rooted(last.nodes) && t.branches[b] in last.nodes
      && PathOf(last.nodes, t.branches[b]) == PathOf(t.nodes, t.branches[b])
  {
    RunFromKeeps(states, ops, |ops|);
    assert states[0].checkpoints[id] == Checkpoint(b, t.branches[b], name);
    PathFrame(t.nodes, states[|ops|].nodes, t.branches[b]);
  }

  // ---- compaction ----

  /** The first half of the candidates, or the only one. */
  ghost function FirstHalf(c: seq<NodeId>): seq<NodeId> {
    if |c| <= 1 then c else c[..|c| / 2]
  }

  /** The candidates are exactly the active nodes of the path behind the root that no other branch has,
      when those are to be preserved; they keep the order of the path. */
  lemma CandidatesExactly(t: TreeView, b: BranchId, opts: CompactOpts)
    requires Inv(t) && b in t.branches
    ensures var path := PathOf(t.nodes, t.branches[b]);
      forall n :: n in CandidatesOf(t, b, opts) <==>
        && n in path && n in t.nodes && n != t.root && t.nodes[n].state == Active
        && !Preserved(t, b, opts, n)
    ensures Ascending(t.nodes, CandidatesOf(t, b, opts))
  {
    var path := PathOf(t.nodes, t.branches[b]);
    PathSteps(t.nodes, t.branches[b]);
    CandidatesOnPath(t.nodes, path, Spared(t, b, opts), |path|);
    CandidatesInOrder(t.nodes, path, Spared(t, b, opts), |path|);
    forall n | n in t.nodes ensures n == t.root <==> t.nodes[n].parent == "" {
      assert NodeOk(t, n);
    }
  }

  /** When Compact fails, does nothing, or makes a new branch. */
  lemma CompactOutcome(t: TreeView, b: BranchId, svc: Services, opts: CompactOpts, ids: seq<NodeId>, tag: string)
    requires Inv(t) && (b in t.branches ==> |PathOf(t.nodes, t.branches[b])| < |ids|)
    ensures var r := Compact(t, b, svc, opts, ids, tag);
      if b !in t.branches then r == Err(BranchNotFound)
      else
        var tokens, c := svc.countTokens(FlattenBranch(t, b)), CandidatesOf(t, b, opts);
        if tokens.Err? then r == Err(CountingFailed)
        else if tokens.value <= opts.maxTokens || c == [] then r == Ok((t, b))
        else
          var summary := svc.summarize(AllMessages(t.nodes, FirstHalf(c)));
          if summary.Err? then r == Err(SummarizationFailed)
          else r.Ok? && r.value.1 == r.value.0.active == "compact-" + b + "-" + tag
  {
    if b in t.branches && CandidatesOf(t, b, opts) != [] {
      var c := CandidatesOf(t, b, opts);
      assert FirstHalf(c) == c[..CompactCount(|c|)];
    }
  }

  lemma ExecutedSummary(t: TreeView, b: BranchId, plan: Plan, ids: seq<NodeId>, b': BranchId)
    requires GoodPlan(t, b, plan) && FreshIds(t, ids) && |plan.path| < |ids|
    ensures var t' := ExecutePlan(t, plan, b', ids);
      && Inv(t') && ids[0] in t'.nodes
      && t'.nodes[ids[0]] == SummaryView(t.nodes[plan.chosen[0]], plan.chosen, plan.summary, b')
      && b' in t'.branches && ids[0] in PathOf(t'.nodes, t'.branches[b'])
  {
    SummaryStep(t, b, plan, ids, b');
    CompactEffect(t, b, plan, ids, b');
    var t1 := AddNode(t, ids[0], SummaryView(t.nodes[plan.chosen[0]], plan.chosen, plan.summary, b'));
    GraftKeeps(t1, ids[0], Behind(plan), ids[1..], b', t.nodes, |Behind(plan)|);
    assert ids[0] in ids[..|Behind(plan)| + 1];
  }

  lemma {:induction false} GraftKeeps(t: TreeView, prev: NodeId, rest: seq<NodeId>, ids: seq<NodeId>,
                                      branch: BranchId, orig: Nodes, k: nat)
    requires k <= |rest| <= |ids| && AllIn(rest, orig) && forall i | 0 <= i < |ids| :: ids[i] !in t.nodes
    ensures forall n | n in t.nodes ::
      && n in Graft(t, prev, rest, ids, branch, orig, k).nodes
      && Graft(t, prev, rest, ids, branch, orig, k).nodes[n] == t.nodes[n]
  {
    if k > 0 {
      GraftKeeps(t, prev, rest, ids, branch, orig, k - 1);
    }
  }

  /** The node that takes the place of the first half of the candidates says what they were summarized
      to, and which they were. */
  lemma SummaryNode(t: TreeView, b: BranchId, svc: Services, opts: CompactOpts, ids: seq<NodeId>, tag: string,
                    t': TreeView, b': BranchId)
    requires Inv(t) && b in t.branches && |PathOf(t.nodes, t.branches[b])| < |ids| && FreshIds(t, ids)
    requires Compact(t, b, svc, opts, ids, tag) == Ok((t', b')) && b' != b
    ensures Inv(t') && b' in t'.branches && ids[0] in t'.nodes && ids[0] in PathOf(t'.nodes, t'.branches[b'])
    ensures var chosen := FirstHalf(CandidatesOf(t, b, opts));
      && chosen != [] && AllIn(chosen, t.nodes) && svc.summarize(AllMessages(t.nodes, chosen)).Ok?
      && t'.nodes[ids[0]]
         == NodeView(t.nodes[chosen[0]].parent,
                     UserMessage([UserText("Summary of previous conversation: "
                                           + svc.summarize(AllMessages(t.nodes, chosen)).value)]),
                     Compacted, 1, t.nodes[chosen[0]].depth, b', "", chosen)
  {
    var plan := CompactRunsPlan(t, b, svc, opts, ids, tag, t', b');
    PlanIsGood(t, b, svc, opts, plan);
    ExecutedSummary(t, b, plan, ids, b');
    PlanChooses(t, b, svc, opts, plan);
  }

  lemma PlanChooses(t: TreeView, b: BranchId, svc: Services, opts: CompactOpts, plan: Plan)
    requires Inv(t) && IsPlan(t, b, svc, opts, plan)
    ensures plan.chosen == FirstHalf(CandidatesOf(t, b, opts)) && AllIn(plan.chosen, t.nodes)
  {
    var c := CandidatesOf(t, b, opts);
    assert |plan.chosen| == if |c| <= 1 then |c| else |c| / 2;
  }

  /** Behind the summary stand clones of what lay behind the last chosen node: new active nodes, one below
      the other, with the messages and depths of the originals. */
  lemma CloneNodes(t: TreeView, b: BranchId, plan: Plan, ids: seq<NodeId>, b': BranchId, i: nat)
    requires GoodPlan(t, b, plan) && FreshIds(t, ids) && |plan.path| < |ids| && i < |Behind(plan)|
    ensures Behind(plan)[i] in t.nodes && ids[i + 1] in ExecutePlan(t, plan, b', ids).nodes
    ensures var orig := t.nodes[Behind(plan)[i]];
      ExecutePlan(t, plan, b', ids).nodes[ids[i + 1]]
      == NodeView(ids[i], orig.message, Active, 1, orig.depth, b', "", [])
  {
    BehindIsDeeper(t, b, plan);
    var t1 := AddNode(t, ids[0], SummaryView(t.nodes[plan.chosen[0]], plan.chosen, plan.summary, b'));
    GraftedNode(t1, ids[0], Behind(plan), ids[1..], b', t.nodes, |Behind(plan)|, i);
  }

  /** How much of a branch Compact leaves alone: the root, and what other branches have, if that is to be
      preserved. */
  ghost predicate LeavesAlone(t: TreeView, b: BranchId, opts: CompactOpts, s: nat)
    requires Inv(t) && b in t.branches
  {
    LeavesFirst(t, b, opts, PathOf(t.nodes, t.branches[b]), s)
  }

  ghost predicate LeavesFirst(t: TreeView, b: BranchId, opts: CompactOpts, path: seq<NodeId>, s: nat)
    requires Inv(t)
  {
    && 0 < s < |path|
    && forall i | 0 < i < |path| :: i < s <==> Preserved(t, b, opts, path[i])
  }

  ghost predicate Preserved(t: TreeView, b: BranchId, opts: CompactOpts, n: NodeId)
    requires Inv(t)
  {
    opts.preserveShared && OnOther(t, b, n)
  }

  ghost predicate OnOther(t: TreeView, b: BranchId, n: NodeId)
    requires Inv(t)
  {
    exists c :: c in t.branches && c != b && n in PathOf(t.nodes, t.branches[c])
  }

  lemma KeptPrefixLeavesAlone(t: TreeView, b: BranchId, opts: CompactOpts, s: nat)
    requires Inv(t) && b in t.branches
    requires var path := PathOf(t.nodes, t.branches[b]); s == KeptPrefix(path, Spared(t, b, opts), |path|) < |path|
    ensures LeavesAlone(t, b, opts, s)
  {
    var path, spared := PathOf(t.nodes, t.branches[b]), Spared(t, b, opts);
    if opts.preserveShared {
      forall i, j | 0 <= i <= j < |path| && path[j] in spared ensures path[i] in spared {
        SharedIsPrefix(t, b, i, j);
      }
    }
    KeptPrefixSplits(path, spared, |path|);
    assert forall n :: n in spared <==> Preserved(t, b, opts, n);
    assert LeavesFirst(t, b, opts, path, s);
  }

  /** What Summarized says, message by message. */
  lemma SummarizedReads(h: seq<Message>, h': seq<Message>, s: nat, k: nat, svc: Services)
    requires Summarized(h, h', s, k, svc)
    ensures s + k <= |h| && svc.summarize(h[s..s + k]).Ok?
    ensures |h'| == |h| - k + 1 && h'[..s] == h[..s] && h'[s + 1..] == h[s + k..]
    ensures h'[s] == UserMessage([UserText("Summary of previous conversation: " + svc.summarize(h[s..s + k]).value)])
  {
  }

  /** Compacting an all-active branch makes a branch that reads as it did, with the first half of the
      messages that are not left alone replaced by one user message that ends in their summary. */
  lemma CompactReads(t: TreeView, b: BranchId, svc: Services, opts: CompactOpts, ids: seq<NodeId>, tag: string,
                     t': TreeView, b': BranchId)
    returns (s: nat, k: nat)
    requires Inv(t) && b in t.branches && AllActive(t.nodes, PathOf(t.nodes, t.branches[b]))
    requires FreshIds(t, ids) && |PathOf(t.nodes, t.branches[b])| < |ids| && CompactBranch(b, tag) !in t.branches
    requires Compact(t, b, svc, opts, ids, tag) == Ok((t', b')) && b' != b
    ensures LeavesAlone(t, b, opts, s) && Inv(t') && b' == t'.active && b' in t'.branches
    ensures var h, h' := FlattenBranch(t, b), FlattenBranch(t', b');
      && s < |h| == |PathOf(t.nodes, t.branches[b])| && k == (if |h| - s == 1 then 1 else (|h| - s) / 2)
      && svc.summarize(h[s..s + k]).Ok?
      && |h'| == |h| - k + 1 && h'[..s] == h[..s] && h'[s + 1..] == h[s + k..]
      && h'[s] == UserMessage([UserText("Summary of previous conversation: " + svc.summarize(h[s..s + k]).value)])
  {
    var path;
    path, s, k := CompactPreservesMeaning(t, b, svc, opts, ids, tag, t', b');
    KeptPrefixLeavesAlone(t, b, opts, s);
    SummarizedReads(FlattenBranch(t, b), FlattenBranch(t', b'), s, k, svc);
  }
}
