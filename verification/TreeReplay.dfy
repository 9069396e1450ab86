/** Rebuilding a tree from its write-ahead log (agent/tree/tree.go, walAddNode). */
module TreeReplay {
  import opened Verdicts
  import opened Messages
  import opened TreeModel
  import opened TreeOps
  import opened TreeCompact
  import opened TreeRuns

  /** One committed transaction: what never changes of the node it added. */
  datatype Entry = Entry(id: NodeId, parent: NodeId, message: Message, depth: nat, branch: BranchId)

  function EntryOf(id: NodeId, view: NodeView): Entry {
    Entry(id, view.parent, view.message, view.depth, view.branch)
  }

  function ViewOf(e: Entry): NodeView {
    NodeView(e.parent, e.message, Active, 1, e.depth, e.branch, "", [])
  }

  /** The node an operation adds and writes to the log. Archiving, checkpoints and the like write
      nothing, and neither do Rewind and Compact. */
  function Added(t: TreeView, op: Op): Option<(NodeId, NodeView)> {
    match op
    case AddChildOp(p, msg, id) =>
      if Refusal(t, p).Some? then None else Some((id, ChildView(t, p, msg, Active, t.nodes[p].branch)))
    case AddFeedbackOp(p, msg, id, tag) =>
      if Refusal(t, p).Some? then None else Some((id, ChildView(t, p, msg, Feedback, FeedbackBranch(tag))))
    case BranchOp(p, name, msg, id, tag) =>
      if Refusal(t, p).Some? then None else Some((id, ChildView(t, p, msg, Active, BranchName(t, name, tag))))
    case UpdateOp(n, content, id, tag) =>
      if UpdateUserMessage(t, n, content, id, tag).Err? then None
      else Some((id, ChildView(t, t.nodes[n].parent, UserMessage(content), Active, EditBranch(tag))))
    case _ => None
  }

  function Logged(t: TreeView, op: Op): seq<Entry> {
    var added := Added(t, op);
    if added.None? then [] else [EntryOf(added.value.0, added.value.1)]
  }

  /** Adding to a tree what a log says was added. */
  function Rebuild(base: TreeView, log: seq<Entry>): TreeView {
    if log == [] then base
    else
      var e := log[|log| - 1];
      AddNode(Rebuild(base, log[..|log| - 1]), e.id, ViewOf(e))
  }

  lemma {:induction false} RebuildAppend(base: TreeView, log: seq<Entry>, e: Entry)
    ensures Rebuild(base, log + [e]) == AddNode(Rebuild(base, log), e.id, ViewOf(e))
  {
    assert (log + [e])[..|log|] == log;
  }

  /** Same nodes with the same parents, depths, branches and messages, same ordered children, same
      branch tips. */
  ghost predicate SameSkeleton(t: TreeView, r: TreeView) {
    && r.root == t.root && r.children == t.children && r.branches == t.branches
    && r.nodes.Keys == t.nodes.Keys
    && forall n | n in t.nodes :: SameBone(t, r, n)
  }

  ghost predicate SameBone(t: TreeView, r: TreeView, n: NodeId)
    requires n in t.nodes
  {
    && n in r.nodes && r.nodes[n].parent == t.nodes[n].parent && r.nodes[n].depth == t.nodes[n].depth
    && r.nodes[n].branch == t.nodes[n].branch && r.nodes[n].message == t.nodes[n].message
  }

  /** An operation that changes the tree behind the log's back. */
  ghost predicate Bypasses(t: TreeView, op: Op)
    requires Inv(t) && OracleOk(t, op)
  {
    || (op.RewindOp? && op.cp in t.checkpoints)
    || (op.CompactOp? && Compacts(t, op.branch, op.svc, op.opts))
  }

  // ---- one step ----

  lemma SkeletonAdd(t: TreeView, r: TreeView, id: NodeId, view: NodeView)
    requires SameSkeleton(t, r) && id !in t.nodes
    ensures SameSkeleton(AddNode(t, id, view), AddNode(r, id, ViewOf(EntryOf(id, view))))
  {
    var t', r' := AddNode(t, id, view), AddNode(r, id, ViewOf(EntryOf(id, view)));
    forall n | n in t'.nodes ensures SameBone(t', r', n) {
      assert n != id ==> SameBone(t, r, n);
    }
  }

  ghost predicate Logs(op: Op) {
    op.AddChildOp? || op.AddFeedbackOp? || op.BranchOp? || op.UpdateOp?
  }

  lemma RebuildOne(r: TreeView, e: Entry)
    ensures Rebuild(r, [e]) == AddNode(r, e.id, ViewOf(e))
  {
    assert [e][..0] == [];
  }

  /** What a logging operation does is to add the node it logs. */
  lemma StepIsLogged(t: TreeView, op: Op)
    requires Inv(t) && OracleOk(t, op) && Logs(op)
    ensures match Added(t, op)
            case None => Step(t, op) == t && Apply(t, op).Err?
            case Some((id, view)) =>
              id == op.id && id !in t.nodes && Apply(t, op).Ok? && Step(t, op) == AddNode(t, id, view)
  {
    if op.UpdateOp? && op.node in t.nodes {
      assert NodeOk(t, op.node) && ParentOk(t.nodes, op.node);
    }
  }

  /** The entry logged is the node as it stands in the tree afterwards; a failed operation logs none. */
  lemma LoggedIsNewNode(t: TreeView, op: Op)
    requires Inv(t) && OracleOk(t, op) && Logs(op)
    ensures Apply(t, op).Ok? ==> op.id in Apply(t, op).value.nodes
    ensures Logged(t, op) == if Apply(t, op).Ok? then [EntryOf(op.id, Apply(t, op).value.nodes[op.id])] else []
  {
    StepIsLogged(t, op);
  }

  lemma MarkSkeleton(t: TreeView, r: TreeView, n: NodeId, recursive: bool, state: NodeState, who: string)
    requires Rooted(t.nodes) && SameSkeleton(t, r)
    ensures SameSkeleton(t.(nodes := MarkAll(t.nodes, n, recursive, state, who)), r)
  {
    SkeletonTransitive(t.(nodes := MarkAll(t.nodes, n, recursive, state, who)), t, r);
  }

  /** Every operation that does not bypass the log keeps tree and log in step. */
  lemma SkeletonStep(t: TreeView, r: TreeView, op: Op)
    requires Inv(t) && OracleOk(t, op) && SameSkeleton(t, r) && !Bypasses(t, op)
    ensures SameSkeleton(Step(t, op), Rebuild(r, Logged(t, op)))
  {
    if Logs(op) {
      SkeletonLogged(t, r, op);
    } else if op.ArchiveOp? || op.RestoreOp? {
      SkeletonMarked(t, r, op);
      RebuildNothing(t, r, op);
    } else {
      SkeletonUnlogged(t, r, op);
      RebuildNothing(t, r, op);
    }
  }

  lemma SkeletonMarked(t: TreeView, r: TreeView, op: Op)
    requires Inv(t) && OracleOk(t, op) && SameSkeleton(t, r) && (op.ArchiveOp? || op.RestoreOp?)
    ensures SameSkeleton(Step(t, op), r)
  {
    StepMarks(t, op);
    if op.ArchiveOp? {
      MarkSkeleton(t, r, op.node, op.recursive, Archived, op.who);
    } else {
      MarkSkeleton(t, r, op.node, op.recursive, Active, "");
    }
  }

  lemma StepMarks(t: TreeView, op: Op)
    requires Inv(t) && OracleOk(t, op)
    ensures op.ArchiveOp? ==>
      Step(t, op) == t || Step(t, op) == t.(nodes := MarkAll(t.nodes, op.node, op.recursive, Archived, op.who))
    ensures op.RestoreOp? ==>
      Step(t, op) == t || Step(t, op) == t.(nodes := MarkAll(t.nodes, op.node, op.recursive, Active, ""))
  {
  }

  lemma SkeletonUnlogged(t: TreeView, r: TreeView, op: Op)
    requires Inv(t) && OracleOk(t, op) && SameSkeleton(t, r) && !Bypasses(t, op)
    requires !Logs(op) && !op.ArchiveOp? && !op.RestoreOp?
    ensures SameSkeleton(Step(t, op), r)
  {
  }

  lemma RebuildNothing(t: TreeView, r: TreeView, op: Op)
    requires !Logs(op)
    ensures Rebuild(r, Logged(t, op)) == r
  {
  }

  lemma SkeletonLogged(t: TreeView, r: TreeView, op: Op)
    requires Inv(t) && OracleOk(t, op) && SameSkeleton(t, r) && Logs(op)
    ensures SameSkeleton(Step(t, op), Rebuild(r, Logged(t, op)))
  {
    StepIsLogged(t, op);
    if Added(t, op).Some? {
      var (id, view) := Added(t, op).value;
      RebuildOne(r, EntryOf(id, view));
      SkeletonAdd(t, r, id, view);
    }
  }

  lemma SkeletonTransitive(t': TreeView, t: TreeView, r: TreeView)
    requires SameSkeleton(t, t') && SameSkeleton(t, r)
    ensures SameSkeleton(t', r)
  {
    forall n | n in t'.nodes ensures SameBone(t', r, n) {
      assert SameBone(t, t', n) && SameBone(t, r, n);
    }
  }

  // ---- what the log can never catch up with ----

  ghost predicate Within(r: TreeView, t: TreeView) {
    && (forall n | n in r.nodes :: n in t.nodes)
    && (forall b | b in r.branches :: b in t.branches)
  }

  ghost predicate BranchUncarried(t: TreeView, b: BranchId) {
    b in t.branches && forall n | n in t.nodes :: t.nodes[n].branch != b
  }

  /** The rebuilt tree lacks a node, or a branch that no node carries. */
  ghost predicate Lost(t: TreeView, r: TreeView) {
    || (exists n :: n in t.nodes && n !in r.nodes)
    || (exists b :: BranchUncarried(t, b) && b !in r.branches)
  }

  lemma WithinStep(t: TreeView, r: TreeView, op: Op)
    requires Inv(t) && OracleOk(t, op) && Within(r, t)
    ensures Within(Rebuild(r, Logged(t, op)), Step(t, op))
  {
    if Logs(op) {
      StepIsLogged(t, op);
      if Logged(t, op) != [] {
        RebuildOne(r, Logged(t, op)[0]);
      }
    } else {
      StepKeepsInv(t, op);
    }
  }

  lemma BypassLoses(t: TreeView, r: TreeView, op: Op)
    requires Inv(t) && OracleOk(t, op) && Within(r, t) && Bypasses(t, op)
    ensures Lost(Step(t, op), Rebuild(r, Logged(t, op)))
  {
    if op.RewindOp? {
      RewindLoses(t, op.cp, op.tag);
    } else {
      CompactLoses(t, op.branch, op.svc, op.opts, op.ids, op.tag);
    }
  }

  lemma RewindLoses(t: TreeView, cp: CheckpointId, tag: string)
    requires Inv(t) && OracleOk(t, RewindOp(cp, tag)) && Rewind(t, cp, tag).Ok?
    ensures RewindBranch(t, cp, tag) !in t.branches
      && BranchUncarried(Rewind(t, cp, tag).value, RewindBranch(t, cp, tag))
  {
    forall n | n in t.nodes ensures t.nodes[n].branch != RewindBranch(t, cp, tag) {
      assert NodeOk(t, n);
    }
  }

  lemma CompactLoses(t: TreeView, b: BranchId, svc: Services, opts: CompactOpts, ids: seq<NodeId>, tag: string)
    requires Inv(t) && OracleOk(t, CompactOp(b, svc, opts, ids, tag)) && Compact(t, b, svc, opts, ids, tag).Ok?
    requires CompactPlan(t, b, svc, opts).value.Replace?
    ensures exists n :: n in Compact(t, b, svc, opts, ids, tag).value.0.nodes && n !in t.nodes
  {
    var plan := CompactPlan(t, b, svc, opts).value;
    PlanIs(t, b, svc, opts, plan);
    PlanIsGood(t, b, svc, opts, plan);
    NewTipIsNew(t, b, plan, CompactBranch(b, tag), ids);
  }

  lemma NewTipIsNew(t: TreeView, b: BranchId, plan: Plan, branch: BranchId, ids: seq<NodeId>)
    requires GoodPlan(t, b, plan) && FreshIds(t, ids) && |plan.path| < |ids|
    ensures ids[|Behind(plan)|] in ExecutePlan(t, plan, branch, ids).nodes && ids[|Behind(plan)|] !in t.nodes
  {
    CompactEffect(t, b, plan, ids, branch);
  }

  lemma LostStaysLost(t: TreeView, r: TreeView, op: Op)
    requires Inv(t) && OracleOk(t, op) && !Bypasses(t, op) && Lost(t, r)
    ensures Lost(Step(t, op), Rebuild(r, Logged(t, op)))
  {
    if Logs(op) {
      StepIsLogged(t, op);
      if Logged(t, op) != [] {
        LoggedBranch(t, op);
        LostAfterAdd(t, r, Added(t, op).value.0, Added(t, op).value.1);
      }
    } else {
      RebuildNothing(t, r, op);
      LostUnlogged(t, r, op);
    }
  }

  lemma LostUnlogged(t: TreeView, r: TreeView, op: Op)
    requires Inv(t) && OracleOk(t, op) && !Bypasses(t, op) && !Logs(op) && Lost(t, r)
    ensures Lost(Step(t, op), r)
  {
    StepKeepsInv(t, op);
    if n :| n in t.nodes && n !in r.nodes {
      assert n in Step(t, op).nodes;
    } else {
      var b :| BranchUncarried(t, b) && b !in r.branches;
      UncarriedKept(t, op, b);
    }
  }

  lemma LostAfterAdd(t: TreeView, r: TreeView, id: NodeId, view: NodeView)
    requires Lost(t, r) && id !in t.nodes && forall b | BranchUncarried(t, b) :: view.branch != b
    ensures Lost(AddNode(t, id, view), Rebuild(r, [EntryOf(id, view)]))
  {
    RebuildOne(r, EntryOf(id, view));
    if n :| n in t.nodes && n !in r.nodes {
      assert n in AddNode(t, id, view).nodes;
    } else {
      var b :| BranchUncarried(t, b) && b !in r.branches;
      assert BranchUncarried(AddNode(t, id, view), b);
    }
  }

  /** A logged node carries the branch of an existing node or a new branch. */
  lemma LoggedBranch(t: TreeView, op: Op)
    requires Inv(t) && OracleOk(t, op) && Logs(op) && Logged(t, op) != []
    ensures forall b | BranchUncarried(t, b) :: Logged(t, op)[0].branch != b
  {
  }

  lemma UncarriedKept(t: TreeView, op: Op, b: BranchId)
    requires Inv(t) && OracleOk(t, op) && !Bypasses(t, op) && !Logs(op) && BranchUncarried(t, b)
    ensures BranchUncarried(Step(t, op), b)
  {
    StepMarks(t, op);
  }

  // ---- whole runs ----

  /** An operation, and whether the log takes the write it may make. */
  datatype Deed = Deed(op: Op, written: bool)

  /** An operation whose write fails changes nothing. */
  ghost function Made(t: TreeView, d: Deed): TreeView
    requires Inv(t) && OracleOk(t, d.op)
  {
    if Logs(d.op) && !d.written then t else Step(t, d.op)
  }

  ghost function Written(t: TreeView, d: Deed): seq<Entry> {
    if Logs(d.op) && !d.written then [] else Logged(t, d.op)
  }

  /** Whether the operation takes a well-formed `t` to `t'`, with identifiers as the oracle promises. */
  ghost function Does(t: TreeView, d: Deed, t': TreeView): Verdict {
    if Inv(t) ==> OracleOk(t, d.op) && t' == Made(t, d) then Yes else No
  }

  /** A run from a new tree with a log, which fails where it likes. */
  ghost predicate LoggedRun(states: seq<TreeView>, deeds: seq<Deed>) {
    && |states| == |deeds| + 1
    && (exists msg, id :: id != "" && states[0] == NewTree(msg, id))
    && forall i | 0 <= i < |deeds| :: Does(states[i], deeds[i], states[i + 1]) == Yes
  }

  lemma DoesKeepInv(t: TreeView, d: Deed, t': TreeView)
    requires Inv(t) && Does(t, d, t') == Yes
    ensures Inv(t')
  {
    StepKeepsInv(t, d.op);
  }

  lemma {:induction false} LoggedRunKeepsInv(states: seq<TreeView>, deeds: seq<Deed>, i: nat)
    requires LoggedRun(states, deeds) && i < |states|
    ensures Inv(states[i])
  {
    if i == 0 {
      var msg, id :| id != "" && states[0] == NewTree(msg, id);
      NewTreeInv(msg, id);
    } else {
      LoggedRunKeepsInv(states, deeds, i - 1);
      DoesKeepInv(states[i - 1], deeds[i - 1], states[i]);
    }
  }

  /** The log as written by the first `k` operations of a run. */
  ghost function LogOf(states: seq<TreeView>, deeds: seq<Deed>, k: nat): seq<Entry>
    requires k <= |deeds| && |states| == |deeds| + 1
  {
    if k == 0 then [] else LogOf(states, deeds, k - 1) + Written(states[k - 1], deeds[k - 1])
  }

  /** What recovery makes of the log: the tree, or one that lacks something. */
  datatype Recovery = Faithful | Incomplete | Neither

  ghost function RecoveryOf(t: TreeView, r: TreeView): Recovery {
    if Within(r, t) && SameSkeleton(t, r) then Faithful
    else if Within(r, t) && Lost(t, r) then Incomplete
    else Neither
  }

  function Expected(logged: bool): Recovery {
    if logged then Faithful else Incomplete
  }

  /** One more operation, seen from the tree and from the log. */
  lemma TrackStep(t: TreeView, r: TreeView, op: Op, logged: bool)
    requires Inv(t) && OracleOk(t, op) && RecoveryOf(t, r) == Expected(logged)
    ensures RecoveryOf(Step(t, op), Rebuild(r, Logged(t, op))) == Expected(logged && !Bypasses(t, op))
  {
    WithinStep(t, r, op);
    LostDiffers(Step(t, op), Rebuild(r, Logged(t, op)));
    if Bypasses(t, op) {
      BypassLoses(t, r, op);
    } else if logged {
      SkeletonStep(t, r, op);
    } else {
      LostStaysLost(t, r, op);
    }
  }

  lemma LostDiffers(t: TreeView, r: TreeView)
    ensures !(Lost(t, r) && SameSkeleton(t, r))
  {
  }

  /** An operation that is no successful Rewind and no effective Compact. */
  ghost function Honest(t: TreeView, op: Op): Verdict {
    if Inv(t) && OracleOk(t, op) && !Bypasses(t, op) then Yes else No
  }

  /** The same when the log may refuse the write. */
  lemma TrackDeed(t: TreeView, r: TreeView, d: Deed, t': TreeView, logged: bool)
    requires Inv(t) && Does(t, d, t') == Yes && RecoveryOf(t, r) == Expected(logged)
    ensures RecoveryOf(t', Rebuild(r, Written(t, d))) == Expected(logged && Honest(t, d.op) == Yes)
  {
    if !(Logs(d.op) && !d.written) {
      TrackStep(t, r, d.op, logged);
    }
  }

  ghost predicate LoggedThroughout(states: seq<TreeView>, deeds: seq<Deed>, k: nat)
    requires k <= |deeds| < |states|
  {
    forall i | 0 <= i < k :: Honest(states[i], deeds[i].op) == Yes
  }

  ghost function RecoveryAfter(states: seq<TreeView>, deeds: seq<Deed>, k: nat): Recovery
    requires k <= |deeds| && |states| == |deeds| + 1
  {
    RecoveryOf(states[k], Rebuild(states[0], LogOf(states, deeds, k)))
  }

  ghost function ExpectedAfter(states: seq<TreeView>, deeds: seq<Deed>, k: nat): Recovery
    requires k <= |deeds| && |states| == |deeds| + 1
  {
    Expected(LoggedThroughout(states, deeds, k))
  }

  /** Over any run, with writes to the log failing or not, replaying the log in order from the bare
      root rebuilds the tree exactly when no operation of the run was a successful Rewind or an
      effective Compact. */
  lemma ReplayRebuildsIff(states: seq<TreeView>, deeds: seq<Deed>, k: nat)
    requires LoggedRun(states, deeds) && k <= |deeds|
    ensures SameSkeleton(states[k], Rebuild(states[0], LogOf(states, deeds, k))) <==> LoggedThroughout(states, deeds, k)
  {
    ReplayTracks(states, deeds, k);
    LostDiffers(states[k], Rebuild(states[0], LogOf(states, deeds, k)));
  }

  lemma {:induction false} ReplayTracks(states: seq<TreeView>, deeds: seq<Deed>, k: nat)
    requires LoggedRun(states, deeds) && k <= |deeds|
    ensures RecoveryAfter(states, deeds, k) == ExpectedAfter(states, deeds, k)
    decreases k
  {
    if k > 0 {
      ReplayTracks(states, deeds, k - 1);
      LoggedRunKeepsInv(states, deeds, k - 1);
      TrackNext(states, deeds, k);
    } else {
      assert LoggedThroughout(states, deeds, 0);
    }
  }

  lemma TrackNext(states: seq<TreeView>, deeds: seq<Deed>, k: nat)
    requires 0 < k <= |deeds| && |states| == |deeds| + 1 && Inv(states[k - 1])
    requires Does(states[k - 1], deeds[k - 1], states[k]) == Yes
    requires RecoveryAfter(states, deeds, k - 1) == ExpectedAfter(states, deeds, k - 1)
    ensures RecoveryAfter(states, deeds, k) == ExpectedAfter(states, deeds, k)
  {
    ExpectedNext(states, deeds, k);
    LogOfStep(states, deeds, k);
    TrackDeed(states[k - 1], Rebuild(states[0], LogOf(states, deeds, k - 1)), deeds[k - 1], states[k],
              LoggedThroughout(states, deeds, k - 1));
  }

  lemma ExpectedNext(states: seq<TreeView>, deeds: seq<Deed>, k: nat)
    requires 0 < k <= |deeds| && |states| == |deeds| + 1
    ensures ExpectedAfter(states, deeds, k - 1) == Expected(LoggedThroughout(states, deeds, k - 1))
    ensures ExpectedAfter(states, deeds, k)
         == Expected(LoggedThroughout(states, deeds, k - 1) && Honest(states[k - 1], deeds[k - 1].op) == Yes)
  {
  }

  lemma LogOfStep(states: seq<TreeView>, deeds: seq<Deed>, k: nat)
    requires |states| == |deeds| + 1 && 0 < k <= |deeds|
    ensures Rebuild(states[0], LogOf(states, deeds, k))
         == Rebuild(Rebuild(states[0], LogOf(states, deeds, k - 1)), Written(states[k - 1], deeds[k - 1]))
  {
    var front, back := LogOf(states, deeds, k - 1), Written(states[k - 1], deeds[k - 1]);
    if back == [] {
      assert front + back == front;
    } else {
      RebuildAppend(states[0], front, back[0]);
      RebuildOne(Rebuild(states[0], front), back[0]);
      assert back == [back[0]];
    }
  }
}
