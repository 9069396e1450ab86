/** The operations of the conversation tree (agent/tree/tree.go) as functions on its value.

    NewID is an oracle: each operation receives the identifiers it draws, `id` for a node or a
    checkpoint and `tag` for the eight characters behind a generated branch name. */
module TreeOps {
  import opened Messages
  import opened TreeModel

  datatype TreeError =
    | NodeNotFound | NodeIsArchived | NodeIsLeaf | RootImmutable | InvalidBranchPoint
    | BranchNotFound | CheckpointNotFound | CountingFailed | SummarizationFailed | WalFailed

  type Outcome = Result<TreeView, TreeError>

  // ---- growing the tree ----

  /** Why nothing may be added under `p`, if so. */
  function Refusal(t: TreeView, p: NodeId): Option<TreeError> {
    if p !in t.nodes then Some(NodeNotFound)
    else if t.nodes[p].state == Archived then Some(NodeIsArchived)
    else if t.nodes[p].state == Feedback then Some(NodeIsLeaf)
    else None
  }

  /** A new node below `p`. */
  function ChildView(t: TreeView, p: NodeId, msg: Message, state: NodeState, branch: BranchId): NodeView
    requires p in t.nodes
  {
    NodeView(p, msg, state, 1, t.nodes[p].depth + 1, branch, "", [])
  }

  function AddChild(t: TreeView, p: NodeId, msg: Message, id: NodeId): Outcome {
    var refusal := Refusal(t, p);
    if refusal.Some? then Err(refusal.value)
    else Ok(AddNode(t, id, ChildView(t, p, msg, Active, t.nodes[p].branch)))
  }

  function FeedbackBranch(tag: string): BranchId { "feedback-" + tag }

  function AddFeedback(t: TreeView, p: NodeId, msg: Message, id: NodeId, tag: string): Outcome {
    var refusal := Refusal(t, p);
    if refusal.Some? then Err(refusal.value)
    else Ok(AddNode(t, id, ChildView(t, p, msg, Feedback, FeedbackBranch(tag))))
  }

  /** A taken name gets a suffix. */
  function BranchName(t: TreeView, name: BranchId, tag: string): BranchId {
    if name in t.branches then name + "-" + tag else name
  }

  function Branch(t: TreeView, from: NodeId, name: BranchId, msg: Message, id: NodeId, tag: string): Outcome {
    var refusal := Refusal(t, from);
    if refusal.Some? then Err(refusal.value)
    else Ok(AddNode(t, id, ChildView(t, from, msg, Active, BranchName(t, name, tag))))
  }

  function EditBranch(tag: string): BranchId { "edit-" + tag }

  /** Editing a user message starts a branch next to it; the state of the parent is not asked. */
  function UpdateUserMessage(t: TreeView, n: NodeId, content: seq<UserContent>, id: NodeId, tag: string): Outcome {
    if n !in t.nodes then Err(NodeNotFound)
    else if t.nodes[n].parent == "" then Err(RootImmutable)
    else if !t.nodes[n].message.UserMessage? then Err(InvalidBranchPoint)
    else if t.nodes[n].parent !in t.nodes then Err(NodeNotFound)
    else Ok(AddNode(t, id, ChildView(t, t.nodes[n].parent, UserMessage(content), Active, EditBranch(tag))))
  }

  // ---- archiving ----

  function Marked(v: NodeView, state: NodeState, who: string): NodeView {
    v.(state := state, archivedBy := who, version := NextVersion(v.version))
  }

  /** `n` and, if asked, everything below it: the nodes whose path leads through `n`. */
  predicate Affected(nodes: Nodes, n: NodeId, recursive: bool, m: NodeId)
    requires Rooted(nodes) && m in nodes
  {
    if recursive then n in PathOf(nodes, m) else m == n
  }

  function MarkAll(nodes: Nodes, n: NodeId, recursive: bool, state: NodeState, who: string): Nodes
    requires Rooted(nodes)
  {
    map m | m in nodes :: if Affected(nodes, n, recursive, m) then Marked(nodes[m], state, who) else nodes[m]
  }

  function Archive(t: TreeView, n: NodeId, who: string, recursive: bool): Outcome
    requires Inv(t)
  {
    if n !in t.nodes then Err(NodeNotFound)
    else if t.nodes[n].parent == "" then Err(RootImmutable)
    else Ok(t.(nodes := MarkAll(t.nodes, n, recursive, Archived, who)))
  }

  function Restore(t: TreeView, n: NodeId, recursive: bool): Outcome
    requires Inv(t)
  {
    if n !in t.nodes then Err(NodeNotFound)
    else Ok(t.(nodes := MarkAll(t.nodes, n, recursive, Active, "")))
  }

  // ---- branches and checkpoints ----

  function SetActive(t: TreeView, b: BranchId): Outcome {
    if b !in t.branches then Err(BranchNotFound) else Ok(t.(active := b))
  }

  function MakeCheckpoint(t: TreeView, b: BranchId, name: string, id: CheckpointId): Outcome {
    if b !in t.branches then Err(BranchNotFound)
    else Ok(t.(checkpoints := t.checkpoints[id := Checkpoint(b, t.branches[b], name)]))
  }

  function RewindBranch(t: TreeView, cp: CheckpointId, tag: string): BranchId
    requires cp in t.checkpoints
  {
    "rewind-" + t.checkpoints[cp].name + "-" + tag
  }

  function Rewind(t: TreeView, cp: CheckpointId, tag: string): Outcome {
    if cp !in t.checkpoints then Err(CheckpointNotFound)
    else if t.checkpoints[cp].node !in t.nodes then Err(NodeNotFound)
    else Ok(t.(branches := t.branches[RewindBranch(t, cp, tag) := t.checkpoints[cp].node]))
  }

  // ---- compaction (agent/tree/compact.go) ----

  datatype CompactOpts = CompactOpts(maxTokens: int, preserveShared: bool)

  /** The tokenizer, and the provider asked to summarize a list of messages. */
  datatype Services = Services(
    countTokens: seq<Message> -> Result<int, string>,
    summarize: seq<Message> -> Result<string, string>)

  /** The nodes on the paths of the other branches. */
  function Shared(t: TreeView, b: BranchId): set<NodeId>
    requires Inv(t)
  {
    set c, n | c in t.branches && c != b && n in PathOf(t.nodes, t.branches[c]) :: n
  }

  /** The nodes that must not be compacted. */
  function Spared(t: TreeView, b: BranchId, opts: CompactOpts): set<NodeId>
    requires Inv(t)
  {
    if opts.preserveShared then Shared(t, b) else {}
  }

  predicate IsCandidate(nodes: Nodes, shared: set<NodeId>, n: NodeId)
    requires n in nodes
  {
    nodes[n].parent != "" && nodes[n].state == Active && n !in shared
  }

  /** The candidates among the first `k` nodes of `path`, in order. */
  function Candidates(nodes: Nodes, path: seq<NodeId>, shared: set<NodeId>, k: nat): seq<NodeId>
    requires k <= |path| && forall i | 0 <= i < |path| :: path[i] in nodes
  {
    if k == 0 then []
    else
      var before := Candidates(nodes, path, shared, k - 1);
      if IsCandidate(nodes, shared, path[k - 1]) then before + [path[k - 1]] else before
  }

  /** Half of the candidates, but at least one. */
  function CompactCount(n: nat): nat {
    if n / 2 < 1 then 1 else n / 2
  }

  function AllMessages(nodes: Nodes, ids: seq<NodeId>): seq<Message>
    requires forall i | 0 <= i < |ids| :: ids[i] in nodes
  {
    seq(|ids|, i requires 0 <= i < |ids| => nodes[ids[i]].message)
  }

  function IndexIn(s: seq<NodeId>, x: NodeId): (i: nat)
    requires x in s
    ensures i < |s| && s[i] == x && forall k | 0 <= k < i :: s[k] != x
  {
    if s[0] == x then 0 else IndexIn(s[1..], x) + 1
  }

  function SummaryMessage(summary: string): Message {
    NewUserMessage("Summary of previous conversation: " + summary)
  }

  function SummaryView(first: NodeView, ids: seq<NodeId>, summary: string, branch: BranchId): NodeView {
    NodeView(first.parent, SummaryMessage(summary), Compacted, 1, first.depth, branch, "", ids)
  }

  /** A clone is active whatever its original is, and keeps the original's depth. */
  function CloneView(orig: NodeView, parent: NodeId, branch: BranchId): NodeView {
    NodeView(parent, orig.message, Active, 1, orig.depth, branch, "", [])
  }

  function CloneParent(prev: NodeId, ids: seq<NodeId>, i: nat): NodeId
    requires i <= |ids|
  {
    if i == 0 then prev else ids[i - 1]
  }

  /** The tree with the first `k` nodes of `rest` cloned one below the other, starting under `prev`. */
  function Graft(t: TreeView, prev: NodeId, rest: seq<NodeId>, ids: seq<NodeId>, branch: BranchId, orig: Nodes, k: nat)
    : TreeView
    requires k <= |rest| <= |ids| && forall i | 0 <= i < |rest| :: rest[i] in orig
  {
    if k == 0 then t
    else
      AddNode(Graft(t, prev, rest, ids, branch, orig, k - 1), ids[k - 1],
              CloneView(orig[rest[k - 1]], CloneParent(prev, ids, k - 1), branch))
  }

  /** What Compact decides before it touches the tree. */
  datatype Plan = Keep | Replace(path: seq<NodeId>, chosen: seq<NodeId>, summary: string)

  function CompactPlan(t: TreeView, b: BranchId, svc: Services, opts: CompactOpts): Result<Plan, TreeError>
    requires Inv(t)
  {
    if b !in t.branches then Err(BranchNotFound)
    else
      var path := PathOf(t.nodes, t.branches[b]);
      PathSteps(t.nodes, t.branches[b]);
      var tokens := svc.countTokens(Visible(t.nodes, path));
      if tokens.Err? then Err(CountingFailed)
      else if tokens.value <= opts.maxTokens then Ok(Keep)
      else Choice(t.nodes, path, Spared(t, b, opts), svc)
  }

  /** Over budget: the first half of the candidates is to be replaced by a summary. */
  function Choice(nodes: Nodes, path: seq<NodeId>, spared: set<NodeId>, svc: Services): Result<Plan, TreeError>
    requires forall i | 0 <= i < |path| :: path[i] in nodes
  {
    var candidates := Candidates(nodes, path, spared, |path|);
    if |candidates| == 0 then Ok(Keep)
    else
      var chosen := candidates[..CompactCount(|candidates|)];
      CandidatesOnPath(nodes, path, spared, |path|);
      var summary := svc.summarize(AllMessages(nodes, chosen));
      if summary.Err? then Err(SummarizationFailed) else Ok(Replace(path, chosen, summary.value))
  }

  lemma {:induction false} CandidatesOnPath(nodes: Nodes, path: seq<NodeId>, shared: set<NodeId>, k: nat)
    requires k <= |path| && forall i | 0 <= i < |path| :: path[i] in nodes
    ensures forall n | n in Candidates(nodes, path, shared, k) ::
      n in nodes && n in path && IsCandidate(nodes, shared, n)
    ensures forall i | 0 <= i < k && IsCandidate(nodes, shared, path[i]) ::
      path[i] in Candidates(nodes, path, shared, k)
  {
    if k > 0 {
      CandidatesOnPath(nodes, path, shared, k - 1);
    }
  }

  function CompactBranch(b: BranchId, tag: string): BranchId { "compact-" + b + "-" + tag }

  /** The nodes of `path` after `last`. */
  function After(path: seq<NodeId>, last: NodeId): seq<NodeId>
    requires last in path
  {
    path[IndexIn(path, last) + 1..]
  }

  ghost predicate PlanFits(t: TreeView, plan: Plan) {
    plan.Replace? ==>
      && (forall i | 0 <= i < |plan.path| :: plan.path[i] in t.nodes)
      && |plan.chosen| > 0
      && (forall n | n in plan.chosen :: n in plan.path && n in t.nodes)
  }

  function ExecutePlan(t: TreeView, plan: Plan, b: BranchId, ids: seq<NodeId>): TreeView
    requires plan.Replace? && PlanFits(t, plan) && |plan.path| < |ids|
  {
    var first, last := plan.chosen[0], plan.chosen[|plan.chosen| - 1];
    var t1 := AddNode(t, ids[0], SummaryView(t.nodes[first], plan.chosen, plan.summary, b));
    var rest := After(plan.path, last);
    Graft(t1, ids[0], rest, ids[1..], b, t.nodes, |rest|).(active := b)
  }

  /** The branch Compact returns is the new one, or the old one when there was nothing to do. */
  function Compact(t: TreeView, b: BranchId, svc: Services, opts: CompactOpts, ids: seq<NodeId>, tag: string)
    : Result<(TreeView, BranchId), TreeError>
    requires Inv(t) && (b in t.branches ==> |PathOf(t.nodes, t.branches[b])| < |ids|)
  {
    var plan := CompactPlan(t, b, svc, opts);
    if plan.Err? then Err(plan.error)
    else if plan.value.Keep? then Ok((t, b))
    else
      PlanIsFit(t, b, svc, opts);
      Ok((ExecutePlan(t, plan.value, CompactBranch(b, tag), ids), CompactBranch(b, tag)))
  }

  lemma PlanIsFit(t: TreeView, b: BranchId, svc: Services, opts: CompactOpts)
    requires Inv(t) && CompactPlan(t, b, svc, opts).Ok? && CompactPlan(t, b, svc, opts).value.Replace?
    ensures PlanFits(t, CompactPlan(t, b, svc, opts).value)
    ensures b in t.branches && CompactPlan(t, b, svc, opts).value.path == PathOf(t.nodes, t.branches[b])
  {
    var path := PathOf(t.nodes, t.branches[b]);
    PathSteps(t.nodes, t.branches[b]);
    var shared := Spared(t, b, opts);
    CandidatesOnPath(t.nodes, path, shared, |path|);
    var candidates := Candidates(t.nodes, path, shared, |path|);
    assert forall n | n in candidates[..CompactCount(|candidates|)] :: n in candidates;
  }
}
