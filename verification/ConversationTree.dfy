/** The conversation tree as the object the program works on (agent/tree/tree.go): its methods are
    proved against the operations of TreeOps on the value the object stands for. */
module ConversationTree {
  import opened Sequences
  import opened Messages
  import opened TreeModel
  import opened TreeOps
  import opened TreeRuns
  import opened TreePaths
  import opened TreeArchive
  import opened TreeCompact
  import opened MemWal

  class Node {
    const id: NodeId
    const parentID: NodeId
    const message: Message
    const depth: nat
    const branchID: BranchId
    const summaryOf: seq<NodeId>
    var state: NodeState
    var version: nat
    var archivedBy: string

    constructor (id: NodeId, parentID: NodeId, message: Message, state: NodeState, depth: nat, branchID: BranchId,
                 summaryOf: seq<NodeId>)
      ensures this.id == id && View() == NodeView(parentID, message, state, 1, depth, branchID, "", summaryOf)
    {
      this.id, this.parentID, this.message, this.depth := id, parentID, message, depth;
      this.branchID, this.summaryOf := branchID, summaryOf;
      this.state, this.version, this.archivedBy := state, 1, "";
    }

    ghost function View(): NodeView
      reads this
    {
      NodeView(parentID, message, state, version, depth, branchID, archivedBy, summaryOf)
    }
  }

  /** Where a write to the log may fail. */
  datatype WalFault = NoFault | BeginFails | AppendFails | CommitFails

  class Tree {
    var nodes: map<NodeId, Node>
    var children: map<NodeId, seq<NodeId>>
    var rootID: NodeId
    var branches: map<BranchId, NodeId>
    var active: BranchId
    var checkpoints: map<CheckpointId, Checkpoint>
    const wal: Wal?<Node>

    ghost function Views(): Nodes
      reads this`nodes, nodes.Values
    {
      map n | n in nodes :: nodes[n].View()
    }

    /** The value this object stands for. */
    ghost function State(): TreeView
      reads this, nodes.Values
    {
      TreeView(Views(), children, rootID, branches, active, checkpoints)
    }

    /** Nodes are stored under their own identifiers. */
    ghost predicate Valid()
      reads this
    {
      forall n | n in nodes :: nodes[n].id == n
    }

    constructor (systemMsg: Message, rootId: NodeId, wal: Wal?<Node>)
      requires rootId != ""
      ensures Valid() && this.wal == wal && State() == NewTree(systemMsg, rootId) && Inv(State())
      ensures forall n | n in nodes.Values :: fresh(n)
    {
      var root := new Node(rootId, "", systemMsg, Active, 0, "main", []);
      nodes, children, rootID := map[rootId := root], map[], rootId;
      branches, active, checkpoints := map["main" := rootId], "main", map[];
      this.wal := wal;
      new;
      NewTreeInv(systemMsg, rootId);
    }

    // ---- growing the tree ----

    /** Writes the node to the log, if there is one. */
    method WalAddNode(node: Node, fault: WalFault) returns (ok: bool)
      requires wal != null ==> wal.Valid()
      modifies wal
      ensures ok <==> wal == null || fault == NoFault
      ensures wal != null ==>
        wal.Valid() && wal.Recoverable() == if ok then old(wal.Recoverable()) + [node] else old(wal.Recoverable())
    {
      if wal == null {
        return true;
      }
      if fault == BeginFails {
        return false;
      }
      ghost var n, before := wal.nextID + 1, wal.txns;
      var tx := wal.Begin();
      OneWrite(before, tx, node);
      if fault == AppendFails {
        var _ := wal.Abort(tx);
        BeginsNew(before, n, TxState([], false, true));
        return false;
      }
      var appended := wal.Append(tx, node);
      if !appended || fault == CommitFails {
        BeginsNew(before, n, TxState([node], false, false));
        return false;
      }
      ok := wal.Commit(tx);
      BeginsNew(before, n, TxState([node], true, false));
    }

    /** Stores the node and lists it under its parent; the branches are the caller's business. */
    method Insert(node: Node)
      requires Valid() && node.id !in nodes
      modifies this`nodes, this`children
      ensures Valid() && nodes == old(nodes)[node.id := node]
      ensures State() == old(State()).(
        nodes := old(Views())[node.id := node.View()],
        children := old(children)[node.parentID := Kids(old(State()), node.parentID) + [node.id]])
    {
      nodes := nodes[node.id := node];
      var siblings := if node.parentID in children then children[node.parentID] else [];
      children := children[node.parentID := siblings + [node.id]];
    }

    /** Logs the node, stores it and makes it the tip of its branch. */
    method Attach(node: Node, fault: WalFault) returns (ok: bool)
      requires Valid() && node.id !in nodes && (wal != null ==> wal.Valid())
      modifies this`nodes, this`children, this`branches, wal
      ensures Valid() && (wal != null ==> wal.Valid())
      ensures ok <==> wal == null || fault == NoFault
      ensures State() == if ok then AddNode(old(State()), node.id, node.View()) else old(State())
      ensures nodes == if ok then old(nodes)[node.id := node] else old(nodes)
      ensures wal != null ==>
        wal.Recoverable() == if ok then old(wal.Recoverable()) + [node] else old(wal.Recoverable())
    {
      ok := WalAddNode(node, fault);
      assert State() == old(State());
      if ok {
        Insert(node);
        branches := branches[node.branchID := node.id];
      }
    }

    /** The end of an operation with outcome `want` on the value: it fails as `want` does, or with
        the write to the log. */
    ghost function Ending(want: Outcome, fault: WalFault): Outcome {
      if want.Ok? && wal != null && fault != NoFault then Err(WalFailed) else want
    }

    ghost function Now<T>(r: Result<T, TreeError>): Outcome
      reads this, nodes.Values
    {
      if r.Ok? then Ok(State()) else Err(r.error)
    }

    /** No node object has come in from elsewhere. */
    twostate predicate OnlyNew()
      reads this
    {
      forall n | n in nodes.Values :: n in old(nodes.Values) || fresh(n)
    }

    /** An operation that fails has changed nothing; one that succeeds has logged its node. */
    twostate predicate AllOrNothing(new r: Result<Node, TreeError>, id: NodeId)
      reads this, nodes.Values, wal
    {
      && OnlyNew() && (r.Err? ==> State() == old(State()))
      && (r.Ok? ==> id in nodes && nodes[id] == r.value)
      && (wal != null ==>
            wal.Valid()
            && wal.Recoverable() == if r.Ok? then old(wal.Recoverable()) + [r.value] else old(wal.Recoverable()))
    }

    /** The common part of everything that adds a node below an existing one. */
    method Grow(parent: Node, msg: Message, state: NodeState, branch: BranchId, id: NodeId, fault: WalFault)
      returns (r: Result<Node, TreeError>)
      requires Valid() && FreshNode(State(), id) && (wal != null ==> wal.Valid())
      requires parent.id in nodes && nodes[parent.id] == parent
      modifies this`nodes, this`children, this`branches, wal
      ensures Valid() && AllOrNothing(r, id)
      ensures Now(r)
           == Ending(Ok(AddNode(old(State()), id, ChildView(old(State()), parent.id, msg, state, branch))), fault)
    {
      var child := new Node(id, parent.id, msg, state, parent.depth + 1, branch, []);
      ghost var view := ChildView(State(), parent.id, msg, state, branch);
      assert State() == old(State());
      assert child.View() == view;
      var ok := Attach(child, fault);
      assert child.View() == view;
      r := if ok then Ok(child) else Err(WalFailed);
    }

    /** Nodes that are archived or feedback take no children. */
    method Open(p: NodeId) returns (r: Result<Node, TreeError>)
      requires Valid()
      ensures r.Ok? ==> p in nodes && r.value == nodes[p] && Refusal(State(), p) == None
      ensures r.Err? ==> Refusal(State(), p) == Some(r.error)
    {
      if p !in nodes {
        return Err(NodeNotFound);
      }
      if nodes[p].state == Archived {
        return Err(NodeIsArchived);
      }
      if nodes[p].state == Feedback {
        return Err(NodeIsLeaf);
      }
      return Ok(nodes[p]);
    }

    method AddChild(parentID: NodeId, msg: Message, id: NodeId, fault: WalFault) returns (r: Result<Node, TreeError>)
      requires Valid() && FreshNode(State(), id) && (wal != null ==> wal.Valid())
      modifies this`nodes, this`children, this`branches, wal
      ensures Valid() && AllOrNothing(r, id)
      ensures Now(r) == Ending(TreeOps.AddChild(old(State()), parentID, msg, id), fault)
    {
      r := Open(parentID);
      if r.Ok? {
        r := Grow(r.value, msg, Active, r.value.branchID, id, fault);
      }
    }

    method AddFeedback(parentID: NodeId, msg: Message, id: NodeId, tag: string, fault: WalFault)
      returns (r: Result<Node, TreeError>)
      requires Valid() && FreshNode(State(), id) && (wal != null ==> wal.Valid())
      modifies this`nodes, this`children, this`branches, wal
      ensures Valid() && AllOrNothing(r, id)
      ensures Now(r) == Ending(TreeOps.AddFeedback(old(State()), parentID, msg, id, tag), fault)
    {
      r := Open(parentID);
      if r.Ok? {
        r := Grow(r.value, msg, Feedback, FeedbackBranch(tag), id, fault);
      }
    }

    method Branch(from: NodeId, name: BranchId, msg: Message, id: NodeId, tag: string, fault: WalFault)
      returns (branch: BranchId, r: Result<Node, TreeError>)
      requires Valid() && FreshNode(State(), id) && (wal != null ==> wal.Valid())
      modifies this`nodes, this`children, this`branches, wal
      ensures Valid() && AllOrNothing(r, id)
      ensures branch == BranchName(old(State()), name, tag)
      ensures Now(r) == Ending(TreeOps.Branch(old(State()), from, name, msg, id, tag), fault)
    {
      branch := name;
      if branch in branches {
        branch := name + "-" + tag;
      }
      assert branch == BranchName(State(), name, tag);
      r := Open(from);
      if r.Ok? {
        r := Grow(r.value, msg, Active, branch, id, fault);
      }
    }

    method UpdateUserMessage(n: NodeId, content: seq<UserContent>, id: NodeId, tag: string, fault: WalFault)
      returns (r: Result<Node, TreeError>)
      requires Valid() && FreshNode(State(), id) && (wal != null ==> wal.Valid())
      modifies this`nodes, this`children, this`branches, wal
      ensures Valid() && AllOrNothing(r, id)
      ensures Now(r) == Ending(TreeOps.UpdateUserMessage(old(State()), n, content, id, tag), fault)
    {
      if n !in nodes {
        return Err(NodeNotFound);
      }
      var node := nodes[n];
      if node.parentID == "" {
        return Err(RootImmutable);
      }
      if !node.message.UserMessage? {
        return Err(InvalidBranchPoint);
      }
      if node.parentID !in nodes {
        return Err(NodeNotFound);
      }
      r := Grow(nodes[node.parentID], UserMessage(content), Active, EditBranch(tag), id, fault);
    }

    // ---- branches and checkpoints ----

    method SetActive(branch: BranchId) returns (r: Result<(), TreeError>)
      requires Valid()
      modifies this`active
      ensures Valid() && Now(r) == TreeOps.SetActive(old(State()), branch) && (r.Err? ==> State() == old(State()))
    {
      if branch !in branches {
        return Err(BranchNotFound);
      }
      active := branch;
      assert Views() == old(Views());
      return Ok(());
    }

    method Checkpoint(branch: BranchId, name: string, id: CheckpointId) returns (r: Result<CheckpointId, TreeError>)
      requires Valid()
      modifies this`checkpoints
      ensures Valid() && Now(r) == MakeCheckpoint(old(State()), branch, name, id)
      ensures r.Ok? ==> r.value == id
      ensures r.Err? ==> State() == old(State())
    {
      if branch !in branches {
        return Err(BranchNotFound);
      }
      checkpoints := checkpoints[id := TreeModel.Checkpoint(branch, branches[branch], name)];
      return Ok(id);
    }

    method Rewind(cp: CheckpointId, tag: string) returns (r: Result<BranchId, TreeError>)
      requires Valid()
      modifies this`branches
      ensures Valid() && Now(r) == TreeOps.Rewind(old(State()), cp, tag)
      ensures r.Ok? ==> cp in old(checkpoints) && r.value == RewindBranch(old(State()), cp, tag)
      ensures r.Err? ==> State() == old(State())
    {
      if cp !in checkpoints {
        return Err(CheckpointNotFound);
      }
      var checkpoint := checkpoints[cp];
      if checkpoint.node !in nodes {
        return Err(NodeNotFound);
      }
      var branch := "rewind-" + checkpoint.name + "-" + tag;
      branches := branches[branch := checkpoint.node];
      return Ok(branch);
    }

    method Tip(branch: BranchId) returns (r: Result<Node, TreeError>)
      requires Valid()
      ensures r == if branch !in branches then Err(BranchNotFound)
                   else if branches[branch] !in nodes then Err(NodeNotFound)
                   else Ok(nodes[branches[branch]])
    {
      if branch !in branches {
        return Err(BranchNotFound);
      }
      if branches[branch] !in nodes {
        return Err(NodeNotFound);
      }
      return Ok(nodes[branches[branch]]);
    }

    // ---- archiving ----

    method MarkOne(node: Node, state: NodeState, who: string)
      requires Valid() && node.id in nodes && nodes[node.id] == node
      modifies node
      ensures Views() == old(Views())[node.id := Marked(old(node.View()), state, who)]
    {
      node.state, node.archivedBy, node.version := state, who, NextVersion(node.version);
    }

    /** archiveNode and restoreNode: the node itself, then its children, recursively. */
    method Mark(ghost t: TreeView, node: Node, state: NodeState, who: string, recursive: bool)
      requires Valid() && Inv(t) && State() == t && node.id in nodes && nodes[node.id] == node
      requires state == Active || (state == Archived && node.id != rootID)
      modifies nodes.Values
      ensures Views() == MarkAll(old(Views()), node.id, recursive, state, who)
      decreases Deeper(t.nodes, node.id), 2
    {
      MarkOne(node, state, who);
      MarkNone(t, node.id, state, who);
      if recursive {
        MarkKids(t, node, state, who);
        MarkSomeAll(t, node.id, state, who);
      }
    }

    method MarkKids(ghost t: TreeView, node: Node, state: NodeState, who: string)
      requires Valid() && Inv(t) && nodes.Keys == t.nodes.Keys && node.id in nodes && nodes[node.id] == node
      requires state == Active || (state == Archived && node.id != rootID)
      requires State() == t.(nodes := MarkSome(t.nodes, node.id, [], state, who))
      modifies nodes.Values
      ensures Views() == MarkSome(t.nodes, node.id, Kids(t, node.id), state, who)
      decreases Deeper(t.nodes, node.id), 1
    {
      var kids := if node.id in children then children[node.id] else [];
      for i := 0 to |kids|
        invariant State() == t.(nodes := MarkSome(t.nodes, node.id, kids[..i], state, who))
      {
        MarkKid(t, node.id, i, kids[i], state, who);
      }
    }

    /** One round: the `i`-th child and its subtree. */
    method MarkKid(ghost t: TreeView, ghost n: NodeId, ghost i: nat, kid: NodeId, state: NodeState, who: string)
      requires Valid() && Inv(t) && nodes.Keys == t.nodes.Keys && n in t.nodes && i < |Kids(t, n)|
        && kid == Kids(t, n)[i]
      requires state == Active || (state == Archived && n != rootID)
      requires State() == t.(nodes := MarkSome(t.nodes, n, Kids(t, n)[..i], state, who))
      modifies nodes.Values
      ensures State() == t.(nodes := MarkSome(t.nodes, n, Kids(t, n)[..i + 1], state, who))
      decreases Deeper(t.nodes, n), 0
    {
      MarkRound(t, n, i, state, who);
      Mark(t.(nodes := MarkSome(t.nodes, n, Kids(t, n)[..i], state, who)), nodes[kid], state, who, true);
    }

    method Archive(n: NodeId, who: string, recursive: bool) returns (r: Result<(), TreeError>)
      requires Valid() && Inv(State())
      modifies nodes.Values
      ensures Valid() && Now(r) == TreeOps.Archive(old(State()), n, who, recursive)
      ensures r.Err? ==> State() == old(State())
    {
      if n !in nodes {
        return Err(NodeNotFound);
      }
      assert NodeOk(State(), n);
      if nodes[n].parentID == "" {
        return Err(RootImmutable);
      }
      Mark(State(), nodes[n], Archived, who, recursive);
      return Ok(());
    }

    method Restore(n: NodeId, recursive: bool) returns (r: Result<(), TreeError>)
      requires Valid() && Inv(State())
      modifies nodes.Values
      ensures Valid() && Now(r) == TreeOps.Restore(old(State()), n, recursive)
      ensures r.Err? ==> State() == old(State())
    {
      if n !in nodes {
        return Err(NodeNotFound);
      }
      Mark(State(), nodes[n], Active, "", recursive);
      return Ok(());
    }

    // ---- paths ----

    /** The walk up to the root and back; no node at all has an empty path. */
    method PathUnlocked(n: NodeId) returns (r: Result<seq<NodeId>, TreeError>)
      requires Valid() && Rooted(Views())
      ensures r == if n == "" then Ok([]) else if n in nodes then Ok(PathOf(Views(), n)) else Err(NodeNotFound)
    {
      ghost var views := Views();
      var path: seq<NodeId> := [];
      var current := n;
      while current != ""
        invariant current == n || current == "" || current in nodes
        invariant n in nodes ==> (current == "" || current in nodes)
        invariant n != "" && n !in nodes ==> current == n
        invariant n == "" ==> path == []
        invariant n in nodes ==>
          PathOf(views, n) == PathTo(views, current) + Reversed(path)
        decreases if current in nodes then nodes[current].depth + 1 else if current == "" then 0 else 1
      {
        if current !in nodes {
          return Err(NodeNotFound);
        }
        WalkUp(views, current, path);
        path := path + [current];
        current := nodes[current].parentID;
      }
      path := ReverseInPlace(path);
      assert [] + path == path;
      return Ok(path);
    }

    method FlattenUnlocked(n: NodeId) returns (r: Result<seq<Message>, TreeError>)
      requires Valid() && Rooted(Views())
      ensures r == if n == "" then Ok([])
                   else if n in nodes then Ok(TreeModel.Flatten(Views(), n)) else Err(NodeNotFound)
    {
      var path := PathUnlocked(n);
      if path.Err? {
        return Err(path.error);
      }
      if n != "" {
        PathSteps(Views(), n);
      }
      var messages := VisibleMessages(path.value);
      return Ok(messages);
    }

    method VisibleMessages(path: seq<NodeId>) returns (messages: seq<Message>)
      requires Valid() && forall i | 0 <= i < |path| :: path[i] in nodes
      ensures messages == Visible(Views(), path)
    {
      ghost var views := Views();
      messages := [];
      for i := 0 to |path|
        invariant messages == Visible(views, path[..i])
      {
        assert path[..i + 1][..i] == path[..i];
        var node := nodes[path[i]];
        if node.state != Archived {
          messages := messages + [node.message];
        }
      }
      assert path[..|path|] == path;
    }

    method FlattenBranch(branch: BranchId) returns (r: Result<seq<Message>, TreeError>)
      requires Valid() && Inv(State())
      ensures r == if branch in branches then Ok(TreeModel.FlattenBranch(State(), branch)) else Err(BranchNotFound)
    {
      if branch !in branches {
        return Err(BranchNotFound);
      }
      assert State().branches[branch] in State().nodes;
      r := FlattenUnlocked(branches[branch]);
    }

    /** The child indices from the root. */
    method NodePathUnlocked(n: NodeId) returns (r: Result<TreePath, TreeError>)
      requires Valid() && Inv(State())
      ensures r == if n == "" then Ok([])
                   else if n in nodes then Ok(TreePaths.NodePath(State(), n)) else Err(NodeNotFound)
    {
      ghost var t := State();
      var path := PathUnlocked(n);
      if path.Err? {
        return Err(path.error);
      }
      var nodePath := path.value;
      if |nodePath| <= 1 {
        RootPathIsEmpty(t, n);
        return Ok([]);
      }
      PathSteps(t.nodes, n);
      var treePath: TreePath := [];
      PathPrefix(t.nodes, n, 0);
      for i := 1 to |nodePath|
        invariant treePath == TreePaths.NodePath(t, nodePath[i - 1])
      {
        var parent, child := nodePath[i - 1], nodePath[i];
        ListedUnderParent(t, child);
        var siblings := if parent in children then children[parent] else [];
        var idx := PositionOf(siblings, child);
        treePath := treePath + [idx];
      }
      return Ok(treePath);
    }

    // ---- compaction (agent/tree/compact.go) ----

    method BranchPath(branch: BranchId) returns (path: seq<NodeId>)
      requires Valid() && Inv(State()) && branch in branches
      ensures branches[branch] in nodes && path == PathOf(Views(), branches[branch])
      ensures forall i | 0 <= i < |path| :: path[i] in nodes
    {
      ghost var t := State();
      assert t.branches[branch] in t.nodes;
      PathSteps(t.nodes, branches[branch]);
      var r := PathUnlocked(branches[branch]);
      path := r.value;
    }

    /** The nodes on the paths of the other branches, one branch after the other. */
    method SharedNodes(branch: BranchId) returns (shared: set<NodeId>)
      requires Valid() && Inv(State())
      ensures shared == Shared(State(), branch)
    {
      ghost var t, others := State(), branches.Keys - {branch};
      shared := {};
      var todo := branches.Keys - {branch};
      while todo != {}
        invariant todo <= others && shared == OnPaths(t, others - todo)
        decreases todo
      {
        var c :| c in todo;
        OnPathsStep(t, others, todo, c);
        var path := BranchPath(c);
        shared := AddAll(shared, path);
        todo := todo - {c};
      }
      OnPathsShared(t, branch, todo);
    }

    method CollectCandidates(path: seq<NodeId>, shared: set<NodeId>) returns (candidates: seq<NodeId>)
      requires Valid() && forall i | 0 <= i < |path| :: path[i] in nodes
      ensures candidates == Candidates(Views(), path, shared, |path|)
    {
      ghost var views := Views();
      candidates := [];
      for i := 0 to |path|
        invariant candidates == Candidates(views, path, shared, i)
      {
        var node := nodes[path[i]];
        if node.parentID == "" || node.state != Active || path[i] in shared {
          continue;
        }
        candidates := candidates + [path[i]];
      }
    }

    method CollectMessages(ids: seq<NodeId>) returns (messages: seq<Message>)
      requires Valid() && forall i | 0 <= i < |ids| :: ids[i] in nodes
      ensures messages == AllMessages(Views(), ids)
    {
      ghost var views := Views();
      messages := [];
      for i := 0 to |ids|
        invariant messages == AllMessages(views, ids)[..i]
      {
        messages := messages + [nodes[ids[i]].message];
        assert AllMessages(views, ids)[i] == views[ids[i]].message;
      }
    }

    method PlanCompaction(branch: BranchId, svc: Services, opts: CompactOpts) returns (r: Result<Plan, TreeError>)
      requires Valid() && Inv(State())
      ensures r == CompactPlan(State(), branch, svc, opts)
    {
      if branch !in branches {
        return Err(BranchNotFound);
      }
      var path := BranchPath(branch);
      var messages := VisibleMessages(path);
      var tokens := svc.countTokens(messages);
      if tokens.Err? {
        return Err(CountingFailed);
      }
      if tokens.value <= opts.maxTokens {
        return Ok(Keep);
      }
      var spared := SparedNodes(branch, opts);
      r := ChooseAndSummarize(path, spared, svc);
    }

    method SparedNodes(branch: BranchId, opts: CompactOpts) returns (spared: set<NodeId>)
      requires Valid() && Inv(State())
      ensures spared == Spared(State(), branch, opts)
    {
      spared := {};
      if opts.preserveShared {
        spared := SharedNodes(branch);
      }
    }

    method ChooseAndSummarize(path: seq<NodeId>, shared: set<NodeId>, svc: Services)
      returns (r: Result<Plan, TreeError>)
      requires Valid() && forall i | 0 <= i < |path| :: path[i] in nodes
      ensures r == Choice(Views(), path, shared, svc)
    {
      var candidates := CollectCandidates(path, shared);
      if |candidates| == 0 {
        return Ok(Keep);
      }
      var compactCount := |candidates| / 2;
      if compactCount < 1 {
        compactCount := 1;
      }
      var chosen := candidates[..compactCount];
      FirstCandidates(Views(), path, shared, compactCount);
      var replaced := CollectMessages(chosen);
      var summary := svc.summarize(replaced);
      if summary.Err? {
        return Err(SummarizationFailed);
      }
      return Ok(Replace(path, chosen, summary.value));
    }

    /** The object is the value `g`, except that the new branch is not yet entered. */
    ghost predicate Building(g: TreeView)
      reads this`nodes, this`children, this`rootID, this`active, this`checkpoints, nodes.Values
    {
      && Views() == g.nodes && children == g.children && rootID == g.root && active == g.active
      && checkpoints == g.checkpoints
    }

    /** Clones one node below `prev`. */
    method CloneBelow(orig: Node, prev: NodeId, id: NodeId, branch: BranchId, ghost g: TreeView)
      requires Valid() && Building(g) && id !in g.nodes
      modifies this`nodes, this`children
      ensures Valid() && Building(AddNode(g, id, CloneView(orig.View(), prev, branch)))
      ensures nodes.Keys == old(nodes.Keys) + {id} && forall n | n in old(nodes) :: nodes[n] == old(nodes[n])
      ensures OnlyNew()
    {
      assert id !in nodes;
      var cloned := new Node(id, prev, orig.message, Active, orig.depth, branch, []);
      ghost var view := CloneView(orig.View(), prev, branch);
      assert Building(g) && cloned.View() == view;
      Insert(cloned);
    }

    /** Clones the nodes behind the compacted ones, each below the one before it. */
    method CloneRest(rest: seq<NodeId>, ids: seq<NodeId>, branch: BranchId, ghost t1: TreeView, ghost orig: Nodes)
      returns (tip: NodeId)
      requires Valid() && Building(t1) && |rest| < |ids| && FreshIds(t1, ids[1..])
      requires forall i | 0 <= i < |rest| ::
        rest[i] in orig && rest[i] in nodes && nodes[rest[i]].View() == orig[rest[i]]
      modifies this`nodes, this`children
      ensures Valid() && OnlyNew() && Building(Graft(t1, ids[0], rest, ids[1..], branch, orig, |rest|))
      ensures tip == ids[|rest|]
    {
      var prev := ids[0];
      for i := 0 to |rest|
        invariant Valid() && OnlyNew() && Building(Graft(t1, ids[0], rest, ids[1..], branch, orig, i))
        invariant prev == CloneParent(ids[0], ids[1..], i)
        invariant forall n | n in old(nodes) :: n in nodes && nodes[n] == old(nodes[n])
      {
        ghost var g := Graft(t1, ids[0], rest, ids[1..], branch, orig, i);
        GraftGrows(t1, ids[0], rest, ids[1..], branch, orig, i);
        assert ids[1..][i] == ids[i + 1];
        CloneBelow(nodes[rest[i]], prev, ids[i + 1], branch, g);
        prev := ids[i + 1];
      }
      tip := prev;
    }

    method AddSummary(plan: Plan, ids: seq<NodeId>, branch: BranchId)
      requires Valid() && PlanFits(State(), plan) && plan.Replace? && |ids| > 0 && ids[0] !in nodes
      modifies this`nodes, this`children
      ensures Valid() && OnlyNew() && Building(WithSummary(old(State()), plan, ids, branch))
      ensures forall n | n in old(Views()) :: n in nodes && nodes[n].View() == old(Views())[n]
    {
      var first := nodes[plan.chosen[0]];
      var summary :=
        new Node(ids[0], first.parentID, SummaryMessage(plan.summary), Compacted, first.depth, branch, plan.chosen);
      ghost var view := SummaryView(first.View(), plan.chosen, plan.summary, branch);
      assert State() == old(State()) && summary.View() == view;
      Insert(summary);
    }

    method ExecuteCompaction(plan: Plan, branch: BranchId, ids: seq<NodeId>)
      requires Valid() && CanExecute(State(), plan, ids, branch)
      modifies this`nodes, this`children, this`branches, this`active
      ensures Valid() && OnlyNew() && State() == Executed(old(State()), plan, ids, branch)
    {
      ghost var t := State();
      AddSummary(plan, ids, branch);
      var rest := Remaining(plan.path, plan.chosen[|plan.chosen| - 1]);
      CloneAndEnter(rest, ids, branch, WithSummary(t, plan, ids, branch), t.nodes);
    }

    method CloneAndEnter(rest: seq<NodeId>, ids: seq<NodeId>, branch: BranchId, ghost t1: TreeView, ghost orig: Nodes)
      requires Valid() && Building(t1) && |rest| < |ids| && FreshIds(t1, ids[1..])
      requires forall i | 0 <= i < |rest| ::
        rest[i] in orig && rest[i] in nodes && nodes[rest[i]].View() == orig[rest[i]]
      modifies this`nodes, this`children, this`branches, this`active
      ensures Valid() && OnlyNew()
      ensures State() == Graft(t1, ids[0], rest, ids[1..], branch, orig, |rest|).(
        active := branch, branches := old(branches)[branch := ids[|rest|]])
    {
      var tip := CloneRest(rest, ids, branch, t1, orig);
      Enter(branch, tip, Graft(t1, ids[0], rest, ids[1..], branch, orig, |rest|));
    }

    method Enter(branch: BranchId, tip: NodeId, ghost g: TreeView)
      requires Valid() && Building(g)
      modifies this`branches, this`active
      ensures Valid() && State() == g.(active := branch, branches := old(branches)[branch := tip])
    {
      branches := branches[branch := tip];
      active := branch;
      assert Views() == old(Views());
    }

    method Compact(branch: BranchId, svc: Services, opts: CompactOpts, ids: seq<NodeId>, tag: string)
      returns (r: Result<BranchId, TreeError>)
      requires Valid() && Inv(State()) && FreshIds(State(), ids)
      requires branch in branches ==> |PathOf(Views(), branches[branch])| < |ids|
      modifies this`nodes, this`children, this`branches, this`active
      ensures Valid() && OnlyNew() && NowWith(r) == TreeOps.Compact(old(State()), branch, svc, opts, ids, tag)
      ensures r.Err? ==> State() == old(State())
    {
      var plan := PlanCompaction(branch, svc, opts);
      if plan.Err? {
        return Err(plan.error);
      }
      if plan.value.Keep? {
        return Ok(branch);
      }
      PlanIs(State(), branch, svc, opts, plan.value);
      PlanIsGood(State(), branch, svc, opts, plan.value);
      var newBranch := "compact-" + branch + "-" + tag;
      CompactionSteps(State(), branch, plan.value, ids, newBranch);
      ExecuteCompaction(plan.value, newBranch, ids);
      return Ok(newBranch);
    }

    ghost function NowWith(r: Result<BranchId, TreeError>): Result<(TreeView, BranchId), TreeError>
      reads this, nodes.Values
    {
      if r.Ok? then Ok((State(), r.value)) else Err(r.error)
    }

    // ---- differences ----

    method DiffUnlocked(from: NodeId, to: NodeId) returns (r: Result<TreeDiff, DiffError>)
      requires Valid() && Inv(State())
      ensures r == DiffOutcome(State(), from, to)
    {
      var fromPath := PathUnlocked(from);
      if fromPath.Err? {
        return Err(Missing);
      }
      var toPath := PathUnlocked(to);
      if toPath.Err? {
        return Err(Missing);
      }
      r := DiffPaths(from, to, fromPath.value, toPath.value);
    }

    method DiffPaths(ghost from: NodeId, ghost to: NodeId, p: seq<NodeId>, q: seq<NodeId>)
      returns (r: Result<TreeDiff, DiffError>)
      requires Valid() && Inv(State())
      requires (from == "" && p == []) || (from in nodes && p == PathOf(Views(), from))
      requires (to == "" && q == []) || (to in nodes && q == PathOf(Views(), to))
      ensures r == DiffOutcome(State(), from, to)
    {
      ghost var t := State();
      var n := CommonPrefix(p, q);
      DiffParts(t, from, to);
      if n == 0 {
        return Err(NoCommonAncestor);
      }
      var removed := EntriesOf(Removed, p[n..]);
      var added := EntriesOf(Added, q[n..]);
      return Ok(TreeDiff(p[n - 1], p[..n], added, removed));
    }

    method EntriesOf(op: DiffOp, ids: seq<NodeId>) returns (r: seq<NodeDiff>)
      requires Valid() && Inv(State()) && AllNodes(State(), ids)
      ensures r == Entries(State(), op, ids)
    {
      ghost var t := State();
      r := [];
      for i := 0 to |ids|
        invariant r == Entries(t, op, ids[..i])
      {
        var entry := EntryOf(op, ids[i]);
        r := r + [entry];
      }
    }

    method EntryOf(op: DiffOp, n: NodeId) returns (r: NodeDiff)
      requires Valid() && Inv(State()) && n in nodes
      ensures r == Entry(State(), op, n)
    {
      var path := NodePathUnlocked(n);
      r := NodeDiff(op, n, path.value, nodes[n].message, nodes[n].depth);
    }

    method DiffBranches(a: BranchId, b: BranchId) returns (r: Result<TreeDiff, DiffError>)
      requires Valid() && Inv(State())
      ensures r == if a in branches && b in branches then DiffOutcome(State(), branches[a], branches[b])
                   else Err(Missing)
    {
      if a !in branches || b !in branches {
        return Err(Missing);
      }
      r := DiffUnlocked(branches[a], branches[b]);
    }
  }

  datatype DiffError = Missing | NoCommonAncestor

  /** Diff on any arguments: the empty identifier has an empty path, which meets no other. */
  function DiffOutcome(t: TreeView, from: NodeId, to: NodeId): Result<TreeDiff, DiffError>
    requires Inv(t)
  {
    if (from != "" && from !in t.nodes) || (to != "" && to !in t.nodes) then Err(Missing)
    else if from == "" || to == "" then Err(NoCommonAncestor)
    else Ok(TreePaths.Diff(t, from, to))
  }

  lemma DiffStartsAtRoot(t: TreeView, from: NodeId, to: NodeId)
    requires Inv(t)
    ensures from in t.nodes && to in t.nodes ==> CommonLength(PathOf(t.nodes, from), PathOf(t.nodes, to)) > 0
  {
    if from in t.nodes && to in t.nodes {
      PathFromRoot(t, from);
      PathFromRoot(t, to);
      PathSteps(t.nodes, from);
      PathSteps(t.nodes, to);
    }
  }

  lemma DiffParts(t: TreeView, from: NodeId, to: NodeId)
    requires Inv(t)
    ensures from in t.nodes && to in t.nodes ==>
      var p, q := PathOf(t.nodes, from), PathOf(t.nodes, to);
      var n := CommonLength(p, q);
      && n > 0 && AllNodes(t, p[n..]) && AllNodes(t, q[n..])
      && DiffOutcome(t, from, to)
         == Ok(TreeDiff(p[n - 1], p[..n], TreePaths.Entries(t, Added, q[n..]), TreePaths.Entries(t, Removed, p[n..])))
  {
    DiffStartsAtRoot(t, from, to);
    if from in t.nodes && to in t.nodes {
      var n := CommonLength(PathOf(t.nodes, from), PathOf(t.nodes, to));
      PathSuffixIn(t, from, n);
      PathSuffixIn(t, to, n);
    }
  }

  lemma RootPathIsEmpty(t: TreeView, n: NodeId)
    requires Inv(t)
    ensures n in t.nodes && |PathOf(t.nodes, n)| <= 1 ==> TreePaths.NodePath(t, n) == []
  {
    if n in t.nodes {
      NodePathLength(t, n);
    }
  }

  lemma PathSuffixIn(t: TreeView, n: NodeId, i: nat)
    requires Inv(t) && n in t.nodes && i <= |PathOf(t.nodes, n)|
    ensures AllNodes(t, PathOf(t.nodes, n)[i..])
  {
    PathSteps(t.nodes, n);
  }

  method CommonPrefix(p: seq<NodeId>, q: seq<NodeId>) returns (n: nat)
    ensures n == CommonLength(p, q)
  {
    n := 0;
    var i := 0;
    while i < |p| && i < |q|
      invariant i == n <= |p| && n <= |q| && p[..n] == q[..n]
    {
      if p[i] != q[i] {
        break;
      }
      n := i + 1;
      i := i + 1;
    }
    CommonAtLeast(p, q, n);
  }

  ghost function WithSummary(t: TreeView, plan: Plan, ids: seq<NodeId>, branch: BranchId): TreeView
    requires plan.Replace? && PlanFits(t, plan) && |ids| > 0
  {
    AddNode(t, ids[0], SummaryView(t.nodes[plan.chosen[0]], plan.chosen, plan.summary, branch))
  }

  /** What the steps of a compaction rely on. */
  ghost predicate CanExecute(t: TreeView, plan: Plan, ids: seq<NodeId>, branch: BranchId) {
    && plan.Replace? && PlanFits(t, plan) && Distinct(plan.path) && AllIn(Behind(plan), t.nodes)
    && |Behind(plan)| < |ids| && ids[0] !in t.nodes && FreshIds(WithSummary(t, plan, ids, branch), ids[1..])
  }

  ghost function Executed(t: TreeView, plan: Plan, ids: seq<NodeId>, branch: BranchId): TreeView
    requires CanExecute(t, plan, ids, branch)
  {
    Graft(WithSummary(t, plan, ids, branch), ids[0], Behind(plan), ids[1..], branch, t.nodes, |Behind(plan)|).(
      active := branch, branches := t.branches[branch := ids[|Behind(plan)|]])
  }

  lemma CompactionSteps(t: TreeView, from: BranchId, plan: Plan, ids: seq<NodeId>, branch: BranchId)
    requires GoodPlan(t, from, plan) && FreshIds(t, ids) && |plan.path| < |ids|
    ensures CanExecute(t, plan, ids, branch) && Executed(t, plan, ids, branch) == ExecutePlan(t, plan, branch, ids)
  {
    PathDistinct(t.nodes, t.branches[from]);
    BehindIsDeeper(t, from, plan);
    CompactEffect(t, from, plan, ids, branch);
  }

  ghost function OnPaths(t: TreeView, bs: set<BranchId>): set<NodeId>
    requires Inv(t) && bs <= t.branches.Keys
  {
    set c, n | c in bs && n in PathOf(t.nodes, t.branches[c]) :: n
  }

  lemma OnPathsStep(t: TreeView, bs: set<BranchId>, todo: set<BranchId>, c: BranchId)
    requires Inv(t) && bs <= t.branches.Keys && c in todo && todo <= bs
    ensures t.branches[c] in t.nodes && t.branches[c] != ""
    ensures OnPaths(t, bs - (todo - {c})) == OnPaths(t, bs - todo) + Members(PathOf(t.nodes, t.branches[c]))
  {
    assert bs - (todo - {c}) == bs - todo + {c};
  }

  lemma OnPathsShared(t: TreeView, b: BranchId, todo: set<BranchId>)
    requires Inv(t) && todo == {}
    ensures OnPaths(t, t.branches.Keys - {b} - todo) == Shared(t, b)
  {
  }

  lemma FirstCandidates(nodes: Nodes, path: seq<NodeId>, shared: set<NodeId>, k: nat)
    requires AllIn(path, nodes) && k <= |Candidates(nodes, path, shared, |path|)|
    ensures AllIn(Candidates(nodes, path, shared, |path|)[..k], nodes)
  {
    CandidatesOnPath(nodes, path, shared, |path|);
    var candidates := Candidates(nodes, path, shared, |path|);
    assert forall i | 0 <= i < k :: candidates[i] in candidates;
  }

  ghost function Members(ids: seq<NodeId>): set<NodeId> {
    set n | n in ids
  }

  method AddAll(shared: set<NodeId>, path: seq<NodeId>) returns (r: set<NodeId>)
    ensures r == shared + Members(path)
  {
    r := shared;
    for i := 0 to |path|
      invariant r == shared + Members(path[..i])
    {
      assert path[..i + 1] == path[..i] + [path[i]];
      r := r + {path[i]};
    }
    assert path[..|path|] == path;
  }

  /** The search for a child among its siblings. */
  method PositionOf(siblings: seq<NodeId>, child: NodeId) returns (idx: nat)
    requires child in siblings
    ensures idx == IndexIn(siblings, child)
  {
    idx := 0;
    while idx < |siblings| && siblings[idx] != child
      invariant idx <= IndexIn(siblings, child)
    {
      idx := idx + 1;
    }
  }

  /** What comes after `last`. */
  method Remaining(path: seq<NodeId>, last: NodeId) returns (remaining: seq<NodeId>)
    requires last in path && Distinct(path)
    ensures remaining == TreeOps.After(path, last)
  {
    remaining := [];
    var pastCompacted := false;
    ghost var at := IndexIn(path, last);
    for i := 0 to |path|
      invariant pastCompacted <==> at < i
      invariant remaining == if pastCompacted then path[at + 1..i] else []
    {
      assert path[i] == last <==> i == at;
      if path[i] == last {
        pastCompacted := true;
        continue;
      }
      if pastCompacted {
        assert path[at + 1..i + 1] == path[at + 1..i] + [path[i]];
        remaining := remaining + [path[i]];
      }
    }
    assert path[at + 1..|path|] == path[at + 1..];
  }

  /** The path of a node, or of none. */
  ghost function PathTo(nodes: Nodes, n: NodeId): seq<NodeId>
    requires Rooted(nodes) && (n == "" || n in nodes)
  {
    if n == "" then [] else PathOf(nodes, n)
  }

  /** One step of the walk up to the root. */
  lemma WalkUp(nodes: Nodes, n: NodeId, path: seq<NodeId>)
    requires Rooted(nodes) && n in nodes
    ensures nodes[n].parent == "" || (nodes[n].parent in nodes && nodes[nodes[n].parent].depth < nodes[n].depth)
    ensures PathTo(nodes, n) + Reversed(path) == PathTo(nodes, nodes[n].parent) + Reversed(path + [n])
  {
    assert ParentOk(nodes, n);
    assert (path + [n])[..|path|] == path;
  }

  function Reversed<T>(s: seq<T>): (r: seq<T>)
    ensures |r| == |s| && forall i | 0 <= i < |s| :: r[i] == s[|s| - 1 - i]
  {
    if s == [] then [] else [s[|s| - 1]] + Reversed(s[..|s| - 1])
  }

  /** Swaps from both ends. */
  method ReverseInPlace<T>(s: seq<T>) returns (r: seq<T>)
    ensures r == Reversed(s)
  {
    r := s;
    var i, j := 0, |s| - 1;
    while i < j
      invariant 0 <= i <= j + 1 && i + j == |s| - 1 && |r| == |s|
      invariant forall k | 0 <= k < i || j < k < |s| :: r[k] == s[|s| - 1 - k]
      invariant forall k | i <= k <= j :: r[k] == s[k]
    {
      r := r[i := r[j]][j := r[i]];
      i, j := i + 1, j - 1;
    }
  }
}
