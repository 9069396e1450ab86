/** Recovering a tree object from its write-ahead log (agent/tree/tree.go, agent/store/memwal/memwal.go). */
module TreeRecovery {
  import opened Verdicts
  import opened Messages
  import opened TreeModel
  import opened TreeOps
  import opened TreeRuns
  import opened TreeReplay
  import opened ConversationTree
  import MemWal

  ghost function Bones(node: Node): Entry {
    Entry(node.id, node.parentID, node.message, node.depth, node.branchID)
  }

  ghost function AllBones(nodes: seq<Node>): seq<Entry> {
    seq(|nodes|, i requires 0 <= i < |nodes| => Bones(nodes[i]))
  }

  /** A tree object with its log: what it stands for, and what can be recovered. */
  datatype Stored = Stored(tree: TreeView, log: seq<Entry>)

  ghost function StoredBy(tree: Tree): Option<Stored>
    reads tree, tree.nodes.Values, tree.wal
  {
    if tree.Valid() && tree.wal != null && tree.wal.Valid()
    then Some(Stored(tree.State(), AllBones(tree.wal.Recoverable())))
    else None
  }

  /** What an operation makes of tree and log. */
  ghost function Kept(s: Stored, d: Deed): Stored
    requires Inv(s.tree) && OracleOk(s.tree, d.op)
  {
    Stored(Made(s.tree, d), s.log + Written(s.tree, d))
  }

  function DeedOf(op: Op, fault: WalFault): Deed {
    Deed(op, fault == NoFault)
  }

  /** How an operation that writes to the log ends, as its contract puts it. */
  ghost predicate Ends(s: Stored, op: Op, fault: WalFault, ok: bool, s': Stored)
    requires Inv(s.tree) && OracleOk(s.tree, op) && Logs(op)
  {
    && (ok <==> fault == NoFault && Apply(s.tree, op).Ok?)
    && if ok then Apply(s.tree, op) == Ok(s'.tree) && op.id in s'.tree.nodes
                  && s'.log == s.log + [EntryOf(op.id, s'.tree.nodes[op.id])]
       else s' == s
  }

  lemma EndsKept(s: Stored, op: Op, fault: WalFault, ok: bool, s': Stored)
    requires Inv(s.tree) && OracleOk(s.tree, op) && Logs(op) && Ends(s, op, fault, ok, s')
    ensures s' == Kept(s, DeedOf(op, fault))
  {
    LoggedIsNewNode(s.tree, op);
    assert s.log + [] == s.log;
  }

  lemma BonesAppend(nodes: seq<Node>, node: Node)
    ensures AllBones(nodes + [node]) == AllBones(nodes) + [Bones(node)]
  {
  }

  method PerformAddChild(tree: Tree, ghost s: Stored, p: NodeId, msg: Message, id: NodeId, fault: WalFault)
    requires StoredBy(tree) == Some(s) && Inv(s.tree) && FreshNode(s.tree, id)
    modifies tree, tree.wal
    ensures tree.OnlyNew()
    ensures StoredBy(tree) == Some(Kept(s, DeedOf(AddChildOp(p, msg, id), fault)))
  {
    ghost var recoverable := tree.wal.Recoverable();
    var r := tree.AddChild(p, msg, id, fault);
    if r.Ok? {
      BonesAppend(recoverable, r.value);
    }
    EndsKept(s, AddChildOp(p, msg, id), fault, r.Ok?, StoredBy(tree).value);
  }

  method PerformAddFeedback(tree: Tree, ghost s: Stored, p: NodeId, msg: Message, id: NodeId, tag: string,
                            fault: WalFault)
    requires StoredBy(tree) == Some(s) && Inv(s.tree) && OracleOk(s.tree, AddFeedbackOp(p, msg, id, tag))
    modifies tree, tree.wal
    ensures tree.OnlyNew()
    ensures StoredBy(tree) == Some(Kept(s, DeedOf(AddFeedbackOp(p, msg, id, tag), fault)))
  {
    ghost var recoverable := tree.wal.Recoverable();
    var r := tree.AddFeedback(p, msg, id, tag, fault);
    if r.Ok? {
      BonesAppend(recoverable, r.value);
    }
    EndsKept(s, AddFeedbackOp(p, msg, id, tag), fault, r.Ok?, StoredBy(tree).value);
  }

  method PerformBranch(tree: Tree, ghost s: Stored, from: NodeId, name: BranchId, msg: Message, id: NodeId, tag: string,
                       fault: WalFault)
    requires StoredBy(tree) == Some(s) && Inv(s.tree) && OracleOk(s.tree, BranchOp(from, name, msg, id, tag))
    modifies tree, tree.wal
    ensures tree.OnlyNew()
    ensures StoredBy(tree) == Some(Kept(s, DeedOf(BranchOp(from, name, msg, id, tag), fault)))
  {
    ghost var recoverable := tree.wal.Recoverable();
    var _, r := tree.Branch(from, name, msg, id, tag, fault);
    if r.Ok? {
      BonesAppend(recoverable, r.value);
    }
    EndsKept(s, BranchOp(from, name, msg, id, tag), fault, r.Ok?, StoredBy(tree).value);
  }

  method PerformUpdate(tree: Tree, ghost s: Stored, n: NodeId, content: seq<UserContent>, id: NodeId, tag: string,
                       fault: WalFault)
    requires StoredBy(tree) == Some(s) && Inv(s.tree) && OracleOk(s.tree, UpdateOp(n, content, id, tag))
    modifies tree, tree.wal
    ensures tree.OnlyNew()
    ensures StoredBy(tree) == Some(Kept(s, DeedOf(UpdateOp(n, content, id, tag), fault)))
  {
    ghost var recoverable := tree.wal.Recoverable();
    var r := tree.UpdateUserMessage(n, content, id, tag, fault);
    if r.Ok? {
      BonesAppend(recoverable, r.value);
    }
    EndsKept(s, UpdateOp(n, content, id, tag), fault, r.Ok?, StoredBy(tree).value);
  }

  /** Operations that write nothing to the log. */
  lemma UnloggedKept(s: Stored, op: Op, fault: WalFault)
    requires Inv(s.tree) && OracleOk(s.tree, op) && !Logs(op)
    ensures Kept(s, DeedOf(op, fault)) == Stored(Step(s.tree, op), s.log)
  {
    assert s.log + [] == s.log;
  }

  method PerformSetActive(tree: Tree, ghost s: Stored, b: BranchId)
    requires StoredBy(tree) == Some(s) && Inv(s.tree)
    modifies tree
    ensures tree.OnlyNew() && StoredBy(tree) == Some(Stored(Step(s.tree, SetActiveOp(b)), s.log))
  {
    var _ := tree.SetActive(b);
  }

  method PerformCheckpoint(tree: Tree, ghost s: Stored, b: BranchId, name: string, id: CheckpointId)
    requires StoredBy(tree) == Some(s) && Inv(s.tree) && OracleOk(s.tree, CheckpointOp(b, name, id))
    modifies tree
    ensures tree.OnlyNew() && StoredBy(tree) == Some(Stored(Step(s.tree, CheckpointOp(b, name, id)), s.log))
  {
    var _ := tree.Checkpoint(b, name, id);
  }

  method PerformRewind(tree: Tree, ghost s: Stored, cp: CheckpointId, tag: string)
    requires StoredBy(tree) == Some(s) && Inv(s.tree)
    modifies tree
    ensures tree.OnlyNew() && StoredBy(tree) == Some(s.(tree := OrSame(s.tree, TreeOps.Rewind(s.tree, cp, tag))))
  {
    var _ := tree.Rewind(cp, tag);
  }

  /** An operation that fails changes nothing. */
  function OrSame(t: TreeView, r: Outcome): TreeView {
    if r.Ok? then r.value else t
  }

  method PerformMarking(tree: Tree, ghost s: Stored, op: Op)
    requires StoredBy(tree) == Some(s) && Inv(s.tree) && OracleOk(s.tree, op) && (op.ArchiveOp? || op.RestoreOp?)
    modifies tree.nodes.Values
    ensures tree.OnlyNew() && StoredBy(tree) == Some(Stored(Step(s.tree, op), s.log))
  {
    match op
    case ArchiveOp(n, who, recursive) =>
      var _ := tree.Archive(n, who, recursive);
    case RestoreOp(n, recursive) =>
      var _ := tree.Restore(n, recursive);
  }

  method PerformCompact(tree: Tree, ghost s: Stored, b: BranchId, svc: Services, opts: CompactOpts, ids: seq<NodeId>,
                        tag: string)
    requires StoredBy(tree) == Some(s) && Inv(s.tree) && OracleOk(s.tree, CompactOp(b, svc, opts, ids, tag))
    modifies tree
    ensures tree.OnlyNew() && StoredBy(tree) == Some(Stored(Step(s.tree, CompactOp(b, svc, opts, ids, tag)), s.log))
  {
    var _ := tree.Compact(b, svc, opts, ids, tag);
  }

  method Perform(tree: Tree, ghost s: Stored, op: Op, fault: WalFault)
    requires StoredBy(tree) == Some(s) && Inv(s.tree) && OracleOk(s.tree, op)
    modifies tree, tree.nodes.Values, tree.wal
    ensures tree.OnlyNew()
    ensures StoredBy(tree) == Some(Kept(s, DeedOf(op, fault)))
  {
    match op
    case AddChildOp(p, msg, id) =>
      PerformAddChild(tree, s, p, msg, id, fault);
    case AddFeedbackOp(p, msg, id, tag) =>
      PerformAddFeedback(tree, s, p, msg, id, tag, fault);
    case BranchOp(from, name, msg, id, tag) =>
      PerformBranch(tree, s, from, name, msg, id, tag, fault);
    case UpdateOp(n, content, id, tag) =>
      PerformUpdate(tree, s, n, content, id, tag, fault);
    case SetActiveOp(b) =>
      UnloggedKept(s, op, fault);
      PerformSetActive(tree, s, b);
    case ArchiveOp(_, _, _) =>
      UnloggedKept(s, op, fault);
      PerformMarking(tree, s, op);
    case RestoreOp(_, _) =>
      UnloggedKept(s, op, fault);
      PerformMarking(tree, s, op);
    case CheckpointOp(b, name, id) =>
      UnloggedKept(s, op, fault);
      PerformCheckpoint(tree, s, b, name, id);
    case RewindOp(cp, tag) =>
      UnloggedKept(s, op, fault);
      PerformRewind(tree, s, cp, tag);
    case CompactOp(b, svc, opts, ids, tag) =>
      UnloggedKept(s, op, fault);
      PerformCompact(tree, s, b, svc, opts, ids, tag);
  }

  /** A new tree with an empty log. */
  method Start(systemMsg: Message, rootId: NodeId) returns (tree: Tree)
    requires rootId != ""
    ensures fresh(tree) && fresh(tree.wal) && forall n | n in tree.nodes.Values :: fresh(n)
    ensures StoredBy(tree) == Some(Stored(NewTree(systemMsg, rootId), []))
  {
    var wal := new MemWal.Wal<Node>();
    tree := new Tree(systemMsg, rootId, wal);
    assert tree.nodes.Keys == tree.State().nodes.Keys;
    assert AllBones([]) == [];
  }

  /** Any run on a tree object with a log that may fail at any write: what replaying the log's
      committed transactions in order rebuilds is the tree, but for archive states, if and only if
      no operation of the run was a successful Rewind or an effective Compact. */
  method PerformAll(tree: Tree, ops: seq<Op>, faults: nat -> WalFault, ghost states: seq<TreeView>,
                    ghost deeds: seq<Deed>)
    requires |deeds| == |ops| && forall i | 0 <= i < |ops| :: deeds[i] == DeedOf(ops[i], faults(i))
    requires LoggedRun(states, deeds) && StoredBy(tree) == Some(Stored(states[0], []))
    modifies tree, tree.nodes.Values, tree.wal
    ensures StoredBy(tree).Some? && tree.State() == states[|ops|]
    ensures SameSkeleton(tree.State(), Rebuild(states[0], StoredBy(tree).value.log))
       <==> LoggedThroughout(states, deeds, |ops|)
  {
    for i := 0 to |ops|
      invariant tree.OnlyNew()
      invariant StoredBy(tree) == Some(Stored(states[i], LogOf(states, deeds, i)))
    {
      RunTakes(states, deeds, i);
      Perform(tree, Stored(states[i], LogOf(states, deeds, i)), ops[i], faults(i));
    }
    ReplayRebuildsIff(states, deeds, |ops|);
  }

  lemma RunTakes(states: seq<TreeView>, deeds: seq<Deed>, i: nat)
    requires LoggedRun(states, deeds) && i < |deeds|
    ensures Inv(states[i]) && OracleOk(states[i], deeds[i].op)
    ensures Stored(states[i + 1], LogOf(states, deeds, i + 1))
       == Kept(Stored(states[i], LogOf(states, deeds, i)), deeds[i])
  {
    LoggedRunKeepsInv(states, deeds, i);
    assert Does(states[i], deeds[i], states[i + 1]) == Yes;
  }
}
