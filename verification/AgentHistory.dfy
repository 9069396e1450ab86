/** How the agent's loop writes to the conversation tree (agent/agent.go): appending to a branch, and
    persisting a compacted history on a new one. */
module AgentHistory {
  import opened Verdicts
  import opened Messages
  import opened TreeModel
  import TreeOps
  import opened TreeRuns
  import opened ConversationTree

  // ---- histories ----

  /** A branch that owns its tip. */
  ghost predicate Owns(t: TreeView, b: BranchId) {
    Inv(t) && b in t.branches && t.nodes[t.branches[b]].branch == b
  }

  /** A well-formed tree has a root. */
  function RootMessage(t: TreeView): Message {
    if t.root in t.nodes then t.nodes[t.root].message else SystemMessage([])
  }

  /** Why the tip of the branch takes no children, if so. */
  ghost function TipRefusal(t: TreeView, b: BranchId): Option<TreeOps.TreeError> {
    if b in t.branches then TreeOps.Refusal(t, t.branches[b]) else Some(TreeOps.BranchNotFound)
  }

  /** Root and branches other than `b` are still there and read as before. */
  ghost predicate KeepsOthers(t: TreeView, t': TreeView, b: BranchId) {
    && Inv(t) && Inv(t') && t'.root == t.root && RootMessage(t') == RootMessage(t)
    && forall c {:trigger SameBranch(t, t', c)} | c in t.branches && c != b :: SameBranch(t, t', c)
  }

  ghost predicate SameBranch(t: TreeView, t': TreeView, c: BranchId)
    requires Inv(t) && Inv(t') && c in t.branches
  {
    && c in t'.branches && FlattenBranch(t', c) == FlattenBranch(t, c) && TipRefusal(t', c) == TipRefusal(t, c)
    && t'.nodes[t'.branches[c]].branch == t.nodes[t.branches[c]].branch
  }

  lemma KeepsTransitive(t: TreeView, t': TreeView, t'': TreeView, b: BranchId, b': BranchId)
    requires KeepsOthers(t, t', b) && KeepsOthers(t', t'', b') && (b' == b || b' !in t.branches)
    ensures KeepsOthers(t, t'', b)
  {
    forall c | c in t.branches && c != b ensures SameBranch(t, t'', c) {
      assert SameBranch(t, t', c) && SameBranch(t', t'', c);
    }
  }

  lemma {:induction false} VisibleFirst(nodes: Nodes, ids: seq<NodeId>)
    requires ids != [] && forall i | 0 <= i < |ids| :: ids[i] in nodes
    requires nodes[ids[0]].state == Active
    ensures Visible(nodes, ids) != [] && Visible(nodes, ids)[0] == nodes[ids[0]].message
  {
    if |ids| == 1 {
      assert ids[..0] == [];
    } else {
      VisibleFirst(nodes, ids[..|ids| - 1]);
    }
  }

  /** Every history starts with the root's message. */
  lemma StartsAtRoot(t: TreeView, b: BranchId)
    requires Inv(t) && b in t.branches
    ensures FlattenBranch(t, b) != [] && FlattenBranch(t, b)[0] == RootMessage(t)
  {
    PathFromRoot(t, t.branches[b]);
    PathSteps(t.nodes, t.branches[b]);
    VisibleFirst(t.nodes, PathOf(t.nodes, t.branches[b]));
  }

  /** The value a sound tree object stands for. */
  ghost function StateOf(tree: Tree): Option<TreeView>
    reads tree, tree.nodes.Values, tree.wal
  {
    if tree.Valid() && (tree.wal != null ==> tree.wal.Valid()) then Some(tree.State()) else None
  }

  // ---- names still to be drawn ----

  /** From the `n`-th on, the identifiers drawn are new and different. */
  ghost predicate IdsFree(nodes: set<NodeId>, newId: nat -> NodeId, n: nat) {
    && (forall k: nat {:trigger newId(k)} | k >= n :: newId(k) != "" && newId(k) !in nodes)
    && (forall j: nat, k: nat {:trigger newId(j), newId(k)} | n <= j < k :: newId(j) != newId(k))
  }

  ghost predicate TagsFree(branches: set<BranchId>, newTag: nat -> string, n: nat) {
    && (forall k: nat {:trigger newTag(k)} | k >= n :: "compact-" + newTag(k) !in branches)
    && (forall j: nat, k: nat {:trigger newTag(j), newTag(k)} | n <= j < k :: newTag(j) != newTag(k))
  }

  lemma DrawTag(t: TreeView, newTag: nat -> string, n: nat)
    requires TagsFree(t.branches.Keys, newTag, n)
    ensures var b := TreeOps.BranchName(t, "compact", newTag(n));
      b !in t.branches && TagsFree(t.branches.Keys + {b}, newTag, n + 1)
  {
    var b := TreeOps.BranchName(t, "compact", newTag(n));
    assert "compact" + "-" == "compact-";
    forall k: nat | k >= n + 1 ensures "compact-" + newTag(k) != b {
      CompactNameInjective(newTag(k), newTag(n));
    }
  }

  lemma CompactNameInjective(x: string, y: string)
    ensures "compact-" + x == "compact-" + y <==> x == y
    ensures "compact-" + x != "compact"
  {
    assert ("compact-" + x)[8..] == x && ("compact-" + y)[8..] == y;
  }

  /** The oracles of a run: identifiers, generated names, and where writes to the log fail. */
  datatype Oracle = Oracle(newId: nat -> NodeId, newTag: nat -> string, faults: nat -> WalFault)

  datatype Journal = Logged | Unlogged

  /** Whether the tree has a log. */
  function JournalOf(tree: Tree): Journal {
    if tree.wal != null then Logged else Unlogged
  }

  /** Whether the write that goes with the `n`-th identifier fails: only a tree with a log writes. */
  predicate Fails(journal: Journal, o: Oracle, n: nat) {
    journal.Logged? && o.faults(n) != NoFault
  }

  /** How many of `n` writes, one after the other from the `ids`-th on, succeed before the first that fails. */
  function Written(journal: Journal, o: Oracle, ids: nat, n: nat): (k: nat)
    ensures k <= n
    decreases n
  {
    if n == 0 || Fails(journal, o, ids) then 0 else Written(journal, o, ids + 1, n - 1) + 1
  }

  lemma {:induction false} WrittenUntilFailure(journal: Journal, o: Oracle, ids: nat, n: nat)
    ensures forall j {:trigger Fails(journal, o, j)} | ids <= j < ids + Written(journal, o, ids, n) ::
      !Fails(journal, o, j)
    ensures Written(journal, o, ids, n) < n ==> Fails(journal, o, ids + Written(journal, o, ids, n))
    decreases n
  {
    if n > 0 && !Fails(journal, o, ids) {
      WrittenUntilFailure(journal, o, ids + 1, n - 1);
    }
  }

  /** How many of `n` messages can be appended: none, if the tip takes no children. */
  function Appended(journal: Journal, o: Oracle, ids: nat, n: nat, refusal: Option<TreeOps.TreeError>): (k: nat)
    ensures k <= n
  {
    if refusal == None then Written(journal, o, ids, n) else 0
  }

  /** Attempts made: one more than succeeded, unless all did. */
  function Attempts(written: nat, n: nat): nat {
    if written < n then written + 1 else written
  }

  /** How many messages are appended, and how far the identifiers are drawn then. */
  datatype Tally = Tally(n: nat, drawn: nat)

  function TallyOf(journal: Journal, o: Oracle, ids: nat, total: nat, refusal: Option<TreeOps.TreeError>): Tally {
    var n := Appended(journal, o, ids, total, refusal);
    Tally(n, ids + Attempts(n, total))
  }

  lemma TallyFirst(journal: Journal, o: Oracle, ids: nat, total: nat, rest: nat) returns (tally: Tally)
    requires total == rest + 1
    ensures tally == TallyOf(journal, o, ids + 1, rest, None)
    ensures TallyOf(journal, o, ids, total, None)
         == if Fails(journal, o, ids) then Tally(0, ids + 1) else Tally(tally.n + 1, tally.drawn)
  {
    tally := TallyOf(journal, o, ids + 1, rest, None);
  }

  /** Where appending stands: after `n` successes, and one failure unless `ok`. */
  function Reaches(journal: Journal, o: Oracle, ids: nat, total: nat, refusal: Option<TreeOps.TreeError>, ok: bool,
                   n: nat, drawn: nat): Verdict {
    if && n <= total && drawn == ids + n + (if ok then 0 else 1)
       && (!ok ==> n < total)
       && Appended(journal, o, ids, total, refusal)
          == n + (if ok then Appended(journal, o, drawn, total - n, refusal) else 0)
    then Yes else No
  }

  lemma ReachesFirst(journal: Journal, o: Oracle, ids: nat, total: nat, refusal: Option<TreeOps.TreeError>)
    ensures Reaches(journal, o, ids, total, refusal, true, 0, ids) == Yes
  {
  }

  lemma ReachesNext(journal: Journal, o: Oracle, ids: nat, total: nat, refusal: Option<TreeOps.TreeError>, n: nat,
                    drawn: nat, ok: bool)
    requires Reaches(journal, o, ids, total, refusal, true, n, drawn) == Yes && n < total
    requires ok <==> refusal == None && !Fails(journal, o, drawn)
    ensures Reaches(journal, o, ids, total, refusal, ok, if ok then n + 1 else n, drawn + 1) == Yes
  {
  }

  lemma ReachesLast(journal: Journal, o: Oracle, ids: nat, total: nat, refusal: Option<TreeOps.TreeError>, ok: bool,
                    n: nat, drawn: nat)
    requires Reaches(journal, o, ids, total, refusal, ok, n, drawn) == Yes && (ok ==> n == total)
    ensures n <= total && Tally(n, drawn) == TallyOf(journal, o, ids, total, refusal)
  {
  }

  /** What the oracle delivers after `ids` identifiers and `tags` names have been drawn. */
  ghost function NamesFree(t: TreeView, o: Oracle, ids: nat, tags: nat): Verdict {
    if IdsFree(t.nodes.Keys, o.newId, ids) && TagsFree(t.branches.Keys, o.newTag, tags) then Yes else No
  }

  lemma DrawId(t: TreeView, o: Oracle, ids: nat, tags: nat, t': TreeView)
    requires NamesFree(t, o, ids, tags) == Yes
    requires t'.nodes.Keys == t.nodes.Keys + {o.newId(ids)} && t'.branches.Keys == t.branches.Keys
    ensures NamesFree(t', o, ids + 1, tags) == Yes
  {
  }

  lemma SkipNames(t: TreeView, o: Oracle, ids: nat, tags: nat, ids': nat, tags': nat)
    requires NamesFree(t, o, ids, tags) == Yes && ids <= ids' && tags <= tags'
    ensures NamesFree(t, o, ids', tags') == Yes
  {
  }

  // ---- appending ----

  /** How a branch that owns its tip reads. */
  ghost function History(t: TreeView, b: BranchId): Option<seq<Message>> {
    if Owns(t, b) then Some(FlattenBranch(t, b)) else None
  }

  /** What was appended to the branch `b` between `t` and `t'`, if nothing else has happened. */
  ghost function Growth(t: TreeView, t': TreeView, b: BranchId): Option<seq<Message>> {
    if && Owns(t, b) && Owns(t', b) && KeepsOthers(t, t', b) && FlattenBranch(t, b) <= FlattenBranch(t', b)
       && t'.active == t.active && t'.branches.Keys == t.branches.Keys && TipRefusal(t', b) == TipRefusal(t, b)
    then Some(FlattenBranch(t', b)[|FlattenBranch(t, b)|..])
    else None
  }

  lemma GrowthReads(t: TreeView, t': TreeView, b: BranchId)
    requires Growth(t, t', b).Some?
    ensures History(t, b).Some? && History(t', b) == Some(History(t, b).value + Growth(t, t', b).value)
  {
    PrefixSplit(FlattenBranch(t, b), FlattenBranch(t', b));
  }

  lemma SameTip(t: TreeView, t': TreeView, b: BranchId)
    requires Growth(t, t', b).Some?
    ensures History(t, b).Some? && History(t', b).Some?
    ensures t'.active == t.active && t'.branches.Keys == t.branches.Keys && TipRefusal(t', b) == TipRefusal(t, b)
  {
  }

  lemma PrefixSplit(a: seq<Message>, b: seq<Message>)
    requires a <= b
    ensures b == a + b[|a|..]
  {
  }

  lemma GrowthOnward(t: TreeView, t1: TreeView, t2: TreeView, b: BranchId, x: seq<Message>, y: seq<Message>)
    requires Growth(t, t1, b) == Some(x) && Growth(t1, t2, b) == Some(y)
    ensures Growth(t, t2, b) == Some(x + y)
  {
    KeepsTransitive(t, t1, t2, b, b);
    PrefixOnward(FlattenBranch(t, b), FlattenBranch(t1, b), FlattenBranch(t2, b));
  }

  lemma GrowthByOne(t: TreeView, t1: TreeView, t2: TreeView, b: BranchId, msgs: seq<Message>, n: nat)
    requires n < |msgs| && Growth(t, t1, b) == Some(msgs[..n]) && Growth(t1, t2, b) == Some([msgs[n]])
    ensures Growth(t, t2, b) == Some(msgs[..n + 1])
  {
    GrowthOnward(t, t1, t2, b, msgs[..n], [msgs[n]]);
    assert msgs[..n + 1] == msgs[..n] + [msgs[n]];
  }

  lemma PrefixOnward(a: seq<Message>, b: seq<Message>, c: seq<Message>)
    requires a <= b <= c
    ensures a <= c && c[|a|..] == b[|a|..] + c[|b|..]
  {
  }

  lemma NoGrowth(t: TreeView, b: BranchId)
    requires History(t, b).Some?
    ensures Growth(t, t, b) == Some([])
  {
    forall c | c in t.branches && c != b ensures SameBranch(t, t, c) {
    }
    assert FlattenBranch(t, b)[|FlattenBranch(t, b)|..] == [];
  }

  lemma AppendGrows(t: TreeView, b: BranchId, msg: Message, o: Oracle, ids: nat, tags: nat)
    requires History(t, b).Some? && NamesFree(t, o, ids, tags) == Yes
      && TreeOps.AddChild(t, t.branches[b], msg, o.newId(ids)).Ok?
    ensures var t' := TreeOps.AddChild(t, t.branches[b], msg, o.newId(ids)).value;
      Growth(t, t', b) == Some([msg]) && NamesFree(t', o, ids + 1, tags) == Yes
  {
    AppendExtendsBranch(t, b, msg, o.newId(ids));
    var t' := TreeOps.AddChild(t, t.branches[b], msg, o.newId(ids)).value;
    forall c | c in t.branches && c != b ensures SameBranch(t, t', c) {
    }
    DrawId(t, o, ids, tags, t');
    assert (FlattenBranch(t, b) + [msg])[|FlattenBranch(t, b)|..] == [msg];
  }

  method AddChildTo(tree: Tree, ghost t: TreeView, p: NodeId, msg: Message, id: NodeId, fault: WalFault)
    returns (ok: bool, ghost t': TreeView)
    requires StateOf(tree) == Some(t) && FreshNode(t, id)
    modifies tree, tree.wal
    ensures StateOf(tree) == Some(t')
    ensures ok <==> TreeOps.AddChild(t, p, msg, id).Ok? && (tree.wal == null || fault == NoFault)
    ensures if ok then TreeOps.AddChild(t, p, msg, id) == Ok(t') else t' == t
  {
    var r := tree.AddChild(p, msg, id, fault);
    ok, t' := r.Ok?, tree.State();
  }

  /** Looks up the tip and adds a child to it.  Fails only if the tip takes no children or the write
      to the log fails. */
  method Append(tree: Tree, ghost t: TreeView, b: BranchId, msg: Message, o: Oracle, ids: nat, ghost tags: nat)
    returns (ok: bool, ghost t': TreeView)
    requires StateOf(tree) == Some(t)
    requires History(t, b).Some? && NamesFree(t, o, ids, tags) == Yes
    modifies tree, tree.wal
    ensures StateOf(tree) == Some(t') && NamesFree(t', o, ids + 1, tags) == Yes
    ensures ok <==> TipRefusal(t, b) == None && !Fails(JournalOf(tree), o, ids)
    ensures if ok then Growth(t, t', b) == Some([msg]) else t' == t
  {
    var tip := tree.Tip(b);
    ok, t' := AddChildTo(tree, t, tip.value.id, msg, o.newId(ids), o.faults(ids));
    if ok {
      AppendGrows(t, b, msg, o, ids, tags);
    } else {
      SkipNames(t, o, ids, tags, ids + 1, tags);
    }
  }

  /** The same for the `n`-th of `msgs`, when those before it have been appended since `t`. */
  method AppendNext(tree: Tree, ghost t: TreeView, ghost t1: TreeView, b: BranchId, msgs: seq<Message>, n: nat,
                    o: Oracle, ids: nat, ghost tags: nat)
    returns (ok: bool, ghost t': TreeView)
    requires StateOf(tree) == Some(t1) && n < |msgs|
    requires Growth(t, t1, b) == Some(msgs[..n]) && NamesFree(t1, o, ids, tags) == Yes
    modifies tree, tree.wal
    ensures StateOf(tree) == Some(t') && NamesFree(t', o, ids + 1, tags) == Yes
    ensures ok <==> TipRefusal(t, b) == None && !Fails(JournalOf(tree), o, ids)
    ensures Growth(t, t', b) == Some(msgs[..if ok then n + 1 else n])
  {
    SameTip(t, t1, b);
    ok, t' := Append(tree, t1, b, msgs[n], o, ids, tags);
    if ok {
      GrowthByOne(t, t1, t', b, msgs, n);
    }
  }

  /** Appends messages one at a time, up to the first that fails: all of them, unless a write fails or the
      tip took no children to begin with. */
  method AppendSeq(tree: Tree, ghost t: TreeView, b: BranchId, msgs: seq<Message>, o: Oracle, ids: nat, ghost tags: nat)
    returns (n: nat, drawn: nat, ghost t': TreeView)
    requires StateOf(tree) == Some(t)
    requires History(t, b).Some? && NamesFree(t, o, ids, tags) == Yes
    modifies tree, tree.wal
    ensures StateOf(tree) == Some(t')
    ensures n <= |msgs| && Tally(n, drawn) == TallyOf(JournalOf(tree), o, ids, |msgs|, TipRefusal(t, b))
    ensures Growth(t, t', b) == Some(msgs[..n]) && NamesFree(t', o, drawn, tags) == Yes
  {
    n, drawn, t' := 0, ids, t;
    NoGrowth(t, b);
    ghost var refusal := TipRefusal(t, b);
    ReachesFirst(JournalOf(tree), o, ids, |msgs|, refusal);
    var ok := true;
    while ok && n < |msgs|
      invariant StateOf(tree) == Some(t') && n <= |msgs|
      invariant Growth(t, t', b) == Some(msgs[..n]) && NamesFree(t', o, drawn, tags) == Yes
      invariant Reaches(JournalOf(tree), o, ids, |msgs|, refusal, ok, n, drawn) == Yes
      decreases |msgs| - n, ok
    {
      ghost var before := drawn;
      ok, t' := AppendNext(tree, t, t', b, msgs, n, o, drawn, tags);
      ReachesNext(JournalOf(tree), o, ids, |msgs|, refusal, n, before, ok);
      n, drawn := if ok then n + 1 else n, drawn + 1;
    }
    ReachesLast(JournalOf(tree), o, ids, |msgs|, refusal, ok, n, drawn);
  }

  // ---- compacting onto a new branch ----

  /** What the branch `b`, the only new one in `t'`, holds behind the root, if all else is as before. */
  ghost function NewBranch(t: TreeView, t': TreeView, b: BranchId): Option<seq<Message>> {
    if && KeepsOthers(t, t', b) && b !in t.branches && t'.branches.Keys == t.branches.Keys + {b}
       && TipRefusal(t', b) == None && Owns(t', b) && [RootMessage(t)] <= FlattenBranch(t', b)
    then Some(FlattenBranch(t', b)[1..])
    else None
  }

  lemma NewBranchReads(t: TreeView, t': TreeView, b: BranchId)
    requires NewBranch(t, t', b).Some?
    ensures Inv(t) && History(t', b) == Some([RootMessage(t)] + NewBranch(t, t', b).value)
    ensures t'.branches.Keys == t.branches.Keys + {b} && TipRefusal(t', b) == None
  {
    PrefixSplit([RootMessage(t)], FlattenBranch(t', b));
  }

  lemma NewBranchOnward(t: TreeView, t1: TreeView, t2: TreeView, b: BranchId, x: seq<Message>, y: seq<Message>)
    requires NewBranch(t, t1, b) == Some(x) && Growth(t1, t2, b) == Some(y)
    ensures NewBranch(t, t2, b) == Some(x + y)
  {
    KeepsTransitive(t, t1, t2, b, b);
    PrefixOnward([RootMessage(t)], FlattenBranch(t1, b), FlattenBranch(t2, b));
  }

  lemma ActivateNew(t: TreeView, t': TreeView, b: BranchId)
    requires NewBranch(t, t', b).Some?
    ensures NewBranch(t, t'.(active := b), b) == NewBranch(t, t', b)
  {
    var t'' := t'.(active := b);
    SameShapeKeepsInv(t', t'');
    forall c | c in t.branches ensures SameBranch(t, t'', c) {
      assert SameBranch(t, t', c);
    }
  }

  /** The name a compaction gives its branch. */
  ghost function CompactName(t: TreeView, o: Oracle, tags: nat): BranchId {
    TreeOps.BranchName(t, "compact", o.newTag(tags))
  }

  lemma ForkIsNew(t: TreeView, msg: Message, o: Oracle, ids: nat, tags: nat)
    requires Inv(t) && NamesFree(t, o, ids, tags) == Yes
    ensures var r, b := TreeOps.Branch(t, t.root, "compact", msg, o.newId(ids), o.newTag(tags)),
                        TreeOps.BranchName(t, "compact", o.newTag(tags));
      r.Ok? && NewBranch(t, r.value, b) == Some([msg]) && NamesFree(r.value, o, ids + 1, tags + 1) == Yes
        && r.value.active == t.active
  {
    var b := TreeOps.BranchName(t, "compact", o.newTag(tags));
    DrawTag(t, o.newTag, tags);
    ForkReads(t, b, msg, o.newId(ids));
    var t' := TreeOps.Branch(t, t.root, "compact", msg, o.newId(ids), o.newTag(tags)).value;
    assert t'.branches.Keys == t.branches.Keys + {b} && t'.nodes.Keys == t.nodes.Keys + {o.newId(ids)};
  }

  lemma ForkReads(t: TreeView, b: BranchId, msg: Message, id: NodeId)
    requires Inv(t) && FreshNode(t, id) && b !in t.branches
    ensures NewBranch(t, AddNode(t, id, TreeOps.ChildView(t, t.root, msg, Active, b)), b) == Some([msg])
  {
    var view := TreeOps.ChildView(t, t.root, msg, Active, b);
    var t' := AddNode(t, id, view);
    AddNodeNew(t, id, view);
    RootReads(t);
    forall c | c in t.branches ensures SameBranch(t, t', c) {
      AddNodeOld(t, id, view, t.branches[c]);
    }
    assert [RootMessage(t), msg][1..] == [msg];
  }

  lemma RootReads(t: TreeView)
    requires Inv(t)
    ensures Flatten(t.nodes, t.root) == [RootMessage(t)]
  {
    assert NodeOk(t, t.root);
    assert PathOf(t.nodes, t.root) == [t.root];
    assert Visible(t.nodes, [t.root][..0]) == [];
  }

  /** Forks a branch off the root; only a write to the log can fail. */
  method Fork(tree: Tree, ghost t: TreeView, msg: Message, o: Oracle, ids: nat, tags: nat)
    returns (r: Option<BranchId>, ghost t': TreeView)
    requires StateOf(tree) == Some(t)
    requires Inv(t) && NamesFree(t, o, ids, tags) == Yes
    modifies tree, tree.wal
    ensures StateOf(tree) == Some(t') && NamesFree(t', o, ids + 1, tags + 1) == Yes && t'.active == t.active
    ensures r == if Fails(JournalOf(tree), o, ids) then None else Some(CompactName(t, o, tags))
    ensures r.None? ==> t' == t
    ensures r.Some? ==> NewBranch(t, t', r.value) == Some([msg])
  {
    ForkIsNew(t, msg, o, ids, tags);
    var branch, node := tree.Branch(tree.rootID, "compact", msg, o.newId(ids), o.newTag(tags), o.faults(ids));
    r := if node.Ok? then Some(branch) else None;
    t' := tree.State();
    SkipNames(t, o, ids, tags, ids + 1, tags + 1);
  }

  method Activate(tree: Tree, ghost t: TreeView, b: BranchId) returns (ghost t': TreeView)
    requires StateOf(tree) == Some(t) && b in t.branches
    modifies tree`active
    ensures t' == t.(active := b) && StateOf(tree) == Some(t')
  {
    var _ := tree.SetActive(b);
    t' := tree.State();
  }

  /** Whether all branches of `t` are as they were, whatever else happened. */
  ghost function OldBranches(t: TreeView, t': TreeView): Verdict {
    if && Inv(t) && Inv(t') && t'.root == t.root && RootMessage(t') == RootMessage(t)
       && forall c {:trigger SameBranch(t, t', c)} | c in t.branches :: SameBranch(t, t', c)
    then Yes else No
  }

  lemma NewBranchKeeps(t: TreeView, t': TreeView, b: BranchId)
    requires NewBranch(t, t', b).Some?
    ensures OldBranches(t, t') == Yes
  {
  }

  /** How many messages of a compacted history are to be written; it may be too short to branch. */
  function Rest(compacted: seq<Message>): nat {
    if |compacted| < 2 then 0 else |compacted| - 1
  }

  /** What persisting comes to when `n` of `total` messages are written. */
  function WhenComplete(n: nat, total: nat, b: BranchId): Option<BranchId> {
    if 0 < n == total then Some(b) else None
  }

  /** Between `t` and `t'` the first `n` of the messages behind the first were put on a new branch, which
      is the active one when that is all of them. */
  ghost function Persisting(t: TreeView, t': TreeView, compacted: seq<Message>, n: nat, b: BranchId): Verdict {
    if && n <= Rest(compacted) && t'.active == (if 0 < n == Rest(compacted) then b else t.active)
       && (if n == 0 then t' == t else NewBranch(t, t', b) == Some(compacted[1..n + 1]))
    then Yes else No
  }

  lemma PersistingNone(t: TreeView, compacted: seq<Message>, b: BranchId)
    ensures Persisting(t, t, compacted, 0, b) == Yes
  {
  }

  /** The branch `b` has the second message and `n` more. */
  ghost function Filling(t: TreeView, t': TreeView, b: BranchId, compacted: seq<Message>, n: nat): Verdict {
    if n + 2 <= |compacted| && NewBranch(t, t', b) == Some(compacted[1..n + 2]) then Yes else No
  }

  lemma FillingNew(t: TreeView, t': TreeView, b: BranchId, compacted: seq<Message>, n: nat)
    requires Filling(t, t', b, compacted, n) == Yes
    ensures b in t'.branches && Filling(t, t'.(active := b), b, compacted, n) == Yes
  {
    ActivateNew(t, t', b);
  }

  /** And it is active when that is all. */
  ghost function Completing(t: TreeView, t': TreeView, b: BranchId, compacted: seq<Message>, n: nat): Verdict {
    if Filling(t, t', b, compacted, n) == Yes && t'.active == (if n + 2 == |compacted| then b else t.active)
    then Yes else No
  }

  /** Either way all old branches are as they were. */
  lemma PersistingKeeps(t: TreeView, t': TreeView, compacted: seq<Message>, n: nat, b: BranchId)
    requires Inv(t) && Persisting(t, t', compacted, n, b) == Yes
    ensures OldBranches(t, t') == Yes
    ensures t'.branches.Keys == if n > 0 then t.branches.Keys + {b} else t.branches.Keys
    ensures 0 < n == Rest(compacted) ==> NewBranch(t, t', b) == Some(compacted[1..]) && t'.active == b
    ensures !(0 < n == Rest(compacted)) ==> t'.active == t.active
  {
    if n == 0 {
      forall c | c in t.branches ensures SameBranch(t, t, c) {
      }
    } else {
      assert n == Rest(compacted) ==> compacted[1..n + 1] == compacted[1..];
    }
  }

  /** persistCompacted: a branch off the root with all of `compacted` but its first message, which
      becomes the active branch.  It fails only if the history is too short or a write fails, and then
      all branches are as they were, but part of a new one may be left behind. */
  method PersistCompacted(tree: Tree, ghost t: TreeView, compacted: seq<Message>, o: Oracle, ids: nat, tags: nat)
    returns (r: Option<BranchId>, drawn: nat, n: nat, ghost t': TreeView)
    requires StateOf(tree) == Some(t)
    requires Inv(t) && NamesFree(t, o, ids, tags) == Yes
    modifies tree, tree.wal
    ensures StateOf(tree) == Some(t') && NamesFree(t', o, drawn, tags + 1) == Yes
    ensures Tally(n, drawn) == TallyOf(JournalOf(tree), o, ids, Rest(compacted), None)
    ensures r == WhenComplete(n, Rest(compacted), CompactName(t, o, tags))
    ensures Persisting(t, t', compacted, n, CompactName(t, o, tags)) == Yes
  {
    n := 0;
    PersistingNone(t, compacted, CompactName(t, o, tags));
    if |compacted| < 2 {
      SkipNames(t, o, ids, tags, ids, tags + 1);
      return None, ids, n, t;
    }
    ghost var _ := TallyFirst(JournalOf(tree), o, ids, Rest(compacted), |compacted| - 2);
    r, t' := Fork(tree, t, compacted[1], o, ids, tags);
    drawn := ids + 1;
    if r.Some? {
      r, drawn, n, t' := PersistBehind(tree, t, t', r.value, compacted, o, ids, tags);
    }
  }

  /** The same once the branch is there. */
  method PersistBehind(tree: Tree, ghost t: TreeView, ghost t1: TreeView, b: BranchId, compacted: seq<Message>,
                       o: Oracle, ids: nat, ghost tags: nat)
    returns (r: Option<BranchId>, drawn: nat, n: nat, ghost t': TreeView)
    requires StateOf(tree) == Some(t1) && |compacted| >= 2 && !Fails(JournalOf(tree), o, ids)
    requires NewBranch(t, t1, b) == Some([compacted[1]]) && NamesFree(t1, o, ids + 1, tags + 1) == Yes
      && t1.active == t.active
    modifies tree, tree.wal
    ensures StateOf(tree) == Some(t') && NamesFree(t', o, drawn, tags + 1) == Yes
    ensures Tally(n, drawn) == TallyOf(JournalOf(tree), o, ids, Rest(compacted), None)
    ensures r == WhenComplete(n, Rest(compacted), b)
    ensures Persisting(t, t', compacted, n, b) == Yes
  {
    n, drawn, t' := CompleteFork(tree, t, t1, b, compacted, o, ids + 1, tags + 1);
    PersistedBehind(t, t', b, compacted, JournalOf(tree), o, ids, n, drawn);
    r := if n + 2 == |compacted| then Some(b) else None;
    n := n + 1;
  }

  lemma PersistedBehind(t: TreeView, t': TreeView, b: BranchId, compacted: seq<Message>, journal: Journal, o: Oracle,
                        ids: nat, n: nat, drawn: nat)
    requires |compacted| >= 2 && !Fails(journal, o, ids) && Completing(t, t', b, compacted, n) == Yes
    requires Tally(n, drawn) == TallyOf(journal, o, ids + 1, |compacted| - 2, None)
    ensures Tally(n + 1, drawn) == TallyOf(journal, o, ids, Rest(compacted), None)
    ensures Persisting(t, t', compacted, n + 1, b) == Yes
    ensures WhenComplete(n + 1, Rest(compacted), b) == if n + 2 == |compacted| then Some(b) else None
  {
    var tally := TallyFirst(journal, o, ids, Rest(compacted), |compacted| - 2);
  }

  /** The rest of the messages, and the switch to the new branch. */
  method CompleteFork(tree: Tree, ghost t: TreeView, ghost t1: TreeView, b: BranchId, compacted: seq<Message>,
                      o: Oracle, ids: nat, ghost tags: nat)
    returns (n: nat, drawn: nat, ghost t': TreeView)
    requires StateOf(tree) == Some(t1) && t1.active == t.active
    requires |compacted| >= 2 && NewBranch(t, t1, b) == Some([compacted[1]]) && NamesFree(t1, o, ids, tags) == Yes
    modifies tree, tree.wal
    ensures StateOf(tree) == Some(t') && NamesFree(t', o, drawn, tags) == Yes
    ensures n <= |compacted| - 2 && Tally(n, drawn) == TallyOf(JournalOf(tree), o, ids, |compacted| - 2, None)
    ensures Completing(t, t', b, compacted, n) == Yes
  {
    n, drawn, t' := FillFork(tree, t, t1, b, compacted, o, ids, tags);
    if n == |compacted| - 2 {
      FillingNew(t, t', b, compacted, n);
      t' := Activate(tree, t', b);
    }
  }

  method FillFork(tree: Tree, ghost t: TreeView, ghost t1: TreeView, b: BranchId, compacted: seq<Message>,
                  o: Oracle, ids: nat, ghost tags: nat)
    returns (n: nat, drawn: nat, ghost t': TreeView)
    requires StateOf(tree) == Some(t1)
    requires |compacted| >= 2 && NewBranch(t, t1, b) == Some([compacted[1]]) && NamesFree(t1, o, ids, tags) == Yes
    modifies tree, tree.wal
    ensures StateOf(tree) == Some(t') && NamesFree(t', o, drawn, tags) == Yes && t'.active == t1.active
    ensures n <= |compacted| - 2 && Tally(n, drawn) == TallyOf(JournalOf(tree), o, ids, |compacted| - 2, None)
    ensures Filling(t, t', b, compacted, n) == Yes
  {
    NewBranchReads(t, t1, b);
    var msgs := Tail(compacted);
    n, drawn, t' := AppendSeq(tree, t1, b, msgs, o, ids, tags);
    NewBranchFilled(t, t1, t', b, compacted, msgs, n);
  }

  function Tail(compacted: seq<Message>): (msgs: seq<Message>)
    requires |compacted| >= 2
    ensures |msgs| == |compacted| - 2
  {
    compacted[2..]
  }

  lemma NewBranchFilled(t: TreeView, t1: TreeView, t2: TreeView, b: BranchId, compacted: seq<Message>,
                        msgs: seq<Message>, n: nat)
    requires |compacted| >= 2 && n <= |compacted| - 2 && msgs == Tail(compacted)
    requires NewBranch(t, t1, b) == Some([compacted[1]]) && Growth(t1, t2, b) == Some(msgs[..n])
    ensures Filling(t, t2, b, compacted, n) == Yes && t2.active == t1.active
  {
    NewBranchOnward(t, t1, t2, b, [compacted[1]], msgs[..n]);
    assert [compacted[1]] + msgs[..n] == compacted[1..n + 2];
  }
}
