/** Reachable trees on which properties fail whose exact conditions are proved elsewhere (agent/tree). */
module TreeExamples {
  import opened Verdicts
  import opened Messages
  import opened TreeModel
  import opened TreeOps
  import opened TreeCompact
  import opened TreeRuns
  import opened TreeArchive
  import opened TreeDepth
  import opened TreeReplay
  import opened TreeLines

  // ---- depths ----

  /** Compacting a line with four active nodes behind the root leaves a jump in depth. */
  lemma RowJumps(t: TreeView, b: BranchId, row: Row, ids: seq<NodeId>, tag: string)
    requires b in t.branches && RowOf(t, t.branches[b]) == Some(row) && |ActiveOn(row, |row.path|)| >= 4
    requires Exact(t.nodes) && FreshIds(t, ids) && |row.path| < |ids|
    ensures Compact(t, b, SVC, ALL, ids, tag).Ok? && !Exact(Compact(t, b, SVC, ALL, ids, tag).value.0.nodes)
  {
    RowPlan(t, b, row);
    ExactCompact(t, b, SVC, ALL, ids, tag);
  }

  /** A root and four nodes below it: the depths are exact, and after compacting they no longer are. */
  lemma FourCandidatesJump() returns (t: TreeView, ids: seq<NodeId>)
    ensures Reached(t) && Inv(t) && Exact(t.nodes) && FreshIds(t, ids)
    ensures "main" in t.branches && |PathOf(t.nodes, t.branches["main"])| < |ids|
    ensures Compact(t, "main", SVC, ALL, ids, "1").Ok?
    ensures !Exact(Compact(t, "main", SVC, ALL, ids, "1").value.0.nodes)
  {
    ids := Names(4, 6);
    t := NamedChain(4);
    FreshNames(t, 4, 6);
    AllActiveOn(Names(0, 4), 5);
    RowJumps(t, "main", Actives(Names(0, 4)), ids, "1");
  }

  // ---- unfaithful compactions ----

  /** A reachable tree, with a branch to compact and identifiers for it. */
  ghost predicate Ready(t: TreeView, b: BranchId, ids: seq<NodeId>) {
    Reached(t) && Inv(t) && b in t.branches && FreshIds(t, ids) && |PathOf(t.nodes, t.branches[b])| < |ids|
  }

  /** Compact clones other nodes than a reader should still see. */
  ghost predicate CompactsBadly(t: TreeView, b: BranchId, ids: seq<NodeId>, plan: Plan)
    requires Ready(t, b, ids)
  {
    && IsPlan(t, b, SVC, ALL, plan) && AllIn(plan.path, t.nodes)
    && exists t', b', clones :: BadClones(t, b, ids, plan, t', b', clones)
  }

  ghost predicate BadClones(t: TreeView, b: BranchId, ids: seq<NodeId>, plan: Plan, t': TreeView, b': BranchId,
                            clones: seq<NodeId>)
    requires Ready(t, b, ids) && IsPlan(t, b, SVC, ALL, plan) && AllIn(plan.path, t.nodes)
  {
    && Compact(t, b, SVC, ALL, ids, "1") == Ok((t', b')) && b' != b && Replaced(t, t', b', plan, ids[0], clones)
    && !Copies(t'.nodes, clones, t.nodes, Due(t.nodes, plan))
  }

  function PlanOn(row: Row): Plan
    requires |row.path| == |row.states|
  {
    var active := ActiveOn(row, |row.path|);
    if active == [] then Keep else Replace(row.path, active[..CompactCount(|active|)], "summary")
  }

  /** The `k`-th node is archived behind the last chosen node, or shown between the first and the last
      and not chosen. */
  predicate BadAt(row: Row, chosen: seq<NodeId>, first: nat, last: nat, k: nat)
    requires first <= last < |row.path| == |row.states| && k < |row.path|
  {
    || (last < k && row.states[k] == Archived)
    || (first < k < last && row.path[k] !in chosen && row.states[k] != Archived)
  }

  lemma RowCompactsBadly(t: TreeView, b: BranchId, row: Row, ids: seq<NodeId>, first: nat, last: nat, k: nat)
    requires b in t.branches && RowOf(t, t.branches[b]) == Some(row) && FreshIds(t, ids) && |row.path| < |ids|
    requires PlanOn(row).Replace? && first <= last < |row.path| && k < |row.path|
    requires PlanOn(row).chosen[0] == row.path[first] && PlanOn(row).chosen[|PlanOn(row).chosen| - 1] == row.path[last]
    requires BadAt(row, PlanOn(row).chosen, first, last, k)
    ensures Ready(t, b, ids) && CompactsBadly(t, b, ids, PlanOn(row))
  {
    RowPlan(t, b, row);
    var (t', b') := Compact(t, b, SVC, ALL, ids, "1").value;
    assert |b'| > |b|;
    var plan, clones := CompactFaithfulIff(t, b, SVC, ALL, ids, "1", t', b');
    RowUnclean(t, t.branches[b], row, plan, first, last, k);
    assert BadClones(t, b, ids, plan, t', b', clones);
  }

  lemma RowUnclean(t: TreeView, n: NodeId, row: Row, plan: Plan, first: nat, last: nat, k: nat)
    requires RowOf(t, n) == Some(row) && plan.Replace? && plan.path == row.path && |plan.chosen| > 0
    requires first <= last < |row.path| && k < |row.path| && BadAt(row, plan.chosen, first, last, k)
    requires plan.chosen[0] == row.path[first] && plan.chosen[|plan.chosen| - 1] == row.path[last]
    ensures IndexIn(plan.path, plan.chosen[0]) <= IndexIn(plan.path, plan.chosen[|plan.chosen| - 1])
    ensures AllIn(plan.path, t.nodes) && !Clean(t.nodes, plan)
  {
    PathDistinct(t.nodes, n);
    IndexInPath(row.path, first);
    IndexInPath(row.path, last);
    OnOneSide(plan, first, last, k);
  }

  lemma OnOneSide(plan: Plan, first: nat, last: nat, k: nat)
    requires plan.Replace? && |plan.chosen| > 0 && plan.chosen[0] in plan.path
    requires plan.chosen[|plan.chosen| - 1] in plan.path && first <= last < |plan.path| && k < |plan.path|
    requires IndexIn(plan.path, plan.chosen[0]) == first && IndexIn(plan.path, plan.chosen[|plan.chosen| - 1]) == last
    ensures last < k ==> plan.path[k] in Behind(plan)
    ensures first <= k <= last ==> plan.path[k] in Middle(plan)
  {
    if last < k {
      assert Behind(plan)[k - last - 1] == plan.path[k];
    } else if first <= k {
      assert Middle(plan)[k - first] == plan.path[k];
    }
  }

  ghost function RevivedRow(): Row {
    Actives(Names(0, 2)).(states := [Active, Active, Archived])
  }

  lemma RevivedPlan()
    ensures |RevivedRow().path| == 3 && RevivedRow().path[2] == Name(1) == Last(Names(0, 2))
    ensures Actives(Names(0, 2)).states[2 := Archived] == RevivedRow().states
    ensures PlanOn(RevivedRow()) == Replace(RevivedRow().path, [RevivedRow().path[1]], "summary")
  {
    var row := RevivedRow();
    assert ActiveOn(row, 1) == [] && ActiveOn(row, 2) == [row.path[1]] && ActiveOn(row, 3) == [row.path[1]];
    assert [row.path[1]][..1] == [row.path[1]];
  }

  /** A root and two nodes below it, the second archived: compacting shows it again. */
  lemma ArchivedIsRevived() returns (t: TreeView, ids: seq<NodeId>, plan: Plan)
    ensures Ready(t, "main", ids) && CompactsBadly(t, "main", ids, plan) && |plan.path| == 3
      && plan.chosen == [plan.path[1]]
    ensures t.nodes[plan.path[2]].state == Archived
  {
    RevivedPlan();
    var t1 := NamedChain(2);
    t := ArchiveOne(t1, Name(1), 2);
    ids := Names(2, 4);
    FreshNames(t, 2, 4);
    plan := PlanOn(RevivedRow());
    assert RowOf(t, Name(1)) == Some(RevivedRow());
    RowCompactsBadly(t, "main", RevivedRow(), ids, 1, 1, 2);
  }

  // ---- a node dropped from the middle ----

  /** The line a branch that owns its tip ends in. */
  ghost function TipRow(t: TreeView, b: BranchId): Option<Row> {
    if b in t.branches && t.branches[b] in t.nodes && t.nodes[t.branches[b]].branch == b
       && t.nodes[t.branches[b]].state in {Active, Compacted}
    then RowOf(t, t.branches[b]) else None
  }

  function SummaryRow(first: NodeState): Row {
    Row(["r", Name(0), Name(2)], [Active, first, Compacted])
  }

  function DroppedRow(): Row {
    SummaryRow(Active).Then(Name(3), Active).Then(Name(4), Active).Then(Name(5), Active)
  }

  lemma {:induction false} ActivePrefix(row: Row, id: NodeId, state: NodeState, k: nat)
    requires k <= |row.path| == |row.states|
    ensures ActiveOn(row.Then(id, state), k) == ActiveOn(row, k)
  {
    if k > 0 {
      ActivePrefix(row, id, state, k - 1);
    }
  }

  /** One more active node is one more candidate. */
  lemma ActiveThen(row: Row, id: NodeId)
    requires 0 < |row.path| == |row.states|
    ensures ActiveOn(row.Then(id, Active), |row.path| + 1) == ActiveOn(row, |row.path|) + [id]
  {
    ActivePrefix(row, id, Active, |row.path|);
  }

  lemma SummaryActives()
    ensures ActiveOn(SummaryRow(Active), 3) == [Name(0)]
  {
    var row := SummaryRow(Active);
    assert ActiveOn(row, 1) == [] && ActiveOn(row, 2) == [Name(0)];
  }

  lemma DroppedPlan()
    ensures |DroppedRow().path| == |DroppedRow().states| == 6
    ensures PlanOn(DroppedRow()) == Replace(DroppedRow().path, [Name(0), Name(3)], "summary")
  {
    var row := SummaryRow(Active);
    SummaryActives();
    ActiveThen(row, Name(3));
    ActiveThen(row.Then(Name(3), Active), Name(4));
    ActiveThen(row.Then(Name(3), Active).Then(Name(4), Active), Name(5));
    assert ([Name(0)] + [Name(3)] + [Name(4)] + [Name(5)])[..2] == [Name(0), Name(3)];
  }

  lemma DroppedPath()
    ensures |DroppedRow().path| == |DroppedRow().states| == 6
    ensures DroppedRow().path[1] == Name(0) && DroppedRow().path[2] == Name(2) && DroppedRow().path[3] == Name(3)
    ensures DroppedRow().states[2] == Compacted && Name(2) !in [Name(0), Name(3)]
  {
    assert |Name(0)| == 2 && |Name(2)| == 4 && |Name(3)| == 5;
  }

  ghost function HiddenRow(): Row {
    Actives(Names(0, 2)).(states := [Active, Archived, Active])
  }

  lemma HiddenRowIs()
    ensures HiddenRow().path == ["r", Name(0), Name(1)] && Last(Names(0, 2)) == Name(1)
    ensures Actives(Names(0, 2)).states[1 := Archived] == HiddenRow().states
    ensures ActiveOn(HiddenRow(), 3) == [Name(1)]
    ensures Row(HiddenRow().path[..2], HiddenRow().states[..2]).Then(Name(2), Compacted)
         == SummaryRow(Archived)
  {
    var row := HiddenRow();
    assert ActiveOn(row, 1) == [] && ActiveOn(row, 2) == [];
  }

  /** A root and two nodes below it, the first archived. */
  lemma HiddenTree() returns (t: TreeView)
    ensures RowOf(t, Name(1)) == Some(HiddenRow()) && Short(t, 4) && t.branches == map["main" := Name(1)]
  {
    HiddenRowIs();
    var t1 := NamedChain(2);
    t := ArchiveOne(t1, Name(1), 1);
  }

  lemma TipAfterCompact(t: TreeView, b: BranchId, row: Row, ids: seq<NodeId>) returns (t': TreeView)
    requires b in t.branches && RowOf(t, t.branches[b]) == Some(row) && FreshIds(t, ids) && |row.path| < |ids|
    requires |row.path| > 1 && ActiveOn(row, |row.path|) == [row.path[|row.path| - 1]]
    requires CompactBranch(b, "1") !in t.branches
    ensures var n := |row.path| - 1;
      TipRow(t', CompactBranch(b, "1")) == Some(Row(row.path[..n], row.states[..n]).Then(ids[0], Compacted))
    ensures t'.nodes.Keys == t.nodes.Keys + {ids[0]}
    ensures CompactBranch(b, "1") in t'.branches && t'.branches[CompactBranch(b, "1")] == ids[0]
  {
    t' := CompactLast(t, b, row, ids);
  }

  lemma TipAfterRestore(t: TreeView, b: BranchId, i: nat) returns (t': TreeView)
    requires TipRow(t, b).Some? && i < |TipRow(t, b).value.path| - 1
    ensures TipRow(t', b) == Some(TipRow(t, b).value.(states := TipRow(t, b).value.states[i := Active]))
    ensures t'.nodes.Keys == t.nodes.Keys
  {
    PathDistinct(t.nodes, t.branches[b]);
    PathSteps(t.nodes, t.branches[b]);
    t' := RestoreOne(t, t.branches[b], i);
  }

  /** Its second node compacted: a root, the first node and a summary. */
  lemma SummarizedTree() returns (t: TreeView, b: BranchId)
    ensures TipRow(t, b) == Some(SummaryRow(Archived)) && Short(t, 5)
  {
    HiddenRowIs();
    var t1 := HiddenTree();
    FreshNames(t1, 2, 4);
    b := CompactBranch("main", "1");
    assert |b| == 14;
    t := TipAfterCompact(t1, "main", HiddenRow(), Names(2, 4));
  }

  /** And the first node restored. */
  lemma SummaryBelow() returns (t: TreeView, b: BranchId)
    ensures TipRow(t, b) == Some(SummaryRow(Active)) && Short(t, 5)
  {
    var t1;
    t1, b := SummarizedTree();
    assert SummaryRow(Archived).states[1 := Active] == SummaryRow(Active).states;
    t := TipAfterRestore(t1, b, 1);
  }

  lemma AppendTip(t: TreeView, b: BranchId, k: nat) returns (t': TreeView)
    requires TipRow(t, b).Some? && Short(t, k + 2)
    ensures TipRow(t', b) == Some(TipRow(t, b).value.Then(Name(k), Active)) && Short(t', k + 3)
    ensures b in t'.branches && t'.branches[b] == Name(k)
  {
    t' := Append(t, t.branches[b], Name(k));
  }

  /** Three more nodes on the same branch. */
  lemma AppendThree(t: TreeView, b: BranchId, k: nat) returns (t': TreeView)
    requires TipRow(t, b).Some? && Short(t, k + 2)
    ensures TipRow(t', b)
         == Some(TipRow(t, b).value.Then(Name(k), Active).Then(Name(k + 1), Active).Then(Name(k + 2), Active))
    ensures Short(t', k + 5) && b in t'.branches && t'.branches[b] == Name(k + 2)
  {
    var t1 := AppendTip(t, b, k);
    var t2 := AppendTip(t1, b, k + 1);
    t' := AppendTip(t2, b, k + 2);
  }

  lemma DroppedTree() returns (t: TreeView, b: BranchId)
    ensures TipRow(t, b) == Some(DroppedRow()) && Short(t, 8) && b in t.branches && t.branches[b] == Name(5)
  {
    var t0;
    t0, b := SummaryBelow();
    t := AppendThree(t0, b, 3);
  }

  /** A summary between nodes that Compact chooses is lost: it is neither chosen nor cloned. */
  lemma SummaryIsDropped() returns (t: TreeView, b: BranchId, ids: seq<NodeId>, plan: Plan)
    ensures Ready(t, b, ids) && CompactsBadly(t, b, ids, plan) && |plan.path| == 6
      && plan.chosen == [plan.path[1], plan.path[3]]
    ensures t.nodes[plan.path[2]].state == Compacted
  {
    DroppedPlan();
    DroppedPath();
    t, b := DroppedTree();
    ids := Names(6, 7);
    FreshNames(t, 6, 7);
    plan := PlanOn(DroppedRow());
    RowCompactsBadly(t, b, DroppedRow(), ids, 1, 3, 2);
  }

  // ---- archiving what was archived ----

  /** A root and two nodes below it, the second archived: archiving the first with its subtree and
      restoring it shows the second. */
  lemma RestoreShowsMore() returns (t: TreeView, n: NodeId, m: NodeId)
    ensures Reached(t) && Inv(t) && n in t.nodes && m in t.nodes && Archive(t, n, "u", true).Ok?
    ensures var nodes' := ArchivedAndRestored(t, n, "u").nodes;
      Rooted(nodes') && m in nodes' && Flatten(nodes', m) != Flatten(t.nodes, m)
  {
    RevivedPlan();
    var t1 := NamedChain(2);
    t := ArchiveOne(t1, Name(1), 2);
    n, m := Name(0), Name(1);
    assert RowOf(t, m) == Some(RevivedRow());
    PathSteps(t.nodes, m);
    assert RevivedRow().path[1] == n && n in PathOf(t.nodes, m);
    ArchiveRestoreRevives(t, n, "u");
    RevivedShowsMore(t.nodes, ArchivedAndRestored(t, n, "u").nodes, n, m);
  }

  // ---- rewinding ----

  /** A new tree, with a checkpoint on its only branch. */
  lemma Marked() returns (t: TreeView)
    ensures Reached(t) && Inv(t) && TipsOwned(t) && t.checkpoints == map["k" := Checkpoint("main", "r", "c")]
    ensures t.branches == map["main" := "r"]
  {
    var t0 := NewTree(MSG, "r");
    ReachNew(MSG, "r");
    NewTreeInv(MSG, "r");
    ReachStep(t0, CheckpointOp("main", "c", "k"));
    t := Step(t0, CheckpointOp("main", "c", "k"));
  }

  /** Going back to it makes a branch that does not own its tip. */
  lemma RewindDisowns() returns (t: TreeView, op: Op)
    ensures Reached(t) && Inv(t) && OracleOk(t, op) && op.RewindOp? && TipsOwned(t) && !TipsOwned(Step(t, op))
  {
    t := Marked();
    op := RewindOp("k", "1");
    assert |RewindBranch(t, "k", "1")| == 10;
    TipsOwnedIffNoRewind(t, op);
  }

  // ---- a run the log cannot follow ----

  /** A checkpoint, and going back to it: the branch that starts there is not in the log. */
  lemma RewindIsLost() returns (states: seq<TreeView>, deeds: seq<Deed>)
    ensures LoggedRun(states, deeds) && |deeds| == 2 && deeds[0].op.CheckpointOp? && deeds[1].op.RewindOp?
    ensures !SameSkeleton(states[2], Rebuild(states[0], LogOf(states, deeds, 2)))
  {
    var t0 := NewTree(MSG, "r");
    NewTreeInv(MSG, "r");
    var d0, d1 := Deed(CheckpointOp("main", "c", "k"), true), Deed(RewindOp("k", "1"), true);
    var t1 := Made(t0, d0);
    StepKeepsInv(t0, d0.op);
    assert |RewindBranch(t1, "k", "1")| == 10;
    var t2 := Made(t1, d1);
    states, deeds := [t0, t1, t2], [d0, d1];
    assert Does(t0, d0, t1) == Yes && Does(t1, d1, t2) == Yes;
    assert Honest(states[1], deeds[1].op) == No;
    ReplayRebuildsIff(states, deeds, 2);
  }
}
