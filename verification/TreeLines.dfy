/** Trees that are one line of nodes, as runs produce them: a way to name reachable trees in proofs
    (agent/tree). */
module TreeLines {
  import opened Verdicts
  import opened Sequences
  import opened Messages
  import opened TreeModel
  import opened TreeOps
  import opened TreeCompact
  import opened TreeRuns
  import opened TreeDepth

  /** `t` is a state of some run. */
  ghost predicate Reached(t: TreeView) {
    exists states, ops :: Run(states, ops) && states[|ops|] == t
  }

  ghost function Status(t: TreeView): Verdict {
    if Reached(t) && Inv(t) then Yes else No
  }

  lemma ReachNew(msg: Message, id: NodeId)
    requires id != ""
    ensures Reached(NewTree(msg, id)) && Inv(NewTree(msg, id))
  {
    NewTreeInv(msg, id);
    assert Run([NewTree(msg, id)], []);
  }

  lemma ReachStep(t: TreeView, op: Op)
    requires Reached(t) && Inv(t) && OracleOk(t, op)
    ensures Reached(Step(t, op)) && Inv(Step(t, op))
  {
    var states, ops :| Run(states, ops) && states[|ops|] == t;
    StepKeepsInv(t, op);
    var states', ops' := states + [Step(t, op)], ops + [op];
    assert Takes(t, op, Step(t, op)) == Yes;
    assert Run(states', ops') && states'[|ops'|] == Step(t, op);
  }

  // ---- a single line of nodes ----

  /** A path, and the states of the nodes on it. */
  datatype Row = Row(path: seq<NodeId>, states: seq<NodeState>) {
    function Then(id: NodeId, state: NodeState): Row {
      Row(path + [id], states + [state])
    }
  }

  function StatesOf(nodes: Nodes, path: seq<NodeId>): seq<NodeState>
    requires AllIn(path, nodes)
  {
    seq(|path|, i requires 0 <= i < |path| => nodes[path[i]].state)
  }

  /** The path of `n`, in a state of a run. */
  ghost function RowOf(t: TreeView, n: NodeId): Option<Row> {
    if Reached(t) && Inv(t) && n in t.nodes && AllIn(PathOf(t.nodes, n), t.nodes)
    then Some(Row(PathOf(t.nodes, n), StatesOf(t.nodes, PathOf(t.nodes, n))))
    else None
  }

  lemma RowThere(t: TreeView, n: NodeId)
    requires Reached(t) && Inv(t) && n in t.nodes
    ensures RowOf(t, n).Some?
  {
    PathSteps(t.nodes, n);
  }

  const MSG := NewUserMessage("hello")

  /** A new tree, on branch "main". */
  lemma Plant() returns (t: TreeView)
    ensures t == NewTree(MSG, "r") && RowOf(t, "r") == Some(Row(["r"], [Active])) && Exact(t.nodes)
  {
    t := NewTree(MSG, "r");
    ReachNew(MSG, "r");
    forall n ensures ExactAt(t.nodes, n) {
    }
    RowThere(t, "r");
    assert StatesOf(t.nodes, ["r"]) == [Active];
  }

  lemma RowAdd(t: TreeView, n: NodeId, id: NodeId, view: NodeView, t': TreeView)
    requires RowOf(t, n).Some? && CanAdd(t, id, view) && view.parent == n
    requires Status(t') == Yes && t'.nodes == AddNode(t, id, view).nodes
    ensures RowOf(t', id) == Some(RowOf(t, n).value.Then(id, view.state))
  {
    AddNodeNew(t, id, view);
    RowThere(t', id);
    var path := PathOf(t.nodes, n);
    assert StatesOf(t'.nodes, path + [id]) == StatesOf(t.nodes, path) + [view.state];
  }

  lemma RowPrefix(t: TreeView, n: NodeId, i: nat)
    requires RowOf(t, n).Some? && i < |RowOf(t, n).value.path|
    ensures var row := RowOf(t, n).value;
      RowOf(t, row.path[i]) == Some(Row(row.path[..i + 1], row.states[..i + 1]))
  {
    PathPrefix(t.nodes, n, i);
    RowThere(t, PathOf(t.nodes, n)[i]);
    assert StatesOf(t.nodes, PathOf(t.nodes, n)[..i + 1]) == StatesOf(t.nodes, PathOf(t.nodes, n))[..i + 1];
  }

  /** One more node at the end of a line. */
  lemma Append(t: TreeView, n: NodeId, id: NodeId) returns (t': TreeView)
    requires RowOf(t, n).Some? && FreshNode(t, id) && t.nodes[n].state in {Active, Compacted}
    ensures t' == AddNode(t, id, ChildView(t, n, MSG, Active, t.nodes[n].branch))
    ensures RowOf(t', id) == Some(RowOf(t, n).value.Then(id, Active))
    ensures Exact(t.nodes) ==> Exact(t'.nodes)
  {
    var op, view := AddChildOp(n, MSG, id), ChildView(t, n, MSG, Active, t.nodes[n].branch);
    ReachStep(t, op);
    t' := Step(t, op);
    RowAdd(t, n, id, view, t');
    ExactAdd(t, id, view);
  }

  lemma RowMarked(t: TreeView, n: NodeId, i: nat, state: NodeState, who: string)
    requires RowOf(t, n).Some? && i < |RowOf(t, n).value.path|
    requires Reached(t.(nodes := MarkAll(t.nodes, RowOf(t, n).value.path[i], false, state, who)))
    requires Inv(t.(nodes := MarkAll(t.nodes, RowOf(t, n).value.path[i], false, state, who)))
    ensures var row := RowOf(t, n).value;
      RowOf(t.(nodes := MarkAll(t.nodes, row.path[i], false, state, who)), n)
         == Some(row.(states := row.states[i := state]))
  {
    var path := PathOf(t.nodes, n);
    var t' := t.(nodes := MarkAll(t.nodes, path[i], false, state, who));
    PathDistinct(t.nodes, n);
    PathFrame(t.nodes, t'.nodes, n);
    RowThere(t', n);
    assert StatesOf(t'.nodes, path) == StatesOf(t.nodes, path)[i := state];
  }

  /** The `i`-th node of a line archived by itself. */
  lemma ArchiveOne(t: TreeView, n: NodeId, i: nat) returns (t': TreeView)
    requires RowOf(t, n).Some? && 0 < i < |RowOf(t, n).value.path|
    ensures t' == t.(nodes := MarkAll(t.nodes, RowOf(t, n).value.path[i], false, Archived, "u"))
    ensures RowOf(t', n) == Some(RowOf(t, n).value.(states := RowOf(t, n).value.states[i := Archived]))
  {
    var path := PathOf(t.nodes, n);
    PathSteps(t.nodes, n);
    assert t.nodes[path[i]].parent == path[i - 1] && path[i - 1] in t.nodes;
    ReachStep(t, ArchiveOp(path[i], "u", false));
    t' := Step(t, ArchiveOp(path[i], "u", false));
    RowMarked(t, n, i, Archived, "u");
  }

  lemma RestoreOne(t: TreeView, n: NodeId, i: nat) returns (t': TreeView)
    requires RowOf(t, n).Some? && i < |RowOf(t, n).value.path|
    ensures t' == t.(nodes := MarkAll(t.nodes, RowOf(t, n).value.path[i], false, Active, ""))
    ensures RowOf(t', n) == Some(RowOf(t, n).value.(states := RowOf(t, n).value.states[i := Active]))
  {
    var path := PathOf(t.nodes, n);
    ReachStep(t, RestoreOp(path[i], false));
    t' := Step(t, RestoreOp(path[i], false));
    RowMarked(t, n, i, Active, "");
  }

  // ---- compacting a line ----

  const SVC := Services((ms: seq<Message>) => Ok(1), (ms: seq<Message>) => Ok("summary"))
  const ALL := CompactOpts(0, false)

  /** The active nodes of a line behind the root. */
  function ActiveOn(row: Row, k: nat): seq<NodeId>
    requires k <= |row.path| == |row.states|
  {
    if k == 0 then []
    else ActiveOn(row, k - 1) + if k > 1 && row.states[k - 1] == Active then [row.path[k - 1]] else []
  }

  lemma {:induction false} RowCandidates(t: TreeView, n: NodeId, k: nat)
    requires RowOf(t, n).Some? && k <= |PathOf(t.nodes, n)|
    ensures Candidates(t.nodes, PathOf(t.nodes, n), {}, k) == ActiveOn(RowOf(t, n).value, k)
  {
    var path := PathOf(t.nodes, n);
    PathSteps(t.nodes, n);
    if k > 0 {
      RowCandidates(t, n, k - 1);
      assert k > 1 ==> path[k - 2] in t.nodes && t.nodes[path[k - 1]].parent == path[k - 2];
    }
  }

  /** What Compact, always over budget, chooses on a line. */
  lemma RowPlan(t: TreeView, b: BranchId, row: Row)
    requires b in t.branches && RowOf(t, t.branches[b]) == Some(row) && ActiveOn(row, |row.path|) != []
    ensures var active := ActiveOn(row, |row.path|);
      && CompactPlan(t, b, SVC, ALL) == Ok(Replace(row.path, active[..CompactCount(|active|)], "summary"))
      && Candidates(t.nodes, row.path, Spared(t, b, ALL), |row.path|) == active
  {
    RowCandidates(t, t.branches[b], |row.path|);
  }

  lemma ReachCompact(t: TreeView, b: BranchId, row: Row, ids: seq<NodeId>)
    requires b in t.branches && RowOf(t, t.branches[b]) == Some(row) && FreshIds(t, ids) && |row.path| < |ids|
    requires CompactBranch(b, "1") !in t.branches && Compact(t, b, SVC, ALL, ids, "1").Ok?
    ensures Status(Compact(t, b, SVC, ALL, ids, "1").value.0) == Yes
  {
    ReachStep(t, CompactOp(b, SVC, ALL, ids, "1"));
  }

  lemma LastPlan(t: TreeView, b: BranchId, row: Row)
    requires b in t.branches && RowOf(t, t.branches[b]) == Some(row) && |row.path| > 1
    requires ActiveOn(row, |row.path|) == [row.path[|row.path| - 1]]
    ensures CompactPlan(t, b, SVC, ALL) == Ok(Replace(row.path, [row.path[|row.path| - 1]], "summary"))
  {
    RowPlan(t, b, row);
    assert [row.path[|row.path| - 1]][..1] == [row.path[|row.path| - 1]];
  }

  lemma MadePlanIsGood(t: TreeView, b: BranchId, plan: Plan)
    requires Inv(t) && CompactPlan(t, b, SVC, ALL) == Ok(plan) && plan.Replace?
    ensures GoodPlan(t, b, plan)
  {
    PlanIs(t, b, SVC, ALL, plan);
    PlanIsGood(t, b, SVC, ALL, plan);
  }

  lemma NothingBehind(t: TreeView, b: BranchId, row: Row, plan: Plan)
    requires GoodPlan(t, b, plan) && RowOf(t, t.branches[b]) == Some(row) && |row.path| > 1
    requires plan.chosen == [row.path[|row.path| - 1]]
    ensures Behind(plan) == [] && t.nodes[row.path[|row.path| - 1]].parent == row.path[|row.path| - 2]
  {
    PathSteps(t.nodes, t.branches[b]);
    PathDistinct(t.nodes, t.branches[b]);
    IndexInPath(row.path, |row.path| - 1);
  }

  lemma SummaryOnly(t: TreeView, b: BranchId, plan: Plan, ids: seq<NodeId>, branch: BranchId)
    requires GoodPlan(t, b, plan) && FreshIds(t, ids) && |plan.path| < |ids| && Behind(plan) == []
    ensures var view := SummaryView(t.nodes[plan.chosen[0]], plan.chosen, plan.summary, branch);
      CanAdd(t, ids[0], view) && ExecutePlan(t, plan, branch, ids) == AddNode(t, ids[0], view).(active := branch)
  {
    SummaryStep(t, b, plan, ids, branch);
  }

  lemma LastSummary(t: TreeView, b: BranchId, row: Row, ids: seq<NodeId>) returns (view: NodeView)
    requires b in t.branches && RowOf(t, t.branches[b]) == Some(row) && FreshIds(t, ids) && |row.path| < |ids|
    requires |row.path| > 1 && ActiveOn(row, |row.path|) == [row.path[|row.path| - 1]]
    ensures view.parent == row.path[|row.path| - 2] && view.state == Compacted && view.branch == CompactBranch(b, "1")
    ensures CanAdd(t, ids[0], view)
    ensures Compact(t, b, SVC, ALL, ids, "1") == Ok((AddNode(t, ids[0], view).(active := view.branch), view.branch))
  {
    var last, branch := row.path[|row.path| - 1], CompactBranch(b, "1");
    var plan := Replace(row.path, [last], "summary");
    LastPlan(t, b, row);
    MadePlanIsGood(t, b, plan);
    NothingBehind(t, b, row, plan);
    SummaryOnly(t, b, plan, ids, branch);
    view := SummaryView(t.nodes[last], plan.chosen, plan.summary, branch);
  }

  lemma LastStep(t: TreeView, b: BranchId, row: Row, ids: seq<NodeId>) returns (view: NodeView, t': TreeView)
    requires b in t.branches && RowOf(t, t.branches[b]) == Some(row) && FreshIds(t, ids) && |row.path| < |ids|
    requires |row.path| > 1 && ActiveOn(row, |row.path|) == [row.path[|row.path| - 1]]
    requires CompactBranch(b, "1") !in t.branches
    ensures view.parent == row.path[|row.path| - 2] && view.state == Compacted && view.branch == CompactBranch(b, "1")
    ensures CanAdd(t, ids[0], view)
    ensures t' == AddNode(t, ids[0], view).(active := view.branch) && Status(t') == Yes
  {
    view := LastSummary(t, b, row, ids);
    ReachCompact(t, b, row, ids);
    t' := Compact(t, b, SVC, ALL, ids, "1").value.0;
  }

  /** Compacting a line whose only candidate is its last node: the summary takes that node's place. */
  lemma CompactLast(t: TreeView, b: BranchId, row: Row, ids: seq<NodeId>) returns (t': TreeView)
    requires b in t.branches && RowOf(t, t.branches[b]) == Some(row) && FreshIds(t, ids) && |row.path| < |ids|
    requires |row.path| > 1 && ActiveOn(row, |row.path|) == [row.path[|row.path| - 1]]
    requires CompactBranch(b, "1") !in t.branches
    ensures t'.nodes.Keys == t.nodes.Keys + {ids[0]} && t'.branches == t.branches[CompactBranch(b, "1") := ids[0]]
    ensures var n := |row.path| - 1;
      RowOf(t', ids[0]) == Some(Row(row.path[..n], row.states[..n]).Then(ids[0], Compacted))
    ensures t'.nodes[ids[0]].branch == CompactBranch(b, "1") && t'.nodes[ids[0]].state == Compacted
  {
    var view;
    view, t' := LastStep(t, b, row, ids);
    LastRow(t, t.branches[b], row, ids[0], view, t');
  }

  lemma LastRow(t: TreeView, n: NodeId, row: Row, id: NodeId, view: NodeView, t': TreeView)
    requires RowOf(t, n) == Some(row) && |row.path| > 1 && view.parent == row.path[|row.path| - 2]
    requires CanAdd(t, id, view) && view.state == Compacted
    requires Status(t') == Yes && t'.nodes == AddNode(t, id, view).nodes
    ensures RowOf(t', id) == Some(Row(row.path[..|row.path| - 1], row.states[..|row.path| - 1]).Then(id, Compacted))
  {
    RowPrefix(t, n, |row.path| - 2);
    RowAdd(t, view.parent, id, view, t');
  }

  // ---- chains ----

  ghost function Last(ids: seq<NodeId>): NodeId {
    if ids == [] then "r" else ids[|ids| - 1]
  }

  ghost function Actives(ids: seq<NodeId>): Row {
    Row(["r"] + ids, seq(|ids| + 1, _ => Active))
  }

  lemma ActivesThen(front: seq<NodeId>, id: NodeId)
    ensures Actives(front).Then(id, Active) == Actives(front + [id])
  {
    assert ["r"] + front + [id] == ["r"] + (front + [id]);
    assert Actives(front).states + [Active] == Actives(front + [id]).states;
  }

  lemma {:induction false} AllActiveOn(ids: seq<NodeId>, k: nat)
    requires 0 < k <= |ids| + 1
    ensures ActiveOn(Actives(ids), k) == ids[..k - 1]
  {
    if k > 1 {
      AllActiveOn(ids, k - 1);
      assert ids[..k - 1] == ids[..k - 2] + [ids[k - 2]];
    } else {
      assert ActiveOn(Actives(ids), 0) == [];
    }
  }

  /** All identifiers are shorter than `k`. */
  ghost predicate Short(t: TreeView, k: nat) {
    forall n | n in t.nodes :: |n| < k
  }

  ghost predicate Listed(t: TreeView, ids: seq<NodeId>) {
    && (forall n | n in t.nodes :: n == "r" || n in ids)
    && t.branches == map["main" := Last(ids)] && Last(ids) in t.nodes
    && t.nodes[Last(ids)].branch == "main" && t.nodes[Last(ids)].state == Active
  }

  /** A root and below it the nodes `ids`, one below the other, on branch "main". */
  lemma {:induction false} Chain(ids: seq<NodeId>) returns (t: TreeView)
    requires Distinct(ids) && "" !in ids && "r" !in ids
    ensures RowOf(t, Last(ids)) == Some(Actives(ids)) && Exact(t.nodes) && Listed(t, ids)
  {
    if ids == [] {
      t := Plant();
      assert ["r"] + ids == ["r"] && Actives(ids).states == [Active];
    } else {
      var front, id := ids[..|ids| - 1], ids[|ids| - 1];
      assert ids == front + [id];
      var t1 := Chain(front);
      t := Append(t1, Last(front), id);
      ActivesThen(front, id);
    }
  }

  /** Identifiers, told apart by their lengths. */
  function Name(k: nat): (id: NodeId)
    ensures |id| == k + 2
  {
    seq(k + 2, _ => 'n')
  }

  function Names(from: nat, n: nat): seq<NodeId> {
    seq(n, i requires 0 <= i < n => Name(from + i))
  }

  lemma NamesDiffer(from: nat, n: nat)
    ensures Distinct(Names(from, n)) && "" !in Names(from, n) && "r" !in Names(from, n)
    ensures forall id | id in Names(from, n) :: from + 2 <= |id| < from + n + 2
  {
    var ids := Names(from, n);
    forall i | 0 <= i < n ensures |ids[i]| == from + i + 2 {
      assert ids[i] == Name(from + i);
    }
  }

  lemma FreshNames(t: TreeView, from: nat, n: nat)
    requires Short(t, from + 2)
    ensures FreshIds(t, Names(from, n))
  {
    NamesDiffer(from, n);
    forall i | 0 <= i < n ensures Names(from, n)[i] !in t.nodes {
      assert Names(from, n)[i] in Names(from, n);
    }
  }

  lemma NamedChain(n: nat) returns (t: TreeView)
    ensures RowOf(t, Last(Names(0, n))) == Some(Actives(Names(0, n))) && Exact(t.nodes)
    ensures Listed(t, Names(0, n)) && Short(t, n + 2)
  {
    NamesDiffer(0, n);
    t := Chain(Names(0, n));
  }
}
