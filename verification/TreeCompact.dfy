/** What Tree.Compact means (agent/tree/compact.go). */
module TreeCompact {
  import opened Verdicts
  import opened Sequences
  import opened Messages
  import opened TreeModel
  import opened TreeOps

  // ---- cloning ----

  /** The clone chain can be put below `prev`: fresh different identifiers, growing depths. */
  ghost predicate CanGraft(t: TreeView, prev: NodeId, rest: seq<NodeId>, ids: seq<NodeId>, orig: Nodes) {
    && Inv(t) && prev in t.nodes && t.nodes[prev].state != Feedback
    && |rest| <= |ids| && Distinct(ids)
    && (forall i | 0 <= i < |ids| :: ids[i] != "" && ids[i] !in t.nodes)
    && (forall i | 0 <= i < |rest| :: rest[i] in orig && t.nodes[prev].depth < orig[rest[i]].depth)
    && (forall i | 0 < i < |rest| :: orig[rest[i - 1]].depth < orig[rest[i]].depth)
  }

  /** `t'` is `t` with the first `k` clones of the chain below `prev`. */
  ghost predicate Grafted(t: TreeView, t': TreeView, ids: seq<NodeId>, k: nat)
    requires k <= |ids|
  {
    && Inv(t') && t'.root == t.root && t'.checkpoints == t.checkpoints && t'.active == t.active
    && (forall n | n in t.nodes :: n in t'.nodes && t'.nodes[n] == t.nodes[n])
    && (forall i | k <= i < |ids| :: ids[i] !in t'.nodes)
  }

  /** The last of the first `k` clones, or `prev`: where it is, and what it flattens to. */
  ghost predicate GraftEnd(t: TreeView, t': TreeView, prev: NodeId, rest: seq<NodeId>, ids: seq<NodeId>, orig: Nodes,
                           k: nat)
    requires CanGraft(t, prev, rest, ids, orig) && k <= |rest|
    requires Rooted(t'.nodes)
  {
    var end := CloneParent(prev, ids, k);
    && end in t'.nodes && t'.nodes[end].state != Feedback
    && (k < |rest| ==> t'.nodes[end].depth < orig[rest[k]].depth)
    && PathOf(t'.nodes, end) == PathOf(t.nodes, prev) + ids[..k]
    && Flatten(t'.nodes, end) == Flatten(t.nodes, prev) + AllMessages(orig, rest)[..k]
  }

  ghost predicate GraftOk(t: TreeView, t': TreeView, prev: NodeId, rest: seq<NodeId>, ids: seq<NodeId>,
                          branch: BranchId, orig: Nodes, k: nat)
    requires CanGraft(t, prev, rest, ids, orig) && k <= |rest|
  {
    && Grafted(t, t', ids, k) && GraftEnd(t, t', prev, rest, ids, orig, k)
    && (k > 0 ==> t'.nodes[CloneParent(prev, ids, k)].branch == branch)
    && t'.branches == if k == 0 then t.branches else t.branches[branch := ids[k - 1]]
  }

  ghost function Grafting(t: TreeView, t': TreeView, prev: NodeId, rest: seq<NodeId>, ids: seq<NodeId>,
                          branch: BranchId, orig: Nodes, k: nat): Verdict {
    if CanGraft(t, prev, rest, ids, orig) && k <= |rest| && GraftOk(t, t', prev, rest, ids, branch, orig, k)
    then Yes else No
  }

  /** Cloning nodes one below the other keeps all in order. */
  lemma {:induction false} GraftIsOk(t: TreeView, prev: NodeId, rest: seq<NodeId>, ids: seq<NodeId>, branch: BranchId,
                                     orig: Nodes, k: nat)
    requires CanGraft(t, prev, rest, ids, orig) && k <= |rest|
    ensures Grafting(t, Graft(t, prev, rest, ids, branch, orig, k), prev, rest, ids, branch, orig, k) == Yes
  {
    if k == 0 {
      NothingGrafted(t, prev, rest, ids, branch, orig);
    } else {
      GraftIsOk(t, prev, rest, ids, branch, orig, k - 1);
      GraftOnward(t, Graft(t, prev, rest, ids, branch, orig, k - 1), prev, rest, ids, branch, orig, k - 1);
    }
  }

  lemma NothingGrafted(t: TreeView, prev: NodeId, rest: seq<NodeId>, ids: seq<NodeId>, branch: BranchId, orig: Nodes)
    requires CanGraft(t, prev, rest, ids, orig)
    ensures Grafting(t, t, prev, rest, ids, branch, orig, 0) == Yes
  {
    assert ids[..0] == [] && AllMessages(orig, rest)[..0] == [];
  }

  lemma GraftStep(t: TreeView, t1: TreeView, prev: NodeId, rest: seq<NodeId>, ids: seq<NodeId>, branch: BranchId,
                  orig: Nodes, k: nat)
    requires CanGraft(t, prev, rest, ids, orig) && k < |rest|
    requires GraftOk(t, t1, prev, rest, ids, branch, orig, k)
    ensures GraftOk(t, AddNode(t1, ids[k], CloneView(orig[rest[k]], CloneParent(prev, ids, k), branch)),
                    prev, rest, ids, branch, orig, k + 1)
  {
    var view := CloneView(orig[rest[k]], CloneParent(prev, ids, k), branch);
    GraftStepShape(t, t1, ids, k, view);
    GraftStepTip(t, t1, prev, rest, ids, orig, k, view);
  }

  lemma GraftStepTip(t: TreeView, t1: TreeView, prev: NodeId, rest: seq<NodeId>, ids: seq<NodeId>, orig: Nodes,
                     k: nat, view: NodeView)
    requires CanGraft(t, prev, rest, ids, orig) && k < |rest| && Inv(t1)
    requires CanAdd(t1, ids[k], view) && Rooted(AddNode(t1, ids[k], view).nodes)
    requires GraftEnd(t, t1, prev, rest, ids, orig, k)
    requires view.parent == CloneParent(prev, ids, k) && view.state == Active
    requires view.depth == orig[rest[k]].depth && view.message == orig[rest[k]].message
    ensures GraftEnd(t, AddNode(t1, ids[k], view), prev, rest, ids, orig, k + 1)
  {
    AddNodeNew(t1, ids[k], view);
    GraftStepEnd(t, AddNode(t1, ids[k], view), prev, rest, ids, orig, k);
  }

  lemma GraftOnward(t: TreeView, t1: TreeView, prev: NodeId, rest: seq<NodeId>, ids: seq<NodeId>, branch: BranchId,
                    orig: Nodes, k: nat)
    requires CanGraft(t, prev, rest, ids, orig) && k < |rest|
    requires Grafting(t, t1, prev, rest, ids, branch, orig, k) == Yes
    ensures Grafting(t, AddNode(t1, ids[k], CloneView(orig[rest[k]], CloneParent(prev, ids, k), branch)),
                     prev, rest, ids, branch, orig, k + 1) == Yes
  {
    GraftStep(t, t1, prev, rest, ids, branch, orig, k);
  }

  lemma GraftStepShape(t: TreeView, t1: TreeView, ids: seq<NodeId>, k: nat, view: NodeView)
    requires k < |ids| && Grafted(t, t1, ids, k) && Distinct(ids)
    requires CanAdd(t1, ids[k], view)
    ensures Grafted(t, AddNode(t1, ids[k], view), ids, k + 1)
  {
    AddNodeKeepsInv(t1, ids[k], view);
  }

  lemma GraftStepEnd(t: TreeView, t': TreeView, prev: NodeId, rest: seq<NodeId>, ids: seq<NodeId>, orig: Nodes, k: nat)
    requires CanGraft(t, prev, rest, ids, orig) && k < |rest| && Rooted(t'.nodes)
    requires ids[k] in t'.nodes && t'.nodes[ids[k]].state == Active && t'.nodes[ids[k]].depth == orig[rest[k]].depth
    requires PathOf(t'.nodes, ids[k]) == PathOf(t.nodes, prev) + ids[..k] + [ids[k]]
    requires Flatten(t'.nodes, ids[k])
       == Flatten(t.nodes, prev) + AllMessages(orig, rest)[..k] + [orig[rest[k]].message]
    ensures GraftEnd(t, t', prev, rest, ids, orig, k + 1)
  {
    assert ids[..k + 1] == ids[..k] + [ids[k]];
    var messages := AllMessages(orig, rest);
    assert messages[..k + 1] == messages[..k] + [orig[rest[k]].message];
  }

  // ---- what compaction does ----

  /** The identifiers drawn by one compaction: enough, fresh and different. */
  ghost predicate FreshIds(t: TreeView, ids: seq<NodeId>) {
    Distinct(ids) && forall i | 0 <= i < |ids| :: ids[i] != "" && ids[i] !in t.nodes
  }

  /** A plan made of nodes of a path in `t`, in the order of the path. */
  ghost predicate GoodPlan(t: TreeView, b: BranchId, plan: Plan) {
    && Inv(t) && plan.Replace? && b in t.branches
    && plan.path == PathOf(t.nodes, t.branches[b]) && PlanFits(t, plan)
    && t.nodes[plan.chosen[0]].parent != ""
    && t.nodes[plan.chosen[0]].depth <= t.nodes[plan.chosen[|plan.chosen| - 1]].depth
  }

  /** Candidates keep the order of the path, so their depths grow. */
  lemma {:induction false} CandidatesInOrder(nodes: Nodes, path: seq<NodeId>, shared: set<NodeId>, k: nat)
    requires k <= |path| && forall i | 0 <= i < |path| :: path[i] in nodes
    requires forall i, j | 0 <= i < j < |path| :: nodes[path[i]].depth < nodes[path[j]].depth
    ensures Ascending(nodes, Candidates(nodes, path, shared, k))
    ensures forall n | n in Candidates(nodes, path, shared, k) ::
      n in nodes && forall j | k <= j < |path| :: nodes[n].depth < nodes[path[j]].depth
  {
    if k > 0 {
      CandidatesInOrder(nodes, path, shared, k - 1);
    }
  }

  ghost predicate Ascending(nodes: Nodes, ids: seq<NodeId>) {
    && (forall i | 0 <= i < |ids| :: ids[i] in nodes)
    && (forall i, j | 0 <= i < j < |ids| :: nodes[ids[i]].depth < nodes[ids[j]].depth)
  }

  /** What the plan is when Compact has something to do: over budget, at least one candidate, and
      the first half of the candidates chosen. */
  ghost predicate IsPlan(t: TreeView, b: BranchId, svc: Services, opts: CompactOpts, plan: Plan)
    requires Inv(t)
  {
    && plan.Replace? && b in t.branches && plan.path == PathOf(t.nodes, t.branches[b]) && PlanFits(t, plan)
    && var candidates := Candidates(t.nodes, plan.path, Spared(t, b, opts), |plan.path|);
      && 0 < |plan.chosen| == CompactCount(|candidates|) <= |candidates|
      && plan.chosen == candidates[..|plan.chosen|]
      && svc.summarize(AllMessages(t.nodes, plan.chosen)) == Ok(plan.summary)
  }

  lemma PlanIs(t: TreeView, b: BranchId, svc: Services, opts: CompactOpts, plan: Plan)
    requires Inv(t) && CompactPlan(t, b, svc, opts) == Ok(plan) && plan.Replace?
    ensures IsPlan(t, b, svc, opts, plan)
  {
    PlanIsFit(t, b, svc, opts);
  }

  lemma PlanIsGood(t: TreeView, b: BranchId, svc: Services, opts: CompactOpts, plan: Plan)
    requires Inv(t) && IsPlan(t, b, svc, opts, plan)
    ensures GoodPlan(t, b, plan)
  {
    PathSteps(t.nodes, t.branches[b]);
    CandidatesInOrder(t.nodes, plan.path, Spared(t, b, opts), |plan.path|);
    CandidatesOnPath(t.nodes, plan.path, Spared(t, b, opts), |plan.path|);
    var candidates := Candidates(t.nodes, plan.path, Spared(t, b, opts), |plan.path|);
    assert plan.chosen[0] == candidates[0] && candidates[0] in candidates;
  }

  /** The candidates on the path of a branch. */
  ghost function CandidatesOf(t: TreeView, b: BranchId, opts: CompactOpts): (ids: seq<NodeId>)
    requires Inv(t) && b in t.branches
    ensures AllIn(ids, t.nodes)
  {
    PathSteps(t.nodes, t.branches[b]);
    var path := PathOf(t.nodes, t.branches[b]);
    CandidatesOnPath(t.nodes, path, Spared(t, b, opts), |path|);
    Candidates(t.nodes, path, Spared(t, b, opts), |path|)
  }

  /** Compact has something to do: the branch exists, its history is over budget, there is a candidate,
      and counting and summarizing succeed. */
  ghost predicate Compacts(t: TreeView, b: BranchId, svc: Services, opts: CompactOpts)
    requires Inv(t)
  {
    && b in t.branches && CandidatesOf(t, b, opts) != []
    && var tokens, ids := svc.countTokens(FlattenBranch(t, b)), CandidatesOf(t, b, opts);
      tokens.Ok? && tokens.value > opts.maxTokens && svc.summarize(AllMessages(t.nodes, ids[..CompactCount(|ids|)])).Ok?
  }

  /** That is when it replaces anything. */
  lemma CompactsIff(t: TreeView, b: BranchId, svc: Services, opts: CompactOpts)
    requires Inv(t)
    ensures Compacts(t, b, svc, opts)
       <==> CompactPlan(t, b, svc, opts).Ok? && CompactPlan(t, b, svc, opts).value.Replace?
  {
  }

  // ---- the meaning ----

  /** The path around the chosen nodes: what precedes the first and what follows the last. */
  ghost function Before(plan: Plan): seq<NodeId>
    requires plan.Replace? && |plan.chosen| > 0 && plan.chosen[0] in plan.path
  {
    plan.path[..IndexIn(plan.path, plan.chosen[0])]
  }

  ghost function Behind(plan: Plan): seq<NodeId>
    requires plan.Replace? && |plan.chosen| > 0 && plan.chosen[|plan.chosen| - 1] in plan.path
  {
    After(plan.path, plan.chosen[|plan.chosen| - 1])
  }

  /** The first step: the summary node below the parent of the first chosen node. */
  lemma SummaryStep(t: TreeView, b: BranchId, plan: Plan, ids: seq<NodeId>, branch: BranchId)
    requires GoodPlan(t, b, plan) && FreshIds(t, ids) && |plan.path| < |ids|
    ensures var view := SummaryView(t.nodes[plan.chosen[0]], plan.chosen, plan.summary, branch);
      && CanAdd(t, ids[0], view)
      && PathOf(t.nodes, view.parent) == Before(plan)
      && CanGraft(AddNode(t, ids[0], view), ids[0], Behind(plan), ids[1..], t.nodes)
  {
    var view := SummaryView(t.nodes[plan.chosen[0]], plan.chosen, plan.summary, branch);
    SummaryParent(t, b, plan);
    AddNodeKeepsInv(t, ids[0], view);
    BehindIsDeeper(t, b, plan);
    assert Distinct(ids[1..]);
  }

  lemma SummaryParent(t: TreeView, b: BranchId, plan: Plan)
    requires GoodPlan(t, b, plan)
    ensures var first := t.nodes[plan.chosen[0]];
      && first.parent in t.nodes && t.nodes[first.parent].state != Feedback
      && t.nodes[first.parent].depth < first.depth
      && PathOf(t.nodes, first.parent) == Before(plan)
  {
    var first := plan.chosen[0];
    PathSteps(t.nodes, t.branches[b]);
    assert NodeOk(t, first) && ParentOk(t.nodes, first);
    ParentIsNoLeaf(t, first);
    PathPrefix(t.nodes, t.branches[b], IndexIn(plan.path, first) - 1);
  }

  lemma BehindIsDeeper(t: TreeView, b: BranchId, plan: Plan)
    requires GoodPlan(t, b, plan)
    ensures forall k | 0 <= k < |Behind(plan)| ::
      Behind(plan)[k] in t.nodes && t.nodes[plan.chosen[0]].depth < t.nodes[Behind(plan)[k]].depth
    ensures forall k | 0 < k < |Behind(plan)| ::
      t.nodes[Behind(plan)[k - 1]].depth < t.nodes[Behind(plan)[k]].depth
  {
    var path, j := plan.path, IndexIn(plan.path, plan.chosen[|plan.chosen| - 1]);
    PathSteps(t.nodes, t.branches[b]);
    assert forall k | 0 <= k < |Behind(plan)| :: Behind(plan)[k] == path[j + 1 + k];
  }

  ghost predicate AllIn(ids: seq<NodeId>, nodes: Nodes) {
    forall i | 0 <= i < |ids| :: ids[i] in nodes
  }

  /** What a compaction leaves: the invariant, the old nodes and branches as they were, and a new
      active branch whose tip reads as the messages of `before`, the summary, and every message
      of `rest`. */
  ghost predicate Compaction(t: TreeView, t': TreeView, before: seq<NodeId>, rest: seq<NodeId>, summary: string,
                             ids: seq<NodeId>, branch: BranchId)
    requires AllIn(before, t.nodes) && AllIn(rest, t.nodes) && |rest| < |ids|
  {
    && Inv(t') && t'.root == t.root && t'.checkpoints == t.checkpoints && t'.active == branch
    && (forall n | n in t.nodes :: n in t'.nodes && t'.nodes[n] == t.nodes[n])
    && t'.branches == t.branches[branch := ids[|rest|]]
    && t'.nodes[ids[|rest|]].branch == branch
    && PathOf(t'.nodes, ids[|rest|]) == before + ids[..|rest| + 1]
    && Flatten(t'.nodes, ids[|rest|])
       == Visible(t.nodes, before) + [SummaryMessage(summary)] + AllMessages(t.nodes, rest)
  }

  lemma SetTwice<K, V>(m: map<K, V>, k: K, v: V, w: V)
    ensures m[k := v][k := w] == m[k := w]
  {
  }

  lemma HeadOnward(before: seq<NodeId>, ids: seq<NodeId>, k: nat)
    requires k < |ids|
    ensures before + [ids[0]] + ids[1..][..k] == before + ids[..k + 1]
  {
    assert [ids[0]] + ids[1..][..k] == ids[..k + 1];
  }

  /** Whether `t2` is `t1` with a chain from `ids[0]` to the last clone, the tip of `branch`. */
  ghost function Chained(t1: TreeView, t2: TreeView, rest: seq<NodeId>, ids: seq<NodeId>, branch: BranchId, orig: Nodes)
    : Verdict
  {
    if && AllIn(rest, orig) && |rest| < |ids| && Inv(t1) && Inv(t2) && t2.root == t1.root
       && t2.checkpoints == t1.checkpoints && ids[0] in t1.nodes
       && (forall n | n in t1.nodes :: n in t2.nodes && t2.nodes[n] == t1.nodes[n])
       && t2.branches == t1.branches[branch := ids[|rest|]]
       && ids[|rest|] in t2.nodes && t2.nodes[ids[|rest|]].branch == branch
       && PathOf(t2.nodes, ids[|rest|]) == PathOf(t1.nodes, ids[0]) + ids[1..][..|rest|]
       && Flatten(t2.nodes, ids[|rest|]) == Flatten(t1.nodes, ids[0]) + AllMessages(orig, rest)
    then Yes else No
  }

  /** Whether `t1` is `t` with the summary behind `before`, the tip of `branch`. */
  ghost function Begun(t: TreeView, t1: TreeView, before: seq<NodeId>, summary: string, id: NodeId, branch: BranchId)
    : Verdict
  {
    if && AllIn(before, t.nodes) && Inv(t1) && t1.root == t.root && t1.checkpoints == t.checkpoints
       && t1.branches == t.branches[branch := id] && id in t1.nodes && PathOf(t1.nodes, id) == before + [id]
       && (forall n | n in t.nodes :: n in t1.nodes && t1.nodes[n] == t.nodes[n])
       && Flatten(t1.nodes, id) == Visible(t.nodes, before) + [SummaryMessage(summary)]
    then Yes else No
  }

  /** The complete graft, without the bookkeeping of its induction. */
  lemma GraftTip(t1: TreeView, rest: seq<NodeId>, ids: seq<NodeId>, branch: BranchId, orig: Nodes)
    requires AllIn(rest, orig) && |rest| < |ids| && Inv(t1)
    requires CanGraft(t1, ids[0], rest, ids[1..], orig)
    requires t1.branches == t1.branches[branch := ids[0]] && t1.nodes[ids[0]].branch == branch
    ensures Chained(t1, Graft(t1, ids[0], rest, ids[1..], branch, orig, |rest|), rest, ids, branch, orig) == Yes
  {
    GraftIsOk(t1, ids[0], rest, ids[1..], branch, orig, |rest|);
    assert AllMessages(orig, rest)[..|rest|] == AllMessages(orig, rest);
    assert CloneParent(ids[0], ids[1..], |rest|) == ids[|rest|];
  }

  lemma CompactEffect(t: TreeView, b: BranchId, plan: Plan, ids: seq<NodeId>, branch: BranchId)
    requires GoodPlan(t, b, plan) && FreshIds(t, ids) && |plan.path| < |ids|
    ensures AllIn(Before(plan), t.nodes) && AllIn(Behind(plan), t.nodes)
    ensures Compaction(t, ExecutePlan(t, plan, branch, ids), Before(plan), Behind(plan), plan.summary, ids, branch)
  {
    var view := SummaryView(t.nodes[plan.chosen[0]], plan.chosen, plan.summary, branch);
    SummaryStep(t, b, plan, ids, branch);
    GraftSummary(t, Before(plan), Behind(plan), view, plan.summary, ids, branch);
  }

  lemma GraftSummary(t: TreeView, before: seq<NodeId>, rest: seq<NodeId>, view: NodeView, summary: string,
                     ids: seq<NodeId>, branch: BranchId)
    requires Inv(t) && |rest| < |ids| && CanAdd(t, ids[0], view) && view.branch == branch
    requires view.state == Compacted && view.message == SummaryMessage(summary)
    requires PathOf(t.nodes, view.parent) == before && AllIn(before, t.nodes) && AllIn(rest, t.nodes)
    requires CanGraft(AddNode(t, ids[0], view), ids[0], rest, ids[1..], t.nodes)
    ensures Compaction(
      t, Graft(AddNode(t, ids[0], view), ids[0], rest, ids[1..], branch, t.nodes, |rest|).(active := branch),
      before, rest, summary, ids, branch)
  {
    var t1 := AddNode(t, ids[0], view);
    SummaryBegins(t, before, view, summary, ids[0], branch);
    GraftTip(t1, rest, ids, branch, t.nodes);
    SetActiveKeepsInv(Graft(t1, ids[0], rest, ids[1..], branch, t.nodes, |rest|), branch);
    GraftedAll(t, t1, Graft(t1, ids[0], rest, ids[1..], branch, t.nodes, |rest|), before, rest, summary, ids, branch);
  }

  lemma SummaryBegins(t: TreeView, before: seq<NodeId>, view: NodeView, summary: string, id: NodeId, branch: BranchId)
    requires Inv(t) && CanAdd(t, id, view) && view.branch == branch
    requires view.state == Compacted && view.message == SummaryMessage(summary)
    requires PathOf(t.nodes, view.parent) == before && AllIn(before, t.nodes)
    ensures Begun(t, AddNode(t, id, view), before, summary, id, branch) == Yes
  {
    AddNodeNew(t, id, view);
  }

  /** What summary and graft leave, put together. */
  lemma GraftedAll(t: TreeView, t1: TreeView, t2: TreeView, before: seq<NodeId>, rest: seq<NodeId>, summary: string,
                   ids: seq<NodeId>, branch: BranchId)
    requires AllIn(before, t.nodes) && AllIn(rest, t.nodes) && |rest| < |ids|
    requires Begun(t, t1, before, summary, ids[0], branch) == Yes
    requires Chained(t1, t2, rest, ids, branch, t.nodes) == Yes && Inv(t2.(active := branch))
    ensures Compaction(t, t2.(active := branch), before, rest, summary, ids, branch)
  {
    SetTwice(t.branches, branch, ids[0], ids[|rest|]);
    HeadOnward(before, ids, |rest|);
  }

  lemma SetActiveKeepsInv(t: TreeView, b: BranchId)
    requires Inv(t) && b in t.branches
    ensures Inv(t.(active := b))
  {
    var t' := t.(active := b);
    forall p ensures KidsOk(t', p) {
      assert KidsOk(t, p);
    }
    forall n ensures NodeOk(t', n) {
      assert NodeOk(t, n);
    }
  }

  /** Where the old nodes are kept as they were, their paths and flattenings are too. */
  lemma KeptFlatten(t: TreeView, t': TreeView, n: NodeId)
    requires Inv(t) && Inv(t') && n in t.nodes
    requires forall m | m in t.nodes :: m in t'.nodes && t'.nodes[m] == t.nodes[m]
    ensures PathOf(t'.nodes, n) == PathOf(t.nodes, n) && Flatten(t'.nodes, n) == Flatten(t.nodes, n)
  {
    PathSteps(t.nodes, n);
    PathFrame(t.nodes, t'.nodes, n);
    FlattenFrame(t.nodes, t'.nodes, n);
  }

  /** What a branch shares with the others is a prefix of its path. */
  lemma SharedIsPrefix(t: TreeView, b: BranchId, i: nat, j: nat)
    requires Inv(t) && b in t.branches && i <= j < |PathOf(t.nodes, t.branches[b])|
    requires PathOf(t.nodes, t.branches[b])[j] in Shared(t, b)
    ensures PathOf(t.nodes, t.branches[b])[i] in Shared(t, b)
  {
    var path := PathOf(t.nodes, t.branches[b]);
    var c :| c in t.branches && c != b && path[j] in PathOf(t.nodes, t.branches[c]);
    var other := PathOf(t.nodes, t.branches[c]);
    var m :| 0 <= m < |other| && other[m] == path[j];
    PathMeet(t.nodes, t.branches[b], t.branches[c], j, m);
    assert path[..j + 1][i] == other[..j + 1][i];
    assert other[i] in other;
  }

  ghost predicate AllActive(nodes: Nodes, path: seq<NodeId>) {
    forall i | 0 <= i < |path| :: path[i] in nodes && nodes[path[i]].state == Active
  }

  lemma {:induction false} VisibleActive(nodes: Nodes, path: seq<NodeId>)
    requires AllActive(nodes, path)
    ensures Visible(nodes, path) == AllMessages(nodes, path)
  {
    if path != [] {
      VisibleActive(nodes, path[..|path| - 1]);
    }
  }

  /** On an all-active path with a shared prefix of length `s`, the candidates are the rest. */
  lemma {:induction false} CandidatesAreTail(nodes: Nodes, path: seq<NodeId>, shared: set<NodeId>, s: nat, k: nat)
    requires s <= k <= |path| && AllActive(nodes, path)
    requires forall i | 0 <= i < |path| :: i < s <==> nodes[path[i]].parent == "" || path[i] in shared
    ensures Candidates(nodes, path, shared, k) == path[s..k]
  {
    if k > s {
      CandidatesAreTail(nodes, path, shared, s, k - 1);
      assert path[s..k] == path[s..k - 1] + [path[k - 1]];
    } else if k > 0 {
      NoCandidates(nodes, path, shared, k);
    }
  }

  lemma {:induction false} NoCandidates(nodes: Nodes, path: seq<NodeId>, shared: set<NodeId>, k: nat)
    requires k <= |path| && AllActive(nodes, path)
    requires forall i | 0 <= i < k :: nodes[path[i]].parent == "" || path[i] in shared
    ensures Candidates(nodes, path, shared, k) == []
  {
    if k > 0 {
      NoCandidates(nodes, path, shared, k - 1);
    }
  }

  /** How long the prefix is that Compact leaves alone: the root and the spared nodes. */
  ghost function KeptPrefix(path: seq<NodeId>, spared: set<NodeId>, k: nat): (s: nat)
    requires k <= |path|
    ensures s <= k && (k > 0 ==> s > 0)
  {
    if k == 0 then 0
    else if k == 1 || path[k - 1] in spared then k
    else KeptPrefix(path, spared, k - 1)
  }

  lemma {:induction false} KeptPrefixSplits(path: seq<NodeId>, spared: set<NodeId>, k: nat)
    requires 0 < k <= |path|
    requires forall i, j | 0 <= i <= j < |path| && path[j] in spared :: path[i] in spared
    ensures forall i | 0 <= i < k :: i < KeptPrefix(path, spared, k) <==> i == 0 || path[i] in spared
  {
    if k > 1 {
      if path[k - 1] in spared {
        assert forall i | 0 <= i < k :: path[i] in spared;
      } else {
        KeptPrefixSplits(path, spared, k - 1);
      }
    } else {
      assert KeptPrefix(path, spared, k) == 1;
    }
  }

  lemma IndexInPath(path: seq<NodeId>, i: nat)
    requires Distinct(path) && i < |path|
    ensures path[i] in path && IndexIn(path, path[i]) == i
  {
    var k := IndexIn(path, path[i]);
  }

  /** On an all-active branch the candidates are what lies behind the kept prefix. */
  lemma ActiveCandidates(t: TreeView, b: BranchId, opts: CompactOpts)
    requires Inv(t) && b in t.branches && AllActive(t.nodes, PathOf(t.nodes, t.branches[b]))
    ensures var path := PathOf(t.nodes, t.branches[b]);
      && Distinct(path)
      && Candidates(t.nodes, path, Spared(t, b, opts), |path|) == path[KeptPrefix(path, Spared(t, b, opts), |path|)..]
  {
    var path, spared := PathOf(t.nodes, t.branches[b]), Spared(t, b, opts);
    PathSteps(t.nodes, t.branches[b]);
    forall i, j | 0 <= i <= j < |path| && path[j] in spared ensures path[i] in spared {
      SharedIsPrefix(t, b, i, j);
    }
    KeptPrefixSplits(path, spared, |path|);
    forall i | 0 <= i < |path| ensures i == 0 <==> t.nodes[path[i]].parent == "" {
      assert i > 0 ==> path[i - 1] in t.nodes;
    }
    CandidatesAreTail(t.nodes, path, spared, KeptPrefix(path, spared, |path|), |path|);
  }

  /** `after` is `before` with the messages `s` to `s + k` replaced by a summary of them. */
  ghost predicate Summarized(before: seq<Message>, after: seq<Message>, s: nat, k: nat, svc: Services) {
    && s + k <= |before| && svc.summarize(before[s..s + k]).Ok?
    && after == before[..s] + [SummaryMessage(svc.summarize(before[s..s + k]).value)] + before[s + k..]
  }

  lemma TailSlice(path: seq<NodeId>, s: nat, k: nat)
    requires s + k <= |path|
    ensures path[s..][..k] == path[s..s + k]
  {
  }

  /** The plan of an all-active branch, in terms of positions on the path. */
  lemma PlanOnActivePath(t: TreeView, b: BranchId, svc: Services, opts: CompactOpts, plan: Plan, s: nat, k: nat)
    requires Inv(t) && IsPlan(t, b, svc, opts, plan) && AllActive(t.nodes, plan.path)
    requires s == KeptPrefix(plan.path, Spared(t, b, opts), |plan.path|) && k == |plan.chosen|
    ensures s < |plan.path| && k == CompactCount(|plan.path| - s) && s + k <= |plan.path|
    ensures plan.chosen == plan.path[s..s + k]
  {
    ActiveCandidates(t, b, opts);
    TailSlice(plan.path, s, k);
  }

  lemma PlanPositions(plan: Plan, s: nat, k: nat)
    requires plan.Replace? && Distinct(plan.path) && k > 0 && s + k <= |plan.path|
    requires plan.chosen == plan.path[s..s + k]
    ensures plan.chosen[0] in plan.path && plan.chosen[k - 1] in plan.path
    ensures Before(plan) == plan.path[..s] && Behind(plan) == plan.path[s + k..]
  {
    IndexInPath(plan.path, s);
    IndexInPath(plan.path, s + k - 1);
  }

  /** `b'` reads as `b` did with `k` messages behind the first `s` replaced by a summary of them, is the
      active branch, and every older branch reads as before. */
  ghost predicate KeepsMeaning(t: TreeView, b: BranchId, t': TreeView, b': BranchId, s: nat, k: nat, svc: Services)
    requires Inv(t) && b in t.branches
  {
    && Inv(t') && b' in t'.branches && t'.active == b'
    && Summarized(FlattenBranch(t, b), FlattenBranch(t', b'), s, k, svc)
    && forall c {:trigger ReadsSame(t, t', c)} | c in t.branches :: ReadsSame(t, t', c)
  }

  ghost function Preserving(t: TreeView, b: BranchId, t': TreeView, b': BranchId, s: nat, k: nat, svc: Services)
    : Verdict
    requires Inv(t) && b in t.branches
  {
    if KeepsMeaning(t, b, t', b', s, k, svc) then Yes else No
  }

  ghost predicate ReadsSame(t: TreeView, t': TreeView, c: BranchId)
    requires Inv(t) && Inv(t') && c in t.branches
  {
    c in t'.branches && FlattenBranch(t', c) == FlattenBranch(t, c)
  }

  /** Compaction of an all-active branch preserves its meaning: of the `n` messages behind the kept
      prefix exactly the first max(1, n/2) are replaced by one summary of them, nothing else
      changes, and every older branch reads as before. */
  lemma CompactPreservesMeaning(t: TreeView, b: BranchId, svc: Services, opts: CompactOpts, ids: seq<NodeId>,
                                tag: string, t': TreeView, b': BranchId)
    returns (path: seq<NodeId>, s: nat, k: nat)
    requires Inv(t) && b in t.branches && AllActive(t.nodes, PathOf(t.nodes, t.branches[b]))
    requires FreshIds(t, ids) && |PathOf(t.nodes, t.branches[b])| < |ids| && CompactBranch(b, tag) !in t.branches
    requires Compact(t, b, svc, opts, ids, tag) == Ok((t', b')) && b' != b
    ensures path == PathOf(t.nodes, t.branches[b]) && s == KeptPrefix(path, Spared(t, b, opts), |path|) < |path|
    ensures k == CompactCount(|path| - s) && |FlattenBranch(t, b)| == |path|
    ensures KeepsMeaning(t, b, t', b', s, k, svc)
  {
    var plan := CompactRunsPlan(t, b, svc, opts, ids, tag, t', b');
    path, k := plan.path, |plan.chosen|;
    s := KeptPrefix(path, Spared(t, b, opts), |path|);
    CompactActive(t, b, svc, opts, ids, t', b', plan, s, k);
  }

  lemma CompactRunsPlan(t: TreeView, b: BranchId, svc: Services, opts: CompactOpts, ids: seq<NodeId>, tag: string,
                        t': TreeView, b': BranchId)
    returns (plan: Plan)
    requires Inv(t) && b in t.branches && |PathOf(t.nodes, t.branches[b])| < |ids|
    requires Compact(t, b, svc, opts, ids, tag) == Ok((t', b')) && b' != b
    ensures CompactPlan(t, b, svc, opts) == Ok(plan) && IsPlan(t, b, svc, opts, plan)
    ensures b' == CompactBranch(b, tag) && t' == ExecutePlan(t, plan, b', ids)
  {
    plan := CompactPlan(t, b, svc, opts).value;
    PlanIs(t, b, svc, opts, plan);
  }

  lemma CompactActive(t: TreeView, b: BranchId, svc: Services, opts: CompactOpts, ids: seq<NodeId>, t': TreeView,
                      b': BranchId, plan: Plan, s: nat, k: nat)
    requires Inv(t) && IsPlan(t, b, svc, opts, plan) && AllActive(t.nodes, plan.path)
    requires s == KeptPrefix(plan.path, Spared(t, b, opts), |plan.path|)
    requires FreshIds(t, ids) && |plan.path| < |ids| && b' !in t.branches
    requires t' == ExecutePlan(t, plan, b', ids) && k == |plan.chosen|
    ensures s < |plan.path| && k == CompactCount(|plan.path| - s) && |FlattenBranch(t, b)| == |plan.path|
    ensures Preserving(t, b, t', b', s, k, svc) == Yes
  {
    PlanIsGood(t, b, svc, opts, plan);
    PlanOnActivePath(t, b, svc, opts, plan, s, k);
    PathDistinct(t.nodes, t.branches[b]);
    PlanPositions(plan, s, k);
    CompactEffect(t, b, plan, ids, b');
    SummarizedByPlan(t.nodes, plan.path, s, k, plan.summary, svc);
    forall c | c in t.branches ensures ReadsSame(t, t', c) {
      KeptFlatten(t, t', t.branches[c]);
    }
  }

  lemma SummarizedByPlan(nodes: Nodes, path: seq<NodeId>, s: nat, k: nat, summary: string, svc: Services)
    requires AllActive(nodes, path) && s + k <= |path|
    requires svc.summarize(AllMessages(nodes, path[s..s + k])) == Ok(summary)
    ensures |Visible(nodes, path)| == |path|
    ensures Summarized(
      Visible(nodes, path), Visible(nodes, path[..s]) + [SummaryMessage(summary)] + AllMessages(nodes, path[s + k..]),
      s, k, svc)
  {
    VisibleActive(nodes, path);
    VisibleActive(nodes, path[..s]);
    var all := AllMessages(nodes, path);
    assert AllMessages(nodes, path[..s]) == all[..s];
    assert AllMessages(nodes, path[s..s + k]) == all[s..s + k];
    assert AllMessages(nodes, path[s + k..]) == all[s + k..];
  }

  // ---- when compaction loses or revives messages ----

  /** The nodes of `ids` that a faithful compaction would still show: neither archived nor chosen. */
  ghost function StillShown(nodes: Nodes, chosen: seq<NodeId>, ids: seq<NodeId>): seq<NodeId>
    requires AllIn(ids, nodes)
  {
    if ids == [] then []
    else
      var rest, n := StillShown(nodes, chosen, ids[..|ids| - 1]), ids[|ids| - 1];
      if nodes[n].state != Archived && n !in chosen then rest + [n] else rest
  }

  lemma {:induction false} StillShownFacts(nodes: Nodes, chosen: seq<NodeId>, ids: seq<NodeId>)
    requires AllIn(ids, nodes)
    ensures |StillShown(nodes, chosen, ids)| <= |ids|
    ensures forall n | n in StillShown(nodes, chosen, ids) :: n in ids && nodes[n].state != Archived && n !in chosen
    ensures forall n | n in ids && nodes[n].state != Archived && n !in chosen :: n in StillShown(nodes, chosen, ids)
    ensures |StillShown(nodes, chosen, ids)| == |ids| ==> StillShown(nodes, chosen, ids) == ids
    ensures (forall n | n in ids :: nodes[n].state != Archived && n !in chosen) ==>
      StillShown(nodes, chosen, ids) == ids
  {
    if ids != [] {
      var front, last := ids[..|ids| - 1], ids[|ids| - 1];
      assert ids == front + [last];
      StillShownFacts(nodes, chosen, front);
      assert last in ids && forall n | n in front :: n in ids;
    }
  }

  lemma {:induction false} StillShownConcat(nodes: Nodes, chosen: seq<NodeId>, a: seq<NodeId>, b: seq<NodeId>)
    requires AllIn(a, nodes) && AllIn(b, nodes)
    ensures StillShown(nodes, chosen, a + b) == StillShown(nodes, chosen, a) + StillShown(nodes, chosen, b)
  {
    if b == [] {
      assert a + b == a;
    } else {
      StillShownConcat(nodes, chosen, a, b[..|b| - 1]);
      assert (a + b)[..|a + b| - 1] == a + b[..|b| - 1];
    }
  }

  /** Between the first and the last chosen node, both included. */
  ghost function Middle(plan: Plan): seq<NodeId>
    requires plan.Replace? && |plan.chosen| > 0 && plan.chosen[0] in plan.path
    requires plan.chosen[|plan.chosen| - 1] in plan.path
    requires IndexIn(plan.path, plan.chosen[0]) <= IndexIn(plan.path, plan.chosen[|plan.chosen| - 1])
  {
    plan.path[IndexIn(plan.path, plan.chosen[0])..IndexIn(plan.path, plan.chosen[|plan.chosen| - 1]) + 1]
  }

  /** What is still shown is what lies behind exactly when nothing there is archived, and every node in
      the middle is chosen or archived. */
  lemma ShownIsBehindIff(nodes: Nodes, chosen: seq<NodeId>, middle: seq<NodeId>, behind: seq<NodeId>)
    requires AllIn(middle, nodes) && AllIn(behind, nodes)
    requires forall n | n in middle :: n !in behind
    requires forall n | n in chosen :: n in middle
    ensures StillShown(nodes, chosen, middle + behind) == behind
       <==> (forall n | n in behind :: nodes[n].state != Archived)
            && (forall n | n in middle :: n in chosen || nodes[n].state == Archived)
  {
    var shownMiddle, shownBehind := StillShown(nodes, chosen, middle), StillShown(nodes, chosen, behind);
    StillShownConcat(nodes, chosen, middle, behind);
    StillShownFacts(nodes, chosen, middle);
    StillShownFacts(nodes, chosen, behind);
    if shownMiddle != [] {
      var n := shownMiddle[0];
      assert n in shownMiddle && (shownMiddle + shownBehind)[0] == n;
      assert |behind| > 0 ==> behind[0] in behind;
    }
    if shownMiddle + shownBehind == behind {
      assert shownMiddle == [];
      assert shownBehind == behind;
    }
  }

  lemma SplitDisjoint(path: seq<NodeId>, i: nat, j: nat, middle: seq<NodeId>, behind: seq<NodeId>)
    requires Distinct(path) && i <= j < |path| && middle == path[i..j + 1] && behind == path[j + 1..]
    ensures path[i..] == middle + behind
    ensures forall n | n in middle :: n !in behind
    ensures forall k | i <= k <= j :: path[k] in middle
  {
    forall n | n in middle ensures n !in behind {
      var k :| 0 <= k < |middle| && middle[k] == n;
      assert path[i + k] == n;
    }
    forall k | i <= k <= j ensures path[k] in middle {
      assert middle[k - i] == path[k];
    }
  }

  lemma ChosenAscending(t: TreeView, b: BranchId, svc: Services, opts: CompactOpts, plan: Plan)
    requires Inv(t) && IsPlan(t, b, svc, opts, plan)
    ensures Ascending(t.nodes, plan.chosen)
  {
    PathSteps(t.nodes, t.branches[b]);
    CandidatesInOrder(t.nodes, plan.path, Spared(t, b, opts), |plan.path|);
  }

  /** Deeper nodes stand further down a path. */
  lemma IndexByDepth(nodes: Nodes, path: seq<NodeId>, m: NodeId, n: NodeId)
    requires Ascending(nodes, path) && m in path && n in path && nodes[m].depth <= nodes[n].depth
    ensures IndexIn(path, m) <= IndexIn(path, n)
  {
  }

  /** Every plan Compact makes splits its path so. */
  lemma PlanMiddle(t: TreeView, b: BranchId, svc: Services, opts: CompactOpts, plan: Plan)
    requires Inv(t) && IsPlan(t, b, svc, opts, plan)
    ensures IndexIn(plan.path, plan.chosen[0]) <= IndexIn(plan.path, plan.chosen[|plan.chosen| - 1])
    ensures plan.path[IndexIn(plan.path, plan.chosen[0])..] == Middle(plan) + Behind(plan)
    ensures forall n | n in Middle(plan) :: n !in Behind(plan)
    ensures forall n | n in plan.chosen :: n in Middle(plan)
  {
    ChosenAscending(t, b, svc, opts, plan);
    PathSteps(t.nodes, t.branches[b]);
    MiddleOf(t.nodes, plan);
  }

  lemma MiddleOf(nodes: Nodes, plan: Plan)
    requires plan.Replace? && |plan.chosen| > 0 && forall n | n in plan.chosen :: n in plan.path
    requires Ascending(nodes, plan.path) && Ascending(nodes, plan.chosen)
    ensures IndexIn(plan.path, plan.chosen[0]) <= IndexIn(plan.path, plan.chosen[|plan.chosen| - 1])
    ensures plan.path[IndexIn(plan.path, plan.chosen[0])..] == Middle(plan) + Behind(plan)
    ensures forall n | n in Middle(plan) :: n !in Behind(plan)
    ensures forall n | n in plan.chosen :: n in Middle(plan)
  {
    var path, first, last := plan.path, plan.chosen[0], plan.chosen[|plan.chosen| - 1];
    IndexByDepth(nodes, path, first, last);
    SplitDisjoint(path, IndexIn(path, first), IndexIn(path, last), Middle(plan), Behind(plan));
    forall m | 0 <= m < |plan.chosen| ensures plan.chosen[m] in Middle(plan) {
      var n := plan.chosen[m];
      IndexByDepth(nodes, path, first, n);
      IndexByDepth(nodes, path, n, last);
      assert path[IndexIn(path, n)] in Middle(plan);
    }
  }

  /** The clones of a complete graft, node by node. */
  lemma {:induction false} GraftedNode(t: TreeView, prev: NodeId, rest: seq<NodeId>, ids: seq<NodeId>, branch: BranchId,
                                       orig: Nodes, k: nat, i: nat)
    requires i < k <= |rest| <= |ids| && AllIn(rest, orig) && Distinct(ids)
    ensures ids[i] in Graft(t, prev, rest, ids, branch, orig, k).nodes
    ensures Graft(t, prev, rest, ids, branch, orig, k).nodes[ids[i]]
         == CloneView(orig[rest[i]], CloneParent(prev, ids, i), branch)
  {
    if i < k - 1 {
      GraftedNode(t, prev, rest, ids, branch, orig, k - 1, i);
    }
  }

  /** `clones` are active copies of `origs`: same messages, same depths. */
  ghost predicate Copies(nodes': Nodes, clones: seq<NodeId>, nodes: Nodes, origs: seq<NodeId>) {
    && |clones| == |origs|
    && forall i | 0 <= i < |origs| :: CopyAt(nodes', clones, nodes, origs, i)
  }

  ghost predicate CopyAt(nodes': Nodes, clones: seq<NodeId>, nodes: Nodes, origs: seq<NodeId>, i: nat)
    requires i < |clones| == |origs|
  {
    && clones[i] in nodes' && origs[i] in nodes && nodes'[clones[i]].state == Active
    && nodes'[clones[i]].message == nodes[origs[i]].message && nodes'[clones[i]].depth == nodes[origs[i]].depth
  }

  lemma ClonesCopyBehind(t: TreeView, b: BranchId, plan: Plan, branch: BranchId, ids: seq<NodeId>)
    requires GoodPlan(t, b, plan) && FreshIds(t, ids) && |plan.path| < |ids|
    ensures AllIn(Behind(plan), t.nodes)
    ensures Copies(ExecutePlan(t, plan, branch, ids).nodes, ids[1..][..|Behind(plan)|], t.nodes, Behind(plan))
  {
    var rest := Behind(plan);
    var t1 := AddNode(t, ids[0], SummaryView(t.nodes[plan.chosen[0]], plan.chosen, plan.summary, branch));
    BehindIsDeeper(t, b, plan);
    var nodes' := ExecutePlan(t, plan, branch, ids).nodes;
    forall i: nat | i < |rest| ensures CopyAt(nodes', ids[1..][..|rest|], t.nodes, rest, i) {
      GraftedNode(t1, ids[0], rest, ids[1..], branch, t.nodes, |rest|, i);
    }
  }

  /** On one path, copies are copies of one list of nodes only: depths tell the nodes apart. */
  lemma CopiesUnique(nodes': Nodes, clones: seq<NodeId>, nodes: Nodes, path: seq<NodeId>, a: seq<NodeId>,
                     b: seq<NodeId>)
    requires Ascending(nodes, path) && (forall n | n in a :: n in path) && (forall n | n in b :: n in path)
    requires Copies(nodes', clones, nodes, a) && Copies(nodes', clones, nodes, b)
    ensures a == b
  {
    forall i | 0 <= i < |a| ensures a[i] == b[i] {
      assert CopyAt(nodes', clones, nodes, a, i) && CopyAt(nodes', clones, nodes, b, i);
      assert a[i] in path && b[i] in path;
    }
  }

  /** No node behind the last chosen one is archived (its clone would be shown again), and every node
      between the first and the last that was not chosen is archived (it is dropped). */
  ghost predicate Clean(nodes: Nodes, plan: Plan)
    requires plan.Replace? && |plan.chosen| > 0 && plan.chosen[0] in plan.path
    requires plan.chosen[|plan.chosen| - 1] in plan.path
    requires IndexIn(plan.path, plan.chosen[0]) <= IndexIn(plan.path, plan.chosen[|plan.chosen| - 1])
    requires AllIn(plan.path, nodes)
  {
    && (forall n | n in Behind(plan) :: nodes[n].state != Archived)
    && (forall n | n in Middle(plan) :: n in plan.chosen || nodes[n].state == Archived)
  }

  /** The nodes from the first chosen one on that a reader should still see. */
  ghost function Due(nodes: Nodes, plan: Plan): seq<NodeId>
    requires plan.Replace? && |plan.chosen| > 0 && plan.chosen[0] in plan.path && AllIn(plan.path, nodes)
  {
    StillShown(nodes, plan.chosen, plan.path[IndexIn(plan.path, plan.chosen[0])..])
  }

  lemma DueIsBehindIff(t: TreeView, b: BranchId, svc: Services, opts: CompactOpts, plan: Plan)
    requires Inv(t) && IsPlan(t, b, svc, opts, plan)
    ensures IndexIn(plan.path, plan.chosen[0]) <= IndexIn(plan.path, plan.chosen[|plan.chosen| - 1])
    ensures AllIn(plan.path, t.nodes) && (Due(t.nodes, plan) == Behind(plan) <==> Clean(t.nodes, plan))
  {
    ChosenAscending(t, b, svc, opts, plan);
    PathSteps(t.nodes, t.branches[b]);
    CleanIff(t.nodes, plan);
  }

  lemma CleanIff(nodes: Nodes, plan: Plan)
    requires plan.Replace? && |plan.chosen| > 0 && (forall n | n in plan.chosen :: n in plan.path)
    requires AllIn(plan.path, nodes) && Ascending(nodes, plan.path) && Ascending(nodes, plan.chosen)
    ensures IndexIn(plan.path, plan.chosen[0]) <= IndexIn(plan.path, plan.chosen[|plan.chosen| - 1])
    ensures Due(nodes, plan) == Behind(plan) <==> Clean(nodes, plan)
  {
    MiddleOf(nodes, plan);
    assert AllIn(Middle(plan), nodes) && AllIn(Behind(plan), nodes);
    DueIffClean(nodes, plan);
  }

  lemma DueIffClean(nodes: Nodes, plan: Plan)
    requires plan.Replace? && |plan.chosen| > 0 && plan.chosen[0] in plan.path
    requires plan.chosen[|plan.chosen| - 1] in plan.path && AllIn(plan.path, nodes)
    requires IndexIn(plan.path, plan.chosen[0]) <= IndexIn(plan.path, plan.chosen[|plan.chosen| - 1])
    requires plan.path[IndexIn(plan.path, plan.chosen[0])..] == Middle(plan) + Behind(plan)
    requires AllIn(Middle(plan), nodes) && AllIn(Behind(plan), nodes)
    requires forall n | n in Middle(plan) :: n !in Behind(plan)
    requires forall n | n in plan.chosen :: n in Middle(plan)
    ensures Due(nodes, plan) == Behind(plan) <==> Clean(nodes, plan)
  {
    ShownIsBehindIff(nodes, plan.chosen, Middle(plan), Behind(plan));
  }

  lemma DueOnPath(t: TreeView, plan: Plan)
    requires plan.Replace? && |plan.chosen| > 0 && plan.chosen[0] in plan.path && AllIn(plan.path, t.nodes)
    ensures forall n | n in Due(t.nodes, plan) :: n in plan.path
  {
    StillShownFacts(t.nodes, plan.chosen, plan.path[IndexIn(plan.path, plan.chosen[0])..]);
  }

  /** The new branch: its path holds what precedes the first chosen node, the summary, and clones of
      what lies behind the last; and it reads accordingly. */
  ghost predicate Replaced(t: TreeView, t': TreeView, b': BranchId, plan: Plan, summaryId: NodeId, clones: seq<NodeId>)
    requires plan.Replace? && |plan.chosen| > 0 && plan.chosen[0] in plan.path
    requires plan.chosen[|plan.chosen| - 1] in plan.path && AllIn(plan.path, t.nodes)
  {
    && Inv(t') && b' in t'.branches && PathOf(t'.nodes, t'.branches[b']) == Before(plan) + [summaryId] + clones
    && Copies(t'.nodes, clones, t.nodes, Behind(plan))
    && FlattenBranch(t', b')
       == Visible(t.nodes, Before(plan)) + [SummaryMessage(plan.summary)] + AllMessages(t.nodes, Behind(plan))
  }

  lemma ExecuteReplaces(t: TreeView, b: BranchId, plan: Plan, b': BranchId, ids: seq<NodeId>)
    requires GoodPlan(t, b, plan) && AllIn(plan.path, t.nodes) && FreshIds(t, ids) && |plan.path| < |ids|
    ensures Replaced(t, ExecutePlan(t, plan, b', ids), b', plan, ids[0], ids[1..][..|Behind(plan)|])
  {
    CompactEffect(t, b, plan, ids, b');
    HeadOnward(Before(plan), ids, |Behind(plan)|);
    ClonesCopyBehind(t, b, plan, b', ids);
  }

  /** Whatever Compact does to any branch, the clones on the new one are copies of what a reader should
      still see if and only if the old path was clean. */
  lemma CompactFaithfulIff(t: TreeView, b: BranchId, svc: Services, opts: CompactOpts, ids: seq<NodeId>, tag: string,
                           t': TreeView, b': BranchId)
    returns (plan: Plan, clones: seq<NodeId>)
    requires Inv(t) && b in t.branches && |PathOf(t.nodes, t.branches[b])| < |ids| && FreshIds(t, ids)
    requires Compact(t, b, svc, opts, ids, tag) == Ok((t', b')) && b' != b
    ensures CompactPlan(t, b, svc, opts) == Ok(plan) && IsPlan(t, b, svc, opts, plan)
    ensures IndexIn(plan.path, plan.chosen[0]) <= IndexIn(plan.path, plan.chosen[|plan.chosen| - 1])
    ensures AllIn(plan.path, t.nodes) && Replaced(t, t', b', plan, ids[0], clones)
    ensures Copies(t'.nodes, clones, t.nodes, Due(t.nodes, plan)) <==> Clean(t.nodes, plan)
  {
    plan := CompactRunsPlan(t, b, svc, opts, ids, tag, t', b');
    PlanIsGood(t, b, svc, opts, plan);
    clones := ids[1..][..|Behind(plan)|];
    ClonesDue(t, b, svc, opts, plan, b', ids);
    ExecuteReplaces(t, b, plan, b', ids);
  }

  lemma ClonesDue(t: TreeView, b: BranchId, svc: Services, opts: CompactOpts, plan: Plan, b': BranchId,
                  ids: seq<NodeId>)
    requires Inv(t) && IsPlan(t, b, svc, opts, plan) && GoodPlan(t, b, plan) && FreshIds(t, ids) && |plan.path| < |ids|
    ensures IndexIn(plan.path, plan.chosen[0]) <= IndexIn(plan.path, plan.chosen[|plan.chosen| - 1])
    ensures AllIn(plan.path, t.nodes)
    ensures Copies(ExecutePlan(t, plan, b', ids).nodes, ids[1..][..|Behind(plan)|], t.nodes, Due(t.nodes, plan))
       <==> Clean(t.nodes, plan)
  {
    var nodes', clones := ExecutePlan(t, plan, b', ids).nodes, ids[1..][..|Behind(plan)|];
    DueIsBehindIff(t, b, svc, opts, plan);
    ClonesCopyBehind(t, b, plan, b', ids);
    DueOnPath(t, plan);
    PathSteps(t.nodes, t.branches[b]);
    if Copies(nodes', clones, t.nodes, Due(t.nodes, plan)) {
      CopiesUnique(nodes', clones, t.nodes, plan.path, Due(t.nodes, plan), Behind(plan));
    }
  }
}
