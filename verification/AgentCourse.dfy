/** The course of a run of the agent's loop, as a function of histories (agent/agent.go): what each turn
    asks, compacts and appends, and why the run ends.  And what every turn keeps. */
module AgentCourse {
  import opened Verdicts
  import opened Messages
  import opened TreeModel
  import TreeOps
  import opened TreeRuns
  import opened Compactors
  import opened AgentConfig
  import opened Aggregators
  import opened ToolExec
  import opened AgentHistory
  import opened AgentAnswers

  datatype Reply = Failed | Stream(deltas: seq<Delta>)

  /** What surrounds a run: the provider's reply to the n-th request, its summaries in the n-th turn, and
      the consumer's decision about the i-th call of the n-th reply. */
  datatype World = World(
    reg: Registry,
    provider: (nat, seq<Message>) -> Reply,
    summaries: nat -> Summarizer,
    decide: Decisions,
    oracle: Oracle)

  // ---- the course ----

  /** Where a run stands before a turn: the branch it works on and how that branch reads, why its tip
      takes no children, if so, whether the name "compact" is in use, the active branch, what the
      provider has been asked, the identifiers drawn, the turns made, and why it has ended, if so. */
  datatype Progress = Progress(
    branch: BranchId,
    history: seq<Message>,
    refusal: Option<TreeOps.TreeError>,
    taken: bool,
    active: BranchId,
    asked: seq<seq<Message>>,
    ids: nat,
    turn: nat,
    end: Option<Reason>)

  /** What a compaction makes of the history, when that is shorter; or nothing. */
  function ToPersist(rc: Resolved, llm: seq<Message>, summarize: Summarizer): seq<Message> {
    if rc.compactor.None? || !CanCompact(rc.compactor.value, llm) then []
    else
      var compacted := Compactors.Compacted(rc.compactor.value, llm, summarize);
      if |compacted| < |llm| then compacted else []
  }

  function CompactedName(taken: bool, tag: string): BranchId {
    if taken then "compact" + "-" + tag else "compact"
  }

  /** Asking the provider, and what its reply leads to. */
  ghost function Answering(w: World, journal: Journal, s: Progress, llm: seq<Message>): Progress {
    var reply := w.provider(|s.asked|, llm);
    var s1 := s.(asked := s.asked + [llm]);
    if reply.Failed? then s1.(end := Some(ProviderFailed))
    else
      var r := ResponseOf(w.reg, w.decide, |s.asked|, reply.deltas, journal, w.oracle, s.refusal, s.ids);
      s1.(history := s.history + r.appended, ids := r.drawn, end := r.end)
  }

  /** The point a run is at after a turn has tried to compact and not done so. */
  ghost function AfterTrying(s: Progress, tally: Tally): Progress {
    s.(ids := tally.drawn, turn := s.turn + 1, taken := s.taken || tally.n > 0)
  }

  /** A turn behind the cap: the compacted history on a new branch, if there is one and all of it can be
      written; or else an answer to the whole history. */
  ghost function Working(root: Message, w: World, journal: Journal, s: Progress, llm: seq<Message>,
                         compacted: seq<Message>)
    : Progress
  {
    var tally := TallyOf(journal, w.oracle, s.ids, Rest(compacted), None);
    var s1 := AfterTrying(s, tally);
    var b := CompactedName(s.taken, w.oracle.newTag(s.turn));
    if 0 < tally.n == Rest(compacted)
    then s1.(branch := b, active := b, history := [root] + compacted[1..], refusal := None)
    else Answering(w, journal, s1, llm)
  }

  ghost function NextTurn(root: Message, opts: AgentOpts, w: World, journal: Journal, s: Progress): Progress {
    var rc, llm := ConfigOf(opts, s.history), Strip(s.history);
    if s.turn >= rc.maxIter then s.(end := Some(CapReached))
    else Working(root, w, journal, s, llm, ToPersist(rc, llm, w.summaries(s.turn)))
  }

  /** At most `k` turns from `s` on. */
  ghost function Course(root: Message, opts: AgentOpts, w: World, journal: Journal, s: Progress, k: nat): Progress
    decreases k
  {
    if k == 0 || s.end.Some? then s
    else Course(root, opts, w, journal, NextTurn(root, opts, w, journal, s), k - 1)
  }

  /** The start: the input appended, as far as it can be. */
  ghost function Begin(t: TreeView, b: BranchId, input: seq<Message>, w: World, journal: Journal): Progress
    requires History(t, b).Some?
  {
    var tally := TallyOf(journal, w.oracle, 0, |input|, TipRefusal(t, b));
    Progress(b, History(t, b).value + input[..tally.n], TipRefusal(t, b), "compact" in t.branches, t.active, [],
             tally.drawn, 0, if tally.n < |input| then Some(AppendFailed) else None)
  }

  // ---- what a run keeps ----

  /** A compaction that made the history shorter, but not too short to branch. */
  ghost predicate Shrunk(rc: Resolved, llm: seq<Message>, summarize: Summarizer, compacted: seq<Message>) {
    && rc.compactor.Some? && CanCompact(rc.compactor.value, llm)
      && compacted == Compactors.Compacted(rc.compactor.value, llm, summarize)
    && 2 <= |compacted| < |llm|
  }

  /** Whether, since `t0`, the branch `b0` has only been appended to, and all other branches kept. */
  ghost function OnlyGrown(t0: TreeView, t: TreeView, b0: BranchId): Verdict {
    if && Owns(t0, b0) && KeepsOthers(t0, t, b0) && b0 in t.branches
       && FlattenBranch(t0, b0) <= FlattenBranch(t, b0)
    then Yes else No
  }

  lemma GrownByAppending(t0: TreeView, t: TreeView, t': TreeView, b0: BranchId, b: BranchId)
    requires OnlyGrown(t0, t, b0) == Yes && Growth(t, t', b).Some? && (b == b0 || b !in t0.branches)
    ensures OnlyGrown(t0, t', b0) == Yes
  {
    if b == b0 {
      KeepsTransitive(t0, t, t', b0, b);
    } else {
      assert SameBranch(t, t', b0);
      KeepsTransitive(t0, t, t', b0, b);
    }
  }

  lemma GrownByKeeping(t0: TreeView, t: TreeView, t': TreeView, b0: BranchId)
    requires OnlyGrown(t0, t, b0) == Yes && OldBranches(t, t') == Yes
    ensures OnlyGrown(t0, t', b0) == Yes
  {
    assert KeepsOthers(t, t', b0);
    assert SameBranch(t, t', b0);
    KeepsTransitive(t0, t, t', b0, b0);
  }

  /** Compactors that never part tool results from their calls. */
  predicate KeepsPairs(rc: Resolved) {
    rc.compactor.Some? ==> !rc.compactor.value.Summarizing?
  }

  /** Compactors that do not panic. */
  predicate Usable(rc: Resolved) {
    rc.compactor.Some? ==>
      match rc.compactor.value
      case Noop => true
      case Sliding(n) => n >= 0
      case Summarizing(threshold, _) => threshold >= 0
  }

  /** What a run starts from: the tree, the branch, the configuration of the history with the input,
      and whether tool calls and results are paired. */
  datatype Origin = Origin(t0: TreeView, b0: BranchId, opts: AgentOpts, c0: Resolved, paired: bool)

  /** The configuration after a compaction: that of the root. */
  ghost function RootConfig(og: Origin): Resolved {
    ConfigOf(og.opts, [RootMessage(og.t0)])
  }

  ghost predicate OriginOk(og: Origin) {
    && Owns(og.t0, og.b0) && Usable(og.c0) && Usable(RootConfig(og))
    && (og.paired ==> KeepsPairs(og.c0) && KeepsPairs(RootConfig(og)))
  }

  /** Whether the run is in order at `t`, working on the branch `b`. */
  ghost function Standing(og: Origin, t: TreeView, b: BranchId): Verdict {
    if && OriginOk(og) && Owns(t, b) && OnlyGrown(og.t0, t, og.b0) == Yes && (b == og.b0 || b !in og.t0.branches)
       && (ConfigOf(og.opts, FlattenBranch(t, b)) == og.c0 || ConfigOf(og.opts, FlattenBranch(t, b)) == RootConfig(og))
       && (og.paired ==> Paired(FlattenBranch(t, b)))
    then Yes else No
  }

  lemma StandingAfterGrowth(og: Origin, t: TreeView, t': TreeView, b: BranchId, x: seq<Message>)
    requires Standing(og, t, b) == Yes && Growth(t, t', b) == Some(x) && Fits(FlattenBranch(t, b), x)
    ensures Standing(og, t', b) == Yes
  {
    GrownByAppending(og.t0, t, t', og.b0, b);
    GrowthReads(t, t', b);
    PlainBehind(og.opts, FlattenBranch(t, b), x);
  }

  lemma StandingAfterKeeping(og: Origin, t: TreeView, t': TreeView, b: BranchId)
    requires Standing(og, t, b) == Yes && OldBranches(t, t') == Yes
    ensures Standing(og, t', b) == Yes && FlattenBranch(t', b) == FlattenBranch(t, b)
    ensures TipRefusal(t', b) == TipRefusal(t, b)
  {
    GrownByKeeping(og.t0, t, t', og.b0);
    assert SameBranch(t, t', b);
  }

  lemma RootStays(og: Origin, t: TreeView, b: BranchId)
    requires Standing(og, t, b) == Yes
    ensures Inv(t) && RootMessage(t) == RootMessage(og.t0)
    ensures FlattenBranch(t, b) != [] && FlattenBranch(t, b)[0] == RootMessage(og.t0)
  {
    StartsAtRoot(t, b);
  }

  /** The history of the new branch is in order, whatever the root says. */
  lemma CompactedFits(opts: AgentOpts, h: seq<Message>, rc: Resolved, summarize: Summarizer, compacted: seq<Message>)
    requires h != [] && Shrunk(rc, Strip(h), summarize, compacted)
    ensures ConfigOf(opts, [h[0]] + compacted[1..]) == ConfigOf(opts, [h[0]])
    ensures Paired(h) && KeepsPairs(rc) ==> Paired([h[0]] + compacted[1..])
  {
    NextIterationSeesIff(opts, h, rc.compactor.value, summarize, compacted);
    if Paired(h) && KeepsPairs(rc) {
      StripKeepsPairing(h);
      assert PairedAt(h, 0);
      WindowBehind(Strip(h), rc.compactor.value.windowSize, h[0]);
    }
  }

  lemma StandingAfterCompaction(og: Origin, t: TreeView, t': TreeView, b: BranchId, b': BranchId, rc: Resolved,
                                summarize: Summarizer, compacted: seq<Message>)
    requires Standing(og, t, b) == Yes && rc == ConfigOf(og.opts, FlattenBranch(t, b))
    requires Shrunk(rc, Strip(FlattenBranch(t, b)), summarize, compacted)
    requires NewBranch(t, t', b') == Some(compacted[1..])
    ensures Standing(og, t', b') == Yes
  {
    RootStays(og, t, b);
    NewBranchKeeps(t, t', b');
    GrownByKeeping(og.t0, t, t', og.b0);
    NewBranchReads(t, t', b');
    CompactedFits(og.opts, FlattenBranch(t, b), rc, summarize, compacted);
    NewToOrigin(og, t, b');
  }

  lemma NewToOrigin(og: Origin, t: TreeView, b': BranchId)
    requires OnlyGrown(og.t0, t, og.b0) == Yes && b' !in t.branches
    ensures b' !in og.t0.branches
  {
    forall c | c in og.t0.branches ensures c in t.branches {
      if c != og.b0 {
        assert SameBranch(og.t0, t, c);
      }
    }
  }

  function Max(a: int, b: int): int {
    if a < b then b else a
  }

  /** The iteration cap that can be in force. */
  ghost function Cap(og: Origin): nat {
    Max(0, Max(og.c0.maxIter, RootConfig(og).maxIter))
  }

  /** With configuration in the root only, the cap is the iteration limit that was configured. */
  lemma CapIsMaxIter(og: Origin, input: seq<Message>)
    requires OriginOk(og) && og.c0 == ConfigOf(og.opts, FlattenBranch(og.t0, og.b0) + input)
    requires FlattenBranch(og.t0, og.b0) != [] ==> NoneConfigures(FlattenBranch(og.t0, og.b0)[1..] + input)
    ensures Cap(og) == Max(0, og.c0.maxIter)
  {
    var h := FlattenBranch(og.t0, og.b0);
    StartsAtRoot(og.t0, og.b0);
    NoConfigBehind(og.opts, [h[0]], h[1..] + input);
    assert [h[0]] + (h[1..] + input) == h + input;
    assert RootConfig(og) == og.c0;
  }

  // ---- tree and course ----

  /** Whether the run is in order at `t` and the tree is where the course says. */
  ghost function Tracks(og: Origin, t: TreeView, o: Oracle, s: Progress): Verdict {
    if && Standing(og, t, s.branch) == Yes && NamesFree(t, o, s.ids, s.turn) == Yes
       && FlattenBranch(t, s.branch) == s.history && TipRefusal(t, s.branch) == s.refusal
       && ("compact" in t.branches <==> s.taken) && t.active == s.active
    then Yes else No
  }

  lemma TrackGrowth(og: Origin, t: TreeView, t': TreeView, o: Oracle, s: Progress, x: seq<Message>, drawn: nat,
                    s': Progress)
    requires Tracks(og, t, o, s) == Yes && Growth(t, t', s.branch) == Some(x) && Fits(s.history, x)
    requires NamesFree(t', o, drawn, s.turn) == Yes
    requires s'.history == s.history + x && s'.ids == drawn && s'.turn == s.turn
    requires s'.branch == s.branch && s'.refusal == s.refusal && s'.taken == s.taken && s'.active == s.active
    ensures Tracks(og, t', o, s') == Yes
  {
    StandingAfterGrowth(og, t, t', s.branch, x);
    GrowthReads(t, t', s.branch);
    SameTip(t, t', s.branch);
  }

  lemma CompactNameIs(t: TreeView, o: Oracle, tags: nat, taken: bool)
    requires "compact" in t.branches <==> taken
    ensures CompactName(t, o, tags) == CompactedName(taken, o.newTag(tags))
  {
  }

  lemma TrackKeeping(og: Origin, t: TreeView, t': TreeView, o: Oracle, s: Progress, compacted: seq<Message>,
                     tally: Tally, b: BranchId)
    requires Tracks(og, t, o, s) == Yes && Persisting(t, t', compacted, tally.n, b) == Yes
    requires NamesFree(t', o, tally.drawn, s.turn + 1) == Yes
    requires b == CompactName(t, o, s.turn) && !(0 < tally.n == Rest(compacted))
    ensures Tracks(og, t', o, AfterTrying(s, tally)) == Yes
  {
    PersistingKeeps(t, t', compacted, tally.n, b);
    StandingAfterKeeping(og, t, t', s.branch);
    CompactIsTaken(t, o, s.turn);
  }

  /** After a compaction the name "compact" is in use. */
  lemma CompactIsTaken(t: TreeView, o: Oracle, tags: nat)
    ensures "compact" in t.branches.Keys + {CompactName(t, o, tags)}
    ensures CompactName(t, o, tags) != "compact" ==> "compact" in t.branches
  {
  }

  lemma ToPersistIsShrunk(rc: Resolved, llm: seq<Message>, summarize: Summarizer)
    requires Rest(ToPersist(rc, llm, summarize)) > 0
    ensures Shrunk(rc, llm, summarize, ToPersist(rc, llm, summarize))
  {
  }

  lemma CompactionStands(og: Origin, t: TreeView, t': TreeView, w: World, s: Progress, compacted: seq<Message>, n: nat,
                         b: BranchId)
    requires Tracks(og, t, w.oracle, s) == Yes && Persisting(t, t', compacted, n, b) == Yes
      && 0 < n == Rest(compacted)
    requires compacted == ToPersist(ConfigOf(og.opts, s.history), Strip(s.history), w.summaries(s.turn))
    ensures Inv(t) && RootMessage(t) == RootMessage(og.t0) && t'.branches.Keys == t.branches.Keys + {b}
      && t'.active == b
    ensures Standing(og, t', b) == Yes && NewBranch(t, t', b) == Some(compacted[1..])
  {
    PersistingKeeps(t, t', compacted, n, b);
    RootStays(og, t, s.branch);
    ToPersistIsShrunk(ConfigOf(og.opts, s.history), Strip(s.history), w.summaries(s.turn));
    StandingAfterCompaction(og, t, t', s.branch, b, ConfigOf(og.opts, s.history), w.summaries(s.turn), compacted);
  }

  lemma TrackCompaction(og: Origin, t: TreeView, t': TreeView, w: World, s: Progress, compacted: seq<Message>,
                        tally: Tally, b: BranchId, s': Progress)
    requires Tracks(og, t, w.oracle, s) == Yes && Persisting(t, t', compacted, tally.n, b) == Yes
    requires compacted == ToPersist(ConfigOf(og.opts, s.history), Strip(s.history), w.summaries(s.turn))
    requires NamesFree(t', w.oracle, tally.drawn, s.turn + 1) == Yes
    requires b == CompactName(t, w.oracle, s.turn) && 0 < tally.n == Rest(compacted)
    requires s' == AfterTrying(s, tally).(branch := b, active := b, refusal := None,
                                          history := [RootMessage(og.t0)] + compacted[1..])
    ensures Tracks(og, t', w.oracle, s') == Yes
  {
    CompactionStands(og, t, t', w, s, compacted, tally.n, b);
    NewBranchReads(t, t', b);
    CompactIsTaken(t, w.oracle, s.turn);
  }

  /** A turn after it has tried to compact: it has reached the end of the turn, or is to answer. */
  lemma Tried(og: Origin, t: TreeView, t': TreeView, w: World, journal: Journal, s: Progress, llm: seq<Message>,
              compacted: seq<Message>, n: nat, drawn: nat, nb: Option<BranchId>)
    returns (s1: Progress)
    requires Tracks(og, t, w.oracle, s) == Yes && s.end == None
    requires compacted == ToPersist(ConfigOf(og.opts, s.history), Strip(s.history), w.summaries(s.turn))
    requires Tally(n, drawn) == TallyOf(journal, w.oracle, s.ids, Rest(compacted), None)
    requires nb == WhenComplete(n, Rest(compacted), CompactName(t, w.oracle, s.turn))
    requires Persisting(t, t', compacted, n, CompactName(t, w.oracle, s.turn)) == Yes
    requires NamesFree(t', w.oracle, drawn, s.turn + 1) == Yes
    ensures Tracks(og, t', w.oracle, s1) == Yes
    ensures s1.end == None && s1.ids == drawn && s1.turn == s.turn + 1 && s1.asked == s.asked
    ensures Working(RootMessage(og.t0), w, journal, s, llm, compacted)
       == if nb.Some? then s1 else Answering(w, journal, s1, llm)
    ensures s1.branch == if nb.Some? then nb.value else s.branch
  {
    var b := CompactName(t, w.oracle, s.turn);
    CompactNameIs(t, w.oracle, s.turn, s.taken);
    if nb.Some? {
      s1 := Working(RootMessage(og.t0), w, journal, s, llm, compacted);
      TrackCompaction(og, t, t', w, s, compacted, Tally(n, drawn), b, s1);
    } else {
      s1 := AfterTrying(s, Tally(n, drawn));
      TrackKeeping(og, t, t', w.oracle, s, compacted, Tally(n, drawn), b);
    }
  }

  /** Whether every request keeps tool calls and results together, if the history did. */
  ghost function Requests(og: Origin, asked: seq<seq<Message>>): Verdict {
    if og.paired ==> forall i | 0 <= i < |asked| :: Paired(asked[i]) then Yes else No
  }

  lemma TrackHistory(og: Origin, t: TreeView, o: Oracle, s: Progress)
    requires Tracks(og, t, o, s) == Yes
    ensures History(t, s.branch) == Some(s.history) && TipRefusal(t, s.branch) == s.refusal
    ensures NamesFree(t, o, s.ids, s.turn) == Yes && Inv(t)
    ensures ConfigOf(og.opts, s.history).maxIter <= Cap(og)
    ensures ConfigOf(og.opts, s.history).compactor.Some? ==>
      CanCompact(ConfigOf(og.opts, s.history).compactor.value, Strip(s.history))
  {
  }

  /** What a turn adds to the requests. */
  lemma NextAsks(root: Message, opts: AgentOpts, w: World, journal: Journal, s: Progress)
    requires s.end == None
    ensures var s' := NextTurn(root, opts, w, journal, s);
      if s.turn >= ConfigOf(opts, s.history).maxIter then s'.end == Some(CapReached) && s'.asked == s.asked
      else s'.turn == s.turn + 1 && (s'.asked == s.asked || s'.asked == s.asked + [Strip(s.history)])
  {
  }

  lemma AskedInOrder(og: Origin, t: TreeView, o: Oracle, s: Progress)
    requires Tracks(og, t, o, s) == Yes && Requests(og, s.asked) == Yes
    ensures Requests(og, s.asked + [Strip(s.history)]) == Yes
  {
    if og.paired {
      StripKeepsPairing(s.history);
    }
  }

  /** Whether the run is within the cap, and its requests in order. */
  ghost function Within(og: Origin, s: Progress): Verdict {
    if && |s.asked| <= Cap(og) && Requests(og, s.asked) == Yes
       && (s.end == None ==> s.turn <= Cap(og) && |s.asked| <= s.turn)
    then Yes else No
  }

  lemma WithinNext(og: Origin, s: Progress, s': Progress, llm: seq<Message>)
    requires Within(og, s) == Yes && s.end == None && Requests(og, s.asked + [llm]) == Yes
    requires || (s'.end == Some(CapReached) && s'.asked == s.asked)
             || (s.turn < Cap(og) && s'.turn == s.turn + 1 && (s'.asked == s.asked || s'.asked == s.asked + [llm]))
    ensures Within(og, s') == Yes && (s'.end == None ==> s'.turn == s.turn + 1 <= Cap(og))
  {
  }

  /** Whether `s` is on the course from `s0`. */
  ghost function OnCourse(og: Origin, w: World, journal: Journal, s0: Progress, s: Progress): Verdict {
    if Course(RootMessage(og.t0), og.opts, w, journal, s0, Cap(og) + 1)
       == (if s.end == None && s.turn <= Cap(og)
           then Course(RootMessage(og.t0), og.opts, w, journal, s, Cap(og) + 1 - s.turn) else s)
    then Yes else No
  }

  lemma CourseBegins(og: Origin, w: World, journal: Journal, s0: Progress)
    requires s0.end == None && s0.turn == 0 && s0.asked == []
    ensures OnCourse(og, w, journal, s0, s0) == Yes && Within(og, s0) == Yes
  {
  }

  lemma CourseStep(root: Message, opts: AgentOpts, w: World, journal: Journal, s: Progress, k: nat)
    requires s.end == None && k > 0
    ensures var s' := NextTurn(root, opts, w, journal, s);
      Course(root, opts, w, journal, s, k) == if s'.end == None then Course(root, opts, w, journal, s', k - 1) else s'
  {
  }

  lemma OnCourseNext(og: Origin, w: World, journal: Journal, s0: Progress, s: Progress, s': Progress)
    requires s.end == None && OnCourse(og, w, journal, s0, s) == Yes && s.turn <= Cap(og)
    requires s' == NextTurn(RootMessage(og.t0), og.opts, w, journal, s)
      && (s'.end == None ==> s'.turn == s.turn + 1 <= Cap(og))
    ensures OnCourse(og, w, journal, s0, s') == Yes
  {
    CourseStep(RootMessage(og.t0), og.opts, w, journal, s, Cap(og) + 1 - s.turn);
  }

  lemma CourseGoesOn(og: Origin, t: TreeView, w: World, journal: Journal, s0: Progress, s: Progress, s': Progress)
    requires Tracks(og, t, w.oracle, s) == Yes && s.end == None
    requires OnCourse(og, w, journal, s0, s) == Yes && Within(og, s) == Yes
    requires s' == NextTurn(RootMessage(og.t0), og.opts, w, journal, s)
    ensures OnCourse(og, w, journal, s0, s') == Yes && Within(og, s') == Yes
    ensures s'.end == None ==> s'.turn == s.turn + 1 <= Cap(og)
  {
    TrackHistory(og, t, w.oracle, s);
    AskedInOrder(og, t, w.oracle, s);
    NextAsks(RootMessage(og.t0), og.opts, w, journal, s);
    WithinNext(og, s, s', Strip(s.history));
    OnCourseNext(og, w, journal, s0, s, s');
  }

  lemma InputAppended(og: Origin, t: TreeView, input: seq<Message>, n: nat)
    requires OriginOk(og) && n <= |input| && Growth(og.t0, t, og.b0) == Some(input[..n])
    requires og.c0 == ConfigOf(og.opts, FlattenBranch(og.t0, og.b0) + input)
    requires og.paired ==> Paired(FlattenBranch(og.t0, og.b0) + input)
    ensures OnlyGrown(og.t0, t, og.b0) == Yes && History(t, og.b0).Some?
    ensures og.paired ==> Paired(History(t, og.b0).value)
    ensures n == |input| ==> Standing(og, t, og.b0) == Yes
  {
    var h := FlattenBranch(og.t0, og.b0);
    GrowthReads(og.t0, t, og.b0);
    if og.paired {
      PairedInput(h, input, n);
    }
    assert n == |input| ==> input[..n] == input;
  }

  lemma PairedInput(h: seq<Message>, input: seq<Message>, n: nat)
    requires n <= |input| && Paired(h + input)
    ensures Paired(h + input[..n])
  {
    assert (h + input)[..|h| + n] == h + input[..n];
    PairedFront(h + input, |h| + n);
  }

  /** When all of the input is appended, the run stands where its course begins. */
  lemma BeginTracks(og: Origin, t: TreeView, input: seq<Message>, w: World, journal: Journal, n: nat, drawn: nat)
    requires OriginOk(og) && n == |input| && Growth(og.t0, t, og.b0) == Some(input[..n])
    requires og.c0 == ConfigOf(og.opts, FlattenBranch(og.t0, og.b0) + input)
    requires og.paired ==> Paired(FlattenBranch(og.t0, og.b0) + input)
    requires Tally(n, drawn) == TallyOf(journal, w.oracle, 0, |input|, TipRefusal(og.t0, og.b0))
    requires NamesFree(t, w.oracle, drawn, 0) == Yes
    ensures Tracks(og, t, w.oracle, Begin(og.t0, og.b0, input, w, journal)) == Yes
    ensures Begin(og.t0, og.b0, input, w, journal).end == None
  {
    InputAppended(og, t, input, n);
    GrowthReads(og.t0, t, og.b0);
    SameTip(og.t0, t, og.b0);
  }

  /** What a run leaves when it ends at `s`. */
  ghost function Leaves(og: Origin, t: TreeView, s: Progress): Verdict {
    if && s.end.Some? && History(t, s.branch) == Some(s.history) && t.active == s.active
       && OnlyGrown(og.t0, t, og.b0) == Yes && Within(og, s) == Yes && (og.paired ==> Paired(s.history))
    then Yes else No
  }

  lemma InputFailed(og: Origin, t: TreeView, input: seq<Message>, w: World, journal: Journal, n: nat, drawn: nat)
    requires OriginOk(og) && n < |input| && Growth(og.t0, t, og.b0) == Some(input[..n])
    requires og.c0 == ConfigOf(og.opts, FlattenBranch(og.t0, og.b0) + input)
    requires og.paired ==> Paired(FlattenBranch(og.t0, og.b0) + input)
    requires Tally(n, drawn) == TallyOf(journal, w.oracle, 0, |input|, TipRefusal(og.t0, og.b0))
    ensures Leaves(og, t, Begin(og.t0, og.b0, input, w, journal)) == Yes
    ensures Begin(og.t0, og.b0, input, w, journal).end == Some(AppendFailed)
  {
    InputAppended(og, t, input, n);
    GrowthReads(og.t0, t, og.b0);
    SameTip(og.t0, t, og.b0);
  }

  lemma CourseEnds(og: Origin, t: TreeView, o: Oracle, s: Progress)
    requires Tracks(og, t, o, s) == Yes && Within(og, s) == Yes && s.end.Some?
    ensures Leaves(og, t, s) == Yes
  {
  }

  /** The turn after a compaction: with configuration in the root only, and a root that says something
      besides, the provider is asked exactly what was compacted, unless the cap is reached. */
  lemma CompactionSettles(root: Message, opts: AgentOpts, w: World, journal: Journal, s: Progress, s1: Progress)
    requires s.history != [] && s.history[0] == root && StripMessage(root) != [] && NoneConfigures(s.history[1..])
    requires s.end == None && s1 == NextTurn(root, opts, w, journal, s) && s1.end == None && s1.asked == s.asked
    ensures var s2 := NextTurn(root, opts, w, journal, s1);
      var compacted := ToPersist(ConfigOf(opts, s.history), Strip(s.history), w.summaries(s.turn));
      && s1.history == [root] + compacted[1..]
      && if s1.turn >= ConfigOf(opts, s.history).maxIter then s2.end == Some(CapReached)
         else s2.asked == s1.asked + [compacted]
  {
    var rc, llm := ConfigOf(opts, s.history), Strip(s.history);
    var compacted := ToPersist(rc, llm, w.summaries(s.turn));
    NextAsks(root, opts, w, journal, s);
    CompactingTurn(root, w, journal, s, llm, compacted);
    ToPersistIsShrunk(rc, llm, w.summaries(s.turn));
    SettledTurn(root, opts, w, journal, s, s1, compacted);
  }

  /** A turn that asks nothing and goes on has compacted. */
  lemma CompactingTurn(root: Message, w: World, journal: Journal, s: Progress, llm: seq<Message>,
                       compacted: seq<Message>)
    requires Working(root, w, journal, s, llm, compacted).asked == s.asked
    ensures Rest(compacted) > 0 && Working(root, w, journal, s, llm, compacted).history == [root] + compacted[1..]
  {
    assert |s.asked + [llm]| != |s.asked|;
  }

  lemma SettledTurn(root: Message, opts: AgentOpts, w: World, journal: Journal, s: Progress, s1: Progress,
                    compacted: seq<Message>)
    requires s.history != [] && s.history[0] == root && StripMessage(root) != [] && NoneConfigures(s.history[1..])
    requires Shrunk(ConfigOf(opts, s.history), Strip(s.history), w.summaries(s.turn), compacted)
    requires s1.end == None && s1.history == [root] + compacted[1..]
    ensures var s2 := NextTurn(root, opts, w, journal, s1);
      if s1.turn >= ConfigOf(opts, s.history).maxIter then s2.end == Some(CapReached)
      else s2.asked == s1.asked + [compacted]
  {
    var rc := ConfigOf(opts, s.history);
    NextIterationSettles(opts, s.history, rc.compactor.value, w.summaries(s.turn), compacted, w.summaries(s1.turn));
  }
}
