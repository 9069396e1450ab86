/** The agent's run loop on the conversation tree (agent/agent.go), proved against its course. */
module AgentLoop {
  import opened Verdicts
  import opened Messages
  import opened TreeModel
  import opened ConversationTree
  import opened Compactors
  import opened AgentConfig
  import opened AgentHistory
  import opened AgentAnswers
  import opened AgentCourse

  // ---- compacting ----

  method RunCompactor(c: Compactor, ms: seq<Message>, summarize: Summarizer) returns (r: seq<Message>)
    requires CanCompact(c, ms)
    ensures r == Compactors.Compacted(c, ms, summarize)
  {
    match c
    case Noop => r := ms;
    case Sliding(n) => r := CompactSliding(ms, n);
    case Summarizing(threshold, keepLast) => r := Summarized(ms, threshold, keepLast, summarize);
  }

  lemma NothingToPersist(t: TreeView, journal: Journal, o: Oracle, ids: nat, tags: nat)
    requires NamesFree(t, o, ids, tags) == Yes
    ensures Tally(0, ids) == TallyOf(journal, o, ids, Rest([]), None) && NamesFree(t, o, ids, tags + 1) == Yes
    ensures Persisting(t, t, [], 0, CompactName(t, o, tags)) == Yes
    ensures WhenComplete(0, Rest([]), CompactName(t, o, tags)) == None
  {
    SkipNames(t, o, ids, tags, ids, tags + 1);
  }

  /** tryCompact: persists what the compactor makes of the history, if that is shorter. */
  method TryCompact(tree: Tree, ghost t: TreeView, rc: Resolved, llm: seq<Message>, summarize: Summarizer,
                    o: Oracle, ids: nat, tags: nat)
    returns (r: Option<BranchId>, ghost compacted: seq<Message>, drawn: nat, ghost n: nat, ghost t': TreeView)
    requires StateOf(tree) == Some(t)
    requires Inv(t) && NamesFree(t, o, ids, tags) == Yes
    requires rc.compactor.Some? ==> CanCompact(rc.compactor.value, llm)
    modifies tree, tree.wal
    ensures compacted == ToPersist(rc, llm, summarize)
    ensures StateOf(tree) == Some(t') && NamesFree(t', o, drawn, tags + 1) == Yes
    ensures Tally(n, drawn) == TallyOf(JournalOf(tree), o, ids, Rest(compacted), None)
    ensures r == WhenComplete(n, Rest(compacted), CompactName(t, o, tags))
    ensures Persisting(t, t', compacted, n, CompactName(t, o, tags)) == Yes
  {
    NothingToPersist(t, JournalOf(tree), o, ids, tags);
    if rc.compactor.None? {
      return None, [], ids, 0, t;
    }
    var shorter := RunCompactor(rc.compactor.value, llm, summarize);
    if |shorter| >= |llm| {
      return None, [], ids, 0, t;
    }
    compacted := shorter;
    r, drawn, n, t' := PersistCompacted(tree, t, shorter, o, ids, tags);
  }

  // ---- one turn ----

  /** Asks the provider and responds. */
  method Ask(tree: Tree, ghost og: Origin, ghost t: TreeView, ghost s: Progress, b: BranchId, llm: seq<Message>,
             w: World, n: nat, ids: nat)
    returns (end: Option<Reason>, drawn: nat, ghost t': TreeView, ghost s': Progress)
    requires StateOf(tree) == Some(t) && Tracks(og, t, w.oracle, s) == Yes
    requires b == s.branch && n == |s.asked| && ids == s.ids && s.end == None
    modifies tree, tree.wal
    ensures s' == Answering(w, JournalOf(tree), s, llm)
    ensures StateOf(tree) == Some(t') && Tracks(og, t', w.oracle, s') == Yes
    ensures end == s'.end && drawn == s'.ids && s'.branch == s.branch && s'.turn == s.turn
      && s'.asked == s.asked + [llm]
  {
    var reply := w.provider(n, llm);
    end, drawn, t', s' := Some(ProviderFailed), ids, t, Answering(w, JournalOf(tree), s, llm);
    TrackHistory(og, t, w.oracle, s);
    if reply.Stream? {
      ghost var x;
      end, drawn, t', x := Respond(tree, t, b, reply.deltas, w.reg, w.decide, n, w.oracle, ids, s.turn);
      TrackGrowth(og, t, t', w.oracle, s, x, drawn, s');
    }
  }

  /** Tries to compact. */
  method Attempt(tree: Tree, ghost og: Origin, ghost t: TreeView, ghost s: Progress, rc: Resolved, llm: seq<Message>,
                 w: World, ids: nat, tags: nat)
    returns (nb: Option<BranchId>, drawn: nat, ghost t': TreeView, ghost s1: Progress)
    requires StateOf(tree) == Some(t) && Tracks(og, t, w.oracle, s) == Yes
    requires ids == s.ids && tags == s.turn && s.end == None
    requires rc == ConfigOf(og.opts, s.history) && llm == Strip(s.history)
    modifies tree, tree.wal
    ensures StateOf(tree) == Some(t') && Tracks(og, t', w.oracle, s1) == Yes
    ensures s1.end == None && s1.ids == drawn && s1.turn == tags + 1 && s1.asked == s.asked
    ensures Working(RootMessage(og.t0), w, JournalOf(tree), s, llm, ToPersist(rc, llm, w.summaries(tags)))
         == if nb.Some? then s1 else Answering(w, JournalOf(tree), s1, llm)
    ensures s1.branch == if nb.Some? then nb.value else s.branch
  {
    TrackHistory(og, t, w.oracle, s);
    ghost var compacted, k;
    nb, compacted, drawn, k, t' := TryCompact(tree, t, rc, llm, w.summaries(tags), w.oracle, ids, tags);
    s1 := Tried(og, t, t', w, JournalOf(tree), s, llm, compacted, k, drawn, nb);
  }

  /** One iteration behind the cap: compact, or ask the provider and respond. */
  method Iterate(tree: Tree, ghost og: Origin, ghost t: TreeView, ghost s: Progress, rc: Resolved, llm: seq<Message>,
                 w: World, b: BranchId, asked: seq<seq<Message>>, ids: nat, tags: nat)
    returns (end: Option<Reason>, b': BranchId, asked': seq<seq<Message>>, drawn: nat, ghost t': TreeView,
             ghost s': Progress)
    requires StateOf(tree) == Some(t) && Tracks(og, t, w.oracle, s) == Yes && s.end == None
    requires At(s, b, asked, ids, tags) && rc == ConfigOf(og.opts, s.history) && llm == Strip(s.history)
    modifies tree, tree.wal
    ensures s' == Working(RootMessage(og.t0), w, JournalOf(tree), s, llm, ToPersist(rc, llm, w.summaries(tags)))
    ensures StateOf(tree) == Some(t') && Tracks(og, t', w.oracle, s') == Yes
    ensures end == s'.end && At(s', b', asked', drawn, tags + 1)
  {
    var nb;
    end, b', asked' := None, b, asked;
    nb, drawn, t', s' := Attempt(tree, og, t, s, rc, llm, w, ids, tags);
    if nb.Some? {
      b' := nb.value;
    } else {
      end, drawn, t', s' := Ask(tree, og, t', s', b, llm, w, |asked|, drawn);
      asked' := asked + [llm];
    }
  }

  /** The loop's variables are what the course says. */
  ghost predicate At(s: Progress, b: BranchId, asked: seq<seq<Message>>, ids: nat, turn: nat) {
    s.branch == b && s.asked == asked && s.ids == ids && s.turn == turn
  }

  method ReadBranch(tree: Tree, ghost t: TreeView, b: BranchId) returns (h: seq<Message>)
    requires StateOf(tree) == Some(t) && History(t, b).Some?
    ensures h == FlattenBranch(t, b)
  {
    var r := tree.FlattenBranch(b);
    h := r.value;
  }

  /** One turn of the loop: read the branch, resolve the configuration, check the cap, iterate. */
  method Turn(tree: Tree, ghost og: Origin, opts: AgentOpts, ghost t: TreeView, ghost s: Progress, w: World,
              b: BranchId, asked: seq<seq<Message>>, ids: nat, iterCount: nat)
    returns (end: Option<Reason>, b': BranchId, asked': seq<seq<Message>>, drawn: nat, ghost t': TreeView,
             ghost s': Progress)
    requires StateOf(tree) == Some(t) && Tracks(og, t, w.oracle, s) == Yes && s.end == None
    requires opts == og.opts && At(s, b, asked, ids, iterCount)
    modifies tree, tree.wal
    ensures s' == NextTurn(RootMessage(og.t0), opts, w, JournalOf(tree), s)
    ensures StateOf(tree) == Some(t') && Tracks(og, t', w.oracle, s') == Yes
    ensures end == s'.end && s'.branch == b' && s'.asked == asked' && s'.ids == drawn
  {
    var resolved, llm := Prepare(tree, og, t, w.oracle, s, opts, b);
    end, b', asked', drawn, t', s' := Proceed(tree, og, t, s, resolved, llm, w, b, asked, ids, iterCount);
  }

  /** The cap, and behind it the iteration. */
  method Proceed(tree: Tree, ghost og: Origin, ghost t: TreeView, ghost s: Progress, rc: Resolved, llm: seq<Message>,
                 w: World, b: BranchId, asked: seq<seq<Message>>, ids: nat, iterCount: nat)
    returns (end: Option<Reason>, b': BranchId, asked': seq<seq<Message>>, drawn: nat, ghost t': TreeView,
             ghost s': Progress)
    requires StateOf(tree) == Some(t) && Tracks(og, t, w.oracle, s) == Yes && s.end == None
    requires Tracks(og, t, w.oracle, s.(end := Some(CapReached))) == Yes
    requires At(s, b, asked, ids, iterCount) && rc == ConfigOf(og.opts, s.history) && llm == Strip(s.history)
    modifies tree, tree.wal
    ensures s' == NextTurn(RootMessage(og.t0), og.opts, w, JournalOf(tree), s)
    ensures StateOf(tree) == Some(t') && Tracks(og, t', w.oracle, s') == Yes
    ensures end == s'.end && s'.branch == b' && s'.asked == asked' && s'.ids == drawn
  {
    if iterCount >= rc.maxIter {
      return Some(CapReached), b, asked, ids, t, s.(end := Some(CapReached));
    }
    end, b', asked', drawn, t', s' := Iterate(tree, og, t, s, rc, llm, w, b, asked, ids, iterCount);
  }

  method Prepare(tree: Tree, ghost og: Origin, ghost t: TreeView, ghost o: Oracle, ghost s: Progress,
                 opts: AgentOpts, b: BranchId)
    returns (rc: Resolved, llm: seq<Message>)
    requires StateOf(tree) == Some(t) && Tracks(og, t, o, s) == Yes && b == s.branch
    ensures rc == ConfigOf(opts, s.history) && llm == Strip(s.history)
    ensures Tracks(og, t, o, s.(end := Some(CapReached))) == Yes
  {
    TrackHistory(og, t, o, s);
    var messages := ReadBranch(tree, t, b);
    rc, llm := PrepareMessages(opts, messages);
  }

  // ---- the run ----

  /** The loop ends after at most `Cap(og) + 1` turns, where the course ends. */
  method Turns(tree: Tree, ghost og: Origin, opts: AgentOpts, ghost t: TreeView, ghost s0: Progress, w: World,
               branch: BranchId, ids: nat)
    returns (end: Reason, b: BranchId, asked: seq<seq<Message>>, ghost t': TreeView, ghost s: Progress)
    requires StateOf(tree) == Some(t) && Tracks(og, t, w.oracle, s0) == Yes && s0.end == None
    requires opts == og.opts && At(s0, branch, [], ids, 0)
    modifies tree, tree.wal
    ensures s == Course(RootMessage(og.t0), opts, w, JournalOf(tree), s0, Cap(og) + 1)
    ensures StateOf(tree) == Some(t')
    ensures Some(end) == s.end && b == s.branch && asked == s.asked
    ensures Leaves(og, t', s) == Yes
  {
    b, asked, t', s := branch, [], t, s0;
    ghost var journal := JournalOf(tree);
    CourseBegins(og, w, journal, s0);
    var iterCount, drawn, why := 0, ids, None;
    while why == None
      invariant StateOf(tree) == Some(t') && Tracks(og, t', w.oracle, s) == Yes
      invariant OnCourse(og, w, journal, s0, s) == Yes && Within(og, s) == Yes
      invariant why == s.end && b == s.branch && asked == s.asked
      invariant drawn == s.ids && iterCount >= 0 && (why == None ==> s.turn == iterCount <= Cap(og))
      decreases Cap(og) - iterCount, why == None
    {
      ghost var t1, s1 := t', s;
      why, b, asked, drawn, t', s := Turn(tree, og, opts, t1, s1, w, b, asked, drawn, iterCount);
      CourseGoesOn(og, t1, w, journal, s0, s1, s);
      iterCount := iterCount + 1;
    }
    end := why.value;
    CourseEnds(og, t', w.oracle, s);
  }

  /** runLoop.  It ends, and for the reason its course gives; has asked the provider exactly what the
      course says, and leaves the branch, the history and the active branch the course ends in.  It has
      asked at most as often as the cap allows; the branch it was started on has only been appended to
      and all others are kept; and every request and the history it leaves keep tool calls and results
      together, if the history and the input did and no compactor in use is one that summarizes. */
  method RunLoop(tree: Tree, ghost og: Origin, opts: AgentOpts, w: World, input: seq<Message>, branch: BranchId)
    returns (end: Reason, b: BranchId, asked: seq<seq<Message>>, ghost t': TreeView, ghost s: Progress)
    requires StateOf(tree) == Some(og.t0)
    requires branch == og.b0 && opts == og.opts && OriginOk(og) && NamesFree(og.t0, w.oracle, 0, 0) == Yes
    requires og.c0 == ConfigOf(opts, FlattenBranch(og.t0, branch) + input)
    requires og.paired ==> Paired(FlattenBranch(og.t0, branch) + input)
    modifies tree, tree.wal
    ensures s == Course(RootMessage(og.t0), opts, w, JournalOf(tree), Begin(og.t0, branch, input, w, JournalOf(tree)),
                        Cap(og) + 1)
    ensures s.end == Some(end) && s.branch == b && s.asked == asked
    ensures StateOf(tree) == Some(t') && Leaves(og, t', s) == Yes
  {
    s := Begin(og.t0, branch, input, w, JournalOf(tree));
    b, asked := branch, [];
    var n, ids;
    n, ids, t' := AppendSeq(tree, og.t0, branch, input, w.oracle, 0, 0);
    if n < |input| {
      InputFailed(og, t', input, w, JournalOf(tree), n, ids);
      end := AppendFailed;
    } else {
      BeginTracks(og, t', input, w, JournalOf(tree), n, ids);
      end, b, asked, t', s := Turns(tree, og, opts, t', s, w, branch, ids);
    }
  }
}
