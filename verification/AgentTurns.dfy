/** What a turn of the agent's loop adds to the history, and what the next request says, in terms of the
    tools and the provider's reply alone (agent/agent.go). */
module AgentTurns {
  import opened Messages
  import opened Compactors
  import opened AgentConfig
  import opened Aggregators
  import opened ToolExec
  import opened ToolOutcomes
  import opened AgentHistory
  import opened AgentAnswers
  import opened AgentCourse

  // ---- the result of a call ----

  /** The block shows the text a tool gave, or its error if it gave no text; and whether it failed. */
  ghost predicate SaysResult(block: SystemContent, id: string, text: string, error: string) {
    && block.SystemToolResult? && block.result.toolCallID == id
    && (block.result.isError <==> error != "")
    && (text != "" || error == "" ==> block.result.text == text)
    && (text == "" && error != "" ==> block.result.text == error)
  }

  /** What the block for a call says when `r` is the consumer's answer, if it is asked. */
  ghost predicate BlockSays(reg: Registry, call: ToolUseContent, r: Resolution, block: SystemContent) {
    if call.name !in reg then SaysResult(block, call.id, "", "tool not found: " + call.name)
    else if reg[call.name].marked && !r.approved
    then SaysResult(block, call.id, "", if r.message == "" then "rejected" else "rejected: " + r.message)
    else
      var args := if reg[call.name].marked && r.modifiedArgs.Some? then r.modifiedArgs.value else call.arguments;
      match reg[call.name].kind
      case Plain(execute) => SaysResult(block, call.id, execute(args).text, execute(args).error)
      case SubAgent(invoke) => SaysResult(block, call.id, Spoken(invoke(args).deltas), invoke(args).error)
  }

  lemma ResultBlockSays(reg: Registry, calls: seq<ToolUseContent>, decide: Decisions, n: nat, i: nat)
    requires i < |calls|
    ensures var m := NewToolResultMessage(Results(reg, calls, decide, n));
      && m.SystemMessage? && |m.system| == |calls| && BlockSays(reg, calls[i], decide(n, i), m.system[i])
  {
    var call, r := calls[i], decide(n, i);
    var d := DecisionOn(reg, call, r);
    assert Results(reg, calls, decide, n)[i] == ResultContent(ResultOf(reg, call, d));
    if Runs(reg, call, d) && reg[call.name].kind.SubAgent? {
      TextOfIsSpoken(reg[call.name].kind.invoke(EffectiveArgs(call, d)).deltas);
    }
  }

  // ---- a request and its answer ----

  /** `m` is a message with one block for each call, in order. */
  ghost predicate ShowsResults(reg: Registry, calls: seq<ToolUseContent>, decide: Decisions, n: nat, m: Message) {
    && m.SystemMessage? && |m.system| == |calls|
    && forall i: nat | i < |calls| :: BlockSays(reg, calls[i], decide(n, i), m.system[i])
  }

  /** What asking the provider leads to: the request, the reply behind the history, its results behind
      that; and why the run ends, if it does. */
  lemma AnsweringSays(w: World, journal: Journal, s: Progress, llm: seq<Message>)
    ensures var s', reply := Answering(w, journal, s, llm), w.provider(|s.asked|, llm);
      && s'.asked == s.asked + [llm] && s'.branch == s.branch && s'.active == s.active && s'.turn == s.turn
      && (reply.Failed? ==> s'.history == s.history && s'.end == Some(ProviderFailed))
      && (reply.Stream? ==>
            var m := Aggregators.Finished(PushAll(FRESH, reply.deltas));
            if m.None? then s'.history == s.history && s'.end == Some(NoReply)
            else if s.refusal != None || Fails(journal, w.oracle, s.ids)
            then s'.history == s.history && s'.end == Some(AppendFailed)
            else if Calls(m.value) == [] then s'.history == s.history + [m.value] && s'.end == Some(Answered)
            else if Fails(journal, w.oracle, s.ids + 1)
            then s'.history == s.history + [m.value] && s'.end == Some(AppendFailed)
            else
              && s'.end == None && |s'.history| == |s.history| + 2
              && s'.history[..|s.history| + 1] == s.history + [m.value]
              && ShowsResults(w.reg, Calls(m.value), w.decide, |s.asked|, s'.history[|s.history| + 1]))
  {
    var reply := w.provider(|s.asked|, llm);
    if reply.Stream? && Aggregators.Finished(PushAll(FRESH, reply.deltas)).Some? {
      var calls := Calls(Aggregators.Finished(PushAll(FRESH, reply.deltas)).value);
      forall i: nat | i < |calls|
        ensures BlockSays(w.reg, calls[i], w.decide(|s.asked|, i),
                          NewToolResultMessage(Results(w.reg, calls, w.decide, |s.asked|)).system[i])
      {
        ResultBlockSays(w.reg, calls, w.decide, |s.asked|, i);
      }
    }
  }

  /** A turn below the cap that compacts nothing asks the stripped history; and if it goes on, and neither
      the cap is reached nor something compacted then, the next request is that one, the reply, and the
      results of its calls. */
  lemma ResultsReachNextRequest(root: Message, opts: AgentOpts, w: World, journal: Journal, s: Progress)
    returns (m: Message, results: Message)
    requires s.turn < ConfigOf(opts, s.history).maxIter
    requires ToPersist(ConfigOf(opts, s.history), Strip(s.history), w.summaries(s.turn)) == []
    requires NextTurn(root, opts, w, journal, s).end == None
    ensures var s1 := NextTurn(root, opts, w, journal, s);
      && s1.asked == s.asked + [Strip(s.history)] && s1.history == s.history + [m, results]
      && ShowsResults(w.reg, Calls(m), w.decide, |s.asked|, results)
      && var next := Strip(s.history) + [m, results];
        s1.turn < ConfigOf(opts, s.history).maxIter
        && ToPersist(ConfigOf(opts, s.history), next, w.summaries(s1.turn)) == [] ==>
          NextTurn(root, opts, w, journal, s1).asked == s1.asked + [next]
  {
    var s1, llm := NextTurn(root, opts, w, journal, s), Strip(s.history);
    var mid := AfterTrying(s, TallyOf(journal, w.oracle, s.ids, 0, None));
    assert s1 == Answering(w, journal, mid, llm);
    AnsweringSays(w, journal, mid, llm);
    m, results := s1.history[|s.history|], s1.history[|s.history| + 1];
    assert s1.history == s.history + [m, results];
    AnsweredIsPlain(w, journal, mid, llm);
    PlainBehind(opts, s.history, [m, results]);
    var next := llm + [m, results];
    if && s1.turn < ConfigOf(opts, s.history).maxIter
       && ToPersist(ConfigOf(opts, s.history), next, w.summaries(s1.turn)) == [] {
      var mid1 := AfterTrying(s1, TallyOf(journal, w.oracle, s1.ids, 0, None));
      assert NextTurn(root, opts, w, journal, s1) == Answering(w, journal, mid1, next);
      AnsweringSays(w, journal, mid1, next);
    }
  }

  lemma AnsweredIsPlain(w: World, journal: Journal, s: Progress, llm: seq<Message>)
    requires Answering(w, journal, s, llm).end == None
    ensures var h := Answering(w, journal, s, llm).history;
      |h| == |s.history| + 2 && AllPlain([h[|s.history|], h[|s.history| + 1]])
  {
    var m := Aggregators.Finished(PushAll(FRESH, w.provider(|s.asked|, llm).deltas)).value;
    AnswerFits([], m, w.reg, w.decide, |s.asked|);
    ResultsAnswerCalls(w.reg, m, w.decide, |s.asked|);
  }

  // ---- a turn that compacts ----

  lemma {:induction false} AllWritten(journal: Journal, o: Oracle, ids: nat, n: nat)
    requires forall j {:trigger Fails(journal, o, j)} | ids <= j < ids + n :: !Fails(journal, o, j)
    ensures Written(journal, o, ids, n) == n
    decreases n
  {
    if n > 0 {
      AllWritten(journal, o, ids + 1, n - 1);
    }
  }

  /** When the compactor makes the history shorter, but not too short to branch, and nothing fails to be
      written, the run goes on with the root and the rest of what was compacted, on a new branch named
      "compact", or "compact-" and a new name; nothing is asked. */
  lemma CompactingTurnSays(root: Message, opts: AgentOpts, w: World, journal: Journal, s: Progress)
    requires var rc, h := ConfigOf(opts, s.history), Strip(s.history);
      && s.turn < rc.maxIter && rc.compactor.Some? && CanCompact(rc.compactor.value, h)
      && var r := Compactors.Compacted(rc.compactor.value, h, w.summaries(s.turn));
        && 2 <= |r| < |h|
        && forall j {:trigger Fails(journal, w.oracle, j)} | s.ids <= j < s.ids + |r| - 1 ::
             !Fails(journal, w.oracle, j)
    ensures var s', rc, h := NextTurn(root, opts, w, journal, s), ConfigOf(opts, s.history), Strip(s.history);
      && s'.history == [root] + Compactors.Compacted(rc.compactor.value, h, w.summaries(s.turn))[1..]
      && s'.branch == s'.active == (if s.taken then "compact-" + w.oracle.newTag(s.turn) else "compact")
      && s'.asked == s.asked && s'.turn == s.turn + 1 && s'.end == s.end
  {
    var rc, h := ConfigOf(opts, s.history), Strip(s.history);
    var r := Compactors.Compacted(rc.compactor.value, h, w.summaries(s.turn));
    AllWritten(journal, w.oracle, s.ids, |r| - 1);
    assert "compact" + "-" == "compact-";
  }
}
