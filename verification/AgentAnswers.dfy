/** What the agent's loop appends after a reply of the provider (agent/agent.go). */
module AgentAnswers {
  import opened Verdicts
  import opened Messages
  import opened TreeModel
  import opened ConversationTree
  import opened Compactors
  import opened AgentConfig
  import opened Aggregators
  import opened ToolExec
  import opened AgentHistory

  // ---- the reply and its tool calls ----

  method Aggregate(deltas: seq<Delta>) returns (m: Option<Message>)
    ensures m == Aggregators.Finished(PushAll(FRESH, deltas)) && (m.Some? ==> m.value.AssistantMessage?)
  {
    var agg := new Aggregator();
    for i := 0 to |deltas|
      invariant agg.Value() == PushAll(FRESH, deltas[..i])
    {
      assert deltas[..i + 1][..i] == deltas[..i];
      if deltas[i].Usage? {
        continue;
      }
      agg.Push(deltas[i]);
    }
    assert deltas[..|deltas|] == deltas;
    m := agg.Message();
  }

  method CollectCalls(content: seq<AssistantContent>) returns (calls: seq<ToolUseContent>)
    ensures calls == CallsIn(content)
  {
    calls := [];
    for i := 0 to |content|
      invariant calls == CallsIn(content[..i])
    {
      assert content[..i + 1][..i] == content[..i];
      if content[i].ToolUse? {
        calls := calls + [content[i].call];
      }
    }
    assert content[..|content|] == content;
  }

  function ResultContent(r: ToolResult): ToolResultContent {
    ToolResultContent(r.toolCallID, if r.error != "" && r.result == "" then r.error else r.result, r.error != "")
  }

  /** The consumer is asked about marked calls only. */
  function DecisionOn(reg: Registry, call: ToolUseContent, r: Resolution): (d: Option<Resolution>)
    ensures Needs(reg, call) <==> d.Some?
  {
    if Needs(reg, call) then Some(r) else None
  }

  /** The consumer's decision about the i-th call of the n-th reply. */
  type Decisions = (nat, nat) -> Resolution

  /** The results of the calls of the `n`-th reply under the consumer's decisions, in the order of the calls. */
  function Results(reg: Registry, calls: seq<ToolUseContent>, decide: Decisions, n: nat): seq<ToolResultContent> {
    seq(|calls|, i requires 0 <= i < |calls| =>
      ResultContent(ResultOf(reg, calls[i], DecisionOn(reg, calls[i], decide(n, i)))))
  }

  /** Whatever the interleaving, what the concurrent execution collects is such a list, for answers the
      consumer has given. */
  lemma CollectedAreResults(reg: Registry, calls: seq<ToolUseContent>, states: seq<System>, steps: seq<Step>, k: nat,
                            n: nat)
    returns (decide: Decisions)
    requires ToolExec.Run(reg, calls, states, steps) && k < |states| && states[k].stage != Waiting
    ensures |states[k].locals| == |calls|
    ensures forall i | 0 <= i < |calls| ::
      ResultContent(states[k].locals[i].result) == Results(reg, calls, decide, n)[i]
    ensures forall i: nat {:trigger decide(n, i)} | i < |calls| && Needs(reg, calls[i]) ::
      Answer(calls[i].id, decide(n, i)) in states[k].answers
  {
    var s := states[k];
    RunIsOk(reg, calls, states, steps, k);
    decide := (m: nat, i: nat) =>
      if i < |s.locals| && s.locals[i].decision.Some? then s.locals[i].decision.value else Resolution(false, None, "");
    forall i: nat {:trigger decide(n, i)} | i < |calls|
      ensures ResultContent(s.locals[i].result) == Results(reg, calls, decide, n)[i]
      ensures Needs(reg, calls[i]) ==> Answer(calls[i].id, decide(n, i)) in s.answers
    {
      ResultsAreSequential(reg, calls, states, steps, k, i);
      assert DecisionOn(reg, calls[i], decide(n, i)) == s.locals[i].decision;
      assert Results(reg, calls, decide, n)[i] == ResultContent(ResultOf(reg, calls[i], s.locals[i].decision));
    }
  }

  function SystemBlocks(rs: seq<ToolResultContent>): seq<SystemContent> {
    seq(|rs|, i requires 0 <= i < |rs| => SystemToolResult(rs[i]))
  }

  lemma {:induction false} ResultMessageIds(rs: seq<ToolResultContent>, ids: seq<string>)
    requires |ids| == |rs| && forall i | 0 <= i < |rs| :: rs[i].toolCallID == ids[i]
    ensures SystemResultIds(SystemBlocks(rs)) == ids
  {
    if rs != [] {
      var n := |rs| - 1;
      ResultMessageIds(rs[..n], ids[..n]);
      assert SystemBlocks(rs)[..n] == SystemBlocks(rs[..n]);
      assert ids == ids[..n] + [ids[n]];
    }
  }

  /** The result message answers exactly the calls of the message before it. */
  lemma ResultsAnswerCalls(reg: Registry, m: Message, decide: Decisions, n: nat)
    ensures ResultIds(NewToolResultMessage(Results(reg, Calls(m), decide, n))) == CallIds(m)
    ensures Calls(m) != [] ==> AgentConfig.Plain(NewToolResultMessage(Results(reg, Calls(m), decide, n)))
  {
    var rs := Results(reg, Calls(m), decide, n);
    forall i | 0 <= i < |rs| ensures rs[i].toolCallID == CallIds(m)[i] {
      assert rs[i] == ResultContent(ResultOf(reg, Calls(m)[i], DecisionOn(reg, Calls(m)[i], decide(n, i))));
    }
    ResultMessageIds(rs, CallIds(m));
    assert NewToolResultMessage(rs) == SystemMessage(SystemBlocks(rs));
  }

  // ---- what is appended ----

  /** Why a run ends. */
  datatype Reason = CapReached | ProviderFailed | NoReply | AppendFailed | Answered

  /** What is appended, whether the run ends with it, and the identifiers drawn. */
  datatype Response = Response(appended: seq<Message>, end: Option<Reason>, drawn: nat)

  /** What a reply leads to: the aggregated message, and the results of its tool calls if it has any. */
  ghost function ResponseOf(reg: Registry, decide: Decisions, n: nat, deltas: seq<Delta>, journal: Journal, o: Oracle,
                      refusal: Option<TreeOps.TreeError>, ids: nat): Response {
    var m := Aggregators.Finished(PushAll(FRESH, deltas));
    if m.None? then Response([], Some(NoReply), ids)
    else if refusal != None || Fails(journal, o, ids) then Response([], Some(AppendFailed), ids + 1)
    else if Calls(m.value) == [] then Response([m.value], Some(Answered), ids + 1)
    else if Fails(journal, o, ids + 1) then Response([m.value], Some(AppendFailed), ids + 2)
    else Response([m.value, NewToolResultMessage(Results(reg, Calls(m.value), decide, n))], None, ids + 2)
  }

  /** What may be appended to a history without harm: it configures nothing, and keeps calls and
      results together. */
  ghost predicate Fits(h: seq<Message>, x: seq<Message>) {
    AllPlain(x) && (Paired(h) ==> Paired(h + x))
  }

  /** Persists the reply, runs its tool calls and persists their results.  Goes on only after tool
      calls. */
  method Respond(tree: Tree, ghost t: TreeView, b: BranchId, deltas: seq<Delta>, reg: Registry, decide: Decisions,
                 n: nat, o: Oracle, ids: nat, ghost tags: nat)
    returns (end: Option<Reason>, drawn: nat, ghost t': TreeView, ghost x: seq<Message>)
    requires StateOf(tree) == Some(t)
    requires History(t, b).Some? && NamesFree(t, o, ids, tags) == Yes
    modifies tree, tree.wal
    ensures StateOf(tree) == Some(t') && NamesFree(t', o, drawn, tags) == Yes
    ensures Response(x, end, drawn) == ResponseOf(reg, decide, n, deltas, JournalOf(tree), o, TipRefusal(t, b), ids)
    ensures Growth(t, t', b) == Some(x) && Fits(History(t, b).value, x)
  {
    end, drawn, t', x := Some(NoReply), ids, t, [];
    NoGrowth(t, b);
    assert History(t, b).value + [] == History(t, b).value;
    var msg := Aggregate(deltas);
    if msg.Some? {
      var ok;
      ok, t' := Append(tree, t, b, msg.value, o, ids, tags);
      end, drawn := Some(AppendFailed), ids + 1;
      if ok {
        end, drawn, t', x := Execute(tree, t, t', b, msg.value, reg, decide, n, o, ids + 1, tags);
      }
    }
  }

  method Execute(tree: Tree, ghost t: TreeView, ghost t1: TreeView, b: BranchId, msg: Message, reg: Registry,
                 decide: Decisions, n: nat, o: Oracle, ids: nat, ghost tags: nat)
    returns (end: Option<Reason>, drawn: nat, ghost t': TreeView, ghost x: seq<Message>)
    requires StateOf(tree) == Some(t1)
    requires msg.AssistantMessage? && Growth(t, t1, b) == Some([msg]) && NamesFree(t1, o, ids, tags) == Yes
    requires TipRefusal(t, b) == None
    modifies tree, tree.wal
    ensures StateOf(tree) == Some(t') && NamesFree(t', o, drawn, tags) == Yes
    ensures Growth(t, t', b) == Some(x) && History(t, b).Some? && Fits(History(t, b).value, x)
    ensures Response(x, end, drawn)
         == if Calls(msg) == [] then Response([msg], Some(Answered), ids)
            else if Fails(JournalOf(tree), o, ids) then Response([msg], Some(AppendFailed), ids + 1)
            else Response([msg, NewToolResultMessage(Results(reg, Calls(msg), decide, n))], None, ids + 1)
  {
    end, drawn, t', x := Some(Answered), ids, t1, [msg];
    SameTip(t, t1, b);
    AnswerFits(History(t, b).value, msg, reg, decide, n);
    var calls := CollectCalls(msg.assistant);
    if |calls| == 0 {
      return;
    }
    var results := NewToolResultMessage(Results(reg, calls, decide, n));
    var ok;
    ok, t' := Append(tree, t1, b, results, o, ids, tags);
    end, drawn := Some(AppendFailed), ids + 1;
    if ok {
      GrowthOnward(t, t1, t', b, [msg], [results]);
      end, x := None, [msg, results];
    }
  }

  lemma AnswerFits(h: seq<Message>, m: Message, reg: Registry, decide: Decisions, n: nat)
    requires m.AssistantMessage?
    ensures Fits(h, [m])
    ensures Calls(m) != [] ==> Fits(h, [m, NewToolResultMessage(Results(reg, Calls(m), decide, n))])
    ensures [m] + [NewToolResultMessage(Results(reg, Calls(m), decide, n))]
         == [m, NewToolResultMessage(Results(reg, Calls(m), decide, n))]
  {
    var r := NewToolResultMessage(Results(reg, Calls(m), decide, n));
    ResultsAnswerCalls(reg, m, decide, n);
    if Paired(h) {
      PairedAppend(h, m);
      PairedAppend(h + [m], r);
      assert h + [m] + [r] == h + [m, r];
    }
  }
}
