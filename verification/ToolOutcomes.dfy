/** What a caller and the consumer get from a concurrent batch of tool calls, case by case
    (agent/agent.go, executeSingleTool; agent/stream.go). */
module ToolOutcomes {
  import opened Messages
  import opened ToolExec

  /** The text parts of a sub-agent's deltas, one after the other. */
  ghost function Spoken(deltas: seq<Delta>): string {
    if deltas == [] then ""
    else (if deltas[0].TextPart? then deltas[0].content else "") + Spoken(deltas[1..])
  }

  lemma {:induction false} SpokenAppend(deltas: seq<Delta>, d: Delta)
    ensures Spoken(deltas + [d]) == Spoken(deltas) + if d.TextPart? then d.content else ""
  {
    if deltas != [] {
      SpokenAppend(deltas[1..], d);
      assert (deltas + [d])[1..] == deltas[1..] + [d];
    }
  }

  lemma {:induction false} TextOfIsSpoken(deltas: seq<Delta>)
    ensures TextOf(deltas) == Spoken(deltas)
  {
    if deltas != [] {
      var front, d := deltas[..|deltas| - 1], deltas[|deltas| - 1];
      TextOfIsSpoken(front);
      SpokenAppend(front, d);
      assert deltas == front + [d];
    }
  }

  /** What running a tool gives: its text and error, and the deltas forwarded meanwhile. */
  datatype Outcome = Outcome(text: string, error: string, forwarded: seq<Delta>)

  ghost predicate Gives(kind: Kind, id: string, args: Args, o: Outcome) {
    match kind
    case Plain(execute) => o.text == execute(args).text && o.error == execute(args).error && o.forwarded == []
    case SubAgent(invoke) =>
      var run := invoke(args);
      && o.text == Spoken(run.deltas) && o.error == run.error && |o.forwarded| == |run.deltas|
      && forall j | 0 <= j < |run.deltas| :: o.forwarded[j] == ToolExecPart(id, run.deltas[j])
  }

  /** Call `i` has given `o` after `opening`, and its tool has run with `args`, if at all. */
  ghost predicate Yields(calls: seq<ToolUseContent>, s: System, i: nat, opening: seq<Delta>, o: Outcome,
                         args: Option<Args>)
    requires i < |calls|
  {
    && |s.locals| == |calls|
    && s.locals[i].result == ToolResult(calls[i].id, o.text, o.error)
    && SentBy(s.log, i) == opening + o.forwarded + [ToolExecEnd(calls[i].id, o.text, o.error)]
    && RunsOf(s.runs, i) == if args.Some? then [args.value] else []
  }

  lemma CallYields(reg: Registry, calls: seq<ToolUseContent>, s: System, i: nat) returns (o: Outcome)
    requires SystemOk(reg, calls, s) && AllFinished(s) && i < |calls|
    ensures var call, decision := calls[i], s.locals[i].decision;
      && (call.name !in reg ==> o == Outcome("", "tool not found: " + call.name, []))
      && (call.name in reg && Rejected(decision) ==>
            o == Outcome("", if decision.value.message == "" then "rejected"
                             else "rejected: " + decision.value.message, []))
      && (Runs(reg, call, decision) ==> Gives(reg[call.name].kind, call.id, EffectiveArgs(call, decision), o))
      && Yields(calls, s, i, Opening(reg, call), o,
                if Runs(reg, call, decision) then Some(EffectiveArgs(call, decision)) else None)
  {
    var call, decision := calls[i], s.locals[i].decision;
    assert CallOk(reg, calls, s, i);
    var r := ResultOf(reg, call, decision);
    o := Outcome(r.result, r.error, Forwarded(reg, call, decision));
    if Runs(reg, call, decision) && reg[call.name].kind.SubAgent? {
      TextOfIsSpoken(reg[call.name].kind.invoke(EffectiveArgs(call, decision)).deltas);
    }
  }

  /** Once the results are collected, a call without approval has given what its tool gives for the
      arguments of the call; a tool that is missing gives an error. */
  lemma UnmarkedYields(reg: Registry, calls: seq<ToolUseContent>, states: seq<System>, steps: seq<Step>, k: nat,
                       i: nat)
    returns (o: Outcome)
    requires Run(reg, calls, states, steps) && k < |states| && states[k].stage != Waiting && i < |calls|
    requires calls[i].name in reg ==> !reg[calls[i].name].marked
    ensures if calls[i].name in reg then Gives(reg[calls[i].name].kind, calls[i].id, calls[i].arguments, o)
            else o == Outcome("", "tool not found: " + calls[i].name, [])
    ensures Yields(calls, states[k], i, [ToolExecStart(calls[i].id, calls[i].name)], o,
                   if calls[i].name in reg then Some(calls[i].arguments) else None)
  {
    RunIsOk(reg, calls, states, steps, k);
    UndecidedCall(reg, calls, states[k], i);
    o := CallYields(reg, calls, states[k], i);
  }

  lemma UndecidedCall(reg: Registry, calls: seq<ToolUseContent>, s: System, i: nat)
    requires SystemOk(reg, calls, s) && AllFinished(s) && i < |calls|
    requires calls[i].name in reg ==> !reg[calls[i].name].marked
    ensures s.locals[i].decision == None && EffectiveArgs(calls[i], s.locals[i].decision) == calls[i].arguments
    ensures Opening(reg, calls[i]) == [ToolExecStart(calls[i].id, calls[i].name)]
  {
    assert CallOk(reg, calls, s, i);
  }

  /** A marked one has asked the consumer, showing the arguments of the call, and follows an answer the
      consumer gave: approved, it has given what its tool gives for the arguments in the answer, or else
      those of the call; rejected, an error and no run of the tool. */
  lemma MarkedYields(reg: Registry, calls: seq<ToolUseContent>, states: seq<System>, steps: seq<Step>, k: nat,
                     i: nat)
    returns (o: Outcome, r: Resolution)
    requires Run(reg, calls, states, steps) && k < |states| && states[k].stage != Waiting && i < |calls|
    requires calls[i].name in reg && reg[calls[i].name].marked
    ensures Answer(calls[i].id, r) in states[k].answers
    ensures var args := if r.modifiedArgs.Some? then r.modifiedArgs.value else calls[i].arguments;
      && (if r.approved then Gives(reg[calls[i].name].kind, calls[i].id, args, o)
          else o == Outcome("", if r.message == "" then "rejected" else "rejected: " + r.message, []))
      && Yields(calls, states[k], i, [ToolExecStart(calls[i].id, calls[i].name),
                                      Marker(calls[i].id, calls[i].name, calls[i].arguments)],
                o, if r.approved then Some(args) else None)
  {
    RunIsOk(reg, calls, states, steps, k);
    assert CallOk(reg, calls, states[k], i);
    o := CallYields(reg, calls, states[k], i);
    r := states[k].locals[i].decision.value;
    assert Opening(reg, calls[i]) == [ToolExecStart(calls[i].id, calls[i].name),
                                      Marker(calls[i].id, calls[i].name, calls[i].arguments)];
  }

  /** The stream holds at most 128 deltas the consumer has not taken; a call with a delta to send waits
      exactly when it is full, and nothing else makes a call wait but a missing answer. */
  lemma StreamIsBounded(reg: Registry, calls: seq<ToolUseContent>, states: seq<System>, steps: seq<Step>, k: nat,
                        i: nat)
    requires Run(reg, calls, states, steps) && k < |states| && i < |calls|
    ensures var s := states[k];
      && |s.locals| == |calls| && s.taken <= |s.log| <= s.taken + 128
      && (!s.locals[i].pc.Finished? && !Enabled(reg, calls, s, Go(i)) ==>
            |s.log| == s.taken + 128 || (s.locals[i].pc.Awaiting? && s.locals[i].buffer == None))
  {
    RunIsOk(reg, calls, states, steps, k);
    assert CallOk(reg, calls, states[k], i);
  }
}
