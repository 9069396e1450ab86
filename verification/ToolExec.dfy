/** Running the tool calls of one message concurrently (agent/agent.go, executeToolsConcurrently;
    agent/stream.go).

    A state machine over the steps of the goroutines, the consumer and the loop, without
    cancellation.  A goroutine is determined by its local state, so its steps are a function;
    which one moves next is open. */
module ToolExec {
  import opened Messages

  // ---- tools ----

  datatype RunResult = RunResult(text: string, error: string)

  datatype AgentRun = AgentRun(deltas: seq<Delta>, error: string)

  /** A regular tool, or a sub-agent whose deltas are forwarded. */
  datatype Kind = Plain(execute: Args -> RunResult) | SubAgent(invoke: Args -> AgentRun)

  /** `marked` when the call needs the consumer's approval.  A marked tool without markers behaves
      like a plain tool. */
  datatype Tool = Tool(marked: bool, kind: Kind)

  type Registry = map<string, Tool>

  datatype Resolution = Resolution(approved: bool, modifiedArgs: Option<Args>, message: string)

  datatype ToolResult = ToolResult(toolCallID: string, result: string, error: string)

  const NO_RESULT := ToolResult("", "", "")

  function TextOf(deltas: seq<Delta>): string {
    if deltas == [] then ""
    else
      var d := deltas[|deltas| - 1];
      TextOf(deltas[..|deltas| - 1]) + if d.TextPart? then d.content else ""
  }

  // ---- what one call does by itself ----

  function Needs(reg: Registry, call: ToolUseContent): bool {
    call.name in reg && reg[call.name].marked
  }

  function EffectiveArgs(call: ToolUseContent, decision: Option<Resolution>): Args {
    if decision.Some? && decision.value.modifiedArgs.Some? then decision.value.modifiedArgs.value else call.arguments
  }

  function Rejection(r: Resolution): string {
    if r.message == "" then "rejected" else "rejected: " + r.message
  }

  function Rejected(decision: Option<Resolution>): bool {
    decision.Some? && !decision.value.approved
  }

  /** The inner tool is run in the end. */
  predicate Runs(reg: Registry, call: ToolUseContent, decision: Option<Resolution>) {
    call.name in reg && !Rejected(decision)
  }

  function RunTool(tool: Tool, id: string, args: Args): ToolResult {
    match tool.kind
    case Plain(execute) => ToolResult(id, execute(args).text, execute(args).error)
    case SubAgent(invoke) => ToolResult(id, TextOf(invoke(args).deltas), invoke(args).error)
  }

  /** The result of a call, from the call and the decision about it alone. */
  function ResultOf(reg: Registry, call: ToolUseContent, decision: Option<Resolution>): (r: ToolResult)
    ensures r.toolCallID == call.id
  {
    if call.name !in reg then ToolResult(call.id, "", "tool not found: " + call.name)
    else if Rejected(decision) then ToolResult(call.id, "", Rejection(decision.value))
    else RunTool(reg[call.name], call.id, EffectiveArgs(call, decision))
  }

  function Opening(reg: Registry, call: ToolUseContent): seq<Delta> {
    [ToolExecStart(call.id, call.name)] +
    if Needs(reg, call) then [Marker(call.id, call.name, call.arguments)] else []
  }

  function Wrapped(id: string, deltas: seq<Delta>): seq<Delta> {
    seq(|deltas|, i requires 0 <= i < |deltas| => ToolExecPart(id, deltas[i]))
  }

  function Forwarded(reg: Registry, call: ToolUseContent, decision: Option<Resolution>): seq<Delta> {
    if Runs(reg, call, decision) && reg[call.name].kind.SubAgent?
    then Wrapped(call.id, reg[call.name].kind.invoke(EffectiveArgs(call, decision)).deltas)
    else []
  }

  function EndDelta(r: ToolResult): Delta {
    ToolExecEnd(r.toolCallID, r.result, r.error)
  }

  /** All a call emits, from the call and the decision about it alone. */
  function Trace(reg: Registry, call: ToolUseContent, decision: Option<Resolution>): seq<Delta> {
    Opening(reg, call) + Forwarded(reg, call, decision) + [EndDelta(ResultOf(reg, call, decision))]
  }

  // ---- one goroutine ----

  datatype Pc =
    | Fresh
    | Looking
    | Registering
    | Awaiting
    | Running(args: Args)
    | Forwarding(args: Args, k: nat)
    | Ending
    | Finished

  /** `buffer` is the goroutine's resolution channel, which holds one element. */
  datatype Local = Local(pc: Pc, decision: Option<Resolution>, result: ToolResult, buffer: Option<Resolution>)

  /** A step: the new local state, a delta to be sent, and the arguments of a tool run. */
  datatype Move =
    | Blocked
    | Move(next: Local, send: Option<Delta>, runs: Option<Args>, registers: bool)

  function Silent(next: Local): Move {
    Move(next, None, None, false)
  }

  function Sending(next: Local, d: Delta): Move {
    Move(next, Some(d), None, false)
  }

  function GoStep(reg: Registry, call: ToolUseContent, l: Local): Move {
    match l.pc
    case Fresh => Sending(l.(pc := Looking), ToolExecStart(call.id, call.name))
    case Looking =>
      if call.name !in reg then Silent(l.(pc := Ending, result := ResultOf(reg, call, None)))
      else if reg[call.name].marked
      then Sending(l.(pc := Registering), Marker(call.id, call.name, call.arguments))
      else Silent(l.(pc := Running(call.arguments)))
    case Registering => Move(l.(pc := Awaiting, buffer := None), None, None, true)
    case Awaiting =>
      if l.buffer.None? then Blocked
      else
        var r := l.buffer.value;
        var heard := l.(decision := Some(r), buffer := None);
        if !r.approved then Silent(heard.(pc := Ending, result := ToolResult(call.id, "", Rejection(r))))
        else Silent(heard.(pc := Running(if r.modifiedArgs.Some? then r.modifiedArgs.value else call.arguments)))
    case Running(args) =>
      if call.name !in reg then Blocked
      else (
        match reg[call.name].kind
        case Plain(execute) =>
          Move(l.(pc := Ending, result := RunTool(reg[call.name], call.id, args)), None, Some(args), false)
        case SubAgent(_) => Move(l.(pc := Forwarding(args, 0)), None, Some(args), false))
    case Forwarding(args, k) =>
      if call.name !in reg || !reg[call.name].kind.SubAgent? then Blocked
      else
        var deltas := reg[call.name].kind.invoke(args).deltas;
        if k < |deltas| then Sending(l.(pc := Forwarding(args, k + 1)), ToolExecPart(call.id, deltas[k]))
        else Silent(l.(pc := Ending, result := RunTool(reg[call.name], call.id, args)))
    case Ending => Sending(l.(pc := Finished), EndDelta(l.result))
    case Finished => Blocked
  }

  /** What the call has emitted when it is in state `l`. */
  ghost function Emitted(reg: Registry, call: ToolUseContent, l: Local): seq<Delta> {
    match l.pc
    case Fresh => []
    case Looking => [ToolExecStart(call.id, call.name)]
    case Forwarding(_, k) =>
      var all := Forwarded(reg, call, l.decision);
      if k <= |all| then Opening(reg, call) + all[..k] else []
    case Ending => Opening(reg, call) + Forwarded(reg, call, l.decision)
    case Finished => Trace(reg, call, l.decision)
    case _ => Opening(reg, call)
  }

  /** The runs of the inner tool so far. */
  ghost function RunsSoFar(reg: Registry, call: ToolUseContent, l: Local): seq<Args> {
    if (l.pc.Forwarding? || l.pc.Ending? || l.pc.Finished?) && Runs(reg, call, l.decision)
    then [EffectiveArgs(call, l.decision)] else []
  }

  ghost predicate LocalOk(reg: Registry, call: ToolUseContent, l: Local) {
    match l.pc
    case Fresh => l.decision == None && l.buffer == None
    case Looking => l.decision == None && l.buffer == None
    case Registering => l.decision == None && l.buffer == None && Needs(reg, call)
    case Awaiting => l.decision == None && Needs(reg, call)
    case Running(args) => Cleared(reg, call, l) && args == EffectiveArgs(call, l.decision)
    case Forwarding(args, k) =>
      && Cleared(reg, call, l) && args == EffectiveArgs(call, l.decision)
      && reg[call.name].kind.SubAgent? && k <= |Forwarded(reg, call, l.decision)|
    case _ => (Needs(reg, call) <==> l.decision.Some?) && l.result == ResultOf(reg, call, l.decision)
  }

  /** The tool exists, and has been approved if it is marked. */
  ghost predicate Cleared(reg: Registry, call: ToolUseContent, l: Local) {
    call.name in reg && (Needs(reg, call) <==> l.decision.Some?) && !Rejected(l.decision)
  }

  function AsSeq<T>(o: Option<T>): seq<T> {
    if o.Some? then [o.value] else []
  }

  lemma GoStepOk(reg: Registry, call: ToolUseContent, l: Local)
    requires LocalOk(reg, call, l) && GoStep(reg, call, l).Move?
    ensures var m := GoStep(reg, call, l);
      && LocalOk(reg, call, m.next)
      && Emitted(reg, call, m.next) == Emitted(reg, call, l) + AsSeq(m.send)
      && RunsSoFar(reg, call, m.next) == RunsSoFar(reg, call, l) + AsSeq(m.runs)
  {
    var all := Forwarded(reg, call, l.decision);
    if l.pc.Forwarding? && l.pc.k < |all| {
      assert all[..l.pc.k + 1] == all[..l.pc.k] + [all[l.pc.k]];
    } else if l.pc.Forwarding? {
      assert all[..l.pc.k] == all;
    } else if l.pc.Running? && reg[call.name].kind.SubAgent? {
      assert all[..0] == [];
    }
  }

  // ---- the system ----

  /** Who sent a delta: a call of the batch, the loop since the batch was collected, or anyone before. */
  datatype Source = FromCall(i: nat) | FromLoop | Earlier

  datatype Event = Event(source: Source, delta: Delta)

  datatype Stage = Waiting | Collected | SaidDone | Closed

  datatype Answer = Answer(id: string, resolution: Resolution)

  /** `log` is everything sent on the stream, of which the consumer has taken the first `taken`.
      `channels` is the map of registered resolution channels, a channel being named after its
      goroutine, or None when it is left from an earlier batch; `inFlight` are the consumer's sends
      that have found a channel and wait for room.
      `runs` and `answers` record tool runs and the consumer's answers. */
  datatype System = System(
    locals: seq<Local>,
    log: seq<Event>,
    taken: nat,
    channels: map<string, Option<nat>>,
    inFlight: seq<(Option<nat>, Resolution)>,
    stage: Stage,
    runs: seq<(nat, Args)>,
    answers: seq<Answer>)

  const CAPACITY := 128

  datatype Step =
    | Go(i: nat)
    | Take
    | Resolve(answer: Answer)
    | Deliver(k: nat)
    | Collect
    | Say(delta: Delta)
    | SayDone
    | CloseStream

  function Start(calls: seq<ToolUseContent>): System {
    System(seq(|calls|, i => Local(Fresh, None, NO_RESULT, None)), [], 0, map[], [], Waiting, [], [])
  }

  /** A batch may begin: all calls fresh, on a stream that has carried anything but Done before, with
      channels left over. */
  ghost predicate Begins(calls: seq<ToolUseContent>, s: System) {
    && s.locals == Start(calls).locals && s.stage == Waiting && s.runs == [] && s.answers == []
    && (forall k | 0 <= k < |s.log| :: s.log[k].source == Earlier && s.log[k].delta != Done)
    && s.taken <= |s.log| <= s.taken + CAPACITY
    && (forall id | id in s.channels :: s.channels[id] == None)
    && (forall k | 0 <= k < |s.inFlight| :: s.inFlight[k].0 == None)
  }

  predicate HasRoom(s: System) {
    |s.log| < s.taken + CAPACITY
  }

  predicate Enabled(reg: Registry, calls: seq<ToolUseContent>, s: System, step: Step)
    requires |s.locals| == |calls|
  {
    match step
    case Go(i) =>
      && i < |calls| && GoStep(reg, calls[i], s.locals[i]).Move?
      && (GoStep(reg, calls[i], s.locals[i]).send.Some? ==> HasRoom(s))
    case Take => s.taken < |s.log|
    case Resolve(_) => true
    case Deliver(k) =>
      && k < |s.inFlight| && s.inFlight[k].0.Some? && s.inFlight[k].0.value < |calls|
      && s.locals[s.inFlight[k].0.value].buffer.None?
    case Collect => s.stage.Waiting? && forall i | 0 <= i < |calls| :: s.locals[i].pc.Finished?
    case Say(d) => s.stage.Collected? && d != Done && HasRoom(s)
    case SayDone => s.stage.Collected? && HasRoom(s)
    case CloseStream => s.stage.SaidDone?
  }

  function AfterGo(calls: seq<ToolUseContent>, s: System, i: nat, m: Move): System
    requires |s.locals| == |calls| && i < |calls| && m.Move?
  {
    s.(locals := s.locals[i := m.next],
       log := if m.send.Some? then s.log + [Event(FromCall(i), m.send.value)] else s.log,
       runs := if m.runs.Some? then s.runs + [(i, m.runs.value)] else s.runs,
       channels := if m.registers then s.channels[calls[i].id := Some(i)] else s.channels)
  }

  /** An answer to a call without a registered channel is dropped. */
  function AfterResolve(s: System, answer: Answer): System {
    if answer.id !in s.channels then s
    else s.(inFlight := s.inFlight + [(s.channels[answer.id], answer.resolution)], answers := s.answers + [answer])
  }

  function AfterDeliver(s: System, k: nat): System
    requires k < |s.inFlight| && s.inFlight[k].0.Some? && s.inFlight[k].0.value < |s.locals|
  {
    var (c, r) := (s.inFlight[k].0.value, s.inFlight[k].1);
    s.(locals := s.locals[c := s.locals[c].(buffer := Some(r))], inFlight := s.inFlight[..k] + s.inFlight[k + 1..])
  }

  function Do(reg: Registry, calls: seq<ToolUseContent>, s: System, step: Step): System
    requires |s.locals| == |calls| && Enabled(reg, calls, s, step)
  {
    match step
    case Go(i) => AfterGo(calls, s, i, GoStep(reg, calls[i], s.locals[i]))
    case Take => s.(taken := s.taken + 1)
    case Resolve(answer) => AfterResolve(s, answer)
    case Deliver(k) => AfterDeliver(s, k)
    case Collect => s.(stage := Collected)
    case Say(d) => s.(log := s.log + [Event(FromLoop, d)])
    case SayDone => s.(stage := SaidDone, log := s.log + [Event(FromLoop, Done)])
    case CloseStream => s.(stage := Closed)
  }

  // ---- the invariant ----

  /** The deltas of call `i`. */
  ghost function SentBy(log: seq<Event>, i: nat): seq<Delta> {
    if log == [] then []
    else
      var e := log[|log| - 1];
      SentBy(log[..|log| - 1], i) + if e.source == FromCall(i) then [e.delta] else []
  }

  ghost function RunsOf(runs: seq<(nat, Args)>, i: nat): seq<Args> {
    if runs == [] then []
    else
      var e := runs[|runs| - 1];
      RunsOf(runs[..|runs| - 1], i) + if e.0 == i then [e.1] else []
  }

  /** The consumer gave this answer to a call with this identifier. */
  ghost predicate Answered(s: System, id: string, r: Option<Resolution>) {
    r.Some? ==> Answer(id, r.value) in s.answers
  }

  ghost predicate CallOk(reg: Registry, calls: seq<ToolUseContent>, s: System, i: nat)
    requires |s.locals| == |calls| && i < |calls|
  {
    && LocalOk(reg, calls[i], s.locals[i])
    && SentBy(s.log, i) == Emitted(reg, calls[i], s.locals[i])
    && RunsOf(s.runs, i) == RunsSoFar(reg, calls[i], s.locals[i])
    && Answered(s, calls[i].id, s.locals[i].decision)
    && Answered(s, calls[i].id, s.locals[i].buffer)
  }

  ghost predicate ChannelsOk(reg: Registry, calls: seq<ToolUseContent>, s: System)
    requires |s.locals| == |calls|
  {
    && (forall i | 0 <= i < |calls| && Needs(reg, calls[i]) && Registered(s.locals[i]) ::
          calls[i].id in s.channels && s.channels[calls[i].id].Some?)
    && (forall id | id in s.channels && s.channels[id].Some? ::
          var c := s.channels[id].value;
          c < |calls| && calls[c].id == id && Registered(s.locals[c]) && Needs(reg, calls[c]))
    && (forall k | 0 <= k < |s.inFlight| && s.inFlight[k].0.Some? ::
          var c := s.inFlight[k].0.value;
          c < |calls| && Registered(s.locals[c]) && Answer(calls[c].id, s.inFlight[k].1) in s.answers)
  }

  ghost predicate Registered(l: Local) {
    l.pc != Fresh && l.pc != Looking && l.pc != Registering
  }

  ghost predicate AllFinished(s: System) {
    forall i | 0 <= i < |s.locals| :: s.locals[i].pc.Finished?
  }

  /** Done is the last thing sent, and only after every call has finished. */
  ghost predicate StageOk(s: System) {
    && (s.stage != Waiting ==> AllFinished(s))
    && (forall k | 0 <= k < |s.log| && s.log[k].delta == Done :: k == |s.log| - 1)
    && (s.stage == SaidDone || s.stage == Closed <==> s.log != [] && s.log[|s.log| - 1].delta == Done)
    && s.taken <= |s.log| <= s.taken + CAPACITY
  }

  ghost predicate SystemOk(reg: Registry, calls: seq<ToolUseContent>, s: System) {
    && |s.locals| == |calls|
    && (forall i {:trigger CallOk(reg, calls, s, i)} | 0 <= i < |calls| :: CallOk(reg, calls, s, i))
    && ChannelsOk(reg, calls, s) && StageOk(s)
  }

  lemma SentByAppend(log: seq<Event>, e: Event, i: nat)
    ensures SentBy(log + [e], i) == SentBy(log, i) + if e.source == FromCall(i) then [e.delta] else []
  {
    assert (log + [e])[..|log|] == log;
  }

  lemma RunsOfAppend(runs: seq<(nat, Args)>, e: (nat, Args), i: nat)
    ensures RunsOf(runs + [e], i) == RunsOf(runs, i) + if e.0 == i then [e.1] else []
  {
    assert (runs + [e])[..|runs|] == runs;
  }

  lemma MoveAppends(calls: seq<ToolUseContent>, s: System, i: nat, m: Move, j: nat)
    requires |s.locals| == |calls| && i < |calls| && m.Move?
    ensures SentBy(AfterGo(calls, s, i, m).log, j) == SentBy(s.log, j) + if i == j then AsSeq(m.send) else []
    ensures RunsOf(AfterGo(calls, s, i, m).runs, j) == RunsOf(s.runs, j) + if i == j then AsSeq(m.runs) else []
  {
    if m.send.Some? {
      SentByAppend(s.log, Event(FromCall(i), m.send.value), j);
    }
    if m.runs.Some? {
      RunsOfAppend(s.runs, (i, m.runs.value), j);
    }
  }

  lemma MoveKeepsOthers(reg: Registry, calls: seq<ToolUseContent>, s: System, i: nat, m: Move, j: nat)
    requires |s.locals| == |calls| && i < |calls| && j < |calls| && i != j && m.Move? && CallOk(reg, calls, s, j)
    ensures CallOk(reg, calls, AfterGo(calls, s, i, m), j)
  {
    MoveAppends(calls, s, i, m, j);
  }

  lemma GoKeepsCall(reg: Registry, calls: seq<ToolUseContent>, s: System, i: nat)
    requires |s.locals| == |calls| && i < |calls|
    requires CallOk(reg, calls, s, i) && GoStep(reg, calls[i], s.locals[i]).Move?
    ensures CallOk(reg, calls, AfterGo(calls, s, i, GoStep(reg, calls[i], s.locals[i])), i)
  {
    MoveAppends(calls, s, i, GoStep(reg, calls[i], s.locals[i]), i);
    GoStepOk(reg, calls[i], s.locals[i]);
    GoStepHears(reg, calls[i], s.locals[i]);
  }

  /** What a goroutine knows of the consumer's answers it has from its channel. */
  lemma GoStepHears(reg: Registry, call: ToolUseContent, l: Local)
    requires GoStep(reg, call, l).Move?
    ensures var l' := GoStep(reg, call, l).next;
      && (l'.decision == l.decision || l'.decision == l.buffer)
      && (l'.buffer == l.buffer || l'.buffer == None)
  {
  }

  lemma GoKeepsChannels(reg: Registry, calls: seq<ToolUseContent>, s: System, i: nat)
    requires |s.locals| == |calls| && ChannelsOk(reg, calls, s) && i < |calls|
      && LocalOk(reg, calls[i], s.locals[i]) && GoStep(reg, calls[i], s.locals[i]).Move?
    ensures ChannelsOk(reg, calls, AfterGo(calls, s, i, GoStep(reg, calls[i], s.locals[i])))
  {
    var m := GoStep(reg, calls[i], s.locals[i]);
    assert Registered(s.locals[i]) || m.registers ==> Registered(m.next);
    assert m.registers ==> Needs(reg, calls[i]);
  }

  lemma GoKeepsStage(reg: Registry, calls: seq<ToolUseContent>, s: System, i: nat)
    requires |s.locals| == |calls| && StageOk(s) && i < |calls|
    requires GoStep(reg, calls[i], s.locals[i]).Move?
    requires GoStep(reg, calls[i], s.locals[i]).send.Some? ==> HasRoom(s)
    ensures StageOk(AfterGo(calls, s, i, GoStep(reg, calls[i], s.locals[i])))
  {
    assert !s.locals[i].pc.Finished?;
    assert s.stage == Waiting;
  }

  lemma GoKeepsOk(reg: Registry, calls: seq<ToolUseContent>, s: System, i: nat)
    requires SystemOk(reg, calls, s) && Enabled(reg, calls, s, Go(i))
    ensures SystemOk(reg, calls, Do(reg, calls, s, Go(i)))
  {
    var m := GoStep(reg, calls[i], s.locals[i]);
    forall j | 0 <= j < |calls| ensures CallOk(reg, calls, AfterGo(calls, s, i, m), j) {
      assert CallOk(reg, calls, s, i) && CallOk(reg, calls, s, j);
      if i == j {
        GoKeepsCall(reg, calls, s, i);
      } else {
        MoveKeepsOthers(reg, calls, s, i, m, j);
      }
    }
    assert CallOk(reg, calls, s, i);
    GoKeepsChannels(reg, calls, s, i);
    GoKeepsStage(reg, calls, s, i);
  }

  /** The consumer and the loop leave the calls alone. */
  lemma OtherStepsKeepCalls(reg: Registry, calls: seq<ToolUseContent>, s: System, step: Step, j: nat)
    requires SystemOk(reg, calls, s) && Enabled(reg, calls, s, step) && !step.Go? && j < |calls|
    ensures CallOk(reg, calls, Do(reg, calls, s, step), j)
  {
    assert CallOk(reg, calls, s, j);
    if step.SayDone? {
      SentByAppend(s.log, Event(FromLoop, Done), j);
    } else if step.Say? {
      SentByAppend(s.log, Event(FromLoop, step.delta), j);
    }
  }

  lemma OtherStepsKeepChannels(reg: Registry, calls: seq<ToolUseContent>, s: System, step: Step)
    requires |s.locals| == |calls| && ChannelsOk(reg, calls, s) && Enabled(reg, calls, s, step) && !step.Go?
    ensures |Do(reg, calls, s, step).locals| == |calls| && ChannelsOk(reg, calls, Do(reg, calls, s, step))
  {
  }

  lemma OtherStepsKeepStage(reg: Registry, calls: seq<ToolUseContent>, s: System, step: Step)
    requires |s.locals| == |calls| && StageOk(s) && Enabled(reg, calls, s, step) && !step.Go?
    ensures StageOk(Do(reg, calls, s, step))
  {
  }

  lemma StepKeepsOk(reg: Registry, calls: seq<ToolUseContent>, s: System, step: Step)
    requires SystemOk(reg, calls, s) && Enabled(reg, calls, s, step)
    ensures SystemOk(reg, calls, Do(reg, calls, s, step))
  {
    if step.Go? {
      GoKeepsOk(reg, calls, s, step.i);
    } else {
      forall j | 0 <= j < |calls| ensures CallOk(reg, calls, Do(reg, calls, s, step), j) {
        OtherStepsKeepCalls(reg, calls, s, step, j);
      }
      OtherStepsKeepChannels(reg, calls, s, step);
      OtherStepsKeepStage(reg, calls, s, step);
    }
  }

  // ---- whole runs ----

  ghost predicate Run(reg: Registry, calls: seq<ToolUseContent>, states: seq<System>, steps: seq<Step>) {
    && |states| == |steps| + 1 && Begins(calls, states[0])
    && forall k {:trigger StepAt(reg, calls, states, steps, k)} | 0 <= k < |steps| ::
      StepAt(reg, calls, states, steps, k)
  }

  ghost predicate StepAt(reg: Registry, calls: seq<ToolUseContent>, states: seq<System>, steps: seq<Step>, k: nat)
    requires k < |steps| && |states| == |steps| + 1
  {
    Follows(reg, calls, states[k], steps[k], states[k + 1])
  }

  ghost predicate Follows(reg: Registry, calls: seq<ToolUseContent>, s: System, step: Step, s': System) {
    |s.locals| == |calls| && Enabled(reg, calls, s, step) && s' == Do(reg, calls, s, step)
  }

  lemma {:induction false} NothingSent(log: seq<Event>, i: nat)
    requires forall k | 0 <= k < |log| :: log[k].source == Earlier
    ensures SentBy(log, i) == []
  {
    if log != [] {
      NothingSent(log[..|log| - 1], i);
    }
  }

  lemma BeginOk(reg: Registry, calls: seq<ToolUseContent>, s: System)
    requires Begins(calls, s)
    ensures SystemOk(reg, calls, s)
  {
    forall i | 0 <= i < |calls| ensures CallOk(reg, calls, s, i) {
      NothingSent(s.log, i);
    }
  }

  lemma {:induction false} RunIsOk(reg: Registry, calls: seq<ToolUseContent>, states: seq<System>, steps: seq<Step>,
                                   k: nat)
    requires Run(reg, calls, states, steps) && k < |states|
    ensures SystemOk(reg, calls, states[k])
  {
    if k == 0 {
      BeginOk(reg, calls, states[0]);
    } else {
      RunIsOk(reg, calls, states, steps, k - 1);
      assert StepAt(reg, calls, states, steps, k - 1);
      StepKeepsOk(reg, calls, states[k - 1], steps[k - 1]);
    }
  }

  /** However the goroutines interleave: once the results are collected, each is that of its own call
      under the decision about it, as if the calls had been run one after the other; and each call
      has emitted exactly its own deltas. */
  lemma ResultsAreSequential(reg: Registry, calls: seq<ToolUseContent>, states: seq<System>, steps: seq<Step>, k: nat,
                             i: nat)
    requires Run(reg, calls, states, steps) && k < |states| && states[k].stage != Waiting
    requires i < |calls|
    ensures var s := states[k];
      && |s.locals| == |calls|
      && var l := s.locals[i];
      && l.result == ResultOf(reg, calls[i], l.decision) && l.result.toolCallID == calls[i].id
      && SentBy(s.log, i) == Trace(reg, calls[i], l.decision)
      && (Needs(reg, calls[i]) <==> l.decision.Some?)
      && (Needs(reg, calls[i]) ==> Answer(calls[i].id, l.decision.value) in s.answers)
  {
    RunIsOk(reg, calls, states, steps, k);
    assert CallOk(reg, calls, states[k], i);
  }

  /** In every state of every run a tool has run at most once for a call, and a marked one only
      after the consumer approved that call, with the arguments approved. */
  lemma RunsOnlyWhenApproved(reg: Registry, calls: seq<ToolUseContent>, states: seq<System>, steps: seq<Step>, k: nat,
                             i: nat)
    requires Run(reg, calls, states, steps) && k < |states| && i < |calls|
    ensures |RunsOf(states[k].runs, i)| <= 1
    ensures RunsOf(states[k].runs, i) != [] && Needs(reg, calls[i]) ==>
      exists r: Resolution :: r.approved && Answer(calls[i].id, r) in states[k].answers
                              && RunsOf(states[k].runs, i) == [EffectiveArgs(calls[i], Some(r))]
  {
    RunIsOk(reg, calls, states, steps, k);
    var s := states[k];
    assert CallOk(reg, calls, s, i);
    if RunsOf(s.runs, i) != [] && Needs(reg, calls[i]) {
      var r := s.locals[i].decision.value;
      assert r.approved && Answer(calls[i].id, r) in s.answers;
      assert RunsOf(s.runs, i) == [EffectiveArgs(calls[i], Some(r))];
    }
  }

  ghost predicate Marks(d: Delta) {
    d.ToolExecStart? || d.ToolExecEnd?
  }

  /** The deltas of a call are one start, one end, and no start or end in between. */
  lemma OneStartOneEnd(reg: Registry, call: ToolUseContent, decision: Option<Resolution>)
    ensures var t := Trace(reg, call, decision);
      && |t| >= 2 && t[0] == ToolExecStart(call.id, call.name) && t[|t| - 1] == EndDelta(ResultOf(reg, call, decision))
      && forall j | 0 < j < |t| - 1 :: !Marks(t[j])
  {
    var opening, t := Opening(reg, call), Trace(reg, call, decision);
    forall j | 0 < j < |t| - 1 ensures !Marks(t[j]) {
      assert t[j] == if j < |opening| then opening[j] else Forwarded(reg, call, decision)[j - |opening|];
    }
  }

  /** Done is sent once, last, after every call has ended; and nothing follows the closing. */
  lemma {:induction false} NothingAfterClose(reg: Registry, calls: seq<ToolUseContent>, states: seq<System>,
                                             steps: seq<Step>, j: nat, k: nat)
    requires Run(reg, calls, states, steps) && j <= k < |states| && states[j].stage == Closed
    ensures states[k].stage == Closed && states[k].log == states[j].log
    ensures var log := states[k].log;
      && log != [] && log[|log| - 1].delta == Done && AllFinished(states[k])
      && forall m | 0 <= m < |log| - 1 :: log[m].delta != Done
  {
    RunIsOk(reg, calls, states, steps, k);
    if j < k {
      NothingAfterClose(reg, calls, states, steps, j, k - 1);
      RunIsOk(reg, calls, states, steps, k - 1);
      assert StepAt(reg, calls, states, steps, k - 1);
      ClosedStays(reg, calls, states[k - 1], steps[k - 1]);
    }
  }

  lemma ClosedStays(reg: Registry, calls: seq<ToolUseContent>, s: System, step: Step)
    requires SystemOk(reg, calls, s) && Enabled(reg, calls, s, step) && s.stage == Closed
    ensures Do(reg, calls, s, step).stage == Closed && Do(reg, calls, s, step).log == s.log
  {
    assert AllFinished(s);
  }

  // ---- batch after batch ----

  /** What the next batch finds when the results of a batch are collected. */
  function Renewed(s: System, calls: seq<ToolUseContent>): System {
    Start(calls).(log := seq(|s.log|, k requires 0 <= k < |s.log| => Event(Earlier, s.log[k].delta)), taken := s.taken,
                  channels := map id | id in s.channels :: None,
                  inFlight := seq(|s.inFlight|, k requires 0 <= k < |s.inFlight| => (None, s.inFlight[k].1)))
  }

  datatype Batch = Batch(calls: seq<ToolUseContent>, states: seq<System>, steps: seq<Step>)

  /** The batches of one stream: each is run from what the one before it leaves when it is collected. */
  ghost predicate Session(reg: Registry, batches: seq<Batch>) {
    && (forall n | 0 <= n < |batches| ::
          |batches[n].states| == |batches[n].steps| + 1
          && forall k {:trigger StepAt(reg, batches[n].calls, batches[n].states, batches[n].steps, k)}
               | 0 <= k < |batches[n].steps| :: StepAt(reg, batches[n].calls, batches[n].states, batches[n].steps, k))
    && (|batches| > 0 ==> Begins(batches[0].calls, batches[0].states[0]))
    && (forall n | 0 < n < |batches| :: Follow(batches[n - 1], batches[n]))
  }

  ghost predicate Follow(b: Batch, b': Batch) {
    && |b.states| > 0 && |b'.states| > 0
    && b.states[|b.states| - 1].stage == Collected
    && b'.states[0] == Renewed(b.states[|b.states| - 1], b'.calls)
  }

  /** So every batch is a run of its own, and all that is said of runs holds of each: in particular Done
      is sent once on the stream, behind the last batch. */
  lemma {:induction false} BatchesAreRuns(reg: Registry, batches: seq<Batch>, n: nat)
    requires Session(reg, batches) && n < |batches|
    ensures Run(reg, batches[n].calls, batches[n].states, batches[n].steps)
    ensures n < |batches| - 1 ==>
      forall e | e in batches[n].states[|batches[n].states| - 1].log :: e.delta != Done
  {
    var b := batches[n];
    if n > 0 {
      BatchesAreRuns(reg, batches, n - 1);
      var before := batches[n - 1];
      assert Follow(before, b);
      RunIsOk(reg, before.calls, before.states, before.steps, |before.states| - 1);
    }
    if n < |batches| - 1 {
      assert Follow(batches[n], batches[n + 1]);
      RunIsOk(reg, b.calls, b.states, b.steps, |b.states| - 1);
    }
  }

  // ---- answers that arrive early ----

  ghost predicate DistinctIds(calls: seq<ToolUseContent>) {
    forall i, j | 0 <= i < j < |calls| :: calls[i].id != calls[j].id
  }

  /** The answer is on its way to call `c`. */
  ghost predicate Reaches(s: System, answer: Answer, c: nat) {
    AfterResolve(s, answer).inFlight == s.inFlight + [(Some(c), answer.resolution)]
  }

  /** An answer reaches a call with its identifier exactly when some marked call with that identifier
      has registered its channel; else it is dropped, or goes to a channel that is left from an earlier
      batch and that no call reads. */
  lemma AnswerReachesIff(reg: Registry, calls: seq<ToolUseContent>, s: System, answer: Answer)
    requires SystemOk(reg, calls, s)
    ensures (exists c :: 0 <= c < |calls| && calls[c].id == answer.id && Reaches(s, answer, c))
       <==> (exists i :: 0 <= i < |calls| && calls[i].id == answer.id && Needs(reg, calls[i])
                         && Registered(s.locals[i]))
  {
    if answer.id in s.channels {
      var last := |s.inFlight|;
      assert AfterResolve(s, answer).inFlight[last].0 == s.channels[answer.id];
      if s.channels[answer.id].Some? {
        var c := s.channels[answer.id].value;
        assert Reaches(s, answer, c) && calls[c].id == answer.id && Registered(s.locals[c]);
      } else {
        forall c | 0 <= c < |calls| ensures !Reaches(s, answer, c) {
          assert (s.inFlight + [(Some(c), answer.resolution)])[last].0 == Some(c);
        }
      }
    } else {
      forall c | 0 <= c < |calls| ensures !Reaches(s, answer, c) {
        assert |s.inFlight + [(Some(c), answer.resolution)]| != |s.inFlight|;
      }
    }
  }

  /** Where calls have different identifiers, it reaches a marked call exactly when that call has
      registered; the marker, which asks for the answer, is sent before. */
  lemma AnswerAcceptedIffRegistered(reg: Registry, calls: seq<ToolUseContent>, s: System, i: nat, r: Resolution)
    requires SystemOk(reg, calls, s) && DistinctIds(calls) && i < |calls| && Needs(reg, calls[i])
    ensures Reaches(s, Answer(calls[i].id, r), i) <==> Registered(s.locals[i])
  {
    AnswerReachesIff(reg, calls, s, Answer(calls[i].id, r));
    if Registered(s.locals[i]) {
      var c :| 0 <= c < |calls| && calls[c].id == calls[i].id && Reaches(s, Answer(calls[i].id, r), c);
      assert c == i;
    }
  }

  /** Waiting for an answer of which there is no trace. */
  ghost predicate Stuck(s: System, i: nat) {
    && i < |s.locals| && s.locals[i].pc.Awaiting? && s.locals[i].buffer.None?
    && forall k | 0 <= k < |s.inFlight| :: s.inFlight[k].0 != Some(i)
  }

  /** Only another answer to the same call can free it. */
  lemma StuckUntilAnswered(reg: Registry, calls: seq<ToolUseContent>, s: System, step: Step, i: nat)
    requires SystemOk(reg, calls, s) && Enabled(reg, calls, s, step) && Stuck(s, i)
    ensures !Stuck(Do(reg, calls, s, step), i)
       <==> step.Resolve? && step.answer.id in s.channels && s.channels[step.answer.id] == Some(i)
  {
    var s' := Do(reg, calls, s, step);
    if step.Resolve? && step.answer.id in s.channels {
      assert s'.inFlight[|s.inFlight|] == (s.channels[step.answer.id], step.answer.resolution);
    } else if step.Deliver? {
      assert s.inFlight[step.k].0 != Some(i);
      forall k | 0 <= k < |s'.inFlight| ensures s'.inFlight[k].0 != Some(i) {
        assert s'.inFlight[k] == if k < step.k then s.inFlight[k] else s.inFlight[k + 1];
      }
    }
  }

  /** It happens: the consumer takes the marker, approves at once, and the call waits for ever. */
  lemma ApprovalCanBeLost() returns (reg: Registry, calls: seq<ToolUseContent>, states: seq<System>, steps: seq<Step>)
    ensures Run(reg, calls, states, steps) && |calls| == 1 && |steps| == 6 && Needs(reg, calls[0])
    ensures steps[4] == Resolve(Answer(calls[0].id, Resolution(true, None, "")))
    ensures states[4].log == [Event(FromCall(0), ToolExecStart("c", "t")), Event(FromCall(0), Marker("c", "t", map[]))]
    ensures states[4].taken == 2 && Stuck(states[6], 0)
  {
    reg := map["t" := Tool(true, Plain(args => RunResult("", "")))];
    calls := [ToolUseContent("c", "t", map[])];
    steps := [Go(0), Go(0), Take, Take, Resolve(Answer("c", Resolution(true, None, ""))), Go(0)];
    var s0 := Start(calls);
    var s1 := Do(reg, calls, s0, steps[0]);
    var s2 := Do(reg, calls, s1, steps[1]);
    var s3 := Do(reg, calls, s2, steps[2]);
    var s4 := Do(reg, calls, s3, steps[3]);
    var s5 := Do(reg, calls, s4, steps[4]);
    var s6 := Do(reg, calls, s5, steps[5]);
    states := [s0, s1, s2, s3, s4, s5, s6];
    assert Follows(reg, calls, s0, steps[0], s1) && Follows(reg, calls, s1, steps[1], s2);
    assert Follows(reg, calls, s2, steps[2], s3) && Follows(reg, calls, s3, steps[3], s4);
    assert Follows(reg, calls, s4, steps[4], s5) && Follows(reg, calls, s5, steps[5], s6);
    assert forall k | 0 <= k < |steps| :: StepAt(reg, calls, states, steps, k);
  }
}
