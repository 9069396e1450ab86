/** Turning stream deltas into a message and messages into deltas (agent/aggregator.go,
    agent/stream.go). */
module Aggregators {
  import opened Messages

  datatype State = State(
    blocks: seq<AssistantContent>,
    textBuf: string,
    inText: bool,
    toolID: string,
    toolName: string,
    argsBuf: string,
    inTool: bool,
    thinkingBuf: string,
    inThinking: bool)

  const FRESH := State([], "", false, "", "", "", false, "", false)

  /** The state after one delta.  The arguments of a tool call are those of its end; the text
      collected meanwhile is not used. */
  function Pushed(s: State, d: Delta): State {
    match d
    case ThinkingStart => s.(inThinking := true, thinkingBuf := "")
    case ThinkingPart(content) => if s.inThinking then s.(thinkingBuf := s.thinkingBuf + content) else s
    case ThinkingEnd(signature) =>
      if s.inThinking then s.(blocks := s.blocks + [Thinking(s.thinkingBuf, signature)], inThinking := false) else s
    case TextStart => s.(inText := true, textBuf := "")
    case TextPart(content) => if s.inText then s.(textBuf := s.textBuf + content) else s
    case TextEnd => if s.inText then s.(blocks := s.blocks + [AssistantText(s.textBuf)], inText := false) else s
    case ToolCallStart(id, name) => s.(inTool := true, toolID := id, toolName := name, argsBuf := "")
    case ToolCallArgument(content) => if s.inTool then s.(argsBuf := s.argsBuf + content) else s
    case ToolCallEnd(arguments) =>
      if s.inTool
      then s.(blocks := s.blocks + [ToolUse(ToolUseContent(s.toolID, s.toolName, arguments))], inTool := false)
      else s
    case _ => s
  }

  /** The message so far: an open text counts when it is not empty; no content is no message. */
  function Finished(s: State): Option<Message> {
    var blocks := if s.inText && s.textBuf != "" then s.blocks + [AssistantText(s.textBuf)] else s.blocks;
    if blocks == [] then None else Some(AssistantMessage(blocks))
  }

  class Aggregator {
    var contentBlocks: seq<AssistantContent>
    var textBuf: string
    var inText: bool
    var toolID: string
    var toolName: string
    var argsBuf: string
    var inTool: bool
    var thinkingBuf: string
    var inThinking: bool

    ghost function Value(): State
      reads this
    {
      State(contentBlocks, textBuf, inText, toolID, toolName, argsBuf, inTool, thinkingBuf, inThinking)
    }

    constructor ()
      ensures Value() == FRESH
    {
      contentBlocks, textBuf, inText := [], "", false;
      toolID, toolName, argsBuf, inTool := "", "", "", false;
      thinkingBuf, inThinking := "", false;
    }

    method Push(d: Delta)
      modifies this
      ensures Value() == Pushed(old(Value()), d)
    {
      match d
      case ThinkingStart =>
        inThinking, thinkingBuf := true, "";
      case ThinkingPart(content) =>
        if inThinking {
          thinkingBuf := thinkingBuf + content;
        }
      case ThinkingEnd(signature) =>
        if inThinking {
          contentBlocks := contentBlocks + [Thinking(thinkingBuf, signature)];
          inThinking := false;
        }
      case TextStart =>
        inText, textBuf := true, "";
      case TextPart(content) =>
        if inText {
          textBuf := textBuf + content;
        }
      case TextEnd =>
        if inText {
          contentBlocks := contentBlocks + [AssistantText(textBuf)];
          inText := false;
        }
      case ToolCallStart(id, name) =>
        inTool, toolID, toolName, argsBuf := true, id, name, "";
      case ToolCallArgument(content) =>
        if inTool {
          argsBuf := argsBuf + content;
        }
      case ToolCallEnd(arguments) =>
        if inTool {
          contentBlocks := contentBlocks + [ToolUse(ToolUseContent(toolID, toolName, arguments))];
          inTool := false;
        }
      case _ =>
    }

    method Message() returns (m: Option<Message>)
      ensures m == Finished(Value())
    {
      var blocks := contentBlocks;
      if inText && |textBuf| > 0 {
        blocks := blocks + [AssistantText(textBuf)];
      }
      m := if |blocks| == 0 then None else Some(AssistantMessage(blocks));
    }

    method Reset()
      modifies this
      ensures Value() == FRESH
    {
      contentBlocks, textBuf, inText := [], "", false;
      toolID, toolName, argsBuf, inTool := "", "", "", false;
      thinkingBuf, inThinking := "", false;
    }
  }

  ghost function PushAll(s: State, ds: seq<Delta>): State {
    if ds == [] then s else Pushed(PushAll(s, ds[..|ds| - 1]), ds[|ds| - 1])
  }

  lemma {:induction false} PushAllConcat(s: State, a: seq<Delta>, b: seq<Delta>)
    ensures PushAll(s, a + b) == PushAll(PushAll(s, a), b)
  {
    if b == [] {
      assert a + b == a;
    } else {
      PushAllConcat(s, a, b[..|b| - 1]);
      assert (a + b)[..|a + b| - 1] == a + b[..|b| - 1];
    }
  }

  lemma PushOne(s: State, d: Delta)
    ensures PushAll(s, [d]) == Pushed(s, d)
  {
    assert [d][..0] == [];
    assert PushAll(s, []) == s;
  }

  lemma PushTwo(s: State, d: Delta, e: Delta)
    ensures PushAll(s, [d, e]) == Pushed(Pushed(s, d), e)
  {
    PushOne(s, d);
    assert [d, e][..1] == [d];
  }

  lemma PushThree(s: State, d: Delta, e: Delta, f: Delta)
    ensures PushAll(s, [d, e, f]) == Pushed(Pushed(Pushed(s, d), e), f)
  {
    PushTwo(s, d, e);
    assert [d, e, f][..2] == [d, e];
  }

  // ---- replaying stored messages ----

  function BlockDeltas(c: AssistantContent): seq<Delta> {
    match c
    case Thinking(thinking, signature) => [ThinkingStart, ThinkingPart(thinking), ThinkingEnd(signature)]
    case AssistantText(text) => [TextStart, TextPart(text), TextEnd]
    case ToolUse(call) => [ToolCallStart(call.id, call.name), ToolCallEnd(call.arguments)]
  }

  function ResultDeltas(r: ToolResultContent): seq<Delta> {
    [ToolExecStart(r.toolCallID, ""), ToolExecEnd(r.toolCallID, r.text, "")]
  }

  function SystemDeltas(c: SystemContent): seq<Delta> {
    if c.SystemToolResult? then ResultDeltas(c.result) else []
  }

  function UserDeltas(c: UserContent): seq<Delta> {
    match c
    case UserToolResult(result) => ResultDeltas(result)
    case UserFeedback(feedback) => [FeedbackDelta(feedback)]
    case _ => []
  }

  function ConcatMap<T>(f: T -> seq<Delta>, s: seq<T>): seq<Delta> {
    if s == [] then [] else ConcatMap(f, s[..|s| - 1]) + f(s[|s| - 1])
  }

  function MessageDeltas(m: Message): seq<Delta> {
    match m
    case AssistantMessage(content) => ConcatMap(BlockDeltas, content)
    case SystemMessage(content) => ConcatMap(SystemDeltas, content)
    case UserMessage(content) => ConcatMap(UserDeltas, content)
  }

  /** What a consumer of Replay receives. */
  function ReplayDeltas(messages: seq<Message>): seq<Delta> {
    ConcatMap(MessageDeltas, messages) + [Done]
  }

  method Replay(messages: seq<Message>) returns (sent: seq<Delta>)
    ensures sent == ReplayDeltas(messages)
  {
    sent := [];
    for i := 0 to |messages|
      invariant sent == ConcatMap(MessageDeltas, messages[..i])
    {
      assert messages[..i + 1][..i] == messages[..i];
      var deltas := ReplayMessage(messages[i]);
      sent := sent + deltas;
    }
    assert messages[..|messages|] == messages;
    sent := sent + [Done];
  }

  method ReplayMessage(m: Message) returns (sent: seq<Delta>)
    ensures sent == MessageDeltas(m)
  {
    sent := [];
    match m
    case AssistantMessage(content) =>
      for i := 0 to |content|
        invariant sent == ConcatMap(BlockDeltas, content[..i])
      {
        assert content[..i + 1][..i] == content[..i];
        match content[i]
        case Thinking(thinking, signature) =>
          sent := sent + [ThinkingStart, ThinkingPart(thinking), ThinkingEnd(signature)];
        case AssistantText(text) =>
          sent := sent + [TextStart, TextPart(text), TextEnd];
        case ToolUse(call) =>
          sent := sent + [ToolCallStart(call.id, call.name), ToolCallEnd(call.arguments)];
      }
      assert content[..|content|] == content;
    case SystemMessage(content) =>
      for i := 0 to |content|
        invariant sent == ConcatMap(SystemDeltas, content[..i])
      {
        assert content[..i + 1][..i] == content[..i];
        sent := sent + SystemDeltas(content[i]);
      }
      assert content[..|content|] == content;
    case UserMessage(content) =>
      for i := 0 to |content|
        invariant sent == ConcatMap(UserDeltas, content[..i])
      {
        assert content[..i + 1][..i] == content[..i];
        sent := sent + UserDeltas(content[i]);
      }
      assert content[..|content|] == content;
  }

  // ---- replaying and aggregating ----

  /** Nothing is open, and `blocks` have been collected. */
  ghost predicate Idle(s: State, blocks: seq<AssistantContent>) {
    s.blocks == blocks && !s.inText && !s.inTool && !s.inThinking
  }

  lemma BlockRoundTrip(s: State, c: AssistantContent)
    requires Idle(s, s.blocks)
    ensures Idle(PushAll(s, BlockDeltas(c)), s.blocks + [c])
  {
    match c
    case Thinking(thinking, signature) => ThinkingRoundTrip(s, thinking, signature);
    case AssistantText(text) => TextRoundTrip(s, text);
    case ToolUse(call) => PushTwo(s, ToolCallStart(call.id, call.name), ToolCallEnd(call.arguments));
  }

  lemma ThinkingRoundTrip(s: State, thinking: string, signature: string)
    requires Idle(s, s.blocks)
    ensures Idle(PushAll(s, BlockDeltas(Thinking(thinking, signature))), s.blocks + [Thinking(thinking, signature)])
  {
    PushThree(s, ThinkingStart, ThinkingPart(thinking), ThinkingEnd(signature));
    assert "" + thinking == thinking;
  }

  lemma TextRoundTrip(s: State, text: string)
    requires Idle(s, s.blocks)
    ensures Idle(PushAll(s, BlockDeltas(AssistantText(text))), s.blocks + [AssistantText(text)])
  {
    PushThree(s, TextStart, TextPart(text), TextEnd);
    assert "" + text == text;
  }

  lemma {:induction false} BlocksRoundTrip(s: State, content: seq<AssistantContent>)
    requires Idle(s, s.blocks)
    ensures Idle(PushAll(s, ConcatMap(BlockDeltas, content)), s.blocks + content)
  {
    if content != [] {
      var front := content[..|content| - 1];
      BlocksRoundTrip(s, front);
      PushAllConcat(s, ConcatMap(BlockDeltas, front), BlockDeltas(content[|content| - 1]));
      BlockRoundTrip(PushAll(s, ConcatMap(BlockDeltas, front)), content[|content| - 1]);
      assert content == front + [content[|content| - 1]];
      assert s.blocks + front + [content[|content| - 1]] == s.blocks + content;
    } else {
      assert s.blocks + content == s.blocks;
    }
  }

  ghost predicate Ignored(d: Delta) {
    d.ToolExecStart? || d.ToolExecEnd? || d.FeedbackDelta? || d.Done?
  }

  lemma {:induction false} IgnoredAll(s: State, ds: seq<Delta>)
    requires forall d | d in ds :: Ignored(d)
    ensures PushAll(s, ds) == s
  {
    if ds != [] {
      IgnoredAll(s, ds[..|ds| - 1]);
      assert Ignored(ds[|ds| - 1]);
    }
  }

  lemma {:induction false} OthersIgnored<T>(f: T -> seq<Delta>, content: seq<T>)
    requires forall c, d | d in f(c) :: Ignored(d)
    ensures forall d | d in ConcatMap(f, content) :: Ignored(d)
  {
    if content != [] {
      OthersIgnored(f, content[..|content| - 1]);
    }
  }

  /** The content of all assistant messages of a history. */
  function AssistantContents(messages: seq<Message>): seq<AssistantContent> {
    if messages == [] then []
    else
      var m := messages[|messages| - 1];
      AssistantContents(messages[..|messages| - 1]) + if m.AssistantMessage? then m.assistant else []
  }

  lemma {:induction false} ReplayCollects(messages: seq<Message>)
    ensures Idle(PushAll(FRESH, ConcatMap(MessageDeltas, messages)), AssistantContents(messages))
  {
    if messages != [] {
      var front, m := messages[..|messages| - 1], messages[|messages| - 1];
      ReplayCollects(front);
      var s := PushAll(FRESH, ConcatMap(MessageDeltas, front));
      PushAllConcat(FRESH, ConcatMap(MessageDeltas, front), MessageDeltas(m));
      match m
      case AssistantMessage(content) =>
        BlocksRoundTrip(s, content);
      case SystemMessage(content) =>
        OthersIgnored(SystemDeltas, content);
        IgnoredAll(s, MessageDeltas(m));
      case UserMessage(content) =>
        OthersIgnored(UserDeltas, content);
        IgnoredAll(s, MessageDeltas(m));
    }
  }

  /** Aggregating the replay of any history gives back what the assistant said in it; of a single
      nonempty assistant message, that message. */
  lemma ReplayRoundTrip(messages: seq<Message>)
    ensures Finished(PushAll(FRESH, ReplayDeltas(messages)))
         == if AssistantContents(messages) == [] then None else Some(AssistantMessage(AssistantContents(messages)))
  {
    ReplayCollects(messages);
    PushAllConcat(FRESH, ConcatMap(MessageDeltas, messages), [Done]);
    PushOne(PushAll(FRESH, ConcatMap(MessageDeltas, messages)), Done);
  }

  lemma MessageRoundTrip(m: Message)
    requires m.AssistantMessage? && m.assistant != []
    ensures Finished(PushAll(FRESH, ReplayDeltas([m]))) == Some(m)
  {
    ReplayRoundTrip([m]);
    assert [m][..0] == [];
    assert AssistantContents([m]) == m.assistant;
  }

  /** A stream that breaks off inside a text says the same as if the text had ended there. */
  lemma UnendedTextCounts(ds: seq<Delta>, text: string)
    requires text != ""
    ensures Finished(PushAll(FRESH, ds + [TextStart, TextPart(text)]))
         == Finished(PushAll(FRESH, ds + [TextStart, TextPart(text), TextEnd]))
         == Some(AssistantMessage(PushAll(FRESH, ds).blocks + [AssistantText(text)]))
  {
    var s := PushAll(FRESH, ds);
    PushAllConcat(FRESH, ds, [TextStart, TextPart(text)]);
    PushTwo(s, TextStart, TextPart(text));
    PushAllConcat(FRESH, ds, [TextStart, TextPart(text), TextEnd]);
    PushThree(s, TextStart, TextPart(text), TextEnd);
    assert "" + text == text;
  }

  // ---- what a replay shows besides ----

  /** The tool results and feedback a consumer sees. */
  ghost function Shown(ds: seq<Delta>): seq<Delta> {
    if ds == [] then []
    else Shown(ds[..|ds| - 1]) +
         if ds[|ds| - 1].ToolExecEnd? || ds[|ds| - 1].FeedbackDelta? then [ds[|ds| - 1]] else []
  }

  lemma {:induction false} ShownConcat(a: seq<Delta>, b: seq<Delta>)
    ensures Shown(a + b) == Shown(a) + Shown(b)
  {
    if b == [] {
      assert a + b == a;
    } else {
      ShownConcat(a, b[..|b| - 1]);
      assert (a + b)[..|a + b| - 1] == a + b[..|b| - 1];
    }
  }

  /** The tool results of system and user messages, and the feedback in user messages. */
  ghost function SystemToShow(content: seq<SystemContent>): seq<Delta> {
    if content == [] then []
    else
      var c := content[|content| - 1];
      SystemToShow(content[..|content| - 1]) +
      if c.SystemToolResult? then [ToolExecEnd(c.result.toolCallID, c.result.text, "")] else []
  }

  ghost function UserToShow(content: seq<UserContent>): seq<Delta> {
    if content == [] then []
    else
      var c := content[|content| - 1];
      UserToShow(content[..|content| - 1]) +
      if c.UserToolResult? then [ToolExecEnd(c.result.toolCallID, c.result.text, "")]
      else if c.UserFeedback? then [FeedbackDelta(c.feedback)] else []
  }

  ghost function ToShow(messages: seq<Message>): seq<Delta> {
    if messages == [] then []
    else
      ToShow(messages[..|messages| - 1]) + match messages[|messages| - 1]
                                           case SystemMessage(content) => SystemToShow(content)
                                           case UserMessage(content) => UserToShow(content)
                                           case AssistantMessage(_) => []
  }

  ghost function ShownOne(d: Delta): seq<Delta> {
    if d.ToolExecEnd? || d.FeedbackDelta? then [d] else []
  }

  lemma ShownSingle(d: Delta)
    ensures Shown([d]) == ShownOne(d)
  {
    assert [d][..0] == [];
  }

  lemma ShownPair(d: Delta, e: Delta)
    ensures Shown([d, e]) == ShownOne(d) + ShownOne(e)
  {
    ShownConcat([d], [e]);
    ShownSingle(d);
    ShownSingle(e);
    assert [d] + [e] == [d, e];
  }

  lemma BlockShown(c: AssistantContent)
    ensures Shown(BlockDeltas(c)) == []
  {
    match c
    case Thinking(thinking, signature) =>
      ShownConcat([ThinkingStart], [ThinkingPart(thinking), ThinkingEnd(signature)]);
      ShownSingle(ThinkingStart);
      ShownPair(ThinkingPart(thinking), ThinkingEnd(signature));
      assert BlockDeltas(c) == [ThinkingStart] + [ThinkingPart(thinking), ThinkingEnd(signature)];
    case AssistantText(text) =>
      ShownConcat([TextStart], [TextPart(text), TextEnd]);
      ShownSingle(TextStart);
      ShownPair(TextPart(text), TextEnd);
      assert BlockDeltas(c) == [TextStart] + [TextPart(text), TextEnd];
    case ToolUse(call) =>
      ShownPair(ToolCallStart(call.id, call.name), ToolCallEnd(call.arguments));
  }

  lemma ResultShown(r: ToolResultContent)
    ensures Shown(ResultDeltas(r)) == [ToolExecEnd(r.toolCallID, r.text, "")]
  {
    ShownPair(ToolExecStart(r.toolCallID, ""), ToolExecEnd(r.toolCallID, r.text, ""));
  }

  lemma {:induction false} SystemShown(content: seq<SystemContent>)
    ensures Shown(ConcatMap(SystemDeltas, content)) == SystemToShow(content)
  {
    if content != [] {
      var front, c := content[..|content| - 1], content[|content| - 1];
      SystemShown(front);
      ShownConcat(ConcatMap(SystemDeltas, front), SystemDeltas(c));
      if c.SystemToolResult? {
        ResultShown(c.result);
      }
    }
  }

  lemma {:induction false} UserShown(content: seq<UserContent>)
    ensures Shown(ConcatMap(UserDeltas, content)) == UserToShow(content)
  {
    if content != [] {
      var front, c := content[..|content| - 1], content[|content| - 1];
      UserShown(front);
      ShownConcat(ConcatMap(UserDeltas, front), UserDeltas(c));
      if c.UserToolResult? {
        ResultShown(c.result);
      } else if c.UserFeedback? {
        ShownSingle(FeedbackDelta(c.feedback));
      }
    }
  }

  lemma {:induction false} AssistantShown(content: seq<AssistantContent>)
    ensures Shown(ConcatMap(BlockDeltas, content)) == []
  {
    if content != [] {
      var front, c := content[..|content| - 1], content[|content| - 1];
      AssistantShown(front);
      ShownConcat(ConcatMap(BlockDeltas, front), BlockDeltas(c));
      BlockShown(c);
    }
  }

  lemma {:induction false} MessagesShown(messages: seq<Message>)
    ensures Shown(ConcatMap(MessageDeltas, messages)) == ToShow(messages)
  {
    if messages != [] {
      var front, m := messages[..|messages| - 1], messages[|messages| - 1];
      MessagesShown(front);
      ShownConcat(ConcatMap(MessageDeltas, front), MessageDeltas(m));
      match m
      case SystemMessage(content) => SystemShown(content);
      case UserMessage(content) => UserShown(content);
      case AssistantMessage(content) => AssistantShown(content);
    }
  }

  /** A replay shows every tool result of the history with its text, and all feedback, in order. */
  lemma ReplayShows(messages: seq<Message>)
    ensures Shown(ReplayDeltas(messages)) == ToShow(messages)
  {
    MessagesShown(messages);
    ShownConcat(ConcatMap(MessageDeltas, messages), [Done]);
    ShownSingle(Done);
  }
}
