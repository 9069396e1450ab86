/** Compactors of a message history, and what they do to tool calls and their results
    (agent/types/compactor.go). */
module Compactors {
  import opened Messages

  // ---- tool calls and their results ----

  /** The identifiers of the tool results in a message, in order. */
  function ResultIds(m: Message): seq<string> {
    match m
    case SystemMessage(content) => SystemResultIds(content)
    case UserMessage(content) => UserResultIds(content)
    case AssistantMessage(_) => []
  }

  function SystemResultIds(content: seq<SystemContent>): seq<string> {
    if content == [] then []
    else SystemResultIds(content[..|content| - 1]) +
         if content[|content| - 1].SystemToolResult? then [content[|content| - 1].result.toolCallID] else []
  }

  function UserResultIds(content: seq<UserContent>): seq<string> {
    if content == [] then []
    else UserResultIds(content[..|content| - 1]) +
         if content[|content| - 1].UserToolResult? then [content[|content| - 1].result.toolCallID] else []
  }

  function CallsIn(content: seq<AssistantContent>): seq<ToolUseContent> {
    if content == [] then []
    else CallsIn(content[..|content| - 1]) +
         if content[|content| - 1].ToolUse? then [content[|content| - 1].call] else []
  }

  function Calls(m: Message): seq<ToolUseContent> {
    if m.AssistantMessage? then CallsIn(m.assistant) else []
  }

  function CallIds(m: Message): seq<string> {
    seq(|Calls(m)|, i requires 0 <= i < |Calls(m)| => Calls(m)[i].id)
  }

  /** Every message with tool results stands directly behind the message that made exactly these
      calls, in the same order. */
  ghost predicate Paired(ms: seq<Message>) {
    forall i {:trigger PairedAt(ms, i)} | 0 <= i < |ms| :: PairedAt(ms, i)
  }

  ghost predicate PairedAt(ms: seq<Message>, i: nat)
    requires i < |ms|
  {
    ResultIds(ms[i]) != [] ==> i > 0 && CallIds(ms[i - 1]) == ResultIds(ms[i])
  }

  /** hasToolResult. */
  method HasToolResult(msg: Message) returns (r: bool)
    ensures r <==> ResultIds(msg) != []
  {
    match msg
    case SystemMessage(content) =>
      for i := 0 to |content|
        invariant SystemResultIds(content[..i]) == []
      {
        assert content[..i + 1][..i] == content[..i];
        if content[i].SystemToolResult? {
          SystemIdsGrow(content, i + 1);
          return true;
        }
      }
      assert content[..|content|] == content;
      return false;
    case UserMessage(content) =>
      for i := 0 to |content|
        invariant UserResultIds(content[..i]) == []
      {
        assert content[..i + 1][..i] == content[..i];
        if content[i].UserToolResult? {
          UserIdsGrow(content, i + 1);
          return true;
        }
      }
      assert content[..|content|] == content;
      return false;
    case AssistantMessage(_) =>
      return false;
  }

  lemma {:induction false} SystemIdsGrow(content: seq<SystemContent>, i: nat)
    requires i <= |content|
    ensures |SystemResultIds(content[..i])| <= |SystemResultIds(content)|
    decreases |content|
  {
    if i < |content| {
      var front := content[..|content| - 1];
      assert front[..i] == content[..i];
      SystemIdsGrow(front, i);
    } else {
      assert content[..i] == content;
    }
  }

  lemma {:induction false} UserIdsGrow(content: seq<UserContent>, i: nat)
    requires i <= |content|
    ensures |UserResultIds(content[..i])| <= |UserResultIds(content)|
    decreases |content|
  {
    if i < |content| {
      var front := content[..|content| - 1];
      assert front[..i] == content[..i];
      UserIdsGrow(front, i);
    } else {
      assert content[..i] == content;
    }
  }

  // ---- the sliding window ----

  function SlidingCut(ms: seq<Message>, windowSize: nat): (cut: nat)
    requires |ms| > windowSize + 1
    ensures 0 < cut <= |ms|
  {
    var cut := |ms| - windowSize;
    if cut < |ms| && ResultIds(ms[cut]) != [] then cut - 1 else cut
  }

  /** The first message and the last `windowSize`, one more if they would start with tool results. */
  function Windowed(ms: seq<Message>, windowSize: nat): seq<Message> {
    if |ms| <= windowSize + 1 then ms else [ms[0]] + ms[SlidingCut(ms, windowSize)..]
  }

  /** The window size is not negative: the code slices out of range for any other. */
  method CompactSliding(ms: seq<Message>, windowSize: nat) returns (r: seq<Message>)
    ensures r == Windowed(ms, windowSize)
  {
    if |ms| <= windowSize + 1 {
      return ms;
    }
    var cut := |ms| - windowSize;
    if cut > 0 && cut < |ms| {
      var split := HasToolResult(ms[cut]);
      if split {
        cut := cut - 1;
      }
    }
    assert cut == SlidingCut(ms, windowSize);
    r := [ms[0]] + ms[cut..];
  }

  lemma CallerHasNoResults(m: Message)
    ensures CallIds(m) != [] ==> ResultIds(m) == []
  {
  }

  /** What the window keeps behind the first message needs no call before it. */
  lemma CutStartsFresh(ms: seq<Message>, windowSize: nat)
    requires Paired(ms) && |ms| > windowSize + 1
    ensures var cut := SlidingCut(ms, windowSize);
      cut < |ms| ==> ResultIds(ms[cut]) == []
  {
    var cut := SlidingCut(ms, windowSize);
    if cut < |ms| - windowSize {
      assert PairedAt(ms, cut + 1);
      CallerHasNoResults(ms[cut]);
    }
  }

  /** A first message without results, and a tail that starts without results. */
  lemma PairedTail(ms: seq<Message>, first: Message, cut: nat)
    requires Paired(ms) && ResultIds(first) == [] && cut <= |ms|
    requires cut < |ms| ==> ResultIds(ms[cut]) == []
    ensures Paired([first] + ms[cut..])
  {
    var r := [first] + ms[cut..];
    forall i | 0 <= i < |r| ensures PairedAt(r, i) {
      if i > 1 {
        assert PairedAt(ms, cut + i - 1) && r[i] == ms[cut + i - 1] && r[i - 1] == ms[cut + i - 2];
      }
    }
  }

  /** The window never parts tool results from their calls. */
  lemma SlidingKeepsPairing(ms: seq<Message>, windowSize: nat)
    requires Paired(ms)
    ensures Paired(Windowed(ms, windowSize))
  {
    if |ms| > windowSize + 1 {
      CutStartsFresh(ms, windowSize);
      assert PairedAt(ms, 0);
      PairedTail(ms, ms[0], SlidingCut(ms, windowSize));
    }
  }

  /** Nor does it if another message without results stands first. */
  lemma WindowBehind(ms: seq<Message>, windowSize: nat, first: Message)
    requires Paired(ms) && ResultIds(first) == [] && |Windowed(ms, windowSize)| < |ms|
    ensures Paired([first] + Windowed(ms, windowSize)[1..])
  {
    CutStartsFresh(ms, windowSize);
    PairedTail(ms, first, SlidingCut(ms, windowSize));
    assert Windowed(ms, windowSize)[1..] == ms[SlidingCut(ms, windowSize)..];
  }

  /** Applied to its own output it changes nothing, pairing or not. */
  lemma SlidingIdempotent(ms: seq<Message>, windowSize: nat)
    ensures Windowed(Windowed(ms, windowSize), windowSize) == Windowed(ms, windowSize)
  {
    if |ms| > windowSize + 1 {
      var cut, r := SlidingCut(ms, windowSize), Windowed(ms, windowSize);
      if |r| > windowSize + 1 {
        assert r[2] == ms[cut + 1];
        assert r == [r[0]] + r[1..];
      }
    }
  }

  /** A long history keeps its first message and its last `windowSize`, and the one before these if they
      would start with tool results. */
  lemma WindowReads(ms: seq<Message>, windowSize: nat)
    ensures var r := Windowed(ms, windowSize);
      if |ms| <= windowSize + 1 then r == ms
      else
        var last := if windowSize > 0 && ResultIds(ms[|ms| - windowSize]) != [] then windowSize + 1 else windowSize;
        |r| == last + 1 && r[0] == ms[0] && r[1..] == ms[|ms| - last..]
  {
  }

  // ---- summaries ----

  /** The provider asked to summarize messages; it may fail. */
  type Summarizer = seq<Message> -> Result<string, string>

  function KeepLast(ms: seq<Message>, keepLast: nat): nat
    requires ms != []
  {
    if keepLast < |ms| - 1 then keepLast else |ms| - 1
  }

  /** The first message, a summary and the last `keepLast` messages; all of them when there is
      nothing to summarize or the provider fails. */
  function Summarized(ms: seq<Message>, threshold: int, keepLast: nat, summarize: Summarizer): seq<Message>
    requires ms != [] || threshold >= 0
  {
    if |ms| <= threshold then ms
    else
      var k := KeepLast(ms, keepLast);
      var middle := ms[1..|ms| - k];
      if middle == [] then ms
      else
        var summary := summarize(middle);
        if summary.Err? then ms
        else [ms[0], NewUserMessage("Previous conversation summary: " + summary.value)] + ms[|ms| - k..]
  }

  /** Something is summarized. */
  predicate Summarizes(ms: seq<Message>, threshold: int, keepLast: nat, summarize: Summarizer)
    requires ms != [] || threshold >= 0
  {
    |ms| > threshold && |ms| - keepLast > 1 && summarize(ms[1..|ms| - keepLast]).Ok?
  }

  /** Summarizing keeps the first message and the last `keepLast`, with one user message between them that
      ends in the summary of all the others; it leaves a history alone that is within the threshold, has
      no others, or cannot be summarized. */
  lemma SummaryReads(ms: seq<Message>, threshold: int, keepLast: nat, summarize: Summarizer)
    requires ms != [] || threshold >= 0
    ensures var r, n := Summarized(ms, threshold, keepLast, summarize), |ms| - keepLast;
      if |ms| <= threshold || n <= 1 || summarize(ms[1..n]).Err? then r == ms
      else
        && |r| == keepLast + 2 && r[0] == ms[0] && r[2..] == ms[n..]
        && r[1] == UserMessage([UserText("Previous conversation summary: " + summarize(ms[1..n]).value)])
  {
  }

  /** A summary keeps calls and results together exactly when the first message it keeps, if any, has
      no tool results; here the code does not look. */
  lemma SummaryKeepsPairingIff(ms: seq<Message>, threshold: int, keepLast: nat, summarize: Summarizer)
    requires ms != [] && Paired(ms) && Summarizes(ms, threshold, keepLast, summarize)
    ensures Paired(Summarized(ms, threshold, keepLast, summarize))
       <==> (keepLast > 0 ==> ResultIds(ms[|ms| - keepLast]) == [])
  {
    var r, start := Summarized(ms, threshold, keepLast, summarize), |ms| - keepLast;
    assert UserResultIds([UserText("")][..0]) == [];
    assert ResultIds(r[1]) == [] && CallIds(r[1]) == [];
    assert keepLast > 0 ==> r[2] == ms[start];
    if keepLast > 0 ==> ResultIds(ms[start]) == [] {
      assert PairedAt(ms, 0);
      PairedTail(ms, r[1], start);
      PairedTail([r[1]] + ms[start..], ms[0], 0);
      assert r == [ms[0]] + ([r[1]] + ms[start..])[0..];
    } else {
      assert !PairedAt(r, 2);
    }
  }

  /** A history whose summary keeps a tool result and not the call it answers. */
  lemma SummaryCutsCall()
    ensures var ms := [SystemMessage([SystemText("s")]), NewUserMessage("q"),
                       AssistantMessage([ToolUse(ToolUseContent("c", "t", map[]))]),
                       SystemMessage([SystemToolResult(ToolResultContent("c", "r", false))])];
      Paired(ms) && !Paired(Summarized(ms, 3, 1, _ => Ok("")))
  {
    var call, result := ToolUseContent("c", "t", map[]), ToolResultContent("c", "r", false);
    var ms := [SystemMessage([SystemText("s")]), NewUserMessage("q"), AssistantMessage([ToolUse(call)]),
               SystemMessage([SystemToolResult(result)])];
    OneBlock(call, result, "s", "q");
    assert forall i | 0 <= i < 3 :: ResultIds(ms[i]) == [];
    SummaryKeepsPairingIff(ms, 3, 1, _ => Ok(""));
  }

  lemma OneBlock(call: ToolUseContent, result: ToolResultContent, s: string, q: string)
    ensures CallIds(AssistantMessage([ToolUse(call)])) == [call.id]
    ensures ResultIds(SystemMessage([SystemToolResult(result)])) == [result.toolCallID]
    ensures ResultIds(SystemMessage([SystemText(s)])) == [] && ResultIds(NewUserMessage(q)) == []
  {
    assert [ToolUse(call)][..0] == [] && CallsIn([]) == [];
    assert [SystemToolResult(result)][..0] == [] && [SystemText(s)][..0] == [] && SystemResultIds([]) == [];
    assert [UserText(q)][..0] == [] && UserResultIds([]) == [];
  }

  // ---- all compactors ----

  datatype Compactor = Noop | Sliding(windowSize: int) | Summarizing(threshold: int, keepLast: nat)

  /** ToCompactor. */
  function ToCompactor(cfg: CompactConfig): Compactor {
    match cfg.strategy
    case SlidingWindow => Sliding(cfg.windowSize)
    case Summarize => Summarizing(cfg.threshold, if cfg.keepLast <= 0 then 4 else cfg.keepLast)
    case NoCompaction => Noop
  }

  /** Out of range slices make the code panic: a negative window, or no messages at all against a
      negative threshold. */
  predicate CanCompact(c: Compactor, ms: seq<Message>) {
    && (c.Sliding? ==> c.windowSize >= 0)
    && (c.Summarizing? ==> ms != [] || c.threshold >= 0)
  }

  function Compacted(c: Compactor, ms: seq<Message>, summarize: Summarizer): seq<Message>
    requires CanCompact(c, ms)
  {
    match c
    case Noop => ms
    case Sliding(n) => Windowed(ms, n)
    case Summarizing(threshold, keepLast) => Summarized(ms, threshold, keepLast, summarize)
  }

  /** A compactor keeps the first message and never makes a history longer; and what it has shrunk
      it cannot shrink again, whatever the provider answers the second time. */
  lemma ShrinksOnce(c: Compactor, ms: seq<Message>, summarize: Summarizer, again: Summarizer)
    requires CanCompact(c, ms)
    ensures var r := Compacted(c, ms, summarize);
      && (ms != [] ==> r != [] && r[0] == ms[0]) && |r| <= |ms| && CanCompact(c, r)
      && (|r| < |ms| ==> |Compacted(c, r, again)| == |r|)
  {
    if c.Sliding? {
      SlidingIdempotent(ms, c.windowSize);
    }
  }

  /** A summary message. */
  ghost predicate IsSummary(m: Message) {
    m.UserMessage? && |m.user| == 1 && m.user[0].UserText?
  }

  /** Nothing is made up but summaries. */
  lemma CompactedFrom(c: Compactor, ms: seq<Message>, summarize: Summarizer)
    requires CanCompact(c, ms)
    ensures forall m | m in Compacted(c, ms, summarize) :: m in ms || IsSummary(m)
  {
  }
}
