/** Translating a provider's chunks into deltas (agent/provider/ollama/adapter.go). */
module OllamaStream {
  import opened Messages
  import opened Aggregators

  datatype FunctionCall = FunctionCall(name: string, arguments: Args)

  datatype Chunk = Chunk(content: string, toolCalls: seq<FunctionCall>, done: bool, promptEvalCount: int,
                         evalCount: int)

  /** The identifiers drawn for tool calls, by how many were drawn before. */
  type IdSource = nat -> string

  // ---- the translation ----

  function CallDeltas(calls: seq<FunctionCall>, newId: IdSource, n: nat): seq<Delta> {
    if calls == [] then []
    else
      var c := calls[|calls| - 1];
      CallDeltas(calls[..|calls| - 1], newId, n) +
      [ToolCallStart(newId(n + |calls| - 1), c.name), ToolCallEnd(c.arguments)]
  }

  function TextDeltas(c: Chunk, started: bool): seq<Delta> {
    if c.content == "" then [] else if started then [TextPart(c.content)] else [TextStart, TextPart(c.content)]
  }

  function Closing(started: bool): seq<Delta> {
    if started then [TextEnd] else []
  }

  function ChunkDeltas(c: Chunk, started: bool, newId: IdSource, n: nat): seq<Delta> {
    if c.done then Closing(started) + [Usage(c.promptEvalCount, c.evalCount)]
    else if c.toolCalls == [] then TextDeltas(c, started)
    else TextDeltas(c, started) + Closing(started || c.content != "") + CallDeltas(c.toolCalls, newId, n)
  }

  /** Whether text is open behind the chunk. */
  predicate OpenAfter(c: Chunk, started: bool) {
    !c.done && c.toolCalls == [] && (started || c.content != "")
  }

  function Drawn(c: Chunk): nat {
    if c.done then 0 else |c.toolCalls|
  }

  datatype Progress = Progress(out: seq<Delta>, started: bool, drawn: nat)

  function Translated(chunks: seq<Chunk>, newId: IdSource): Progress {
    if chunks == [] then Progress([], false, 0)
    else
      var p, c := Translated(chunks[..|chunks| - 1], newId), chunks[|chunks| - 1];
      Progress(p.out + ChunkDeltas(c, p.started, newId, p.drawn), OpenAfter(c, p.started), p.drawn + Drawn(c))
  }

  function AllDeltas(chunks: seq<Chunk>, newId: IdSource): seq<Delta> {
    var p := Translated(chunks, newId);
    p.out + Closing(p.started)
  }

  method TranslateDeltas(chunks: seq<Chunk>, newId: IdSource) returns (out: seq<Delta>)
    ensures out == AllDeltas(chunks, newId)
  {
    out := [];
    var textStarted := false;
    var drawn: nat := 0;
    for k := 0 to |chunks|
      invariant Progress(out, textStarted, drawn) == Translated(chunks[..k], newId)
    {
      assert chunks[..k + 1][..k] == chunks[..k];
      var deltas;
      deltas, textStarted := TranslateChunk(chunks[k], textStarted, newId, drawn);
      out, drawn := out + deltas, drawn + if chunks[k].done then 0 else |chunks[k].toolCalls|;
    }
    assert chunks[..|chunks|] == chunks;
    if textStarted {
      out := out + [TextEnd];
    }
  }

  /** The loop body. */
  method TranslateChunk(chunk: Chunk, started: bool, newId: IdSource, drawn: nat)
    returns (out: seq<Delta>, textStarted: bool)
    ensures out == ChunkDeltas(chunk, started, newId, drawn) && textStarted == OpenAfter(chunk, started)
  {
    out, textStarted := [], started;
    if chunk.done {
      if textStarted {
        out := out + [TextEnd];
        textStarted := false;
      }
      out := out + [Usage(chunk.promptEvalCount, chunk.evalCount)];
      return;
    }
    if chunk.content != "" {
      if !textStarted {
        out := out + [TextStart];
        textStarted := true;
      }
      out := out + [TextPart(chunk.content)];
    }
    assert out == TextDeltas(chunk, started);
    if |chunk.toolCalls| > 0 {
      if textStarted {
        out := out + [TextEnd];
        textStarted := false;
      }
      assert out == TextDeltas(chunk, started) + Closing(started || chunk.content != "");
      var calls := TranslateCalls(chunk.toolCalls, newId, drawn);
      out := out + calls;
    }
  }

  method TranslateCalls(calls: seq<FunctionCall>, newId: IdSource, drawn: nat) returns (out: seq<Delta>)
    ensures out == CallDeltas(calls, newId, drawn)
  {
    out := [];
    for j := 0 to |calls|
      invariant out == CallDeltas(calls[..j], newId, drawn)
    {
      assert calls[..j + 1][..j] == calls[..j];
      var id := newId(drawn + j);
      out := out + [ToolCallStart(id, calls[j].name), ToolCallEnd(calls[j].arguments)];
    }
    assert calls[..|calls|] == calls;
  }

  // ---- brackets ----

  datatype Mode = Outside | InText | InCall | Broken

  /** Text comes between TextStart and TextEnd, a call is a ToolCallStart directly followed by its
      end, and nothing overlaps. */
  function Scanned(mode: Mode, d: Delta): Mode {
    match d
    case TextStart => if mode.Outside? then InText else Broken
    case TextPart(_) => if mode.InText? then InText else Broken
    case TextEnd => if mode.InText? then Outside else Broken
    case ToolCallStart(_, _) => if mode.Outside? then InCall else Broken
    case ToolCallEnd(_) => if mode.InCall? then Outside else Broken
    case Usage(_, _) => if mode.Outside? then Outside else Broken
    case _ => Broken
  }

  /** An aggregator and a bracket checker reading the same deltas. */
  datatype Reader = Reader(agg: State, mode: Mode)

  const START := Reader(FRESH, Outside)

  ghost function Read(r: Reader, ds: seq<Delta>): Reader {
    if ds == [] then r
    else
      var before, d := Read(r, ds[..|ds| - 1]), ds[|ds| - 1];
      Reader(Pushed(before.agg, d), Scanned(before.mode, d))
  }

  lemma {:induction false} ReadConcat(r: Reader, a: seq<Delta>, b: seq<Delta>)
    ensures Read(r, a + b) == Read(Read(r, a), b)
  {
    if b == [] {
      assert a + b == a;
    } else {
      ReadConcat(r, a, b[..|b| - 1]);
      assert (a + b)[..|a + b| - 1] == a + b[..|b| - 1];
    }
  }

  lemma ReadTwo(r: Reader, d: Delta, e: Delta)
    ensures Read(r, []) == r
    ensures Read(r, [d]) == Reader(Pushed(r.agg, d), Scanned(r.mode, d))
    ensures Read(r, [d, e]) == Reader(Pushed(Pushed(r.agg, d), e), Scanned(Scanned(r.mode, d), e))
  {
    assert [d][..0] == [] && [d, e][..1] == [d];
  }

  lemma {:induction false} ReadAggregates(r: Reader, ds: seq<Delta>)
    ensures Read(r, ds).agg == PushAll(r.agg, ds)
  {
    if ds != [] {
      ReadAggregates(r, ds[..|ds| - 1]);
    }
  }

  // ---- what is said ----

  /** A character of text or a whole tool call. */
  datatype Atom = Char(c: char) | Call(call: ToolUseContent)

  ghost function Chars(text: string): seq<Atom> {
    seq(|text|, i requires 0 <= i < |text| => Char(text[i]))
  }

  ghost function BlockAtoms(c: AssistantContent): seq<Atom> {
    match c
    case AssistantText(text) => Chars(text)
    case ToolUse(call) => [Call(call)]
    case Thinking(_, _) => []
  }

  ghost function Atoms(blocks: seq<AssistantContent>): seq<Atom> {
    if blocks == [] then [] else Atoms(blocks[..|blocks| - 1]) + BlockAtoms(blocks[|blocks| - 1])
  }

  ghost function CallAtoms(calls: seq<FunctionCall>, newId: IdSource, n: nat): seq<Atom> {
    if calls == [] then []
    else
      var c := calls[|calls| - 1];
      CallAtoms(calls[..|calls| - 1], newId, n) + [Call(ToolUseContent(newId(n + |calls| - 1), c.name, c.arguments))]
  }

  /** What one chunk says. */
  ghost function ChunkAtoms(c: Chunk, newId: IdSource, n: nat): seq<Atom> {
    if c.done then [] else Chars(c.content) + CallAtoms(c.toolCalls, newId, n)
  }

  /** What the chunks up to the last say, in order; of a final chunk nothing counts. */
  ghost function Said(chunks: seq<Chunk>, newId: IdSource): seq<Atom> {
    if chunks == [] then []
    else
      var front, c := chunks[..|chunks| - 1], chunks[|chunks| - 1];
      Said(front, newId) + ChunkAtoms(c, newId, Translated(front, newId).drawn)
  }

  /** Text that is not empty, and tool calls. */
  ghost predicate Clean(blocks: seq<AssistantContent>) {
    forall i | 0 <= i < |blocks| :: blocks[i] != AssistantText("") && !blocks[i].Thinking?
  }

  /** `said` has been collected or stands in the open text, and the brackets are right. */
  ghost predicate Tracks(r: Reader, said: seq<Atom>) {
    && !r.agg.inTool && (if r.agg.inText then r.mode.InText? && r.agg.textBuf != "" else r.mode.Outside?)
    && Clean(r.agg.blocks)
    && said == Atoms(r.agg.blocks) + if r.agg.inText then Chars(r.agg.textBuf) else []
  }

  lemma AtomsAppend(blocks: seq<AssistantContent>, c: AssistantContent)
    requires Clean(blocks) && c != AssistantText("") && !c.Thinking?
    ensures Atoms(blocks + [c]) == Atoms(blocks) + BlockAtoms(c) && Clean(blocks + [c])
  {
    assert (blocks + [c])[..|blocks|] == blocks;
  }

  lemma ClosingTracks(r: Reader, said: seq<Atom>)
    requires Tracks(r, said)
    ensures Tracks(Read(r, Closing(r.agg.inText)), said) && !Read(r, Closing(r.agg.inText)).agg.inText
  {
    ReadTwo(r, TextEnd, TextEnd);
    if r.agg.inText {
      AtomsAppend(r.agg.blocks, AssistantText(r.agg.textBuf));
    }
  }

  lemma CharsConcat(a: string, b: string)
    ensures Chars(a + b) == Chars(a) + Chars(b)
  {
  }

  lemma TextTracks(r: Reader, said: seq<Atom>, c: Chunk)
    requires Tracks(r, said)
    ensures var r' := Read(r, TextDeltas(c, r.agg.inText));
      Tracks(r', said + Chars(c.content)) && (r'.agg.inText <==> r.agg.inText || c.content != "")
  {
    if c.content == "" {
      assert said + Chars("") == said;
    } else if r.agg.inText {
      ReadTwo(r, TextPart(c.content), TextEnd);
      CharsConcat(r.agg.textBuf, c.content);
    } else {
      ReadTwo(r, TextStart, TextPart(c.content));
      assert "" + c.content == c.content;
    }
  }

  lemma OneCallTracks(r: Reader, said: seq<Atom>, call: ToolUseContent)
    requires Tracks(r, said) && !r.agg.inText
    ensures var r' := Read(r, [ToolCallStart(call.id, call.name), ToolCallEnd(call.arguments)]);
      Tracks(r', said + [Call(call)]) && !r'.agg.inText
  {
    ReadTwo(r, ToolCallStart(call.id, call.name), ToolCallEnd(call.arguments));
    AtomsAppend(r.agg.blocks, ToolUse(call));
  }

  lemma {:induction false} CallsTrack(r: Reader, said: seq<Atom>, calls: seq<FunctionCall>, newId: IdSource, n: nat)
    requires Tracks(r, said) && !r.agg.inText
    ensures var r' := Read(r, CallDeltas(calls, newId, n));
      Tracks(r', said + CallAtoms(calls, newId, n)) && !r'.agg.inText
  {
    if calls == [] {
      assert said + [] == said;
    } else {
      var front, c, id := calls[..|calls| - 1], calls[|calls| - 1], newId(n + |calls| - 1);
      CallsTrack(r, said, front, newId, n);
      var r1, said1 := Read(r, CallDeltas(front, newId, n)), said + CallAtoms(front, newId, n);
      OneCallTracks(r1, said1, ToolUseContent(id, c.name, c.arguments));
      ReadConcat(r, CallDeltas(front, newId, n), [ToolCallStart(id, c.name), ToolCallEnd(c.arguments)]);
      assert said1 + [Call(ToolUseContent(id, c.name, c.arguments))] == said + CallAtoms(calls, newId, n);
    }
  }

  lemma DoneTracks(r: Reader, said: seq<Atom>, c: Chunk, newId: IdSource, n: nat)
    requires Tracks(r, said) && c.done
    ensures var r' := Read(r, ChunkDeltas(c, r.agg.inText, newId, n));
      Tracks(r', said) && !r'.agg.inText
  {
    var closing, usage := Closing(r.agg.inText), Usage(c.promptEvalCount, c.evalCount);
    ClosingTracks(r, said);
    ReadConcat(r, closing, [usage]);
    ReadTwo(Read(r, closing), usage, usage);
  }

  lemma CallingTracks(r: Reader, said: seq<Atom>, c: Chunk, newId: IdSource, n: nat)
    requires Tracks(r, said) && !c.done && c.toolCalls != []
    ensures var r' := Read(r, ChunkDeltas(c, r.agg.inText, newId, n));
      Tracks(r', said + Chars(c.content) + CallAtoms(c.toolCalls, newId, n)) && !r'.agg.inText
  {
    var text := TextDeltas(c, r.agg.inText);
    TextTracks(r, said, c);
    var r1, said1 := Read(r, text), said + Chars(c.content);
    var closing := Closing(r1.agg.inText);
    ClosingTracks(r1, said1);
    ReadConcat(r, text, closing);
    CallsTrack(Read(r1, closing), said1, c.toolCalls, newId, n);
    ReadConcat(r, text + closing, CallDeltas(c.toolCalls, newId, n));
  }

  lemma ChunkTracks(r: Reader, said: seq<Atom>, c: Chunk, newId: IdSource, n: nat)
    requires Tracks(r, said)
    ensures var r' := Read(r, ChunkDeltas(c, r.agg.inText, newId, n));
      Tracks(r', said + ChunkAtoms(c, newId, n)) && (r'.agg.inText <==> OpenAfter(c, r.agg.inText))
  {
    if c.done {
      DoneTracks(r, said, c, newId, n);
      assert said + [] == said;
    } else if c.toolCalls != [] {
      CallingTracks(r, said, c, newId, n);
      assert said + Chars(c.content) + CallAtoms(c.toolCalls, newId, n) == said + ChunkAtoms(c, newId, n);
    } else {
      TextTracks(r, said, c);
      assert Chars(c.content) + [] == Chars(c.content);
    }
  }

  lemma {:induction false} ChunksTrack(chunks: seq<Chunk>, newId: IdSource)
    ensures var p := Translated(chunks, newId);
      Tracks(Read(START, p.out), Said(chunks, newId)) && p.started == Read(START, p.out).agg.inText
  {
    if chunks != [] {
      var front, c := chunks[..|chunks| - 1], chunks[|chunks| - 1];
      var p := Translated(front, newId);
      ChunksTrack(front, newId);
      ChunkTracks(Read(START, p.out), Said(front, newId), c, newId, p.drawn);
      ReadConcat(START, p.out, ChunkDeltas(c, p.started, newId, p.drawn));
    }
  }

  /** For any chunks the deltas are properly bracketed, and aggregating them gives a message with all
      text and all tool calls of the chunks that are not final, in their order; or none when
      there are none. */
  lemma TranslationIsFaithful(chunks: seq<Chunk>, newId: IdSource)
    ensures Read(START, AllDeltas(chunks, newId)).mode == Outside
    ensures match Finished(PushAll(FRESH, AllDeltas(chunks, newId)))
      case None => Said(chunks, newId) == []
      case Some(m) => m.AssistantMessage? && Said(chunks, newId) != [] && Atoms(m.assistant) == Said(chunks, newId)
  {
    var p := Translated(chunks, newId);
    ChunksTrack(chunks, newId);
    ClosingTracks(Read(START, p.out), Said(chunks, newId));
    ReadConcat(START, p.out, Closing(p.started));
    ReadAggregates(START, AllDeltas(chunks, newId));
    NonemptyAtoms(PushAll(FRESH, AllDeltas(chunks, newId)).blocks);
  }

  lemma NonemptyAtoms(blocks: seq<AssistantContent>)
    requires Clean(blocks)
    ensures Atoms(blocks) == [] <==> blocks == []
  {
    if blocks != [] {
      var last := blocks[|blocks| - 1];
      if last.AssistantText? {
        assert |Chars(last.text)| > 0;
      }
    }
  }

  // ---- usage ----

  ghost function Usages(ds: seq<Delta>): seq<Delta> {
    if ds == [] then [] else Usages(ds[..|ds| - 1]) + if ds[|ds| - 1].Usage? then [ds[|ds| - 1]] else []
  }

  lemma {:induction false} UsagesConcat(a: seq<Delta>, b: seq<Delta>)
    ensures Usages(a + b) == Usages(a) + Usages(b)
  {
    if b == [] {
      assert a + b == a;
    } else {
      UsagesConcat(a, b[..|b| - 1]);
      assert (a + b)[..|a + b| - 1] == a + b[..|b| - 1];
    }
  }

  lemma {:induction false} NoUsage(ds: seq<Delta>)
    requires forall i | 0 <= i < |ds| :: !ds[i].Usage?
    ensures Usages(ds) == []
  {
    if ds != [] {
      NoUsage(ds[..|ds| - 1]);
    }
  }

  lemma {:induction false} CallsAreNoUsage(calls: seq<FunctionCall>, newId: IdSource, n: nat)
    ensures forall i | 0 <= i < |CallDeltas(calls, newId, n)| :: !CallDeltas(calls, newId, n)[i].Usage?
  {
    if calls != [] {
      CallsAreNoUsage(calls[..|calls| - 1], newId, n);
    }
  }

  lemma ChunkUsages(c: Chunk, started: bool, newId: IdSource, n: nat)
    ensures Usages(ChunkDeltas(c, started, newId, n))
         == if c.done then [Usage(c.promptEvalCount, c.evalCount)] else []
  {
    if c.done {
      UsagesConcat(Closing(started), [Usage(c.promptEvalCount, c.evalCount)]);
      NoUsage(Closing(started));
      assert [Usage(c.promptEvalCount, c.evalCount)][..0] == [];
    } else {
      CallsAreNoUsage(c.toolCalls, newId, n);
      NoUsage(ChunkDeltas(c, started, newId, n));
    }
  }

  /** The token counts of final chunks. */
  ghost function Counted(chunks: seq<Chunk>): seq<Delta> {
    if chunks == [] then []
    else
      var c := chunks[|chunks| - 1];
      Counted(chunks[..|chunks| - 1]) + if c.done then [Usage(c.promptEvalCount, c.evalCount)] else []
  }

  lemma {:induction false} TranslatedUsages(chunks: seq<Chunk>, newId: IdSource)
    ensures Usages(Translated(chunks, newId).out) == Counted(chunks)
  {
    if chunks != [] {
      var p, c := Translated(chunks[..|chunks| - 1], newId), chunks[|chunks| - 1];
      TranslatedUsages(chunks[..|chunks| - 1], newId);
      UsagesConcat(p.out, ChunkDeltas(c, p.started, newId, p.drawn));
      ChunkUsages(c, p.started, newId, p.drawn);
    }
  }

  /** Usage is reported once for each final chunk, with its counts, and never else. */
  lemma UsagesAreFinal(chunks: seq<Chunk>, newId: IdSource)
    ensures Usages(AllDeltas(chunks, newId)) == Counted(chunks)
  {
    var p := Translated(chunks, newId);
    TranslatedUsages(chunks, newId);
    UsagesConcat(p.out, Closing(p.started));
    NoUsage(Closing(p.started));
  }
}
