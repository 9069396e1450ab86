/** The recursive text chunker (rag/chunker/chunker.go).

    Strings are byte sequences.  The tokenizer is a parameter `count`; nothing is assumed about it
    beyond the empty string fitting the budget (its count is 0, so that says MaxTokens >= 0). In
    particular a longer text may have fewer tokens. */
module Chunker {
  import opened Verdicts

  type Text = seq<bv8>

  datatype Config = Config(maxTokens: int, overlap: int, separators: seq<Text>, width: Width)

  // ---- strings.Split ----

  predicate HasAt(s: Text, sep: Text, i: nat) {
    i + |sep| <= |s| && s[i..i + |sep|] == sep
  }

  /** The first occurrence of `sep` at or after `i`, or |s| + 1. */
  function IndexFrom(s: Text, sep: Text, i: nat): (r: nat)
    requires i <= |s| + 1
    ensures r <= |s| ==> i <= r && HasAt(s, sep, r)
    ensures forall j | i <= j < r && j <= |s| :: !HasAt(s, sep, j)
    decreases |s| + 1 - i
  {
    if i > |s| || HasAt(s, sep, i) then i else IndexFrom(s, sep, i + 1)
  }

  /** The length in bytes of the first character of a nonempty text. */
  type Width = Text -> nat

  ghost predicate ValidWidth(width: Width) {
    forall s | s != [] :: 1 <= width(s) <= |s|
  }

  function Explode(s: Text, width: Width): seq<Text>
    requires ValidWidth(width)
    decreases |s|
  {
    if s == [] then [] else [s[..width(s)]] + Explode(s[width(s)..], width)
  }

  function SplitAround(s: Text, sep: Text): (parts: seq<Text>)
    requires |sep| > 0
    ensures |parts| > 0
    decreases |s|
  {
    var i := IndexFrom(s, sep, 0);
    if i > |s| then [s] else [s[..i]] + SplitAround(s[i + |sep|..], sep)
  }

  /** strings.Split; with an empty separator it splits behind every character. */
  function Split(s: Text, sep: Text, width: Width): seq<Text>
    requires ValidWidth(width)
  {
    if sep == [] then Explode(s, width) else SplitAround(s, sep)
  }

  ghost function Join(parts: seq<Text>, sep: Text): Text {
    if parts == [] then [] else if |parts| == 1 then parts[0] else parts[0] + sep + Join(parts[1..], sep)
  }

  lemma JoinFront(part: Text, parts: seq<Text>, sep: Text)
    requires parts != []
    ensures Join([part] + parts, sep) == part + sep + Join(parts, sep)
  {
    assert ([part] + parts)[1..] == parts;
  }

  lemma JoinSplit(s: Text, sep: Text, width: Width)
    requires ValidWidth(width)
    ensures Join(Split(s, sep, width), sep) == s
  {
    if sep == [] {
      JoinExplode(s, width);
    } else {
      JoinSplitAround(s, sep);
    }
  }

  lemma {:induction false} JoinExplode(s: Text, width: Width)
    requires ValidWidth(width)
    ensures Join(Explode(s, width), []) == s
    decreases |s|
  {
    if s != [] {
      var rest := s[width(s)..];
      JoinExplode(rest, width);
      assert Explode(s, width)[1..] == Explode(rest, width);
    }
  }

  lemma {:induction false} JoinSplitAround(s: Text, sep: Text)
    requires |sep| > 0
    ensures Join(SplitAround(s, sep), sep) == s
    decreases |s|
  {
    var i := IndexFrom(s, sep, 0);
    if i <= |s| {
      var rest := s[i + |sep|..];
      JoinSplitAround(rest, sep);
      JoinFront(s[..i], SplitAround(rest, sep), sep);
      assert s[i..i + |sep|] == sep;
      assert s == s[..i] + sep + rest;
    }
  }

  // ---- specification ----

  /** A text cut up: the chunks it was split into and the separators dropped between them. */
  datatype Piece = Chunk(text: Text) | Sep(text: Text)

  ghost function TextOf(pieces: seq<Piece>): Text {
    if pieces == [] then [] else TextOf(pieces[..|pieces| - 1]) + pieces[|pieces| - 1].text
  }

  ghost function ChunksOf(pieces: seq<Piece>): seq<Text> {
    if pieces == [] then []
    else ChunksOf(pieces[..|pieces| - 1]) + match pieces[|pieces| - 1] case Chunk(t) => [t] case Sep(_) => []
  }

  lemma {:induction false} TextConcat(p: seq<Piece>, q: seq<Piece>)
    ensures TextOf(p + q) == TextOf(p) + TextOf(q)
  {
    if q == [] {
      assert p + q == p;
    } else {
      var n := |q| - 1;
      TextConcat(p, q[..n]);
      assert (p + q)[..|p + q| - 1] == p + q[..n] && (p + q)[|p + q| - 1] == q[n];
      Regroup(TextOf(p), TextOf(q[..n]), q[n].text);
    }
  }

  lemma Regroup(a: Text, b: Text, c: Text)
    ensures (a + b) + c == a + (b + c)
  {
  }

  lemma {:induction false} ChunksConcat(p: seq<Piece>, q: seq<Piece>)
    ensures ChunksOf(p + q) == ChunksOf(p) + ChunksOf(q)
  {
    if q == [] {
      assert p + q == p;
    } else {
      var n := |q| - 1;
      ChunksConcat(p, q[..n]);
      assert (p + q)[..|p + q| - 1] == p + q[..n];
    }
  }

  ghost predicate OnlySeps(pieces: seq<Piece>, seps: seq<Text>) {
    forall i | 0 <= i < |pieces| && pieces[i].Sep? :: pieces[i].text in seps
  }

  /** The chunks stand in the text in order and without overlap, and everything between them is
      made of whole separators. */
  ghost predicate Conserves(chunks: seq<Text>, text: Text, seps: seq<Text>) {
    exists pieces :: Weaves(pieces, chunks, text, seps)
  }

  ghost predicate Weaves(pieces: seq<Piece>, chunks: seq<Text>, text: Text, seps: seq<Text>) {
    TextOf(pieces) == text && ChunksOf(pieces) == chunks && OnlySeps(pieces, seps)
  }

  lemma WeaveChunk(pieces: seq<Piece>, chunks: seq<Text>, text: Text, seps: seq<Text>, c: Text)
    requires Weaves(pieces, chunks, text, seps)
    ensures Weaves(pieces + [Chunk(c)], chunks + [c], text + c, seps)
  {
    assert (pieces + [Chunk(c)])[..|pieces|] == pieces;
  }

  lemma WeaveSep(pieces: seq<Piece>, chunks: seq<Text>, text: Text, seps: seq<Text>, sep: Text)
    requires Weaves(pieces, chunks, text, seps) && sep in seps
    ensures Weaves(pieces + [Sep(sep)], chunks, text + sep, seps)
  {
    assert (pieces + [Sep(sep)])[..|pieces|] == pieces;
    assert chunks + [] == chunks;
  }

  ghost predicate WithinBudget(chunks: seq<Text>, count: Text -> int, max: int) {
    forall i | 0 <= i < |chunks| :: count(chunks[i]) <= max || |chunks[i]| == 1
  }

  lemma WithinBoth(a: seq<Text>, b: seq<Text>, count: Text -> int, max: int)
    requires WithinBudget(a, count, max) && WithinBudget(b, count, max)
    ensures WithinBudget(a + b, count, max)
  {
  }

  ghost function Concat(chunks: seq<Text>): Text {
    if chunks == [] then [] else Concat(chunks[..|chunks| - 1]) + chunks[|chunks| - 1]
  }

  // ---- the hard split ----

  /** The first `n` bytes of `text` fit and one byte more does not; or not even one byte fits, and
      one it is. */
  ghost predicate CutsAt(text: Text, n: nat, count: Text -> int, max: int) {
    && 0 < n <= |text|
    && (count(text[..n]) <= max || (n == 1 && count(text[..1]) > max))
    && (n < |text| && count(text[..n]) <= max ==> count(text[..n + 1]) > max)
  }

  /** Cut after cut off the front of `text` until the rest fits. */
  ghost predicate Chops(text: Text, chunks: seq<Text>, count: Text -> int, max: int)
    decreases |chunks|
  {
    if count(text) <= max then chunks == if text == [] then [] else [text]
    else
      && chunks != [] && chunks[0] <= text && CutsAt(text, |chunks[0]|, count, max)
      && Chops(text[|chunks[0]|..], chunks[1..], count, max)
  }

  /** The pieces of a hard split concatenate to the text, and each fits or is a single byte. */
  lemma {:induction false} ChopsConserves(text: Text, chunks: seq<Text>, count: Text -> int, max: int)
    requires Chops(text, chunks, count, max)
    ensures Concat(chunks) == text && WithinBudget(chunks, count, max)
    ensures forall i | 0 <= i < |chunks| :: chunks[i] != []
    decreases |chunks|
  {
    if count(text) > max {
      ChopsConserves(text[|chunks[0]|..], chunks[1..], count, max);
      ConcatFront(chunks);
    } else if text != [] {
      assert chunks[..0] == [];
    }
  }

  lemma {:induction false} ConcatFront(chunks: seq<Text>)
    requires chunks != []
    ensures Concat(chunks) == chunks[0] + Concat(chunks[1..])
    decreases |chunks|
  {
    if |chunks| == 1 {
      assert chunks[..0] == [];
    } else {
      var front := chunks[..|chunks| - 1];
      ConcatFront(front);
      assert front[1..] == chunks[1..][..|chunks| - 2];
    }
  }

  lemma ChopsOnward(text: Text, n: nat, rest: seq<Text>, count: Text -> int, max: int)
    requires count(text) > max && CutsAt(text, n, count, max) && Chops(text[n..], rest, count, max)
    ensures Chops(text, [text[..n]] + rest, count, max)
  {
    assert ([text[..n]] + rest)[1..] == rest;
  }

  /** hardSplit: binary search for a cut that fits, at least one byte at a time. */
  method HardSplit(text: Text, count: Text -> int, max: int) returns (chunks: seq<Text>)
    requires count([]) <= max
    ensures Chops(text, chunks, count, max)
    ensures Concat(chunks) == text && WithinBudget(chunks, count, max)
  {
    var rest := text;
    chunks := [];
    assert forall tail: seq<Text> :: [] + tail == tail;
    while count(rest) > max
      invariant forall tail {:trigger chunks + tail} | Chops(rest, tail, count, max) ::
        Chops(text, chunks + tail, count, max)
      decreases |rest|
    {
      var lo := SplitPoint(rest, count, max);
      var chunk := rest[..lo];
      forall tail | Chops(rest[lo..], tail, count, max) ensures Chops(text, chunks + [chunk] + tail, count, max) {
        ChopsOnward(rest, lo, tail, count, max);
        assert chunks + [chunk] + tail == chunks + ([chunk] + tail);
      }
      chunks := chunks + [chunk];
      rest := rest[lo..];
    }
    assert Chops(rest, if rest == [] then [] else [rest], count, max);
    assert chunks + [] == chunks;
    if rest != [] {
      chunks := chunks + [rest];
    }
    ChopsConserves(text, chunks, count, max);
  }

  /** The binary search for a prefix that fits, one byte when none was found. */
  method SplitPoint(text: Text, count: Text -> int, max: int) returns (lo: nat)
    requires text != []
    ensures CutsAt(text, lo, count, max)
  {
    var hi := |text|;
    lo := 0;
    while lo < hi
      invariant 0 <= lo <= hi <= |text|
      invariant lo == 0 || count(text[..lo]) <= max
      invariant hi < |text| ==> count(text[..hi + 1]) > max
    {
      var mid := (lo + hi + 1) / 2;
      if count(text[..mid]) <= max {
        lo := mid;
      } else {
        hi := mid - 1;
      }
    }
    if lo == 0 {
      lo := 1;
    }
  }

  /** Chunks that concatenate to the text are conserved without any separator. */
  lemma {:induction false} ConcatConserves(chunks: seq<Text>, seps: seq<Text>)
    ensures Conserves(chunks, Concat(chunks), seps)
  {
    if chunks == [] {
      assert Weaves([], chunks, [], seps);
    } else {
      var n := |chunks| - 1;
      ConcatConserves(chunks[..n], seps);
      var pieces :| Weaves(pieces, chunks[..n], Concat(chunks[..n]), seps);
      WeaveChunk(pieces, chunks[..n], Concat(chunks[..n]), seps, chunks[n]);
      assert chunks == chunks[..n] + [chunks[n]];
    }
  }

  // ---- the recursive split ----

  ghost predicate ValidConfig(cfg: Config, count: Text -> int) {
    count([]) <= cfg.maxTokens && ValidWidth(cfg.width)
  }

  /** What splitting `text` at the separators from `sepIdx` on may give: the text if it fits, a hard split
      when no separator is left, and else the splits of the chunks that its parts are glued to. */
  ghost predicate Splits(cfg: Config, count: Text -> int, text: Text, result: seq<Text>, sepIdx: nat)
    requires ValidWidth(cfg.width) && sepIdx <= |cfg.separators|
    decreases |cfg.separators| - sepIdx, 2
  {
    if count(text) <= cfg.maxTokens then result == [text]
    else if sepIdx == |cfg.separators| then Chops(text, result, count, cfg.maxTokens)
    else if |Split(text, cfg.separators[sepIdx], cfg.width)| <= 1 then Splits(cfg, count, text, result, sepIdx + 1)
    else exists chunks, cuts, subs :: SplitsAt(cfg, count, text, result, sepIdx, chunks, cuts, subs)
  }

  ghost predicate SplitsAt(cfg: Config, count: Text -> int, text: Text, result: seq<Text>, sepIdx: nat,
                           chunks: seq<Text>, cuts: seq<nat>, subs: seq<seq<Text>>)
    requires ValidWidth(cfg.width) && sepIdx < |cfg.separators|
    decreases |cfg.separators| - sepIdx, 1
  {
    var sep := cfg.separators[sepIdx];
    && Merged(Split(text, sep, cfg.width), sep, chunks, cuts, count, cfg.maxTokens)
    && Conserves(chunks, text, cfg.separators)
    && result == Flatten(subs) && SplitsEach(cfg, count, chunks, subs, sepIdx + 1)
  }

  ghost predicate SplitsEach(cfg: Config, count: Text -> int, chunks: seq<Text>, subs: seq<seq<Text>>, sepIdx: nat)
    requires ValidWidth(cfg.width) && sepIdx <= |cfg.separators|
    decreases |cfg.separators| - sepIdx, 3
  {
    |subs| == |chunks| && forall k | 0 <= k < |chunks| :: Splits(cfg, count, chunks[k], subs[k], sepIdx)
  }

  /** splitRecursive. */
  method SplitRecursive(cfg: Config, count: Text -> int, text: Text, sepIdx: nat) returns (result: seq<Text>)
    requires ValidConfig(cfg, count) && sepIdx <= |cfg.separators|
    ensures Splits(cfg, count, text, result, sepIdx)
    ensures Conserves(result, text, cfg.separators) && WithinBudget(result, count, cfg.maxTokens)
    decreases |cfg.separators| - sepIdx
  {
    if count(text) <= cfg.maxTokens {
      result := [text];
      SplitsConserve(cfg, count, text, result, sepIdx);
      return;
    }
    if sepIdx >= |cfg.separators| {
      result := HardSplit(text, count, cfg.maxTokens);
      SplitsConserve(cfg, count, text, result, sepIdx);
      return;
    }
    var sep := cfg.separators[sepIdx];
    var parts := Split(text, sep, cfg.width);
    if |parts| <= 1 {
      result := SplitRecursive(cfg, count, text, sepIdx + 1);
      return;
    }
    JoinSplit(text, sep, cfg.width);
    var chunks := Merge(cfg, count, parts, sep);
    ghost var cuts :| Merged(parts, sep, chunks, cuts, count, cfg.maxTokens);
    ghost var subs;
    result, subs := SplitOversized(cfg, count, chunks, sepIdx);
    assert SplitsAt(cfg, count, text, result, sepIdx, chunks, cuts, subs);
    SplitsConserve(cfg, count, text, result, sepIdx);
  }

  /** The text of the parts from `i` on, with the separator before each but the first. */
  ghost function Rest(parts: seq<Text>, sep: Text, i: nat): Text
    requires i <= |parts|
  {
    if i == |parts| then [] else (if i > 0 then sep else []) + Join(parts[i..], sep)
  }

  /** A part behind what was collected; nothing was collected when it is empty. */
  function Glue(current: Text, sep: Text, part: Text): Text {
    if current == [] then part else current + sep + part
  }

  ghost function GlueAll(parts: seq<Text>, sep: Text): Text {
    if parts == [] then [] else Glue(GlueAll(parts[..|parts| - 1], sep), sep, parts[|parts| - 1])
  }

  /** The `k`-th chunk glues the parts from `cuts[k]` to `cuts[k + 1]`, and fits or is one part. */
  ghost predicate GluesAt(parts: seq<Text>, sep: Text, chunks: seq<Text>, cuts: seq<nat>, k: nat,
                          count: Text -> int, max: int)
    requires k < |chunks| < |cuts|
  {
    && cuts[k] < cuts[k + 1] <= |parts| && chunks[k] != []
    && chunks[k] == GlueAll(parts[cuts[k]..cuts[k + 1]], sep)
    && (count(chunks[k]) <= max || chunks[k] in parts)
  }

  /** The `k`-th chunk is full: with the next part it does not fit. */
  ghost predicate FullAt(parts: seq<Text>, sep: Text, chunks: seq<Text>, cuts: seq<nat>, k: nat,
                         count: Text -> int, max: int)
    requires k < |chunks| < |cuts|
  {
    cuts[k + 1] < |parts| && count(Glue(chunks[k], sep, parts[cuts[k + 1]])) > max
  }

  /** Chunks made of consecutive parts, all of them full. */
  ghost predicate Filled(parts: seq<Text>, sep: Text, chunks: seq<Text>, cuts: seq<nat>, count: Text -> int, max: int) {
    && |cuts| == |chunks| + 1 && cuts[0] == 0
    && (forall k | 0 <= k < |chunks| :: GluesAt(parts, sep, chunks, cuts, k, count, max))
    && (forall k | 0 <= k < |chunks| :: FullAt(parts, sep, chunks, cuts, k, count, max))
  }

  /** All parts are used up: the last chunk has the rest, unless the rest is empty. */
  ghost predicate Merged(parts: seq<Text>, sep: Text, chunks: seq<Text>, cuts: seq<nat>, count: Text -> int, max: int) {
    || (&& Filled(parts, sep, chunks, cuts, count, max)
        && cuts[|chunks|] <= |parts| && GlueAll(parts[cuts[|chunks|]..], sep) == [])
    || (&& |chunks| > 0 && |cuts| == |chunks| + 1
        && Filled(parts, sep, chunks[..|chunks| - 1], cuts[..|chunks|], count, max)
        && cuts[|chunks|] == |parts| && GluesAt(parts, sep, chunks, cuts, |chunks| - 1, count, max))
  }

  /** What the gluing loop knows about the parts before `i`. */
  ghost predicate Gluing(parts: seq<Text>, sep: Text, chunks: seq<Text>, cuts: seq<nat>, current: Text, i: nat,
                         count: Text -> int, max: int) {
    && Filled(parts, sep, chunks, cuts, count, max)
    && cuts[|chunks|] <= i <= |parts| && current == GlueAll(parts[cuts[|chunks|]..i], sep)
    && (current == [] || count(current) <= max || current in parts)
  }

  lemma GluingFlush(parts: seq<Text>, sep: Text, chunks: seq<Text>, cuts: seq<nat>, current: Text, i: nat,
                    count: Text -> int, max: int)
    requires Gluing(parts, sep, chunks, cuts, current, i, count, max) && i < |parts|
    requires current != [] && count(Glue(current, sep, parts[i])) > max
    ensures Gluing(parts, sep, chunks + [current], cuts + [i], parts[i], i + 1, count, max)
  {
    var chunks', cuts' := chunks + [current], cuts + [i];
    assert parts[cuts[|chunks|]..i] != [];
    forall k | 0 <= k < |chunks'|
      ensures GluesAt(parts, sep, chunks', cuts', k, count, max) && FullAt(parts, sep, chunks', cuts', k, count, max)
    {
      if k < |chunks| {
        assert GluesAt(parts, sep, chunks, cuts, k, count, max) && FullAt(parts, sep, chunks, cuts, k, count, max);
      }
    }
    assert parts[i..i + 1] == [parts[i]] && [parts[i]][..0] == [];
    assert GlueAll([], sep) == [];
  }

  lemma GluingOn(parts: seq<Text>, sep: Text, chunks: seq<Text>, cuts: seq<nat>, current: Text, i: nat,
                 count: Text -> int, max: int)
    requires Gluing(parts, sep, chunks, cuts, current, i, count, max) && i < |parts|
    requires current == [] || count(Glue(current, sep, parts[i])) <= max
    ensures Gluing(parts, sep, chunks, cuts, Glue(current, sep, parts[i]), i + 1, count, max)
  {
    var c := cuts[|chunks|];
    assert parts[c..i + 1][..i - c] == parts[c..i];
  }

  lemma GluingEnds(parts: seq<Text>, sep: Text, chunks: seq<Text>, cuts: seq<nat>, current: Text,
                   count: Text -> int, max: int)
    requires Gluing(parts, sep, chunks, cuts, current, |parts|, count, max)
    ensures current == [] ==> Merged(parts, sep, chunks, cuts, count, max)
    ensures current != [] ==> Merged(parts, sep, chunks + [current], cuts + [|parts|], count, max)
  {
    var n, c := |parts|, cuts[|chunks|];
    assert parts[c..n] == parts[c..];
    if current != [] {
      var chunks', cuts' := chunks + [current], cuts + [n];
      assert parts[c..] != [];
      assert chunks'[..|chunks|] == chunks && cuts'[..|chunks| + 1] == cuts;
      assert GluesAt(parts, sep, chunks', cuts', |chunks|, count, max);
    }
  }

  // the proof's view of the gluing loop: pieces of the text done, and where parts were cut
  datatype Trace = Trace(pieces: seq<Piece>, done: Text, cuts: seq<nat>)

  /** Where the loop stands before the part `i`. */
  ghost function Before(g: Trace, cfg: Config, count: Text -> int, parts: seq<Text>, sep: Text, chunks: seq<Text>,
                        current: Text, i: nat): Verdict {
    if && i <= |parts| && (current != [] ==> i > 0) && Weaves(g.pieces, chunks, g.done, cfg.separators)
       && Join(parts, sep) == g.done + (current + Rest(parts, sep, i))
       && Gluing(parts, sep, chunks, g.cuts, current, i, count, cfg.maxTokens)
    then Yes else No
  }

  /** Whether the chunks are what gluing promises. */
  ghost function After(cfg: Config, count: Text -> int, parts: seq<Text>, sep: Text, chunks: seq<Text>): Verdict {
    if && Conserves(chunks, Join(parts, sep), cfg.separators)
       && exists cuts :: Merged(parts, sep, chunks, cuts, count, cfg.maxTokens)
    then Yes else No
  }

  lemma MergeStarts(cfg: Config, count: Text -> int, parts: seq<Text>, sep: Text)
    ensures Before(Trace([], [], [0]), cfg, count, parts, sep, [], [], 0) == Yes
  {
    assert parts[0..] == parts && parts[0..0] == [];
  }

  /** One round of the gluing loop. */
  lemma MergeRound(g: Trace, cfg: Config, count: Text -> int, parts: seq<Text>, sep: Text, chunks: seq<Text>,
                   current: Text, i: nat, flush: bool)
    returns (g': Trace)
    requires Before(g, cfg, count, parts, sep, chunks, current, i) == Yes && i < |parts| && sep in cfg.separators
    requires flush <==> count(Glue(current, sep, parts[i])) > cfg.maxTokens && current != []
    ensures Before(g', cfg, count, parts, sep, if flush then chunks + [current] else chunks,
                   if flush then parts[i] else Glue(current, sep, parts[i]), i + 1) == Yes
  {
    RestStep(parts, sep, i);
    var pieces, done := MergeStep(g.pieces, chunks, g.done, current, sep, parts[i], Rest(parts, sep, i + 1), i, flush,
                                  Join(parts, sep), cfg.separators);
    var cuts := g.cuts;
    if flush {
      GluingFlush(parts, sep, chunks, g.cuts, current, i, count, cfg.maxTokens);
      cuts := cuts + [i];
    } else {
      GluingOn(parts, sep, chunks, g.cuts, current, i, count, cfg.maxTokens);
    }
    g' := Trace(pieces, done, cuts);
  }

  lemma MergeEnds(g: Trace, cfg: Config, count: Text -> int, parts: seq<Text>, sep: Text, chunks: seq<Text>,
                  current: Text)
    requires Before(g, cfg, count, parts, sep, chunks, current, |parts|) == Yes
    ensures After(cfg, count, parts, sep, if current == [] then chunks else chunks + [current]) == Yes
  {
    GluingEnds(parts, sep, chunks, g.cuts, current, count, cfg.maxTokens);
    assert Join(parts, sep) == g.done + current;
    if current == [] {
      assert Weaves(g.pieces, chunks, Join(parts, sep), cfg.separators);
      assert Merged(parts, sep, chunks, g.cuts, count, cfg.maxTokens);
    } else {
      WeaveChunk(g.pieces, chunks, g.done, cfg.separators, current);
      assert Conserves(chunks + [current], Join(parts, sep), cfg.separators);
      assert Merged(parts, sep, chunks + [current], g.cuts + [|parts|], count, cfg.maxTokens);
    }
  }

  /** The loop that glues parts together for as long as they fit. */
  method Merge(cfg: Config, count: Text -> int, parts: seq<Text>, sep: Text) returns (chunks: seq<Text>)
    requires |parts| > 1 && sep in cfg.separators
    ensures Conserves(chunks, Join(parts, sep), cfg.separators)
    ensures exists cuts :: Merged(parts, sep, chunks, cuts, count, cfg.maxTokens)
  {
    chunks := [];
    var current: Text := [];
    ghost var g := Trace([], [], [0]);
    MergeStarts(cfg, count, parts, sep);
    for i := 0 to |parts|
      invariant if i == |parts| then After(cfg, count, parts, sep, chunks) == Yes
                else Before(g, cfg, count, parts, sep, chunks, current, i) == Yes
    {
      var part := parts[i];
      var candidate := current;
      if candidate != [] {
        candidate := candidate + sep;
      }
      candidate := candidate + part;
      var flush := count(candidate) > cfg.maxTokens && current != [];
      assert candidate == Glue(current, sep, part);
      g := MergeRound(g, cfg, count, parts, sep, chunks, current, i, flush);
      if flush {
        chunks := chunks + [current];
        current := part;
      } else {
        current := candidate;
      }
      if i == |parts| - 1 {
        MergeEnds(g, cfg, count, parts, sep, chunks, current);
        if current != [] {
          chunks := chunks + [current];
        }
      }
    }
  }

  /** What was flushed and what separator was dropped. */
  lemma MergeStep(pieces: seq<Piece>, chunks: seq<Text>, done: Text, current: Text, sep: Text, part: Text,
                  rest: Text, i: nat, flush: bool, text: Text, seps: seq<Text>)
    returns (pieces': seq<Piece>, done': Text)
    requires Weaves(pieces, chunks, done, seps) && sep in seps
    requires text == done + (current + ((if i > 0 then sep else []) + (part + rest)))
    requires (current != [] ==> i > 0) && (flush ==> current != [])
    ensures Weaves(pieces', if flush then chunks + [current] else chunks, done', seps)
    ensures text == done' + ((if flush then part else Glue(current, sep, part)) + rest)
  {
    if flush {
      WeaveChunk(pieces, chunks, done, seps, current);
      WeaveSep(pieces + [Chunk(current)], chunks + [current], done + current, seps, sep);
      pieces', done' := pieces + [Chunk(current)] + [Sep(sep)], done + current + sep;
    } else if current == [] && i > 0 {
      WeaveSep(pieces, chunks, done, seps, sep);
      pieces', done' := pieces + [Sep(sep)], done + sep;
    } else {
      pieces', done' := pieces, done;
      assert (current + sep) + (part + rest) == current + (sep + (part + rest));
    }
  }

  lemma RestStep(parts: seq<Text>, sep: Text, i: nat)
    requires i < |parts|
    ensures Rest(parts, sep, i) == (if i > 0 then sep else []) + (parts[i] + Rest(parts, sep, i + 1))
  {
    assert parts[i..][1..] == parts[i + 1..];
  }

  ghost predicate EachConserves(subs: seq<seq<Text>>, chunks: seq<Text>, seps: seq<Text>) {
    |subs| <= |chunks| && forall j | 0 <= j < |subs| :: Conserves(subs[j], chunks[j], seps)
  }

  lemma EachOnward(subs: seq<seq<Text>>, chunks: seq<Text>, sub: seq<Text>, seps: seq<Text>)
    requires EachConserves(subs, chunks, seps) && |subs| < |chunks| && Conserves(sub, chunks[|subs|], seps)
    ensures EachConserves(subs + [sub], chunks, seps)
  {
  }

  /** The loop that splits again what is still too large. */
  method SplitOversized(cfg: Config, count: Text -> int, chunks: seq<Text>, sepIdx: nat)
    returns (result: seq<Text>, ghost subs: seq<seq<Text>>)
    requires ValidConfig(cfg, count) && sepIdx < |cfg.separators|
    ensures result == Flatten(subs) && SplitsEach(cfg, count, chunks, subs, sepIdx + 1)
    decreases |cfg.separators| - sepIdx, 0
  {
    result, subs := [], [];
    for i := 0 to |chunks|
      invariant |subs| == i && result == Flatten(subs)
      invariant forall k | 0 <= k < i :: Splits(cfg, count, chunks[k], subs[k], sepIdx + 1)
    {
      var chunk := chunks[i];
      var sub;
      if count(chunk) > cfg.maxTokens {
        sub := SplitRecursive(cfg, count, chunk, sepIdx + 1);
      } else {
        sub := [chunk];
      }
      assert (subs + [sub])[..i] == subs;
      result := result + sub;
      subs := subs + [sub];
    }
  }

  ghost function Flatten(subs: seq<seq<Text>>): seq<Text> {
    if subs == [] then [] else Flatten(subs[..|subs| - 1]) + subs[|subs| - 1]
  }

  /** Splitting each chunk of a conserved text conserves the text. */
  lemma {:induction false} RefineChunks(pieces: seq<Piece>, chunks: seq<Text>, subs: seq<seq<Text>>, text: Text,
                                        seps: seq<Text>)
    requires Weaves(pieces, chunks, text, seps) && |subs| == |chunks|
    requires EachConserves(subs, chunks, seps)
    ensures Conserves(Flatten(subs), text, seps)
    decreases |pieces|
  {
    if pieces == [] {
      assert Weaves([], Flatten(subs), text, seps);
    } else {
      var front, last := pieces[..|pieces| - 1], pieces[|pieces| - 1];
      if last.Sep? {
        RefineChunks(front, chunks, subs, TextOf(front), seps);
        var p :| Weaves(p, Flatten(subs), TextOf(front), seps);
        WeaveSep(p, Flatten(subs), TextOf(front), seps, last.text);
      } else {
        var n := |chunks| - 1;
        assert chunks[..n] == ChunksOf(front) && chunks[n] == last.text;
        RefineChunks(front, chunks[..n], subs[..n], TextOf(front), seps);
        var p :| Weaves(p, Flatten(subs[..n]), TextOf(front), seps);
        var q :| Weaves(q, subs[n], chunks[n], seps);
        TextConcat(p, q);
        ChunksConcat(p, q);
        assert Weaves(p + q, Flatten(subs), text, seps);
      }
    }
  }

  // ---- what a split means ----

  ghost predicate Contains(s: Text, part: Text) {
    exists i: nat :: HasAt(s, part, i)
  }

  lemma ContainsTransitive(s: Text, t: Text, part: Text)
    requires Contains(s, t) && Contains(t, part)
    ensures Contains(s, part)
  {
    var i: nat, j: nat :| HasAt(s, t, i) && HasAt(t, part, j);
    forall k | 0 <= k < |part| ensures s[i + j + k] == part[k] {
      assert s[i..i + |t|][j + k] == t[j..j + |part|][k];
    }
    assert s[i + j..i + j + |part|] == part;
    assert HasAt(s, part, i + j);
  }

  /** No part that Split makes contains the separator. */
  lemma {:induction false} PartsAreFree(s: Text, sep: Text)
    requires sep != []
    ensures forall p | p in SplitAround(s, sep) :: !Contains(p, sep)
    decreases |s|
  {
    var i := IndexFrom(s, sep, 0);
    if i > |s| {
      assert !Contains(s, sep);
    } else {
      var front := s[..i];
      forall j: nat ensures !HasAt(front, sep, j) {
        if HasAt(front, sep, j) {
          assert front[j..j + |sep|] == s[j..j + |sep|];
          assert HasAt(s, sep, j);
        }
      }
      PartsAreFree(s[i + |sep|..], sep);
    }
  }

  /** Conserved chunks stand in the text. */
  lemma {:induction false} ChunksInside(pieces: seq<Piece>, chunks: seq<Text>, text: Text, seps: seq<Text>)
    requires Weaves(pieces, chunks, text, seps)
    ensures forall c | c in chunks :: Contains(text, c)
    decreases |pieces|
  {
    if pieces != [] {
      var front, last := pieces[..|pieces| - 1], pieces[|pieces| - 1];
      ChunksInside(front, ChunksOf(front), TextOf(front), seps);
      FrontInside(TextOf(front), last.text);
      forall c | c in ChunksOf(front) ensures Contains(text, c) {
        ContainsTransitive(text, TextOf(front), c);
      }
      assert last.Chunk? ==> chunks == ChunksOf(front) + [last.text];
    }
  }

  lemma FrontInside(a: Text, b: Text)
    ensures Contains(a + b, a) && Contains(a + b, b)
  {
    assert (a + b)[0..|a|] == a && HasAt(a + b, a, 0);
    assert (a + b)[|a|..|a| + |b|] == b && HasAt(a + b, b, |a|);
  }

  /** A piece of the text, and the chunks it became. */
  datatype Group = Group(text: Text, chunks: seq<Text>)

  ghost function Texts(groups: seq<Group>): seq<Text> {
    seq(|groups|, i requires 0 <= i < |groups| => groups[i].text)
  }

  ghost function Outs(groups: seq<Group>): seq<seq<Text>> {
    seq(|groups|, i requires 0 <= i < |groups| => groups[i].chunks)
  }

  /** The piece is one chunk if it fits; else it is split hard, and contains no separator from `sepIdx` on. */
  ghost predicate GroupOk(cfg: Config, count: Text -> int, g: Group, sepIdx: nat) {
    if count(g.text) <= cfg.maxTokens then g.chunks == [g.text]
    else
      && Chops(g.text, g.chunks, count, cfg.maxTokens)
      && forall k | sepIdx <= k < |cfg.separators| && cfg.separators[k] != [] :: !Contains(g.text, cfg.separators[k])
  }

  /** The result, piece by piece. */
  ghost predicate Grouped(cfg: Config, count: Text -> int, groups: seq<Group>, text: Text, result: seq<Text>,
                          sepIdx: nat) {
    && Conserves(Texts(groups), text, cfg.separators) && result == Flatten(Outs(groups))
    && forall i | 0 <= i < |groups| :: GroupOk(cfg, count, groups[i], sepIdx)
  }

  lemma OneGroup(cfg: Config, count: Text -> int, text: Text, chunks: seq<Text>, sepIdx: nat)
    requires GroupOk(cfg, count, Group(text, chunks), sepIdx)
    ensures Grouped(cfg, count, [Group(text, chunks)], text, chunks, sepIdx)
  {
    var groups := [Group(text, chunks)];
    WeaveChunk([], [], [], cfg.separators, text);
    assert [] + [text] == [text] == Texts(groups) && [] + text == text;
    assert Outs(groups)[..0] == [] && Flatten([]) == [];
    assert Flatten(Outs(groups)) == [] + chunks == chunks;
  }

  /** Groups of a piece that does not contain the separator before theirs either. */
  lemma OneSeparatorMore(cfg: Config, count: Text -> int, groups: seq<Group>, text: Text, result: seq<Text>,
                         sepIdx: nat)
    requires sepIdx < |cfg.separators| && Grouped(cfg, count, groups, text, result, sepIdx + 1)
    requires cfg.separators[sepIdx] != [] ==> !Contains(text, cfg.separators[sepIdx])
    ensures Grouped(cfg, count, groups, text, result, sepIdx)
  {
    var pieces :| Weaves(pieces, Texts(groups), text, cfg.separators);
    ChunksInside(pieces, Texts(groups), text, cfg.separators);
    forall i | 0 <= i < |groups| ensures GroupOk(cfg, count, groups[i], sepIdx) {
      assert Texts(groups)[i] == groups[i].text && groups[i].text in Texts(groups);
      if cfg.separators[sepIdx] != [] && Contains(groups[i].text, cfg.separators[sepIdx]) {
        ContainsTransitive(text, groups[i].text, cfg.separators[sepIdx]);
      }
    }
  }

  lemma MergedFits(parts: seq<Text>, sep: Text, chunks: seq<Text>, cuts: seq<nat>, count: Text -> int, max: int)
    requires Merged(parts, sep, chunks, cuts, count, max)
    ensures forall k | 0 <= k < |chunks| :: count(chunks[k]) <= max || chunks[k] in parts
  {
    forall k | 0 <= k < |chunks| ensures count(chunks[k]) <= max || chunks[k] in parts {
      if Filled(parts, sep, chunks, cuts, count, max) {
        assert GluesAt(parts, sep, chunks, cuts, k, count, max);
      } else if k < |chunks| - 1 {
        assert GluesAt(parts, sep, chunks[..|chunks| - 1], cuts[..|chunks|], k, count, max);
      }
    }
  }

  /** What a split comes to: the text is made of pieces and dropped separators; a piece is one chunk, or is
      split hard, and that only if it contains no separator that was still to be tried. */
  lemma {:induction false} SplitsGroups(cfg: Config, count: Text -> int, text: Text, result: seq<Text>, sepIdx: nat)
    returns (groups: seq<Group>)
    requires ValidWidth(cfg.width) && sepIdx <= |cfg.separators| && Splits(cfg, count, text, result, sepIdx)
    ensures Grouped(cfg, count, groups, text, result, sepIdx)
    ensures count(text) <= cfg.maxTokens ==> groups == [Group(text, [text])]
    decreases |cfg.separators| - sepIdx, 1, 0
  {
    if count(text) <= cfg.maxTokens || sepIdx == |cfg.separators| {
      groups := [Group(text, result)];
      OneGroup(cfg, count, text, result, sepIdx);
      return;
    }
    var sep := cfg.separators[sepIdx];
    var parts := Split(text, sep, cfg.width);
    if sep != [] {
      PartsAreFree(text, sep);
    }
    if |parts| <= 1 {
      groups := SplitsGroups(cfg, count, text, result, sepIdx + 1);
      if sep != [] {
        assert parts == [text] && text in parts;
      }
      OneSeparatorMore(cfg, count, groups, text, result, sepIdx);
    } else {
      var chunks, cuts, subs :| SplitsAt(cfg, count, text, result, sepIdx, chunks, cuts, subs);
      MergedFits(parts, sep, chunks, cuts, count, cfg.maxTokens);
      var texts;
      groups, texts := EachGroups(cfg, count, parts, chunks, subs, sepIdx, |chunks|);
      assert subs[..|chunks|] == subs;
      var pieces :| Weaves(pieces, chunks, text, cfg.separators);
      RefineChunks(pieces, chunks, texts, text, cfg.separators);
    }
  }

  /** Whether the groups are those of the first chunks, one list of them for each. */
  ghost function Gathered(cfg: Config, count: Text -> int, groups: seq<Group>, texts: seq<seq<Text>>,
                          chunks: seq<Text>, subs: seq<seq<Text>>, sepIdx: nat): Verdict {
    if && |texts| == |subs| && EachConserves(texts, chunks, cfg.separators) && Texts(groups) == Flatten(texts)
       && Flatten(Outs(groups)) == Flatten(subs)
       && forall i | 0 <= i < |groups| :: GroupOk(cfg, count, groups[i], sepIdx)
    then Yes else No
  }

  lemma {:induction false} EachGroups(cfg: Config, count: Text -> int, parts: seq<Text>, chunks: seq<Text>,
                                      subs: seq<seq<Text>>, sepIdx: nat, n: nat)
    returns (groups: seq<Group>, texts: seq<seq<Text>>)
    requires ValidWidth(cfg.width) && sepIdx < |cfg.separators| && n <= |chunks|
    requires SplitsEach(cfg, count, chunks, subs, sepIdx + 1)
    requires forall k | 0 <= k < |chunks| :: count(chunks[k]) <= cfg.maxTokens || chunks[k] in parts
    requires cfg.separators[sepIdx] != [] ==> forall p | p in parts :: !Contains(p, cfg.separators[sepIdx])
    ensures Gathered(cfg, count, groups, texts, chunks, subs[..n], sepIdx) == Yes
    decreases |cfg.separators| - sepIdx, 0, n
  {
    if n == 0 {
      groups, texts := [], [];
      return;
    }
    groups, texts := EachGroups(cfg, count, parts, chunks, subs, sepIdx, n - 1);
    var more := ChunkGroups(cfg, count, parts, chunks[n - 1], subs[n - 1], sepIdx);
    groups, texts := GroupsOnward(cfg, count, groups, texts, chunks, subs, n - 1, more, sepIdx);
  }

  lemma {:induction false} ChunkGroups(cfg: Config, count: Text -> int, parts: seq<Text>, chunk: Text,
                                       sub: seq<Text>, sepIdx: nat)
    returns (groups: seq<Group>)
    requires ValidWidth(cfg.width) && sepIdx < |cfg.separators| && Splits(cfg, count, chunk, sub, sepIdx + 1)
    requires count(chunk) <= cfg.maxTokens || chunk in parts
    requires cfg.separators[sepIdx] != [] ==> forall p | p in parts :: !Contains(p, cfg.separators[sepIdx])
    ensures Grouped(cfg, count, groups, chunk, sub, sepIdx)
    decreases |cfg.separators| - sepIdx, 0, 0
  {
    groups := SplitsGroups(cfg, count, chunk, sub, sepIdx + 1);
    if count(chunk) > cfg.maxTokens {
      OneSeparatorMore(cfg, count, groups, chunk, sub, sepIdx);
    }
  }

  lemma GroupsOnward(cfg: Config, count: Text -> int, groups: seq<Group>, texts: seq<seq<Text>>, chunks: seq<Text>,
                     subs: seq<seq<Text>>, i: nat, more: seq<Group>, sepIdx: nat)
    returns (groups': seq<Group>, texts': seq<seq<Text>>)
    requires i < |chunks| == |subs| && Gathered(cfg, count, groups, texts, chunks, subs[..i], sepIdx) == Yes
    requires Grouped(cfg, count, more, chunks[i], subs[i], sepIdx)
    ensures Gathered(cfg, count, groups', texts', chunks, subs[..i + 1], sepIdx) == Yes
  {
    groups', texts' := groups + more, texts + [Texts(more)];
    GroupsConcat(groups, more);
    EachOnward(texts, chunks, Texts(more), cfg.separators);
    assert texts'[..i] == texts && subs[..i + 1][..i] == subs[..i];
  }

  lemma GroupsConcat(a: seq<Group>, b: seq<Group>)
    ensures Texts(a + b) == Texts(a) + Texts(b)
    ensures Flatten(Outs(a + b)) == Flatten(Outs(a)) + Flatten(Outs(b))
  {
    assert Outs(a + b) == Outs(a) + Outs(b);
    FlattenConcat(Outs(a), Outs(b));
  }

  lemma {:induction false} FlattenConcat(a: seq<seq<Text>>, b: seq<seq<Text>>)
    ensures Flatten(a + b) == Flatten(a) + Flatten(b)
  {
    if b == [] {
      assert a + b == a;
    } else {
      FlattenConcat(a, b[..|b| - 1]);
      assert (a + b)[..|a + b| - 1] == a + b[..|b| - 1];
    }
  }

  /** So the chunks stand in the text in order and disjointly, with gaps made of separators, and each is
      within the budget or a single byte. */
  lemma SplitsConserve(cfg: Config, count: Text -> int, text: Text, result: seq<Text>, sepIdx: nat)
    requires ValidWidth(cfg.width) && sepIdx <= |cfg.separators| && Splits(cfg, count, text, result, sepIdx)
    ensures Conserves(result, text, cfg.separators) && WithinBudget(result, count, cfg.maxTokens)
  {
    var groups := SplitsGroups(cfg, count, text, result, sepIdx);
    GroupedConserves(cfg, count, groups, text, result, sepIdx);
  }

  lemma GroupedConserves(cfg: Config, count: Text -> int, groups: seq<Group>, text: Text, result: seq<Text>,
                         sepIdx: nat)
    requires Grouped(cfg, count, groups, text, result, sepIdx)
    ensures Conserves(result, text, cfg.separators) && WithinBudget(result, count, cfg.maxTokens)
  {
    forall i | 0 <= i < |groups|
      ensures Conserves(groups[i].chunks, groups[i].text, cfg.separators)
      ensures WithinBudget(groups[i].chunks, count, cfg.maxTokens)
    {
      assert GroupOk(cfg, count, groups[i], sepIdx);
      GroupConserves(cfg, count, groups[i], sepIdx);
    }
    var pieces :| Weaves(pieces, Texts(groups), text, cfg.separators);
    assert EachConserves(Outs(groups), Texts(groups), cfg.separators);
    RefineChunks(pieces, Texts(groups), Outs(groups), text, cfg.separators);
    FlattenWithin(Outs(groups), count, cfg.maxTokens);
  }

  lemma GroupConserves(cfg: Config, count: Text -> int, g: Group, sepIdx: nat)
    requires GroupOk(cfg, count, g, sepIdx)
    ensures Conserves(g.chunks, g.text, cfg.separators) && WithinBudget(g.chunks, count, cfg.maxTokens)
  {
    if count(g.text) <= cfg.maxTokens {
      WeaveChunk([], [], [], cfg.separators, g.text);
      assert [] + [g.text] == [g.text] && [] + g.text == g.text;
    } else {
      ChopsConserves(g.text, g.chunks, count, cfg.maxTokens);
      ConcatConserves(g.chunks, cfg.separators);
    }
  }

  lemma {:induction false} FlattenWithin(subs: seq<seq<Text>>, count: Text -> int, max: int)
    requires forall i | 0 <= i < |subs| :: WithinBudget(subs[i], count, max)
    ensures WithinBudget(Flatten(subs), count, max)
  {
    if subs != [] {
      FlattenWithin(subs[..|subs| - 1], count, max);
      WithinBoth(Flatten(subs[..|subs| - 1]), subs[|subs| - 1], count, max);
    }
  }

  // ---- overlap ----

  /** What follows `lo` is within the overlap, and with one byte more it is not; it is all of `prev`
      when that fits. */
  ghost predicate SuffixAt(prev: Text, lo: nat, count: Text -> int, overlap: int) {
    && lo <= |prev| && count(prev[lo..]) <= overlap
    && (lo > 0 ==> count(prev[lo - 1..]) > overlap)
    && (count(prev) <= overlap <==> lo == 0)
  }

  /** `r` is `chunk` behind a largest suffix of `prev` within the overlap. */
  ghost predicate OverlapOf(r: Text, prev: Text, chunk: Text, count: Text -> int, overlap: int) {
    exists lo: nat :: SuffixAt(prev, lo, count, overlap) && r == prev[lo..] + chunk
  }

  /** Each chunk but the first gets a largest small enough suffix of the one before it put in front. */
  ghost predicate Overlapped(result: seq<Text>, chunks: seq<Text>, count: Text -> int, overlap: int) {
    && |result| == |chunks|
    && (|chunks| > 0 ==> result[0] == chunks[0])
    && forall i | 0 < i < |chunks| :: OverlapOf(result[i], chunks[i - 1], chunks[i], count, overlap)
  }

  /** applyOverlap. */
  method ApplyOverlap(cfg: Config, count: Text -> int, chunks: seq<Text>) returns (result: seq<Text>)
    requires count([]) <= 0
    ensures if cfg.overlap <= 0 || |chunks| <= 1 then result == chunks
            else Overlapped(result, chunks, count, cfg.overlap)
  {
    if cfg.overlap <= 0 || |chunks| <= 1 {
      return chunks;
    }
    result := [chunks[0]];
    for i := 1 to |chunks|
      invariant |result| == i && result[0] == chunks[0]
      invariant forall j | 0 < j < i :: OverlapOf(result[j], chunks[j - 1], chunks[j], count, cfg.overlap)
    {
      var prev := chunks[i - 1];
      var overlapText := prev;
      assert prev[0..] == prev;
      if count(prev) > cfg.overlap {
        var lo := SuffixStart(prev, count, cfg.overlap);
        overlapText := prev[lo..];
        assert SuffixAt(prev, lo, count, cfg.overlap);
      } else {
        assert SuffixAt(prev, 0, count, cfg.overlap);
      }
      result := result + [overlapText + chunks[i]];
    }
  }

  /** The binary search for a suffix that fits. */
  method SuffixStart(prev: Text, count: Text -> int, overlap: int) returns (lo: nat)
    requires count([]) <= overlap
    ensures lo <= |prev| && count(prev[lo..]) <= overlap
    ensures lo > 0 ==> count(prev[lo - 1..]) > overlap
  {
    var hi := |prev|;
    lo := 0;
    assert prev[|prev|..] == [];
    while lo < hi
      invariant lo <= hi <= |prev|
      invariant count(prev[hi..]) <= overlap
      invariant lo > 0 ==> count(prev[lo - 1..]) > overlap
    {
      var mid := (lo + hi) / 2;
      if count(prev[mid..]) > overlap {
        lo := mid + 1;
      } else {
        hi := mid;
      }
    }
  }
}
