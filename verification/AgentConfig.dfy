/** Resolving the configuration carried by a history, and stripping it (agent/agent.go,
    prepareMessages and mergeConfig). */
module AgentConfig {
  import opened Messages
  import opened Compactors

  /** What the agent was created with. */
  datatype AgentOpts = AgentOpts(maxIter: int, compact: Option<CompactConfig>)

  datatype Resolved = Resolved(model: string, maxIter: int, compactor: Option<Compactor>, compactNow: bool)

  function Initial(opts: AgentOpts): Resolved {
    Resolved("", opts.maxIter, if opts.compact.Some? then Some(ToCompactor(opts.compact.value)) else None, false)
  }

  /** mergeConfig: what a block sets replaces what came before. */
  function Merge(rc: Resolved, cc: ConfigContent): Resolved {
    Resolved(
      if cc.model != "" then cc.model else rc.model,
      if cc.maxIter != 0 then cc.maxIter else rc.maxIter,
      if cc.compact.Some? then Some(ToCompactor(cc.compact.value)) else rc.compactor,
      rc.compactNow || cc.compactNow)
  }

  function MergeSystem(rc: Resolved, content: seq<SystemContent>): Resolved {
    if content == [] then rc
    else
      var before, c := MergeSystem(rc, content[..|content| - 1]), content[|content| - 1];
      if c.SystemConfig? then Merge(before, c.config) else before
  }

  function MergeUser(rc: Resolved, content: seq<UserContent>): Resolved {
    if content == [] then rc
    else
      var before, c := MergeUser(rc, content[..|content| - 1]), content[|content| - 1];
      if c.UserConfig? then Merge(before, c.config) else before
  }

  function MergeMessage(rc: Resolved, m: Message): Resolved {
    match m
    case SystemMessage(content) => MergeSystem(rc, content)
    case UserMessage(content) => MergeUser(rc, content)
    case AssistantMessage(_) => rc
  }

  function ConfigOf(opts: AgentOpts, ms: seq<Message>): Resolved {
    if ms == [] then Initial(opts) else MergeMessage(ConfigOf(opts, ms[..|ms| - 1]), ms[|ms| - 1])
  }

  function StripSystem(content: seq<SystemContent>): seq<SystemContent> {
    if content == [] then []
    else
      var front, c := StripSystem(content[..|content| - 1]), content[|content| - 1];
      if c.SystemConfig? then front else front + [c]
  }

  function StripUser(content: seq<UserContent>): seq<UserContent> {
    if content == [] then []
    else
      var front, c := StripUser(content[..|content| - 1]), content[|content| - 1];
      if c.UserConfig? || c.UserFeedback? then front else front + [c]
  }

  /** A message without configuration and feedback; none if nothing is left. */
  function StripMessage(m: Message): seq<Message> {
    match m
    case SystemMessage(content) =>
      if StripSystem(content) == [] then [] else [SystemMessage(StripSystem(content))]
    case UserMessage(content) =>
      if StripUser(content) == [] then [] else [UserMessage(StripUser(content))]
    case AssistantMessage(_) => [m]
  }

  function Strip(ms: seq<Message>): seq<Message> {
    if ms == [] then [] else Strip(ms[..|ms| - 1]) + StripMessage(ms[|ms| - 1])
  }

  /** One pass does both. */
  method PrepareMessages(opts: AgentOpts, ms: seq<Message>) returns (rc: Resolved, out: seq<Message>)
    ensures rc == ConfigOf(opts, ms) && out == Strip(ms)
  {
    rc := Resolved("", opts.maxIter, None, false);
    if opts.compact.Some? {
      rc := rc.(compactor := Some(ToCompactor(opts.compact.value)));
    }
    out := [];
    for i := 0 to |ms|
      invariant rc == ConfigOf(opts, ms[..i]) && out == Strip(ms[..i])
    {
      assert ms[..i + 1][..i] == ms[..i];
      match ms[i]
      case SystemMessage(content) =>
        var filtered;
        rc, filtered := PrepareSystem(rc, content);
        if |filtered| > 0 {
          out := out + [SystemMessage(filtered)];
        }
      case UserMessage(content) =>
        var filtered;
        rc, filtered := PrepareUser(rc, content);
        if |filtered| > 0 {
          out := out + [UserMessage(filtered)];
        }
      case AssistantMessage(_) =>
        out := out + [ms[i]];
    }
    assert ms[..|ms|] == ms;
  }

  method PrepareSystem(before: Resolved, content: seq<SystemContent>)
    returns (rc: Resolved, filtered: seq<SystemContent>)
    ensures rc == MergeSystem(before, content) && filtered == StripSystem(content)
  {
    rc, filtered := before, [];
    for i := 0 to |content|
      invariant rc == MergeSystem(before, content[..i]) && filtered == StripSystem(content[..i])
    {
      assert content[..i + 1][..i] == content[..i];
      if content[i].SystemConfig? {
        rc := MergeConfig(rc, content[i].config);
      } else {
        filtered := filtered + [content[i]];
      }
    }
    assert content[..|content|] == content;
  }

  method PrepareUser(before: Resolved, content: seq<UserContent>) returns (rc: Resolved, filtered: seq<UserContent>)
    ensures rc == MergeUser(before, content) && filtered == StripUser(content)
  {
    rc, filtered := before, [];
    for i := 0 to |content|
      invariant rc == MergeUser(before, content[..i]) && filtered == StripUser(content[..i])
    {
      assert content[..i + 1][..i] == content[..i];
      if content[i].UserConfig? {
        rc := MergeConfig(rc, content[i].config);
      } else if !content[i].UserFeedback? {
        filtered := filtered + [content[i]];
      }
    }
    assert content[..|content|] == content;
  }

  method MergeConfig(before: Resolved, cc: ConfigContent) returns (rc: Resolved)
    ensures rc == Merge(before, cc)
  {
    rc := before;
    if cc.model != "" {
      rc := rc.(model := cc.model);
    }
    if cc.maxIter != 0 {
      rc := rc.(maxIter := cc.maxIter);
    }
    if cc.compact.Some? {
      rc := rc.(compactor := Some(ToCompactor(cc.compact.value)));
    }
    if cc.compactNow {
      rc := rc.(compactNow := true);
    }
  }

  // ---- stripping ----

  /** Says something, and neither configures anything nor gives feedback. */
  ghost predicate Plain(m: Message) {
    match m
    case SystemMessage(content) => content != [] && forall i | 0 <= i < |content| :: !content[i].SystemConfig?
    case UserMessage(content) =>
      content != [] && forall i | 0 <= i < |content| :: !content[i].UserConfig? && !content[i].UserFeedback?
    case AssistantMessage(_) => true
  }

  ghost predicate AllPlain(ms: seq<Message>) {
    forall i {:trigger ms[i]} | 0 <= i < |ms| :: Plain(ms[i])
  }

  lemma {:induction false} StripSystemPlain(content: seq<SystemContent>)
    ensures forall i | 0 <= i < |StripSystem(content)| :: !StripSystem(content)[i].SystemConfig?
  {
    if content != [] {
      StripSystemPlain(content[..|content| - 1]);
    }
  }

  lemma {:induction false} StripUserPlain(content: seq<UserContent>)
    ensures forall i | 0 <= i < |StripUser(content)| ::
      !StripUser(content)[i].UserConfig? && !StripUser(content)[i].UserFeedback?
  {
    if content != [] {
      StripUserPlain(content[..|content| - 1]);
    }
  }

  lemma StripMessageIsPlain(m: Message)
    ensures |StripMessage(m)| <= 1 && AllPlain(StripMessage(m))
  {
    match m
    case SystemMessage(content) => StripSystemPlain(content);
    case UserMessage(content) => StripUserPlain(content);
    case AssistantMessage(_) =>
  }

  /** What is left is plain. */
  lemma {:induction false} StripIsPlain(ms: seq<Message>)
    ensures AllPlain(Strip(ms))
  {
    if ms != [] {
      StripIsPlain(ms[..|ms| - 1]);
      StripMessageIsPlain(ms[|ms| - 1]);
    }
  }

  lemma {:induction false} PlainSystem(rc: Resolved, content: seq<SystemContent>)
    requires forall i | 0 <= i < |content| :: !content[i].SystemConfig?
    ensures StripSystem(content) == content && MergeSystem(rc, content) == rc
  {
    if content != [] {
      PlainSystem(rc, content[..|content| - 1]);
    }
  }

  lemma {:induction false} PlainUser(rc: Resolved, content: seq<UserContent>)
    requires forall i | 0 <= i < |content| :: !content[i].UserConfig? && !content[i].UserFeedback?
    ensures StripUser(content) == content && MergeUser(rc, content) == rc
  {
    if content != [] {
      PlainUser(rc, content[..|content| - 1]);
    }
  }

  /** Plain messages are not changed by stripping, and change no configuration. */
  lemma PlainMessage(rc: Resolved, m: Message)
    requires Plain(m)
    ensures StripMessage(m) == [m] && MergeMessage(rc, m) == rc
  {
    match m
    case SystemMessage(content) => PlainSystem(rc, content);
    case UserMessage(content) => PlainUser(rc, content);
    case AssistantMessage(_) =>
  }

  lemma PrepareAppend(opts: AgentOpts, ms: seq<Message>, m: Message)
    ensures Strip(ms + [m]) == Strip(ms) + StripMessage(m)
    ensures ConfigOf(opts, ms + [m]) == MergeMessage(ConfigOf(opts, ms), m)
  {
    assert (ms + [m])[..|ms|] == ms;
  }

  lemma {:induction false} PlainBehind(opts: AgentOpts, a: seq<Message>, b: seq<Message>)
    requires AllPlain(b)
    ensures Strip(a + b) == Strip(a) + b
    ensures ConfigOf(opts, a + b) == ConfigOf(opts, a)
  {
    if b == [] {
      assert a + b == a;
    } else {
      var front, m := b[..|b| - 1], b[|b| - 1];
      PlainBehind(opts, a, front);
      PrepareAppend(opts, a + front, m);
      PlainMessage(ConfigOf(opts, a), m);
      LastOff(a, b);
    }
  }

  lemma LastOff(a: seq<Message>, b: seq<Message>)
    requires b != []
    ensures a + b == a + b[..|b| - 1] + [b[|b| - 1]]
  {
  }

  lemma {:induction false} StripFirst(ms: seq<Message>)
    requires ms != []
    ensures StripMessage(ms[0]) <= Strip(ms)
  {
    if |ms| == 1 {
      assert Strip(ms[..0]) == [];
    } else {
      StripFirst(ms[..|ms| - 1]);
    }
  }

  lemma CompactedIsPlain(c: Compactor, ms: seq<Message>, summarize: Summarizer)
    requires CanCompact(c, ms) && AllPlain(ms)
    ensures AllPlain(Compacted(c, ms, summarize))
  {
    CompactedFrom(c, ms, summarize);
    var r := Compacted(c, ms, summarize);
    forall i | 0 <= i < |r| ensures Plain(r[i]) {
      assert r[i] in r;
    }
  }

  /** What a history of root and plain messages reads as. */
  lemma RootAndPlain(opts: AgentOpts, root: Message, rest: seq<Message>)
    requires AllPlain(rest)
    ensures Strip([root] + rest) == StripMessage(root) + rest
    ensures ConfigOf(opts, [root] + rest) == ConfigOf(opts, [root])
  {
    PlainBehind(opts, [root], rest);
    assert [root][..0] == [] && Strip([root]) == StripMessage(root);
  }

  /** The next iteration.  After a compaction the history is the root and the rest of what was
      compacted.  It reads exactly as compacted if and only if the root says something besides
      configuring; and only the configuration of the root is left. */
  lemma NextIterationSeesIff(opts: AgentOpts, ms: seq<Message>, c: Compactor, summarize: Summarizer,
                             compacted: seq<Message>)
    requires ms != [] && CanCompact(c, Strip(ms)) && compacted == Compacted(c, Strip(ms), summarize)
    requires 2 <= |compacted| < |Strip(ms)|
    ensures Strip([ms[0]] + compacted[1..]) == compacted <==> StripMessage(ms[0]) != []
    ensures ConfigOf(opts, [ms[0]] + compacted[1..]) == ConfigOf(opts, [ms[0]])
  {
    StripIsPlain(ms);
    CompactedIsPlain(c, Strip(ms), summarize);
    RootAndPlain(opts, ms[0], compacted[1..]);
    StripFirst(ms);
    StripMessageIsPlain(ms[0]);
    ShrinksOnce(c, Strip(ms), summarize, summarize);
    SameHead(StripMessage(ms[0]), compacted);
  }

  lemma SameHead(head: seq<Message>, ms: seq<Message>)
    requires |head| <= 1 && ms != [] && (head != [] ==> head[0] == ms[0])
    ensures head + ms[1..] == ms <==> head != []
  {
    assert ms == [ms[0]] + ms[1..];
  }

  lemma OnlyConfigures(cc: ConfigContent)
    ensures StripMessage(SystemMessage([SystemConfig(cc)])) == []
  {
    assert [SystemConfig(cc)][..0] == [] && StripSystem([]) == [];
  }

  /** With a root that only configures, the first message behind it is lost. */
  lemma RootLoses(root: Message, a: Message, b: Message, c: Message, summarize: Summarizer)
    requires StripMessage(root) == [] && AllPlain([a, b, c]) && ResultIds(c) == []
    ensures Strip([root] + [a, b, c]) == [a, b, c]
    ensures Compacted(Sliding(1), [a, b, c], summarize) == [a, c] && Strip([root] + [a, c][1..]) == [c]
  {
    var opts := AgentOpts(0, None);
    RootAndPlain(opts, root, [a, b, c]);
    assert Plain([a, b, c][2]);
    RootAndPlain(opts, root, [c]);
    assert [a, c][1..] == [c];
  }

  /** Such a history. */
  lemma ConfigOnlyRootLoses()
    ensures var root := SystemMessage([SystemConfig(ConfigContent("m", 0, None, false))]);
      var a, b, c := NewUserMessage("a"), NewUserMessage("b"), NewUserMessage("c");
      var compacted := Compacted(Sliding(1), Strip([root] + [a, b, c]), _ => Ok(""));
      compacted == [a, c] && Strip([root] + compacted[1..]) == [c]
  {
    var cc := ConfigContent("m", 0, None, false);
    OnlyConfigures(cc);
    assert UserResultIds([UserText("c")][..0]) == [];
    RootLoses(SystemMessage([SystemConfig(cc)]), NewUserMessage("a"), NewUserMessage("b"), NewUserMessage("c"),
              _ => Ok(""));
  }

  ghost predicate Configures(m: Message) {
    match m
    case SystemMessage(content) => exists i :: 0 <= i < |content| && content[i].SystemConfig?
    case UserMessage(content) => exists i :: 0 <= i < |content| && content[i].UserConfig?
    case AssistantMessage(_) => false
  }

  ghost predicate NoneConfigures(ms: seq<Message>) {
    forall i {:trigger ms[i]} | 0 <= i < |ms| :: !Configures(ms[i])
  }

  lemma {:induction false} NoConfigSystem(rc: Resolved, content: seq<SystemContent>)
    requires forall i | 0 <= i < |content| :: !content[i].SystemConfig?
    ensures MergeSystem(rc, content) == rc
  {
    if content != [] {
      NoConfigSystem(rc, content[..|content| - 1]);
    }
  }

  lemma {:induction false} NoConfigUser(rc: Resolved, content: seq<UserContent>)
    requires forall i | 0 <= i < |content| :: !content[i].UserConfig?
    ensures MergeUser(rc, content) == rc
  {
    if content != [] {
      NoConfigUser(rc, content[..|content| - 1]);
    }
  }

  /** Messages without configuration blocks change no configuration. */
  lemma {:induction false} NoConfigBehind(opts: AgentOpts, a: seq<Message>, b: seq<Message>)
    requires NoneConfigures(b)
    ensures ConfigOf(opts, a + b) == ConfigOf(opts, a)
  {
    if b == [] {
      assert a + b == a;
    } else {
      var front, m := b[..|b| - 1], b[|b| - 1];
      NoConfigBehind(opts, a, front);
      LastOff(a, b);
      PrepareAppend(opts, a + front, m);
      match m
      case SystemMessage(content) => NoConfigSystem(ConfigOf(opts, a), content);
      case UserMessage(content) => NoConfigUser(ConfigOf(opts, a), content);
      case AssistantMessage(_) =>
    }
  }

  /** The configuration of a history of which only the root configures anything survives, and the
      compactor it names has nothing more to shrink. */
  lemma NextIterationSettles(opts: AgentOpts, ms: seq<Message>, c: Compactor, summarize: Summarizer,
                             compacted: seq<Message>,
                             again: Summarizer)
    requires ms != [] && CanCompact(c, Strip(ms)) && compacted == Compacted(c, Strip(ms), summarize)
    requires 2 <= |compacted| < |Strip(ms)| && StripMessage(ms[0]) != [] && NoneConfigures(ms[1..])
    ensures ConfigOf(opts, [ms[0]] + compacted[1..]) == ConfigOf(opts, ms)
    ensures Strip([ms[0]] + compacted[1..]) == compacted && CanCompact(c, compacted)
    ensures |Compacted(c, compacted, again)| == |compacted|
  {
    NextIterationSeesIff(opts, ms, c, summarize, compacted);
    assert ms == [ms[0]] + ms[1..];
    NoConfigBehind(opts, [ms[0]], ms[1..]);
    ShrinksOnce(c, Strip(ms), summarize, again);
  }

  // ---- pairing ----

  lemma {:induction false} StripSystemIds(content: seq<SystemContent>)
    ensures SystemResultIds(StripSystem(content)) == SystemResultIds(content)
  {
    if content != [] {
      var front, c := StripSystem(content[..|content| - 1]), content[|content| - 1];
      StripSystemIds(content[..|content| - 1]);
      assert (front + [c])[..|front|] == front;
    }
  }

  lemma {:induction false} StripUserIds(content: seq<UserContent>)
    ensures UserResultIds(StripUser(content)) == UserResultIds(content)
  {
    if content != [] {
      var front, c := StripUser(content[..|content| - 1]), content[|content| - 1];
      StripUserIds(content[..|content| - 1]);
      assert (front + [c])[..|front|] == front;
    }
  }

  lemma StripMessageIds(m: Message)
    ensures StripMessage(m) == [] ==> ResultIds(m) == [] && CallIds(m) == []
    ensures |StripMessage(m)| <= 1
    ensures StripMessage(m) != [] ==>
      ResultIds(StripMessage(m)[0]) == ResultIds(m) && CallIds(StripMessage(m)[0]) == CallIds(m)
  {
    match m
    case SystemMessage(content) => StripSystemIds(content);
    case UserMessage(content) => StripUserIds(content);
    case AssistantMessage(_) =>
  }

  /** Stripping never parts tool results from their calls. */
  lemma {:induction false} StripKeepsPairing(ms: seq<Message>)
    requires Paired(ms)
    ensures Paired(Strip(ms))
    ensures ms != [] && CallIds(ms[|ms| - 1]) != [] ==>
      Strip(ms) != [] && CallIds(Strip(ms)[|Strip(ms)| - 1]) == CallIds(ms[|ms| - 1])
  {
    if ms != [] {
      var front, m := ms[..|ms| - 1], ms[|ms| - 1];
      PairedFront(ms, |ms| - 1);
      StripKeepsPairing(front);
      StripMessageIds(m);
      assert PairedAt(ms, |ms| - 1);
      PairedOneMore(Strip(front), m, StripMessage(m));
    }
  }

  lemma PairedOneMore(ms: seq<Message>, m: Message, stripped: seq<Message>)
    requires Paired(ms) && |stripped| <= 1 && (stripped != [] ==> ResultIds(stripped[0]) == ResultIds(m))
    requires ResultIds(m) != [] ==> ms != [] && CallIds(ms[|ms| - 1]) == ResultIds(m)
    ensures Paired(ms + stripped)
  {
    if stripped == [] {
      assert ms + stripped == ms;
    } else {
      PairedAppend(ms, stripped[0]);
      assert ms + stripped == ms + [stripped[0]];
    }
  }

  lemma PairedFront(ms: seq<Message>, n: nat)
    requires Paired(ms) && n <= |ms|
    ensures Paired(ms[..n])
  {
    forall i | 0 <= i < n ensures PairedAt(ms[..n], i) {
      assert PairedAt(ms, i);
    }
  }

  lemma PairedAppend(ms: seq<Message>, m: Message)
    requires Paired(ms)
    requires ResultIds(m) != [] ==> ms != [] && CallIds(ms[|ms| - 1]) == ResultIds(m)
    ensures Paired(ms + [m])
  {
    forall i | 0 <= i < |ms| + 1 ensures PairedAt(ms + [m], i) {
      assert i < |ms| ==> PairedAt(ms, i);
    }
  }
}
