/** What a history's configuration blocks come to, and what stripping leaves of its messages, in terms of
    the blocks alone (agent/agent.go, prepareMessages and mergeConfig). */
module ConfigLaws {
  import opened Messages
  import opened Compactors
  import opened AgentConfig

  // ---- the last block that sets something wins ----

  ghost function SystemConfigs(content: seq<SystemContent>): seq<ConfigContent> {
    if content == [] then []
    else SystemConfigs(content[..|content| - 1]) +
         if content[|content| - 1].SystemConfig? then [content[|content| - 1].config] else []
  }

  ghost function UserConfigs(content: seq<UserContent>): seq<ConfigContent> {
    if content == [] then []
    else UserConfigs(content[..|content| - 1]) +
         if content[|content| - 1].UserConfig? then [content[|content| - 1].config] else []
  }

  /** The configuration blocks of a history, in order. */
  ghost function Configs(ms: seq<Message>): seq<ConfigContent> {
    if ms == [] then []
    else
      Configs(ms[..|ms| - 1]) + match ms[|ms| - 1]
                                case SystemMessage(content) => SystemConfigs(content)
                                case UserMessage(content) => UserConfigs(content)
                                case AssistantMessage(_) => []
  }

  ghost function Folded(rc: Resolved, blocks: seq<ConfigContent>): Resolved {
    if blocks == [] then rc else Merge(Folded(rc, blocks[..|blocks| - 1]), blocks[|blocks| - 1])
  }

  lemma {:induction false} FoldedConcat(rc: Resolved, a: seq<ConfigContent>, b: seq<ConfigContent>)
    ensures Folded(rc, a + b) == Folded(Folded(rc, a), b)
  {
    if b == [] {
      assert a + b == a;
    } else {
      FoldedConcat(rc, a, b[..|b| - 1]);
      assert (a + b)[..|a + b| - 1] == a + b[..|b| - 1];
    }
  }

  lemma FoldedOne(rc: Resolved, cc: ConfigContent)
    ensures Folded(rc, [cc]) == Merge(rc, cc)
  {
    assert [cc][..0] == [];
  }

  lemma {:induction false} SystemFolds(rc: Resolved, content: seq<SystemContent>)
    ensures MergeSystem(rc, content) == Folded(rc, SystemConfigs(content))
  {
    if content != [] {
      var front, c := content[..|content| - 1], content[|content| - 1];
      SystemFolds(rc, front);
      if c.SystemConfig? {
        FoldedConcat(rc, SystemConfigs(front), [c.config]);
        FoldedOne(MergeSystem(rc, front), c.config);
      } else {
        assert SystemConfigs(content) == SystemConfigs(front);
      }
    }
  }

  lemma {:induction false} UserFolds(rc: Resolved, content: seq<UserContent>)
    ensures MergeUser(rc, content) == Folded(rc, UserConfigs(content))
  {
    if content != [] {
      var front, c := content[..|content| - 1], content[|content| - 1];
      UserFolds(rc, front);
      if c.UserConfig? {
        FoldedConcat(rc, UserConfigs(front), [c.config]);
        FoldedOne(MergeUser(rc, front), c.config);
      } else {
        assert UserConfigs(content) == UserConfigs(front);
      }
    }
  }

  lemma {:induction false} ConfigFolds(opts: AgentOpts, ms: seq<Message>)
    ensures ConfigOf(opts, ms) == Folded(Initial(opts), Configs(ms))
  {
    if ms != [] {
      var front, m := ms[..|ms| - 1], ms[|ms| - 1];
      ConfigFolds(opts, front);
      var rc := ConfigOf(opts, front);
      match m
      case SystemMessage(content) =>
        SystemFolds(rc, content);
        FoldedConcat(Initial(opts), Configs(front), SystemConfigs(content));
      case UserMessage(content) =>
        UserFolds(rc, content);
        FoldedConcat(Initial(opts), Configs(front), UserConfigs(content));
      case AssistantMessage(_) =>
        assert Configs(ms) == Configs(front);
    }
  }

  /** The last value that is set, or else the default. */
  ghost predicate LastSet<V(!new)>(values: seq<Option<V>>, default: V, v: V) {
    if forall i | 0 <= i < |values| :: values[i].None? then v == default
    else exists i :: 0 <= i < |values| && values[i] == Some(v) && forall j | i < j < |values| :: values[j].None?
  }

  lemma LastSetAppend<V(!new)>(values: seq<Option<V>>, default: V, v: V, more: Option<V>)
    requires LastSet(values, default, v)
    ensures LastSet(values + [more], default, if more.Some? then more.value else v)
  {
    var all := values + [more];
    if more.Some? {
      assert all[|values|] == more;
    } else if exists i :: 0 <= i < |values| && values[i].Some? {
      var i :| 0 <= i < |values| && values[i] == Some(v) && forall j | i < j < |values| :: values[j].None?;
      assert all[i] == Some(v);
    }
  }

  ghost function Models(blocks: seq<ConfigContent>): seq<Option<string>> {
    seq(|blocks|, i requires 0 <= i < |blocks| => if blocks[i].model == "" then None else Some(blocks[i].model))
  }

  ghost function Limits(blocks: seq<ConfigContent>): seq<Option<int>> {
    seq(|blocks|, i requires 0 <= i < |blocks| => if blocks[i].maxIter == 0 then None else Some(blocks[i].maxIter))
  }

  /** A compactor configured to keep nothing or less keeps four messages. */
  ghost function CompactorFor(cfg: CompactConfig): Compactor {
    match cfg.strategy
    case NoCompaction => Noop
    case SlidingWindow => Sliding(cfg.windowSize)
    case Summarize =>
      if cfg.keepLast > 0 then Summarizing(cfg.threshold, cfg.keepLast) else Summarizing(cfg.threshold, 4)
  }

  ghost function Strategies(blocks: seq<ConfigContent>): seq<Option<Option<Compactor>>> {
    seq(|blocks|, i requires 0 <= i < |blocks| =>
      if blocks[i].compact.None? then None else Some(Some(CompactorFor(blocks[i].compact.value))))
  }

  ghost function FirstCompactor(opts: AgentOpts): Option<Compactor> {
    if opts.compact.Some? then Some(CompactorFor(opts.compact.value)) else None
  }

  ghost predicate Resolves(opts: AgentOpts, blocks: seq<ConfigContent>, rc: Resolved) {
    && LastSet(Models(blocks), "", rc.model) && LastSet(Limits(blocks), opts.maxIter, rc.maxIter)
    && LastSet(Strategies(blocks), FirstCompactor(opts), rc.compactor)
    && (rc.compactNow <==> exists i :: 0 <= i < |blocks| && blocks[i].compactNow)
  }

  lemma {:induction false} FoldedResolves(opts: AgentOpts, blocks: seq<ConfigContent>)
    ensures Resolves(opts, blocks, Folded(Initial(opts), blocks))
  {
    if blocks != [] {
      var front, cc := blocks[..|blocks| - 1], blocks[|blocks| - 1];
      FoldedResolves(opts, front);
      FoldStep(opts, front, cc, Folded(Initial(opts), front));
      assert blocks == front + [cc];
    }
  }

  lemma FoldStep(opts: AgentOpts, front: seq<ConfigContent>, cc: ConfigContent, rc: Resolved)
    requires Resolves(opts, front, rc)
    ensures Resolves(opts, front + [cc], Merge(rc, cc))
  {
    ModelStep(front, cc, rc.model);
    LimitStep(opts.maxIter, front, cc, rc.maxIter);
    StrategyStep(FirstCompactor(opts), front, cc, rc.compactor);
    SomeBlockCompacts(front, cc);
  }

  lemma ModelStep(front: seq<ConfigContent>, cc: ConfigContent, model: string)
    requires LastSet(Models(front), "", model)
    ensures LastSet(Models(front + [cc]), "", if cc.model != "" then cc.model else model)
  {
    var more := if cc.model == "" then None else Some(cc.model);
    LastSetAppend(Models(front), "", model, more);
    assert Models(front + [cc]) == Models(front) + [more];
  }

  lemma LimitStep(default: int, front: seq<ConfigContent>, cc: ConfigContent, limit: int)
    requires LastSet(Limits(front), default, limit)
    ensures LastSet(Limits(front + [cc]), default, if cc.maxIter != 0 then cc.maxIter else limit)
  {
    var more := if cc.maxIter == 0 then None else Some(cc.maxIter);
    LastSetAppend(Limits(front), default, limit, more);
    assert Limits(front + [cc]) == Limits(front) + [more];
  }

  lemma StrategyStep(default: Option<Compactor>, front: seq<ConfigContent>, cc: ConfigContent, c: Option<Compactor>)
    requires LastSet(Strategies(front), default, c)
    ensures LastSet(Strategies(front + [cc]), default,
                    if cc.compact.Some? then Some(CompactorFor(cc.compact.value)) else c)
  {
    var more := if cc.compact.None? then None else Some(Some(CompactorFor(cc.compact.value)));
    LastSetAppend(Strategies(front), default, c, more);
    assert Strategies(front + [cc]) == Strategies(front) + [more];
  }

  lemma SomeBlockCompacts(front: seq<ConfigContent>, cc: ConfigContent)
    ensures (exists i :: 0 <= i < |front + [cc]| && (front + [cc])[i].compactNow)
       <==> (exists i :: 0 <= i < |front| && front[i].compactNow) || cc.compactNow
  {
    var blocks := front + [cc];
    if i :| 0 <= i < |front| && front[i].compactNow {
      assert blocks[i].compactNow;
    } else if cc.compactNow {
      assert blocks[|front|].compactNow;
    }
  }

  /** In every history the last block that sets a model, an iteration limit or a compactor decides it, and
      any block can ask for compaction; what no block sets is as the agent was created. */
  lemma ConfigIsLastSet(opts: AgentOpts, ms: seq<Message>)
    ensures Resolves(opts, Configs(ms), ConfigOf(opts, ms))
  {
    ConfigFolds(opts, ms);
    FoldedResolves(opts, Configs(ms));
  }

  // ---- stripping keeps everything else ----

  /** `out` lists the elements of `s` at the positions `at`, in order: exactly those not dropped. */
  ghost predicate Keeps<T(!new)>(s: seq<T>, drop: T -> bool, out: seq<T>, at: seq<nat>) {
    && |at| == |out|
    && (forall j | 0 <= j < |at| :: at[j] < |s| && out[j] == s[at[j]])
    && (forall j, k | 0 <= j < k < |at| :: at[j] < at[k])
    && (forall i: nat | i < |s| :: i in at <==> !drop(s[i]))
  }

  lemma KeepsWithout<T(!new)>(s: seq<T>, drop: T -> bool, out: seq<T>, at: seq<nat>, x: T)
    requires Keeps(s, drop, out, at) && drop(x)
    ensures Keeps(s + [x], drop, out, at)
  {
    assert forall j | 0 <= j < |at| :: at[j] in at && at[j] < |s|;
  }

  lemma KeepsWith<T(!new)>(s: seq<T>, drop: T -> bool, out: seq<T>, at: seq<nat>, x: T)
    requires Keeps(s, drop, out, at) && !drop(x)
    ensures Keeps(s + [x], drop, out + [x], at + [|s|])
  {
    var at' := at + [|s|];
    assert forall j | 0 <= j < |at| :: at'[j] == at[j] < |s|;
    forall i: nat | i < |s + [x]| ensures i in at' <==> !drop((s + [x])[i]) {
      if i < |s| {
        assert i in at' <==> i in at;
      }
    }
  }

  lemma KeepsOnward<T(!new)>(s: seq<T>, drop: T -> bool, out: seq<T>, at: seq<nat>, x: T) returns (at': seq<nat>)
    requires Keeps(s, drop, out, at)
    ensures Keeps(s + [x], drop, if drop(x) then out else out + [x], at')
  {
    if drop(x) {
      KeepsWithout(s, drop, out, at, x);
      at' := at;
    } else {
      KeepsWith(s, drop, out, at, x);
      at' := at + [|s|];
    }
  }

  predicate SystemDropped(c: SystemContent) {
    c.SystemConfig?
  }

  predicate UserDropped(c: UserContent) {
    c.UserConfig? || c.UserFeedback?
  }

  lemma {:induction false} StripSystemKeeps(content: seq<SystemContent>) returns (at: seq<nat>)
    ensures Keeps(content, SystemDropped, StripSystem(content), at)
  {
    if content == [] {
      at := [];
    } else {
      var front, c := content[..|content| - 1], content[|content| - 1];
      assert content == front + [c];
      at := StripSystemKeeps(front);
      at := KeepsOnward(front, SystemDropped, StripSystem(front), at, c);
    }
  }

  lemma {:induction false} StripUserKeeps(content: seq<UserContent>) returns (at: seq<nat>)
    ensures Keeps(content, UserDropped, StripUser(content), at)
  {
    if content == [] {
      at := [];
    } else {
      var front, c := content[..|content| - 1], content[|content| - 1];
      assert content == front + [c];
      at := StripUserKeeps(front);
      at := KeepsOnward(front, UserDropped, StripUser(front), at, c);
    }
  }

  /** Stripping works message by message. */
  lemma {:induction false} StripConcat(a: seq<Message>, b: seq<Message>)
    ensures Strip(a + b) == Strip(a) + Strip(b)
  {
    if b == [] {
      assert a + b == a;
    } else {
      var front, m := b[..|b| - 1], b[|b| - 1];
      StripConcat(a, front);
      StripAppend(a + front, m);
      StripAppend(front, m);
      LastOff(a, b);
      LastOff([], b);
      assert Strip(a) + Strip(front) + StripMessage(m) == Strip(a) + (Strip(front) + StripMessage(m));
      assert [] + front == front && [] + b == b;
    }
  }

  lemma StripAppend(ms: seq<Message>, m: Message)
    ensures Strip(ms + [m]) == Strip(ms) + StripMessage(m)
  {
    assert (ms + [m])[..|ms|] == ms;
  }

  /** Of one message it keeps every block but configuration and feedback, in order, and all of what the
      assistant says; of a message without any other block, nothing. */
  lemma StripSays(m: Message) returns (system: seq<SystemContent>, user: seq<UserContent>, at: seq<nat>)
    ensures match m
      case SystemMessage(content) =>
        Keeps(content, SystemDropped, system, at) && Strip([m]) == if system == [] then [] else [SystemMessage(system)]
      case UserMessage(content) =>
        Keeps(content, UserDropped, user, at) && Strip([m]) == if user == [] then [] else [UserMessage(user)]
      case AssistantMessage(_) => Strip([m]) == [m]
  {
    assert [m][..0] == [] && Strip([]) == [];
    system, user, at := [], [], [];
    match m
    case SystemMessage(content) =>
      at := StripSystemKeeps(content);
      system := StripSystem(content);
    case UserMessage(content) =>
      at := StripUserKeeps(content);
      user := StripUser(content);
    case AssistantMessage(_) =>
  }
}
