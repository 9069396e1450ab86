# A verified model of the agent tree, its run loop, and the retrieval algorithms

This project models the parts of the repository whose behaviour is hardest to see from one function,
and proves what they promise.

**The conversation tree and the loop that runs on it.** A conversation is a tree of messages with
named branches, checkpoints and archive states. `TreeModel` and `TreeOps` describe the tree as a value
and its operations as functions; `ConversationTree` is the object the program works on, with its
maps, its node objects that are changed in place and its write-ahead log, and every method is proved
against the operation on the value. `TreeEffects` says what each operation does in terms of
nodes, messages and names alone. `TreeRuns`, `TreeCompact`, `TreeArchive`, `TreePaths`,
`TreeDepth`, `PathStrings`, `MemWal` and `TreeReplay` prove what holds over whole runs: the tree
invariant, what a compaction means, when depths are exact, what recursive archiving touches, how paths
and differences relate, and when a log rebuilds a tree. `TreeRecovery` runs any operations on a tree
object with a log that may fail, and ties the object's log to that; `TreeLines` and `TreeExamples` give
reachable trees on which a property fails. `Messages`, `Compactors` and `AgentConfig` add the agent's
histories: compacting them, resolving the configuration in them. `AgentHistory` (appending, and
persisting a compacted history on a new branch), `AgentAnswers` (what follows a reply) and `AgentLoop`
(the run loop) work on the tree object and are proved against `AgentCourse`, which describes a run as
a function of histories alone; `ConfigLaws` and `AgentTurns` say what configuration, requests and results
come to. `ToolExec` is the state machine of the goroutines that run tool calls, `ToolOutcomes` what they
give, case by case. `Aggregators` and `OllamaStream` are the deltas that come and go on the stream.

**Algorithms with a simple specification.** `EditDistance` (two-row Levenshtein), `TextQuality`
(two-row LCS and the scores on it), `Chunker` (recursive splitting with a binary search) and `Mmr`
(greedy reranking), each proved against a definition that does not mention the algorithm. `Reals`
holds facts about real products and quotients, `Sequences` what any sequence has, and
`Verdicts` the answer that long invariants of methods give.

**Structures that must agree with what they speed up.** `Bm25`, `Bm25Score` and `Bm25Laws` (the inverted
index and its scores), `RagPipeline` (the store and the ingest pipeline beside it) and `EmbeddingCache` (the LRU cache).

Conventions. Identifiers from NewID, the provider, the tokenizer, the embedder, hashes and the
logarithm are parameters; where the source relies on new identifiers being new, that is a `requires`.
Floats are reals. A mutex-guarded method is one step, except where the model says otherwise
(`EmbeddingCache`, `ToolExec`).

## What the proofs found

- `Rewind` to an existing checkpoint gives a branch a tip that carries another branch's identifier, every
  time; appending at such a tip moves the other branch (`TreeRuns.TipsOwnedIffNoRewind`,
  `TreeRuns.AppendAfterRewind`; a tree: `TreeExamples.RewindDisowns`).
- `Rewind` and an effective `Compact` write nothing to the log, and exactly because of them a replay
  does not rebuild the tree (`TreeReplay.ReplayRebuildsIff`; a run: `TreeExamples.RewindIsLost`).
- `Compact` clones archived nodes behind the summary as active ones, and drops nodes between the first
  and the last chosen one that were visible but not chosen (`TreeCompact.CompactFaithfulIff`; trees:
  `TreeExamples.ArchivedIsRevived`, `TreeExamples.SummaryIsDropped`).
- Clones keep the old depth, so a node's depth is not always its parent's plus one. Every operation keeps
  that but a compaction of four candidates or more, which always breaks it (`TreeDepth.ExactIff`; a
  tree: `TreeExamples.FourCandidatesJump`). Only "deeper than the parent" always holds.
- A recursive restore does not always undo a recursive archive; it does exactly when nothing in the
  subtree was archived before (`TreeArchive.RestoreUndoesArchiveIff`; a tree:
  `TreeExamples.RestoreShowsMore`).
- A marker is sent before its resolution channel is registered, so an approval can be lost and the call
  waits until it is answered again (`ToolExec.AnswerReachesIff`, `ToolExec.ApprovalCanBeLost`).
- `SummarizeCompactor` can part tool results from their calls; `SlidingWindowCompactor` cannot
  (`Compactors.SummaryKeepsPairingIff`, `Compactors.SlidingKeepsPairing`; a history:
  `Compactors.SummaryCutsCall`).
- When the root message only configures, persisting a compacted history loses its first message
  (`AgentConfig.NextIterationSeesIff`; a history: `AgentConfig.ConfigOnlyRootLoses`).
- `DedupReplace` removes a document from the store but not from the index
  (`RagPipeline.IngestAgreesIff`; two ingests: `RagPipeline.ReplacedStaysIndexed`).
- `Update` deletes first. The document or its new version is there afterwards exactly when the data can
  be prepared and is not skipped as a duplicate of another stored document (`RagPipeline.UpdateKeepsIff`;
  inputs: `RagPipeline.FailingIngestLoses`, `RagPipeline.SkippedUpdateLoses`). `Ingest` itself forgets
  something exactly when it replaces a document by data that cannot be prepared
  (`RagPipeline.IngestForgetsIff`).
- Cache keys join content type and text with a colon. Variants can share a key exactly when one content
  type is another one with a colon behind it, and perhaps more (`EmbeddingCache.KeyTextInjectiveIff`;
  two variants: `EmbeddingCache.KeyTextCollides`).
- MMR scores come out sorted for every input only if lambda is at most 1
  (`Mmr.SortedIffLambdaAtMostOne`; two hits: `Mmr.TwinsRise`).

## Model

| member | source | states |
|---|---|---|
| TreeModel.PathSteps | agent/tree/tree.go:308-324 | the path of a node starts at a node without parent, ends at the node, steps from parent to child, and gets strictly deeper |
| TreeModel.PathPrefix | agent/tree/tree.go:308-324 | a path cut off at one of its nodes is that node's own path |
| TreeModel.PathDistinct | agent/tree/tree.go:308-324 | no node is twice on a path |
| TreeModel.PathMeet | agent/tree/tree.go:308-324 | a node stands at the same place, behind the same nodes, on every path it is on |
| TreeModel.PathFrame | agent/tree/tree.go:308-324 | adding nodes or changing states leaves the paths of old nodes alone |
| TreeModel.VisibleConcat | agent/tree/flatten.go:27-41 | flattening a path is flattening its parts one after the other |
| TreeModel.FlattenFrame | agent/tree/flatten.go:27-41 | a node flattens the same wherever the messages and archive states on its path are the same |
| TreeModel.ParentIsNoLeaf | agent/tree/tree.go:244-287 | the parent of any node is no feedback leaf, which is why editing a user message needs no such check |
| TreeModel.AddNodeKeepsInv | agent/tree/tree.go:134-136 | storing a node, listing it last under its parent and making it a tip keeps the whole tree invariant |
| TreeModel.AddNodeOld | agent/tree/tree.go:134-136 | old nodes keep their path and their flattening |
| TreeModel.AddNodeNew | agent/tree/tree.go:134-136 | the new node's path and flattening are its parent's with the node added |
| TreeRuns.NewTreeInv | agent/tree/tree.go:33-65 | a new tree satisfies the invariant, and its branch owns its tip |
| TreeRuns.MarkAllKeepsInv | agent/tree/tree.go:358-428 | archiving below the root and restoring anywhere keep the invariant |
| TreeRuns.CompactKeepsInv | agent/tree/compact.go:137-193 | compacting keeps the invariant although clones keep their old depth |
| TreeRuns.StepKeepsInv | agent/tree/tree.go:102-471 | every operation keeps the invariant, moves no node and removes none; children lists only get longer |
| TreeRuns.RunKeepsInv | agent/tree/tree.go:33-471 | in every state of every run of operations the tree is well-formed and every path starts at the root |
| TreeRuns.PathFromRoot | agent/tree/tree.go:308-324 | the walk up from any node ends at the root |
| TreeRuns.TipsOwnedIffNoRewind | agent/tree/tree.go:454-471 | if every branch owns its tip, that stays so after an operation if and only if it was no Rewind to an existing checkpoint |
| TreeRuns.AddChildIsolated | agent/tree/tree.go:102-139 | AddChild makes the parent's branch read as the parent's history and the message; no other branch changes |
| TreeRuns.AppendExtendsBranch | agent/tree/tree.go:102-139 | appending at a tip the branch owns extends exactly that branch by exactly that message |
| TreeRuns.AppendAfterRewind | agent/tree/tree.go:454-471 | appending at a tip the branch does not own leaves that branch as it was |
| TreeCompact.GraftIsOk | agent/tree/compact.go:162-189 | cloning nodes one below the other keeps the invariant and flattens to the old prefix and all cloned messages |
| TreeCompact.CompactEffect | agent/tree/compact.go:137-193 | what a compaction leaves: old nodes and branches untouched, a new active branch that reads as the messages before the first chosen node, the summary, and every message behind the last |
| TreeCompact.SharedIsPrefix | agent/tree/compact.go:56-71 | the nodes a branch shares with other branches are a prefix of its path |
| TreeCompact.CandidatesInOrder | agent/tree/compact.go:78-91 | the candidates keep the order of the path |
| TreeCompact.ActiveCandidates | agent/tree/compact.go:78-91 | on an all-active path the candidates are everything behind the root and the spared prefix |
| TreeCompact.CompactPreservesMeaning | agent/tree/compact.go:55-195 | on an all-active branch exactly the first max(1, n/2) of the n messages behind the kept prefix are replaced by a summary of them; nothing else changes, and older branches read as before |
| TreeCompact.ClonesCopyBehind | agent/tree/compact.go:162-189 | node by node, the clones are active copies of what lies behind the last chosen node, messages and depths the same |
| TreeCompact.CompactsIff | agent/tree/compact.go:26-135 | Compact replaces anything if and only if the branch exists, its history can be counted and has more tokens than allowed, some node is a candidate, and the chosen ones can be summarized |
| TreeCompact.CompactFaithfulIff | agent/tree/compact.go:22-195 | whatever branch is compacted: how the new branch's path is made up and how it reads; and its clones are copies of the nodes a reader should still see if and only if nothing behind the last chosen node is archived and everything between the first and the last is chosen or archived |
| TreeCompact.PlanMiddle | agent/tree/compact.go:97-154 | the plan of every compaction splits its path into what precedes the first chosen node, what lies between, with all chosen nodes, and what lies behind the last |
| TreeCompact.KeptFlatten | agent/tree/compact.go:137-193 | where old nodes are kept, their paths and flattenings are |
| TreeEffects.NewTreeReads | agent/tree/tree.go:33-65 | a new tree has one branch, which is active and reads as the system message |
| TreeEffects.AddingRefusedIff | agent/tree/tree.go:102-241 | a child, feedback or a branch is refused exactly under a node that is missing, archived or a feedback leaf, with the error that says which |
| TreeEffects.EditingRefusedIff | agent/tree/tree.go:244-287 | an edit is refused exactly for a missing node, the root, and anything but a user message |
| TreeEffects.AddChildAdds | agent/tree/tree.go:102-139 | one active node with the message, listed last under the parent, tip of the parent's branch, which reads as the parent's history and the message; nothing else changes |
| TreeEffects.AddFeedbackAdds | agent/tree/tree.go:144-182 | the same for a feedback node on a new branch "feedback-..."; under it nothing can be added |
| TreeEffects.BranchAdds | agent/tree/tree.go:199-241 | the same for an active node on a branch with the name asked for, or that name with a suffix when it is taken |
| TreeEffects.UpdateAdds | agent/tree/tree.go:244-287 | the same for the new content next to the edited node, on a new branch "edit-..." that reads as what came before that node, and the new content |
| TreeEffects.ArchiveMarks | agent/tree/tree.go:358-394 | refuses a missing node and the root; else exactly the node, and if asked all below it, become archived, say by whom, and have one version more |
| TreeEffects.RestoreMarks | agent/tree/tree.go:396-428 | refuses a missing node; else exactly the node, and if asked all below it, become active, with nobody named, and have one version more |
| TreeEffects.SetActiveOnly | agent/tree/tree.go:75-83 | exactly an existing branch becomes active, and nothing else changes |
| TreeEffects.CheckpointKept | agent/tree/tree.go:102-471 | no operation forgets or changes a checkpoint |
| TreeEffects.RewindReturns | agent/tree/tree.go:431-471 | rewinding to a checkpoint just made gives a new branch "rewind-..." with the tip the marked branch has, and changes nothing else |
| TreeEffects.RewindReturnsLater | agent/tree/tree.go:431-471 | whatever operations come between, rewinding succeeds and the new branch has the path the marked branch had at the checkpoint |
| TreeEffects.CandidatesExactly | agent/tree/compact.go:56-91 | the candidates are exactly the active nodes of the path behind the root, without those other branches have if these are to be preserved |
| TreeEffects.CompactOutcome | agent/tree/compact.go:26-135 | when Compact fails and with which error, when it leaves the tree and the branch as they are, and when it makes a new active branch and how that is named |
| TreeEffects.SummaryNode | agent/tree/compact.go:97-159 | on any branch: the node in place of the first half of the candidates says "Summary of previous conversation: " and what the provider made of exactly their messages, lists them, and stands where the first of them stands |
| TreeEffects.CloneNodes | agent/tree/compact.go:162-189 | behind the summary every node is a new active one with message and depth of the original, one below the other |
| TreeEffects.CompactReads | agent/tree/compact.go:22-195 | an all-active branch makes one that reads the same, but that of the messages behind the root and what is to be preserved the first half, or the only one, are replaced by one user message that ends in the summary of exactly these |
| TreeDepth.ExactIff | agent/tree/tree.go:119-124 | where every node is one deeper than its parent, that stays so under every operation but a compaction with four candidates or more, which always breaks it |
| TreeDepth.ExactExecute | agent/tree/compact.go:137-189 | executing a plan keeps depths exact if and only if nothing lies behind the chosen nodes or they span one level |
| TreeExamples.FourCandidatesJump | agent/tree/compact.go:97-189 | a reachable tree with exact depths that compacting makes inexact |
| TreeExamples.ArchivedIsRevived | agent/tree/compact.go:172-184 | a reachable tree on which compacting shows an archived node again |
| TreeExamples.SummaryIsDropped | agent/tree/compact.go:78-159 | a reachable tree on which compacting loses an earlier summary between the chosen nodes |
| TreeExamples.RestoreShowsMore | agent/tree/tree.go:358-428 | a reachable tree on which archiving and restoring a subtree shows more than before |
| TreeExamples.RewindDisowns | agent/tree/tree.go:454-471 | a reachable tree on which every branch owns its tip, and a Rewind after which one does not |
| TreeExamples.RewindIsLost | agent/tree/tree.go:454-471 | a run of a checkpoint and a rewind that the log does not rebuild |
| TreeArchive.BelowOneKid | agent/tree/tree.go:373-393 | a node lies below n if and only if exactly one child of n is on its path |
| TreeArchive.MarkSomeStep | agent/tree/tree.go:381-391 | one round of the recursion marks exactly the next child's subtree and nothing twice |
| TreeArchive.MarkRound | agent/tree/tree.go:381-391 | before each recursive call the tree is well-formed and the set of deeper nodes shrinks, so the recursion ends |
| TreeArchive.MarkSomeAll | agent/tree/tree.go:373-428 | after all rounds exactly the nodes whose path contains the target are marked, each once |
| TreeArchive.ArchiveRestoreRevives | agent/tree/tree.go:358-428 | a recursive archive and a recursive restore leave the whole subtree active and everything else unchanged for a reader |
| TreeArchive.RestoreUndoesArchiveIff | agent/tree/tree.go:358-428 | they give back every flattening if and only if no node of the subtree was archived before |
| TreePaths.DescendNodePath | agent/tree/tree.go:480-507 | following the child indices of NodePath from the root reaches the node |
| TreePaths.NodePathInjective | agent/tree/tree.go:480-507 | two nodes have the same index path only if they are the same |
| TreePaths.NodePathKept | agent/tree/tree.go:480-507 | no later operation changes the index path of a node |
| TreePaths.IsAncestorOf | agent/types/node.go:58-68 | the comparing loop decides proper prefix |
| TreePaths.AncestorIffPrefix | agent/types/node.go:58-68 | the index path of a is a proper prefix of that of b if and only if a is a proper ancestor of b |
| TreePaths.ParentPathIsParents | agent/types/node.go:48-55 | Parent of a node's index path is the index path of its parent |
| TreePaths.DiffSplitsPaths | agent/tree/diff.go:42-102 | common path and removed nodes make up one path, common path and added nodes the other, and the common path is that of the reported ancestor |
| TreePaths.DiffIsDeepest | agent/tree/diff.go:53-66 | every common ancestor is on the common path, so the reported one is the deepest |
| TreePaths.DiffSymmetric | agent/tree/diff.go:42-102 | swapping the arguments swaps added and removed and keeps the ancestor |
| TreePaths.DiffEntriesSay | agent/tree/diff.go:64-102 | every entry carries its node's message and depth, and a path that leads to the node |
| PathStrings.AtoiItoa | agent/types/node.go:17-44 | the text of an index parses back, and contains no slash |
| PathStrings.PathToString | agent/types/node.go:17-26 | the indices joined by slashes; empty for the root |
| PathStrings.ParseTreePath | agent/types/node.go:30-44 | splits at slashes and fails at the first segment that is no 64-bit number |
| PathStrings.ParseOfString | agent/types/node.go:17-44 | parsing the text of any path of 64-bit indices gives the path back |
| PathStrings.PathLooks | agent/types/node.go:17-28 | "3/12/0" for the path 3, 12, 0 |
| MemWal.TxNameInjective | agent/store/memwal/memwal.go:33-40 | transaction names are different for different numbers |
| MemWal.BeginsNew | agent/store/memwal/memwal.go:33-40 | a new transaction takes no used name and does not show in the recoverable log before it commits |
| MemWal.OneWrite | agent/store/memwal/memwal.go:42-79 | what Begin, Append and Commit, or Begin and Abort, leave |
| MemWal.OutcomeIsFinal | agent/store/memwal/memwal.go:33-79 | after any calls, new transactions included, from any state a log can be in: a committed transaction is recoverable with the same operations, and one aborted before it committed is not |
| MemWal.Wal.Begin | agent/store/memwal/memwal.go:33-40 | an empty transaction under an unused name |
| MemWal.Wal.Append | agent/store/memwal/memwal.go:42-54 | appends to an open transaction; fails, changing nothing, on an unknown or finished one |
| MemWal.Wal.Commit | agent/store/memwal/memwal.go:56-68 | commits unless unknown or aborted |
| MemWal.Wal.Abort | agent/store/memwal/memwal.go:70-79 | aborts unless unknown |
| MemWal.Wal.Recover | agent/store/memwal/memwal.go:81-91 | lists exactly the committed transactions, each once |
| MemWal.ReplayIsRecoverable | agent/store/memwal/memwal.go:81-103 | however Recover lists the committed transactions, put into transaction order and replayed they give exactly the recoverable log |
| MemWal.RecoveryOrder | agent/store/memwal/memwal.go:81-103 | what Recover lists can always be put into transaction order |
| TreeReplay.StepIsLogged | agent/tree/tree.go:102-287 | an operation that writes to the log adds exactly the node it writes, and when it fails it does neither |
| TreeReplay.LoggedIsNewNode | agent/tree/tree.go:130-138 | the entry logged is the new node as it stands in the tree |
| TreeReplay.SkeletonStep | agent/tree/tree.go:102-428 | every operation that does not bypass the log keeps tree and rebuilt tree in step: same nodes, parents, depths, messages, ordered children and tips |
| TreeReplay.ReplayRebuildsIff | agent/tree/tree.go:510-523 | over any run, with any writes to the log failing, replaying the log in order from the bare root rebuilds nodes, parents, depths, messages, ordered children and tips if and only if no Rewind or effective Compact took place |
| TreeRecovery.Perform | agent/tree/tree.go:102-523 | every operation on a tree object, the write to the log failing or not, leaves tree and recoverable log as the run on values says |
| TreeRecovery.PerformAll | agent/tree/tree.go:102-523 | after any operations on a tree object with a log that fails where it likes, what its recoverable transactions rebuild is the object's tree if and only if no Rewind or effective Compact took place |
| ConversationTree.Tree.constructor | agent/tree/tree.go:33-65 | the object stands for the new tree |
| ConversationTree.Tree.WalAddNode | agent/tree/tree.go:510-523 | wherever the write fails nothing becomes recoverable; on success exactly the node does, behind all before |
| ConversationTree.Tree.Attach | agent/tree/tree.go:130-136 | log, store, list and tip: all of it or none of it |
| ConversationTree.Tree.AddChild | agent/tree/tree.go:102-139 | the object ends as the operation on its value says, or with a failed log write as it was; the log gains exactly the new node |
| ConversationTree.Tree.AddFeedback | agent/tree/tree.go:144-182 | same, for a feedback leaf on a branch of its own |
| ConversationTree.Tree.Branch | agent/tree/tree.go:199-241 | same, for a new branch, whose name gets a suffix if taken |
| ConversationTree.Tree.UpdateUserMessage | agent/tree/tree.go:244-287 | same, for an edit next to the node; all five refusals |
| ConversationTree.Tree.SetActive | agent/tree/tree.go:75-83 | only an existing branch becomes active |
| ConversationTree.Tree.Checkpoint | agent/tree/tree.go:431-451 | remembers the branch and its tip |
| ConversationTree.Tree.Rewind | agent/tree/tree.go:454-471 | a new branch at the checkpoint's node; nothing else changes |
| ConversationTree.Tree.Tip | agent/tree/tree.go:290-299 | the node a branch points to |
| ConversationTree.Tree.Mark | agent/tree/tree.go:373-428 | the in-place recursion ends and marks exactly the subtree, each node's version once |
| ConversationTree.Tree.Archive | agent/tree/tree.go:358-371 | refuses the root and unknown nodes, else archives exactly what was asked |
| ConversationTree.Tree.Restore | agent/tree/tree.go:396-406 | restores exactly what was asked |
| ConversationTree.Tree.PathUnlocked | agent/tree/tree.go:308-324 | the walk up and the in-place reversal end and give the path from the root |
| ConversationTree.ReverseInPlace | agent/tree/tree.go:319-322 | the swapping loop reverses |
| ConversationTree.Tree.FlattenUnlocked | agent/tree/flatten.go:27-41 | the messages of the nodes on the path that are not archived; none for the empty identifier, an error for an unknown one |
| ConversationTree.Tree.FlattenBranch | agent/tree/flatten.go:44-53 | the same for the tip of a branch |
| ConversationTree.Tree.NodePathUnlocked | agent/tree/tree.go:480-507 | the sibling search finds every child, so it never fails on a node of the tree; the empty path for the root and for the empty identifier |
| ConversationTree.Tree.DiffUnlocked | agent/tree/diff.go:42-102 | never fails on two nodes of the tree; unknown and empty identifiers give the errors they should |
| ConversationTree.Tree.DiffBranches | agent/tree/diff.go:105-118 | the difference of the tips, never failing on existing branches |
| ConversationTree.CommonPrefix | agent/tree/diff.go:52-59 | the loop finds the longest common prefix |
| ConversationTree.Tree.SharedNodes | agent/tree/compact.go:55-71 | walking the other branches in any order collects exactly the nodes on their paths |
| ConversationTree.Tree.PlanCompaction | agent/tree/compact.go:26-135 | the loops decide what the operation on the value decides |
| ConversationTree.Tree.CloneRest | agent/tree/compact.go:162-189 | the cloning loop builds the chain of clones |
| ConversationTree.Tree.Compact | agent/tree/compact.go:22-195 | the object ends as the operation on its value says; on an error it is unchanged |
| Compactors.HasToolResult | agent/types/compactor.go:79-95 | finds whether a message carries any tool result |
| Compactors.CompactSliding | agent/types/compactor.go:60-76 | computes the window |
| Compactors.WindowReads | agent/types/compactor.go:60-76 | a history over the window keeps its first message and its last messages, as many as the window says, and the one before these if they would start with tool results |
| Compactors.SummaryReads | agent/types/compactor.go:110-146 | keeps the first message and the last ones, and between them one user message that ends in the summary of all the others; keeps all when within the threshold, when there are no others, or when the provider fails |
| Compactors.SlidingKeepsPairing | agent/types/compactor.go:60-76 | the window never parts tool results from the message that made the calls |
| Compactors.SlidingIdempotent | agent/types/compactor.go:60-76 | applied to its own output the window changes nothing |
| Compactors.SummaryKeepsPairingIff | agent/types/compactor.go:110-146 | a summary keeps calls and results together if and only if the first message it keeps, if any, has no results |
| Compactors.SummaryCutsCall | agent/types/compactor.go:110-146 | a paired history whose summary keeps a result without its call |
| Compactors.ShrinksOnce | agent/types/compactor.go:33-146 | every compactor keeps the first message and never lengthens a history; what it has shrunk it cannot shrink again |
| AgentConfig.PrepareMessages | agent/agent.go:272-313 | one pass resolves the configuration and strips the history |
| AgentConfig.MergeConfig | agent/agent.go:315-328 | a block replaces what it sets and keeps the rest |
| ConfigLaws.ConfigIsLastSet | agent/agent.go:272-327 | in every history the last block that sets a model, an iteration limit or a compactor decides it, any block can ask for compaction, and what no block sets is as the agent was created |
| ConfigLaws.StripConcat | agent/agent.go:278-312 | stripping works message by message |
| ConfigLaws.StripSays | agent/agent.go:279-311 | of a message it keeps every block but configuration and feedback, in order, and drops the message if none is left; assistant messages stay |
| AgentConfig.StripIsPlain | agent/agent.go:278-310 | a stripped history has no configuration, no feedback and no empty message |
| AgentConfig.StripKeepsPairing | agent/agent.go:278-310 | stripping never parts tool results from their calls |
| AgentConfig.PlainBehind | agent/agent.go:272-328 | plain messages behind a history neither configure anything nor change when stripped |
| AgentConfig.NextIterationSeesIff | agent/agent.go:333-391 | after persisting a compaction the next iteration reads exactly what was compacted if and only if the root says something besides configuring |
| AgentConfig.ConfigOnlyRootLoses | agent/agent.go:333-345 | a history whose root only configures, and of which the next iteration lacks a message that was kept |
| AgentConfig.NoConfigBehind | agent/agent.go:272-328 | messages without configuration blocks change no configuration |
| AgentConfig.NextIterationSettles | agent/agent.go:519-549 | when nothing behind the root configures, the configuration survives and the same compactor has nothing more to shrink |
| AgentHistory.AppendGrows | agent/agent.go:504-515 | adding a child at the tip appends the message to the branch and keeps every other branch |
| AgentHistory.WrittenUntilFailure | agent/agent.go:504-515 | the number of successful writes in a row: none of them fails, and the next one does unless all are made |
| AgentHistory.AppendSeq | agent/agent.go:504-515 | appends exactly the messages before the first failing write, none if the tip takes no children, and nothing else changes |
| AgentHistory.ForkIsNew | agent/agent.go:339-345 | branching off the root always succeeds on the tree and gives a branch that reads as root and message |
| AgentHistory.PersistCompacted | agent/agent.go:333-363 | succeeds exactly when the history has two messages or more and no write fails; then a new active branch reads as the root and all compacted messages but the first; else the new branch, if any, has the part that was written and is not active |
| AgentHistory.PersistingKeeps | agent/agent.go:333-363 | either way every old branch is there and reads as before |
| AgentAnswers.Aggregate | agent/agent.go:562-571 | the deltas of the reply, usage left out, make up the message |
| AgentAnswers.ResultsAnswerCalls | agent/agent.go:618-636 | the result message answers exactly the calls of the message before it, in order |
| AgentAnswers.CollectedAreResults | agent/agent.go:618-634 | whatever the interleaving, the collected results are those of the calls under answers the consumer gave to the marked ones |
| AgentTurns.ResultBlockSays | agent/agent.go:618-634 | block i of the result message has the identifier of call i and the text its tool gave for the arguments of the call, or those approved; the error instead when there is no text; and is marked as an error exactly when there is one: from the tool, for a missing tool, for a rejection |
| AgentAnswers.Respond | agent/agent.go:583-645 | appends the aggregated message, and behind it the results if it has calls, as far as the tip and the log allow; goes on only after both; and what it appends configures nothing and keeps calls and results together |
| AgentCourse.StandingAfterCompaction | agent/agent.go:545-549 | a compaction leaves the run in order: the started branch kept, the configuration that of the root, calls and results together |
| AgentCourse.CapIsMaxIter | agent/agent.go:534-537 | when nothing behind the root configures, the cap on requests is the configured iteration limit |
| AgentCourse.CourseGoesOn | agent/agent.go:519-549 | every turn keeps the run on its course, asks at most once, and is followed by another only below the cap |
| AgentCourse.CompactionSettles | agent/agent.go:545-549 | the turn after a compaction asks the provider exactly what was compacted, unless the cap is reached, when nothing behind the root configures and the root says something besides |
| AgentTurns.AnsweringSays | agent/agent.go:552-648 | what asking leads to in every case: the request recorded, the reply behind the history, the results of its calls behind that, and why the run ends if it does |
| AgentTurns.ResultsReachNextRequest | agent/agent.go:519-648 | the request after tool calls is the stripped history of the last one, the reply, and the message with what each tool gave |
| AgentTurns.CompactingTurnSays | agent/agent.go:333-391 | a turn that compacts goes on with the root and the rest of what was compacted on a new active branch "compact" or "compact-...", and asks nothing |
| AgentLoop.TryCompact | agent/agent.go:367-391 | persists what the compactor made of the history exactly when that is strictly shorter, has two messages or more and no write fails |
| AgentLoop.Iterate | agent/agent.go:545-645 | one iteration on the tree object is one turn of the course: a new branch, or a request with what follows it |
| AgentLoop.RunLoop | agent/agent.go:490-647 | the loop ends, for the reason and with the requests, the branch, its exact history and the active branch that the course of the run gives; it asks at most as often as the cap allows, only appends to the branch it was started on and keeps all others; requests and history keep calls and results together unless a summarizing compactor is in use |
| Aggregators.Aggregator.Push | agent/aggregator.go:34-82 | the state after each kind of delta |
| Aggregators.Aggregator.Message | agent/aggregator.go:84-97 | the message collected so far, an open text included |
| Aggregators.Aggregator.Reset | agent/aggregator.go:99-109 | back to a fresh aggregator |
| Aggregators.Replay | agent/stream.go:108-166 | what the consumer of a replay receives, Done last |
| Aggregators.ReplayShows | agent/stream.go:108-166 | a replay shows every tool result of the history with its identifier and text, and all feedback, in order |
| Aggregators.UnendedTextCounts | agent/aggregator.go:84-97 | a stream that breaks off inside a text gives the same message as if the text had ended there |
| Aggregators.ReplayRoundTrip | agent/stream.go:118-135 | aggregating the replay of any history gives back all the assistant said in it |
| Aggregators.MessageRoundTrip | agent/stream.go:118-135 | aggregating the replay of a nonempty assistant message gives that message |
| OllamaStream.TranslateDeltas | agent/provider/ollama/adapter.go:76-133 | the deltas for any chunks |
| OllamaStream.TranslationIsFaithful | agent/provider/ollama/adapter.go:76-133 | for any chunks the deltas are properly bracketed, and aggregating them gives all text and all tool calls of the chunks that are not final, in their order |
| OllamaStream.UsagesAreFinal | agent/provider/ollama/adapter.go:76-134 | usage is reported once for each final chunk, with its counts, and never else |
| ToolExec.GoStepOk | agent/agent.go:664-766 | whatever a goroutine does next, its deltas and tool runs stay those its call and the decision about it determine |
| ToolExec.StepKeepsOk | agent/agent.go:658-770 | every step of goroutines, consumer and loop keeps the invariant of the system |
| ToolExec.RunIsOk | agent/agent.go:658-770 | the invariant holds in every state of every interleaving |
| ToolExec.ResultsAreSequential | agent/agent.go:658-770 | once collected, result i carries the identifier of call i and is what call i gives by itself under the decision about it; its deltas are exactly its own |
| ToolExec.RunsOnlyWhenApproved | agent/agent.go:683-716 | a tool runs at most once for a call, and a marked one only after the consumer approved that call, with the approved arguments |
| ToolOutcomes.UnmarkedYields | agent/agent.go:666-754 | in every interleaving a call without approval has given what its tool gives for the arguments of the call: text and error of a plain tool, the text parts of a sub-agent in order, whose deltas are forwarded one by one; or the error that the tool is missing |
| ToolOutcomes.MarkedYields | agent/agent.go:688-754 | a marked call has shown its arguments to the consumer and followed an answer given: approved, it has run once, with the modified arguments if given or else its own, and given what its tool gives for them; rejected, it has not run and gives the rejection |
| ToolOutcomes.StreamIsBounded | agent/stream.go:29-61 | the stream holds at most 128 deltas; an unfinished call waits only while it is full, or for an answer |
| ToolExec.OneStartOneEnd | agent/agent.go:669-766 | the deltas of a call are one start, one end, and no start or end in between |
| ToolExec.NothingAfterClose | agent/agent.go:495-500 | Done is sent once, last, after every call ended, whatever the stream carried before, and nothing follows the closing |
| ToolExec.BatchesAreRuns | agent/agent.go:519-646 | over any number of batches on one stream, with channels left from earlier ones and the loop's own deltas between them, every batch is such a run, and Done is not sent before the last |
| ToolExec.AnswerReachesIff | agent/stream.go:71-100 | an answer reaches a call of the batch with its identifier if and only if a marked call with that identifier has registered its channel |
| ToolExec.AnswerAcceptedIffRegistered | agent/stream.go:71-100 | when identifiers differ, it reaches a marked call if and only if that call has registered its channel |
| ToolExec.StuckUntilAnswered | agent/agent.go:691-711 | a call whose answer was dropped goes on if and only if it is answered again |
| ToolExec.ApprovalCanBeLost | agent/agent.go:684-691 | a run in which the consumer approves a marker it has received and the call is stuck |
| EditDistance.LevenshteinDistance | knowledge/internal/fuzzy/fuzzy.go:21-48 | the two swapped rows compute the least number of single-element edits |
| EditDistance.FillRow | knowledge/internal/fuzzy/fuzzy.go:36-44 | a row from the row before |
| EditDistance.DistanceIsLeast | knowledge/internal/fuzzy/fuzzy.go:21-48 | the recurrence is attained by a path of edits, and no path is shorter |
| EditDistance.DistanceZero | knowledge/internal/fuzzy/fuzzy.go:21-48 | zero if and only if equal |
| EditDistance.DistanceSymmetric | knowledge/internal/fuzzy/fuzzy.go:21-48 | symmetric |
| EditDistance.DistanceTriangle | knowledge/internal/fuzzy/fuzzy.go:21-48 | triangle inequality |
| EditDistance.DistanceBounds | knowledge/internal/fuzzy/fuzzy.go:21-48 | between the difference of the lengths and the longer length |
| EditDistance.Similarity | knowledge/internal/fuzzy/fuzzy.go:51-62 | in [0, 1], and 1 if and only if the normalized names are equal |
| EditDistance.IsFuzzyMatch | knowledge/internal/fuzzy/fuzzy.go:66-68 | in whole edits: at most (1 - threshold) of the longer name may be edited away |
| TextQuality.LcsLength | eval/textquality.go:171-220 | the two swapped and zeroed rows compute the length of a longest common subsequence |
| TextQuality.LcsIsLongest | eval/textquality.go:171-220 | a common subsequence of that length exists and none is longer |
| TextQuality.LcsSymmetric | eval/textquality.go:171-220 | symmetric |
| TextQuality.LcsBounds | eval/textquality.go:171-220 | at most either length, and both lengths only on equal inputs |
| TextQuality.LcsAtMostOverlap | eval/textquality.go:41-100 | at most the multiset overlap of the tokens |
| TextQuality.CountTokens | eval/textquality.go:52-59 | the counting loops give the multiplicities |
| TextQuality.Overlap | eval/textquality.go:61-70 | the overlap loop gives the size of the multiset intersection, in whatever order the map is walked |
| TextQuality.TokenF1 | eval/textquality.go:41-78 | twice the overlap over the sum of the lengths; 1 for two empty lists |
| TextQuality.RougeL | eval/textquality.go:82-100 | 2 lcs / (m + n); 1 for two empty lists |
| TextQuality.SequenceSimilarity | eval/textquality.go:29-38 | the same on bytes |
| TextQuality.MetricLaws | eval/textquality.go:29-100 | in [0, 1], 1 if and only if equal, symmetric, and RougeL never exceeds TokenF1 |
| TextQuality.MetricIsHarmonicMean | eval/textquality.go:29-101 | 1 for two empty inputs, else the harmonic mean of the shared part of both lengths |
| Chunker.JoinSplit | rag/chunker/chunker.go:105-109 | joining what Split gave back with the separator is the text, for the empty separator too |
| Chunker.HardSplit | rag/chunker/chunker.go:146-169 | each piece is cut off what the pieces before it leave, as long as that does not fit, at a point where the piece fits and one byte more does not, or after one byte that does not fit; the pieces concatenate to the text |
| Chunker.ChopsConserves | rag/chunker/chunker.go:146-169 | pieces cut so concatenate to the text, and each fits or is a single byte, whatever the tokenizer |
| Chunker.SplitPoint | rag/chunker/chunker.go:149-161 | the binary search ends where the prefix fits and one byte more does not, or at one byte if that does not fit |
| Chunker.Merge | rag/chunker/chunker.go:111-131 | the chunks are consecutive parts glued together, each chunk fits or is a single part, with the next part none but the last would fit, and nothing but whole separators is dropped |
| Chunker.RefineChunks | rag/chunker/chunker.go:133-143 | splitting chunks further keeps order, disjointness and gaps made of separators |
| Chunker.SplitRecursive | rag/chunker/chunker.go:95-144 | ends; the text stays whole if it fits, is split at the first separator that occurs, glued to full chunks, and those too large are split at the separators behind it; only behind the last separator it is cut hard; the chunks stand in order and disjointly in the text with gaps made of separators, and each is within the budget or a single byte |
| Chunker.SplitsGroups | rag/chunker/chunker.go:95-169 | whatever the text: it is made of pieces and dropped separators, and a piece is cut inside only if it does not fit and none of the separators still to be tried occurs in it |
| Chunker.SplitsConserve | rag/chunker/chunker.go:95-169 | so the chunks of a split stand in order and disjointly in the text with gaps made of separators, each within the budget or a single byte |
| Chunker.ApplyOverlap | rag/chunker/chunker.go:171-200 | each chunk but the first is preceded by a suffix of the one before it that is within the overlap and with one byte more is not, all of it if it fits |
| Mmr.Rerank | rag/reranker/mmr.go:30-77 | each pick is the first of largest value against those picked before, reported with that value; filtering in place loses nothing |
| Mmr.DropInPlace | rag/reranker/mmr.go:66-73 | filtering into the part already read removes exactly one element |
| Mmr.OutputIsPermutation | rag/reranker/mmr.go:30-77 | but for the scores the output is a permutation of the hits |
| Mmr.ScoresNonIncreasing | rag/reranker/mmr.go:30-77 | for lambda at most 1 the reported scores do not increase |
| Mmr.SortedIffLambdaAtMostOne | rag/reranker/mmr.go:30-77 | for any one similarity by which some embedding is similar to itself, they do not increase on every input if and only if lambda is at most 1 |
| Mmr.TwinsRise | rag/reranker/mmr.go:30-77 | two hits with that embedding and score zero, on which they increase |
| Mmr.GreedyUnique | rag/reranker/mmr.go:30-77 | the order of the picks is determined by the hits |
| Mmr.MaxSimIsLargest | rag/reranker/mmr.go:49-54 | the penalty is the largest similarity to a picked hit, or 0 when none is positive |
| Mmr.ValueOrders | rag/reranker/mmr.go:56 | of hits equally similar to the picks the more relevant has the larger value, of equally relevant ones the less similar, by lambda and by 1 - lambda |
| Mmr.FirstPickIsMostRelevant | rag/reranker/mmr.go:40-63 | for a positive lambda the first pick is a most relevant hit; its reported score is lambda times its own |
| Bm25.Retriever.Index | rag/bm25retriever/retriever.go:66-99 | afterwards the index is the one built from scratch from the old entries and the document's |
| Bm25.Retriever.Remove | rag/bm25retriever/retriever.go:102-140 | afterwards the index is the one built from scratch from the entries of the other documents |
| Bm25.Retriever.RecomputeAvgDL | rag/bm25retriever/retriever.go:142-152 | summing the lengths in any order gives the average over all entries |
| Bm25.FilterPostings | rag/bm25retriever/retriever.go:118-123 | exactly the postings of other documents remain, in order |
| Bm25.CountTerms | rag/bm25retriever/retriever.go:78-81 | the multiplicity of every term |
| Bm25.PostingsWithout | rag/bm25retriever/retriever.go:117-129 | filtering the postings of a term gives the postings of the remaining entries |
| Bm25.RemoveUndoesIndex | rag/bm25retriever/retriever.go:66-140 | Remove after Index leaves the entries there were before |
| Bm25.CountIsLengths | rag/bm25retriever/retriever.go:92-94 | the document count is the number of lengths kept |
| Bm25.EntriesExactly | rag/bm25retriever/retriever.go:66-99 | exactly the text variants that are not empty are indexed, each with its tokens |
| Bm25.AverageIsBetween | rag/bm25retriever/retriever.go:142-152 | the average length lies between any bounds of the lengths, and is their sum over their number |
| Bm25.TotalLengthAddsUp | rag/bm25retriever/retriever.go:142-152 | the total length adds up over the entries |
| Bm25Score.Weight | rag/bm25retriever/retriever.go:174-181 | what a matching term adds is defined and positive |
| Bm25Score.ScorePositive | rag/bm25retriever/retriever.go:168-183 | a variant has a positive score if and only if it has a query term, and score zero otherwise |
| Bm25Score.Score | rag/bm25retriever/retriever.go:157-183 | exactly the variants with a query term are scored, each with the sum over the query terms |
| Bm25Laws.RarerWeighsMore | rag/bm25retriever/retriever.go:173-179 | for an increasing logarithm, the fewer variants have a term the more it weighs |
| Bm25Laws.OftenerWeighsMore | rag/bm25retriever/retriever.go:177-179 | the more often a variant has a term the more it weighs, and exactly when that number counts at all, strictly more |
| Bm25Laws.LongerWeighsLess | rag/bm25retriever/retriever.go:177-179 | the longer the variant the less it weighs, strictly exactly when K1 and B are positive |
| Bm25Laws.AverageWeighsRarity | rag/bm25retriever/retriever.go:173-179 | once in a variant of average length a term weighs ln((N + 1) / (df + 0.5)) |
| Bm25Laws.RarerTermScoresMore | rag/bm25retriever/retriever.go:167-181 | of two terms a variant has equally often, the one fewer indexed variants have scores more |
| Bm25Laws.MoreOfTermScoresMore | rag/bm25retriever/retriever.go:167-181 | of two variants of one length, the one with more of a term scores more |
| Bm25Laws.ShorterScoresMore | rag/bm25retriever/retriever.go:167-181 | of two variants that have a term equally often, the shorter scores more |
| Bm25Laws.ScoreAddsUp | rag/bm25retriever/retriever.go:167-181 | the score of a query is the sum of the scores of its terms, repeated ones included |
| RagPipeline.Store.CreateDocument | rag/memstore/store.go:31-39 | stores the document and its fingerprint |
| RagPipeline.Store.FindByFingerprint | rag/memstore/store.go:51-59 | the stored document behind a fingerprint, if it is still there |
| RagPipeline.Store.DeleteDocument | rag/memstore/store.go:61-71 | removes document, fingerprint and original |
| RagPipeline.Store.GetVariant | rag/memstore/store.go:141-162 | finds a variant with the identifier, with its document and section, if and only if a stored document has one |
| RagPipeline.Pipeline.Ingest | rag/internal/pipeline/pipeline.go:43-114 | store and index end as the specification says, for both duplicate behaviours and for failures |
| RagPipeline.Pipeline.Delete | rag/internal/pipeline/pipeline.go:307-317 | removes the document from index and store |
| RagPipeline.Pipeline.Update | rag/internal/pipeline/pipeline.go:300-305 | deletes, then ingests into what is left; the store and the index end as these two steps say |
| RagPipeline.IngestStores | rag/internal/pipeline/pipeline.go:43-114 | a document that is not skipped is stored as prepared, found by its fingerprint, its original kept if asked, its entries indexed; the one it replaces leaves the store, and all others stay |
| RagPipeline.DeleteForgets | rag/internal/pipeline/pipeline.go:307-317 | the document, its fingerprint, its original and its entries are gone, and nothing else |
| RagPipeline.IngestKeepsSound | rag/internal/pipeline/pipeline.go:43-114 | with DedupSkip, ingesting keeps index and store in agreement and one document per fingerprint |
| RagPipeline.DeleteKeepsSound | rag/internal/pipeline/pipeline.go:307-317 | so does deleting |
| RagPipeline.UpdateKeepsIff | rag/internal/pipeline/pipeline.go:300-305 | the document or its new version is stored after an Update if and only if the data could be prepared and were not skipped as a duplicate of another stored document |
| RagPipeline.FailingIngestLoses | rag/internal/pipeline/pipeline.go:43-114 | a store with one document that an Update with data that cannot be prepared empties, and so does an Ingest that replaces it |
| RagPipeline.SkippedUpdateLoses | rag/internal/pipeline/pipeline.go:51-61 | a store with two documents of which one is lost when it is updated with the data of the other |
| RagPipeline.IngestForgetsIff | rag/internal/pipeline/pipeline.go:43-114 | an Ingest leaves some known fingerprint unknown if and only if it replaces a document by data that cannot be prepared |
| RagPipeline.IngestAgreesIff | rag/internal/pipeline/pipeline.go:51-61 | index and store agree after an ingest if and only if it did not replace a document with indexed text |
| RagPipeline.ReplacedStaysIndexed | rag/internal/pipeline/pipeline.go:51-61 | two ingests under DedupReplace after which the index still has the replaced text |
| RagPipeline.HitsResolve | rag/internal/pipeline/pipeline.go:288-298 | every variant the index can return is found in the store |
| RagPipeline.RunAgrees | rag/internal/pipeline/pipeline.go:43-317 | over any run of Ingest, Update and Delete with DedupSkip the index holds exactly the stored text variants |
| EmbeddingCache.KeyTextInjectiveIff | rag/embeddingcache/cache.go:129-133 | variants of some content types never share a key text if and only if no type is another one with a colon behind it and perhaps more |
| EmbeddingCache.KeyTextCollides | rag/embeddingcache/cache.go:129-133 | two such types and two variants that share a key text |
| EmbeddingCache.Cache.StoreEntry | rag/embeddingcache/cache.go:109-127 | the key is in front, at most maxSize keys remain, and map and list hold the same distinct keys |
| EmbeddingCache.Cache.EvictOverflow | rag/embeddingcache/cache.go:119-126 | the loop drops exactly what is over capacity, oldest first |
| EmbeddingCache.Cache.LookUp | rag/embeddingcache/cache.go:62-77 | hits are answered with the embedder's vectors and moved to the front; exactly the others are listed as misses |
| EmbeddingCache.Cache.Embed | rag/embeddingcache/cache.go:57-105 | returns the embedder's vectors pointwise, whatever other calls run between its two critical sections |
| EmbeddingCache.ServedSingle | rag/embeddingcache/cache.go:57-105 | what a call with one variant does to the list of keys |
| EmbeddingCache.RecentIsByLastUse | rag/embeddingcache/cache.go:57-127 | the reference order: the different keys by last use |
| EmbeddingCache.HistoryIsMostRecent | rag/embeddingcache/cache.go:57-127 | after any one-variant calls the list is the maxSize most recently used keys, in order |
| EmbeddingCache.LargerCacheContainsSmaller | rag/embeddingcache/cache.go:57-127 | a larger cache holds all that a smaller one holds, in the same order |

## Left out

- All SQL stores, provider adapters other than `translateDeltas`, HTTP clients, MCP, command line, terminal and telemetry code: input, output and presentation.
- JSON encoding of trees and sessions, and trees built by `FromStore` or `UnmarshalJSON`: nothing validates their data, so the invariant starts from `New`.
- Timestamps, locks, logging and metrics; the tree's mutex makes each method one step.
- Simple readers of the tree (`Active`, `Root`, `Children`, `Branches`, `Feedback`, annotated flattening): they add easy members only.
- Cancellation: histories and results after a cancelled context, and the dropped sends that come with it.
- Resolving files in `runLoop`: modelled for an agent without resolvers.
- The text of summarization prompts (`MessagesToText`): the provider is a function of the messages to be summarized.
- Other code changing the tree while a run is under way.
- ToolExec.RunsOnlyWhenApproved: a marked tool inside a marked tool, and one without markers, count as plain tools, because the source calls their Execute directly.
- ToolExec.ResultsAreSequential: tools are functions of their arguments, so a tool with state of its own is not captured.
- Aggregators.Replay: a tool result's error flag is dropped, as the source drops it.
- Compactors.CompactSliding: a negative window is outside the model, because the source slices out of range for it.
- AgentLoop.RunLoop: the error and usage deltas it sends are not recorded; that Done comes last is in ToolExec.
- AgentLoop.RunLoop: the branch exists, where the source ends a run on an unknown one with an error before it changes anything.
- AgentLoop.RunLoop: the branch owns its tip; on one that Rewind made the source appends the first message to another branch, as `TreeRuns.AppendAfterRewind` says.
- AgentLoop.RunLoop: a summarizing compactor has no negative threshold, for which the source slices an empty history out of range.
- AgentHistory.PersistCompacted: names drawn behind "compact-" are assumed to be unused, as NewID promises.
- MemWal.Wal.Begin: transaction numbers are unbounded, where the source's counter has 64 bits.
- ConversationTree.Tree.Compact: the identifiers of the summary and the clones are parameters, assumed new and different.
- Chunker.SplitRecursive: the empty text is within the budget, because the source's hard split slices past the end of an empty text for a negative budget; where characters end is a parameter, used for an empty separator.
- Chunk building around the splitter (section headings, variant metadata) and the default token estimate.
- EditDistance.Similarity: normalization is a parameter, so Unicode letters, digits and lower-casing are not modelled.
- TextQuality.TokenF1: works on token lists; splitting text into them is not modelled.
- Bm25Score.Score: K1 is not negative and B between 0 and 1; the source accepts others, for which a weight can be a division by zero.
- TreeRecovery.PerformAll: archive states are not compared, because archiving writes nothing to the log.
- ToolExec.BatchesAreRuns: the provider's stream is assumed to carry no Done of its own.
- Mmr.Rerank: cosine similarity is a parameter; the result holds for every similarity function.
- Bm25Score.Score: sorting, limit, filters and store lookups of Retrieve come after the scores and are not modelled; the logarithm is any function positive above one.
- Bm25.Retriever.Index: variants get new identifiers and no document is indexed twice without removal, as NewID and the pipeline provide.
- RagPipeline.Pipeline.Ingest: reading, chunking and embedding enter as their result, knowledge-graph ingestion and retrievers other than BM25 are left out, and a retriever wrapped so that it hides its indexer is outside the model.
- Vector search in the store, query transformation, rank fusion and context assembly.
- EmbeddingCache.Cache.Embed: the digest is a function of the key text, assumed free of collisions between variants that embed differently.
- Rounding, NaN and infinities of floating-point numbers.
