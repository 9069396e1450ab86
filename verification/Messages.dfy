/** Conversation messages and stream deltas (agent/types/message.go, content.go, delta.go). */
module Messages {

  datatype Option<+T> = None | Some(value: T)

  datatype Result<+T, +E> = Ok(value: T) | Err(error: E)

  /** Tool arguments; a value of the JSON object is kept as its text. */
  type Args = map<string, string>

  datatype CompactStrategy = NoCompaction | SlidingWindow | Summarize

  datatype CompactConfig = CompactConfig(strategy: CompactStrategy, windowSize: int, threshold: int, keepLast: int)

  datatype ConfigContent = ConfigContent(model: string, maxIter: int, compact: Option<CompactConfig>, compactNow: bool)

  datatype ToolResultContent = ToolResultContent(toolCallID: string, text: string, isError: bool)

  datatype ToolUseContent = ToolUseContent(id: string, name: string, arguments: Args)

  datatype FeedbackContent = FeedbackContent(targetNodeID: string, rating: int, comment: string)

  datatype SystemContent =
    | SystemText(text: string)
    | SystemToolResult(result: ToolResultContent)
    | SystemConfig(config: ConfigContent)

  datatype UserContent =
    | UserText(text: string)
    | UserToolResult(result: ToolResultContent)
    | UserConfig(config: ConfigContent)
    | UserFile(uri: string, mediaType: string, data: string, filename: string)
    | UserFeedback(feedback: FeedbackContent)

  datatype AssistantContent =
    | AssistantText(text: string)
    | ToolUse(call: ToolUseContent)
    | Thinking(thinking: string, signature: string)

  datatype Message =
    | SystemMessage(system: seq<SystemContent>)
    | UserMessage(user: seq<UserContent>)
    | AssistantMessage(assistant: seq<AssistantContent>)

  function NewUserMessage(text: string): Message {
    UserMessage([UserText(text)])
  }

  /** NewToolResultMessage: one system message with all results. */
  function NewToolResultMessage(results: seq<ToolResultContent>): Message {
    SystemMessage(seq(|results|, i requires 0 <= i < |results| => SystemToolResult(results[i])))
  }

  datatype Delta =
    | TextStart
    | TextPart(content: string)
    | TextEnd
    | ToolCallStart(id: string, name: string)
    | ToolCallArgument(content: string)
    | ToolCallEnd(arguments: Args)
    | ToolExecStart(toolCallID: string, toolName: string)
    | ToolExecPart(toolCallID: string, inner: Delta)
    | ToolExecEnd(toolCallID: string, result: string, error: string)
    | ThinkingStart
    | ThinkingPart(content: string)
    | ThinkingEnd(signature: string)
    | Marker(toolCallID: string, toolName: string, markerArguments: Args)
    | ErrorDelta(error: string)
    | Usage(promptTokens: int, completionTokens: int)
    | FeedbackDelta(feedback: FeedbackContent)
    | Done
}
