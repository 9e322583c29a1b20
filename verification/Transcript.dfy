/** The step transcript of a leaf's tool loop (`src/contract/brain.ts`). A call's arguments
    are kept as their JSON text. */
module Transcript {
  import opened Contract

  datatype ToolCall = ToolCall(id: string, name: string, argsJson: string)

  datatype StepMessage =
    | Context(content: string)
    | Assistant(content: string, toolCalls: Option<seq<ToolCall>>)
    | ToolResult(callId: string, content: string)
}
