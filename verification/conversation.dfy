/** The conversation `Context` of app/context.py: the prompt, the message
    history and the tool results, and the message list sent to the model.
    Python's list-of-dict values become datatypes; since they are values,
    building the message list cannot change the history or tool results. */
module Conversation {

  datatype Message = Message(role: string, content: string)

  datatype ToolResult = ToolResult(tool: string, result: string)

  datatype Context = Context(prompt: string, history: seq<Message>, toolResults: seq<ToolResult>)

  const SystemPrompt: string := "You are a helpful assistant."

  /** `Context(prompt=...)` with the default empty lists. */
  function NewContext(prompt: string): (c: Context)
    ensures c.prompt == prompt && |c.history| == 0 && |c.toolResults| == 0
  {
    Context(prompt, [], [])
  }

  /** `build_messages`: the system message, the user's prompt, then the history in order. */
  function BuildMessages(c: Context): (m: seq<Message>)
    ensures |m| == 2 + |c.history|
    ensures m[0] == Message("system", SystemPrompt)
    ensures m[1] == Message("user", c.prompt)
    ensures m[2..] == c.history
  {
    [Message("system", SystemPrompt), Message("user", c.prompt)] + c.history
  }

  /** `add_assistant_message`: one assistant message appended to the history. */
  function AddAssistantMessage(c: Context, content: string): (c': Context)
    ensures c'.prompt == c.prompt && c'.toolResults == c.toolResults
    ensures |c'.history| == |c.history| + 1
    ensures c'.history[..|c.history|] == c.history
    ensures c'.history[|c.history|] == Message("assistant", content)
  {
    c.(history := c.history + [Message("assistant", content)])
  }

  /** `add_tool_result`: one tool result appended; the history is untouched. */
  function AddToolResult(c: Context, tool: string, result: string): (c': Context)
    ensures c'.prompt == c.prompt && c'.history == c.history
    ensures |c'.toolResults| == |c.toolResults| + 1
    ensures c'.toolResults[..|c.toolResults|] == c.toolResults
    ensures c'.toolResults[|c.toolResults|] == ToolResult(tool, result)
  {
    c.(toolResults := c.toolResults + [ToolResult(tool, result)])
  }

  /** An assistant reply shows up as the last message of the next request. */
  lemma AssistantMessageIsSent(c: Context, content: string)
    ensures BuildMessages(AddAssistantMessage(c, content)) == BuildMessages(c) + [Message("assistant", content)]
  {
  }

  /** Tool results never reach the message list. */
  lemma ToolResultNotSent(c: Context, tool: string, result: string)
    ensures BuildMessages(AddToolResult(c, tool, result)) == BuildMessages(c)
  {
  }
}
