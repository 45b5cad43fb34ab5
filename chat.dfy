/**
 * What both chat routes share: the role-tagged messages sent to the Groq
 * chat-completion API, the fixed model parameters, what the SDK call gives
 * back, the sentinel reply and the 500 error body.
 */
module Chat {
  import opened Options

  datatype Role = System | User | Assistant

  /** The role as it is written in a message and in the rendered history. */
  function RoleName(r: Role): string
  {
    match r
    case System => "system"
    case User => "user"
    case Assistant => "assistant"
  }

  /** `{ role, content }`: one message of a request, or one committed turn. */
  datatype Message = Message(role: Role, content: string)

  const ModelId: string := "llama-3.1-8b-instant"
  const MaxTokens: nat := 1024

  /**
   * The argument of `groq.chat.completions.create`. The sampling temperature
   * (0.7 in both routes) is a float and is not modelled.
   */
  datatype CompletionRequest = CompletionRequest(messages: seq<Message>, model: string, maxTokens: nat)

  /**
   * The outcome of the completion call: the content of the first choice's
   * message (`None` when `choices[0]`, its `message` or its `content` is
   * absent), or a thrown error.
   */
  datatype Completion = Completed(firstContent: Option<string>) | CompletionFailed

  const NoResponse: string := "No response generated"

  /** `completion.choices[0]?.message?.content || 'No response generated'`. */
  function ReplyOf(first: Option<string>): (reply: string)
    ensures reply != ""
    ensures first.Some? && first.value != "" ==> reply == first.value
    ensures first.None? || first.value == "" ==> reply == NoResponse
  {
    if first.Some? && first.value != "" then first.value else NoResponse
  }

  /** The body and status of every failure response of both routes. */
  const FailureMessage: string := "Failed to generate response"
  const ServerErrorStatus: nat := 500
}
