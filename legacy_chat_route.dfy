/**
 * The earlier chat route (`POST /api/chat` of the first application): no
 * retrieval and no history, a two-message request (a constant system prompt
 * and the received content verbatim), the reply or the sentinel, and a 500
 * on any failure.
 */
module LegacyChatRoute {
  import opened Options
  import opened Chat

  /** The one environment variable checked when the module is loaded. */
  datatype Config = Config(groqApiKey: string)

  /** Module load: a missing or empty `GROQ_API_KEY` throws before any request is served. */
  function LoadConfig(env: map<string, string>): (r: Option<Config>)
    ensures r.Some? <==> "GROQ_API_KEY" in env && env["GROQ_API_KEY"] != ""
    ensures r.Some? ==> r.value.groqApiKey == env["GROQ_API_KEY"]
  {
    if "GROQ_API_KEY" in env && env["GROQ_API_KEY"] != "" then Some(Config(env["GROQ_API_KEY"])) else None
  }

  /** The success body carries the reply only: no history is read or returned. */
  datatype ChatResponse = ReplyOk(reply: string) | ReplyError(status: nat, error: string)

  const SystemPrompt: string := "You are a helpful AI assistant that provides clear and concise responses."

  function RequestFor(content: string): CompletionRequest
  {
    CompletionRequest([Message(System, SystemPrompt), Message(User, content)], ModelId, MaxTokens)
  }

  /**
   * The route handler; `body` is the parsed `content` field, `None` when the
   * body does not parse.
   */
  function Post(config: Config, body: Option<string>, groq: CompletionRequest -> Completion): (r: ChatResponse)
    ensures r.ReplyOk? <==> body.Some? && groq(RequestFor(body.value)).Completed?
    ensures r.ReplyOk? ==> r.reply != ""
    ensures r.ReplyOk? && groq(RequestFor(body.value)).firstContent.Some? && groq(RequestFor(body.value)).firstContent.value != ""
            ==> r.reply == groq(RequestFor(body.value)).firstContent.value
    ensures r.ReplyError? ==> r == ReplyError(ServerErrorStatus, FailureMessage)
  {
    if body.None? then ReplyError(ServerErrorStatus, FailureMessage)
    else
      var completion := groq(RequestFor(body.value));
      if completion.CompletionFailed? then ReplyError(ServerErrorStatus, FailureMessage)
      else ReplyOk(ReplyOf(completion.firstContent))
  }

  /** Exactly two messages, the fixed system prompt then the content verbatim, with the fixed model and token bound. */
  lemma RequestShape(content: string)
    ensures var req := RequestFor(content);
      && |req.messages| == 2
      && req.messages[0] == Message(System, "You are a helpful AI assistant that provides clear and concise responses.")
      && req.messages[1] == Message(User, content)
      && req.model == "llama-3.1-8b-instant" && req.maxTokens == 1024
  {
  }

  /** An absent or empty first choice is not an error: it becomes the sentinel reply. */
  lemma EmptyCompletionIsSentinel(config: Config, content: string, groq: CompletionRequest -> Completion)
    requires groq(RequestFor(content)) == Completed(None) || groq(RequestFor(content)) == Completed(Some(""))
    ensures Post(config, Some(content), groq) == ReplyOk("No response generated")
  {
  }
}
