/**
 * The retrieval-augmented chat route (`POST /api/chat` of the frontend):
 * retrieve passages for the question, build a fixed three-message request
 * (system prompt, context as an assistant message, rendered history plus the
 * question as the user message), ask Groq, and hand back the reply together
 * with the history extended by exactly the two new turns. Every failure is a
 * 500 with a fixed body and no history.
 *
 * The retrieval service and Groq are parameters: total functions from the
 * request they receive to what they answer.
 */
module ChatRoute {
  import opened Options
  import opened Strings
  import opened Chat

  /** The two environment variables checked when the module is loaded. */
  datatype Config = Config(groqApiKey: string, retrievalApiUrl: string)

  /**
   * Module load: a missing or empty `GROQ_API_KEY` or `RETRIEVAL_API_URL`
   * throws before any request is served (`None`), not per request.
   */
  function LoadConfig(env: map<string, string>): (r: Option<Config>)
    ensures r.Some? <==>
      "GROQ_API_KEY" in env && env["GROQ_API_KEY"] != "" &&
      "RETRIEVAL_API_URL" in env && env["RETRIEVAL_API_URL"] != ""
    ensures r.Some? ==>
      r.value.groqApiKey == env["GROQ_API_KEY"] && r.value.retrievalApiUrl == env["RETRIEVAL_API_URL"]
  {
    if "GROQ_API_KEY" !in env || env["GROQ_API_KEY"] == "" then None
    else if "RETRIEVAL_API_URL" !in env || env["RETRIEVAL_API_URL"] == "" then None
    else Some(Config(env["GROQ_API_KEY"], env["RETRIEVAL_API_URL"]))
  }

  /** The parsed request body; `conversationHistory` may be missing. */
  datatype ChatRequestBody = ChatRequestBody(content: string, conversationHistory: Option<seq<Message>>)

  /** The retrieval call: `POST <url>` with body `{ question }`. */
  datatype RetrievalRequest = RetrievalRequest(url: string, question: string)

  /**
   * What the retrieval call yields: an ok response whose JSON may or may not
   * carry `retrieved_passages`, or a failure (non-ok status, network error,
   * unparsable body).
   */
  datatype RetrievalResponse = RetrievalOk(retrievedPassages: Option<seq<string>>) | RetrievalFailed

  /** The route's JSON response: the reply and the new history, or an error with its status. */
  datatype ChatResponse =
    | ChatOk(reply: string, conversationHistory: seq<Message>)
    | ChatError(status: nat, error: string)

  const SystemPrompt: string :=
    "You are ZendaAssist, an expert on Zendalona's accessible open-source projects. " +
    "Answer the user's question using the provided context. " +
    "If further clarification is needed, ask for more details. " +
    "The conversation history is provided to maintain context for follow-up questions."

  function RetrievalFor(config: Config, content: string): RetrievalRequest
  {
    RetrievalRequest(config.retrievalApiUrl + "/retrieve", content)
  }

  /** The passages joined by single spaces; no passages field gives "". */
  function ContextOf(passages: Option<seq<string>>): string
  {
    if passages.Some? then Join(passages.value, " ") else ""
  }

  /** One history line, `role: content`. */
  function RenderTurn(m: Message): string
  {
    RoleName(m.role) + ": " + m.content
  }

  function HistoryLines(history: seq<Message>): seq<string>
  {
    seq(|history|, i requires 0 <= i < |history| => RenderTurn(history[i]))
  }

  /** The flattened history: one line per turn, oldest first, newline-joined. */
  function RenderHistory(history: seq<Message>): string
  {
    if |history| > 0 then Join(HistoryLines(history), "\n") else ""
  }

  /** The user message: the rendered history (when it is not "") and the question. */
  function UserContent(rendered: string, content: string): string
  {
    if rendered != "" then rendered + "\nUser: " + content else content
  }

  /** The three messages of the completion request, with the fixed model parameters. */
  function RequestFor(content: string, history: seq<Message>, passages: Option<seq<string>>): CompletionRequest
  {
    CompletionRequest(
      [ Message(System, SystemPrompt),
        Message(Assistant, "Context: " + ContextOf(passages)),
        Message(User, UserContent(RenderHistory(history), content)) ],
      ModelId, MaxTokens)
  }

  /**
   * The route handler. A body that does not parse, a failed retrieval, a
   * missing history (reading its `length` throws) and a failed completion
   * all end in the same 500 response.
   */
  function Post(
    config: Config,
    body: Option<ChatRequestBody>,
    retrieve: RetrievalRequest -> RetrievalResponse,
    groq: CompletionRequest -> Completion): (r: ChatResponse)
    ensures r.ChatError? ==> r == ChatError(ServerErrorStatus, FailureMessage)
    ensures r.ChatOk? <==>
      && body.Some?
      && retrieve(RetrievalFor(config, body.value.content)).RetrievalOk?
      && body.value.conversationHistory.Some?
      && groq(RequestFor(body.value.content, body.value.conversationHistory.value,
                         retrieve(RetrievalFor(config, body.value.content)).retrievedPassages)).Completed?
    ensures r.ChatOk? ==>
      && r.reply != ""
      && r.reply == ReplyOf(groq(RequestFor(body.value.content, body.value.conversationHistory.value,
                                            retrieve(RetrievalFor(config, body.value.content)).retrievedPassages)).firstContent)
      && |r.conversationHistory| == |body.value.conversationHistory.value| + 2
      && r.conversationHistory[..|body.value.conversationHistory.value|] == body.value.conversationHistory.value
      && r.conversationHistory[|body.value.conversationHistory.value|] == Message(User, body.value.content)
      && r.conversationHistory[|body.value.conversationHistory.value| + 1] == Message(Assistant, r.reply)
  {
    if body.None? then ChatError(ServerErrorStatus, FailureMessage)
    else
      var content := body.value.content;
      var retrieval := retrieve(RetrievalFor(config, content));
      if retrieval.RetrievalFailed? then ChatError(ServerErrorStatus, FailureMessage)
      else if body.value.conversationHistory.None? then ChatError(ServerErrorStatus, FailureMessage)
      else
        var history := body.value.conversationHistory.value;
        var completion := groq(RequestFor(content, history, retrieval.retrievedPassages));
        if completion.CompletionFailed? then ChatError(ServerErrorStatus, FailureMessage)
        else
          var reply := ReplyOf(completion.firstContent);
          ChatOk(reply, history + [Message(User, content), Message(Assistant, reply)])
  }

  // ---------------------------------------------------------------------------
  // Properties

  /** The rendered history is empty exactly when there is no history. */
  lemma RenderHistoryEmptyIff(history: seq<Message>)
    ensures RenderHistory(history) == "" <==> history == []
  {
    if history != [] {
      var lines := HistoryLines(history);
      assert lines[0] == RoleName(history[0].role) + ": " + history[0].content;
      assert |lines[0]| >= 2;
      JoinNonEmpty(lines, "\n");
    }
  }

  /** One more turn adds one more line, after a newline. */
  lemma RenderHistorySnoc(history: seq<Message>, m: Message)
    requires history != []
    ensures RenderHistory(history + [m]) == RenderHistory(history) + "\n" + RenderTurn(m)
  {
    assert HistoryLines(history + [m]) == HistoryLines(history) + [RenderTurn(m)];
    JoinSnoc(HistoryLines(history), RenderTurn(m), "\n");
  }

  /** Line k of a non-empty rendering is turn k; there are as many lines as turns. */
  lemma RenderHistoryLines(history: seq<Message>)
    ensures |HistoryLines(history)| == |history|
    ensures forall k :: 0 <= k < |history| ==> HistoryLines(history)[k] == RoleName(history[k].role) + ": " + history[k].content
  {
  }

  /**
   * The request always has three messages, system then assistant then user,
   * whatever the history; the context message is present even when there is
   * no context; the user message carries the rendered history only when there
   * is a history.
   */
  lemma RequestShape(content: string, history: seq<Message>, passages: Option<seq<string>>)
    ensures var req := RequestFor(content, history, passages);
      && |req.messages| == 3
      && req.messages[0] == Message(System, SystemPrompt)
      && req.messages[1] == Message(Assistant, "Context: " + ContextOf(passages))
      && (passages.None? || passages.value == [] ==> req.messages[1].content == "Context: ")
      && req.messages[2].role == User
      && (history == [] ==> req.messages[2].content == content)
      && (history != [] ==> req.messages[2].content == RenderHistory(history) + "\nUser: " + content)
      && req.model == "llama-3.1-8b-instant" && req.maxTokens == 1024
  {
    RenderHistoryEmptyIff(history);
  }

  /** The retrieval service is asked about the received content verbatim, and about nothing else. */
  lemma RetrievalSeesContentOnly(
    config: Config, body: ChatRequestBody,
    retrieve1: RetrievalRequest -> RetrievalResponse, retrieve2: RetrievalRequest -> RetrievalResponse,
    groq: CompletionRequest -> Completion)
    requires retrieve1(RetrievalRequest(config.retrievalApiUrl + "/retrieve", body.content))
          == retrieve2(RetrievalRequest(config.retrievalApiUrl + "/retrieve", body.content))
    ensures Post(config, Some(body), retrieve1, groq) == Post(config, Some(body), retrieve2, groq)
  {
  }

  /** A failing retrieval or a failing completion leaves no history behind. */
  lemma FailureReturnsNoHistory(
    config: Config, body: ChatRequestBody,
    retrieve: RetrievalRequest -> RetrievalResponse, groq: CompletionRequest -> Completion)
    requires retrieve(RetrievalFor(config, body.content)).RetrievalFailed?
          || (retrieve(RetrievalFor(config, body.content)).RetrievalOk? && body.conversationHistory.Some?
              && groq(RequestFor(body.content, body.conversationHistory.value,
                                 retrieve(RetrievalFor(config, body.content)).retrievedPassages)).CompletionFailed?)
    ensures Post(config, Some(body), retrieve, groq) == ChatError(500, "Failed to generate response")
  {
  }

  /** Two successful turns in a row thread the history: four new turns, in order. */
  lemma TwoTurns(
    config: Config, history: seq<Message>, q1: string, q2: string,
    retrieve: RetrievalRequest -> RetrievalResponse, groq: CompletionRequest -> Completion)
    requires Post(config, Some(ChatRequestBody(q1, Some(history))), retrieve, groq).ChatOk?
    requires Post(config, Some(ChatRequestBody(q2, Some(Post(config, Some(ChatRequestBody(q1, Some(history))), retrieve, groq).conversationHistory))), retrieve, groq).ChatOk?
    ensures
      var first := Post(config, Some(ChatRequestBody(q1, Some(history))), retrieve, groq);
      var second := Post(config, Some(ChatRequestBody(q2, Some(first.conversationHistory))), retrieve, groq);
      second.conversationHistory
        == history + [Message(User, q1), Message(Assistant, first.reply), Message(User, q2), Message(Assistant, second.reply)]
  {
    var first := Post(config, Some(ChatRequestBody(q1, Some(history))), retrieve, groq);
    var second := Post(config, Some(ChatRequestBody(q2, Some(first.conversationHistory))), retrieve, groq);
    var h1 := first.conversationHistory;
    assert h1 == h1[..|history|] + [h1[|history|], h1[|history| + 1]];
    var h2 := second.conversationHistory;
    assert h2 == h2[..|h1|] + [h2[|h1|], h2[|h1| + 1]];
  }

  /** The history rendering of the worked examples. */
  lemma RenderHistoryExamples()
    ensures RenderHistory([]) == ""
    ensures RenderHistory([Message(User, "hi")]) == "user: hi"
    ensures RenderHistory([Message(User, "hi"), Message(Assistant, "yo")]) == "user: hi\nassistant: yo"
  {
    var m1, m2 := Message(User, "hi"), Message(Assistant, "yo");
    RenderOneTurn(m1);
    assert RenderTurn(m1) == "user: hi";
    assert RenderTurn(m2) == "assistant: yo";
    RenderHistorySnoc([m1], m2);
    assert [m1] + [m2] == [m1, m2];
  }

  lemma RenderOneTurn(m: Message)
    ensures RenderHistory([m]) == RenderTurn(m)
  {
    assert HistoryLines([m]) == [RenderTurn(m)];
  }

  /** A retrieved passage, a first-turn question and a completion give the two expected turns. */
  lemma ScreenReaderExample(config: Config)
    ensures
      var q := "What is NVDA?";
      var passage := "NVDA is a free screen reader.";
      var answer := "NVDA is a free, open-source screen reader for Windows.";
      var expected := RequestFor(q, [], Some([passage]));
      && expected.messages[1].content == "Context: " + passage
      && expected.messages[2].content == q
      && Post(config, Some(ChatRequestBody(q, Some([]))),
              req => RetrievalOk(Some([passage])),
              req => if req == expected then Completed(Some(answer)) else CompletionFailed)
         == ChatOk(answer, [Message(User, q), Message(Assistant, answer)])
  {
  }

  /** An empty passage list still yields a context message, exactly "Context: ". */
  lemma EmptyRetrievalExample(content: string, history: seq<Message>)
    ensures RequestFor(content, history, Some([])).messages[1] == Message(Assistant, "Context: ")
  {
  }
}
