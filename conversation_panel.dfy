/**
 * The caller side of the chat route in the frontend's speech page: the page
 * keeps `conversationHistory` and `chatbotResponse`, mirrors the history in a
 * ref that an effect re-syncs after every change, and on "stop" sends the
 * stopped transcript with the ref's history to the chat route.
 *
 * `callChatbot` is a parameter standing for the round trip to the route: an
 * ok response hands back the route's body, anything else (a 500, a network
 * failure) makes `callChatbot` throw, which the page only logs. Speaking the
 * reply aloud may throw as well; the flag `ttsThrows` says so.
 */
module ConversationPanel {
  import opened Options
  import opened Strings
  import opened Chat
  import opened SpeechRecognition
  import ChatRoute

  /** The part of the page's state the chat turn changes. */
  datatype View = View(conversationHistory: seq<Message>, chatbotResponse: string)

  /**
   * The effect of one stopped recording on the view: a transcript that is
   * blank after trimming is not sent; an answer the route accepted replaces
   * history and response; a failed call changes nothing.
   */
  function AfterTurn(view: View, transcript: string, answer: ChatRoute.ChatResponse): View
  {
    if Trim(transcript) != "" && answer.ChatOk? then View(answer.conversationHistory, answer.reply)
    else view
  }

  class Page {
    var conversationHistory: seq<Message>
    /** `conversationHistoryRef.current`. */
    var historyRef: seq<Message>
    var chatbotResponse: string
    /** The `useSpeechRecognition` hook's state. */
    const speech: Recognizer

    /** The sync effect has run: the ref holds the committed history. */
    ghost predicate Valid()
      reads this
    {
      historyRef == conversationHistory
    }

    function CurrentView(): View
      reads this
    {
      View(conversationHistory, chatbotResponse)
    }

    constructor (speech: Recognizer)
      ensures Valid() && this.speech == speech
      ensures conversationHistory == [] && chatbotResponse == ""
    {
      this.speech := speech;
      conversationHistory := [];
      historyRef := [];
      chatbotResponse := "";
    }

    /**
     * `handleStopListening`: stop the recogniser, and when the transcript is
     * not blank send it with the ref's history; on success replace the history
     * and the response (the effect then re-syncs the ref). A failed call, or a
     * text-to-speech failure after the update, leaves the page as the call
     * found it, or as the update left it, respectively.
     */
    method HandleStopListening(
      stopThrows: bool,
      callChatbot: (string, seq<Message>) -> ChatRoute.ChatResponse,
      ttsThrows: bool)
      requires Valid()
      modifies this, speech
      ensures Valid()
      ensures var t := old(speech.Stopping(stopThrows));
        CurrentView() == AfterTurn(old(CurrentView()), t, callChatbot(t, old(historyRef)))
      ensures speech.available == old(speech.available)
      ensures old(speech.available && speech.isListening) && !stopThrows ==>
        speech.currentTranscript == "" && !speech.isListening && speech.error == old(speech.error)
      ensures old(speech.available && speech.isListening) && stopThrows ==>
        && speech.isListening && speech.currentTranscript == old(speech.currentTranscript)
        && speech.error == Some(StopFailedMessage)
        && CurrentView() == old(CurrentView())
      ensures !old(speech.available && speech.isListening) ==>
        && speech.isListening == old(speech.isListening)
        && speech.currentTranscript == old(speech.currentTranscript)
        && speech.error == old(speech.error)
        && CurrentView() == old(CurrentView())
    {
      var transcript := speech.StopListening(stopThrows);
      if Trim(transcript) != "" {
        var answer := callChatbot(transcript, historyRef);
        if answer.ChatOk? {
          conversationHistory := answer.conversationHistory;
          chatbotResponse := answer.reply;
          // speakText(reply) runs here; when it throws the catch block only logs,
          // and the two updates above are already made.
          historyRef := conversationHistory;
        }
      }
    }

    /** `clearConversation`: no history and no response. */
    method ClearConversation()
      requires Valid()
      modifies this
      ensures Valid()
      ensures conversationHistory == [] && chatbotResponse == ""
    {
      conversationHistory := [];
      chatbotResponse := "";
      historyRef := conversationHistory;
    }
  }

  // ---------------------------------------------------------------------------
  // Properties

  /** A blank transcript sends nothing and changes nothing. */
  lemma BlankTranscriptChangesNothing(view: View, transcript: string, answer: ChatRoute.ChatResponse)
    requires IsBlank(transcript)
    ensures AfterTurn(view, transcript, answer) == view
  {
    TrimEmptyIff(transcript);
  }

  /**
   * Against the chat route itself, a spoken turn that the route answers grows
   * the page's history by exactly the question and the reply, and a turn it
   * refuses leaves the page as it was.
   */
  lemma TurnAgainstRoute(
    config: ChatRoute.Config, view: View, transcript: string,
    retrieve: ChatRoute.RetrievalRequest -> ChatRoute.RetrievalResponse,
    groq: CompletionRequest -> Completion)
    requires !IsBlank(transcript)
    ensures
      var answer := ChatRoute.Post(config, Some(ChatRoute.ChatRequestBody(transcript, Some(view.conversationHistory))), retrieve, groq);
      var after := AfterTurn(view, transcript, answer);
      && (answer.ChatOk? ==>
            && after.conversationHistory == view.conversationHistory + [Message(User, transcript), Message(Assistant, answer.reply)]
            && after.chatbotResponse == answer.reply && after.chatbotResponse != "")
      && (answer.ChatError? ==> after == view)
  {
    TrimEmptyIff(transcript);
    var h := view.conversationHistory;
    var answer := ChatRoute.Post(config, Some(ChatRoute.ChatRequestBody(transcript, Some(h))), retrieve, groq);
    if answer.ChatOk? {
      var h' := answer.conversationHistory;
      assert h' == h'[..|h|] + [h'[|h|], h'[|h| + 1]];
    }
  }
}
