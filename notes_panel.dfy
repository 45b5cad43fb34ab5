/**
 * The first application's speech page: every stopped recording that is not
 * blank is saved as a note and sent to the earlier chat route; the reply is
 * shown and spoken; notes can be deleted or edited by id, or all cleared.
 *
 * The page carries its own copy of the recogniser logic (result folding,
 * error messages, start, stop); it is the same logic as the hook's, so the
 * page holds a `Recognizer` for it. `fetch('/api/chat')` is the parameter
 * `callChatbot`: `None` when the request or the JSON parse throws, otherwise
 * the route's response. `Date.now()` is the parameter `now`, and whether
 * speaking the reply throws is the flag `ttsThrows`.
 */
module NotesPanel {
  import opened Options
  import opened Strings
  import opened SpeechRecognition
  import LegacyChatRoute
  import Chat

  /** A saved utterance; `id` is the time it was saved, in milliseconds. */
  datatype Note = Note(id: int, text: string)

  // ---------------------------------------------------------------------------
  // The note list

  /** `deleteMessage`: keep the notes whose id differs, in their order. */
  function WithoutId(notes: seq<Note>, id: int): (r: seq<Note>)
    ensures |r| <= |notes|
    ensures forall k :: 0 <= k < |r| ==> r[k].id != id && r[k] in notes
    ensures forall k :: 0 <= k < |notes| && notes[k].id != id ==> notes[k] in r
  {
    if notes == [] then []
    else if notes[0].id == id then WithoutId(notes[1..], id)
    else [notes[0]] + WithoutId(notes[1..], id)
  }

  /** `editMessage`: the notes with that id get the new text; count, order and ids stay. */
  function WithText(notes: seq<Note>, id: int, text: string): (r: seq<Note>)
    ensures |r| == |notes|
    ensures forall k :: 0 <= k < |r| ==>
      && r[k].id == notes[k].id
      && r[k].text == (if notes[k].id == id then text else notes[k].text)
  {
    if notes == [] then []
    else
      var head := if notes[0].id == id then Note(id, text) else notes[0];
      [head] + WithText(notes[1..], id, text)
  }

  /** How many notes carry the id. */
  function CountId(notes: seq<Note>, id: int): nat
  {
    if notes == [] then 0
    else (if notes[0].id == id then 1 else 0) + CountId(notes[1..], id)
  }

  // ---------------------------------------------------------------------------
  // What the chat call shows

  const ChatbotErrorMessage: string := "Error getting response from chatbot"
  const ChatbotUnreachableMessage: string := "Error calling chatbot API. Please try again."
  const TtsFailedMessage: string := "Failed to play text-to-speech. Please try again."

  /** The part of the page's state a chat call changes. */
  datatype Status = Status(chatbotResponse: string, error: Option<string>)

  /**
   * `callChatbot` on an outcome: an ok response shows its reply (and an error
   * when speaking it fails); a refused one shows the route's error or a fixed
   * message when that is empty, keeping the previous reply; an unreachable
   * route shows another fixed message.
   */
  function AfterCall(status: Status, outcome: Option<LegacyChatRoute.ChatResponse>, ttsThrows: bool): (r: Status)
    ensures r.chatbotResponse != status.chatbotResponse ==> outcome.Some? && outcome.value.ReplyOk?
    ensures outcome.Some? && outcome.value.ReplyOk? ==> r.chatbotResponse == outcome.value.reply
    ensures r.error != status.error ==> r.error.Some? && r.error.value != ""
    ensures outcome.Some? && outcome.value.ReplyOk? && !ttsThrows ==> r.error == status.error
    ensures outcome.Some? && outcome.value.ReplyOk? && ttsThrows ==> r.error == Some(TtsFailedMessage)
    ensures outcome.None? ==> r == Status(status.chatbotResponse, Some(ChatbotUnreachableMessage))
    ensures outcome.Some? && outcome.value.ReplyError? ==>
      && r.chatbotResponse == status.chatbotResponse
      && (outcome.value.error != "" ==> r.error == Some(outcome.value.error))
      && (outcome.value.error == "" ==> r.error == Some(ChatbotErrorMessage))
  {
    match outcome
    case None => Status(status.chatbotResponse, Some(ChatbotUnreachableMessage))
    case Some(ReplyOk(reply)) => Status(reply, if ttsThrows then Some(TtsFailedMessage) else status.error)
    case Some(ReplyError(_, e)) => Status(status.chatbotResponse, Some(if e != "" then e else ChatbotErrorMessage))
  }

  // ---------------------------------------------------------------------------
  // The page

  class Home {
    var messages: seq<Note>
    var chatbotResponse: string
    /** The recogniser state; its `error` is the page's error banner. */
    const speech: Recognizer

    function CurrentStatus(): Status
      reads this, speech
    {
      Status(chatbotResponse, speech.error)
    }

    constructor (speech: Recognizer)
      ensures this.speech == speech
      ensures messages == [] && chatbotResponse == ""
    {
      this.speech := speech;
      messages := [];
      chatbotResponse := "";
    }

    /** `callChatbot`: send the query and show what comes back; notes and recogniser stay. */
    method CallChatbot(query: string, callChatbot: string -> Option<LegacyChatRoute.ChatResponse>, ttsThrows: bool)
      modifies this, speech
      ensures CurrentStatus() == AfterCall(old(CurrentStatus()), callChatbot(query), ttsThrows)
      ensures messages == old(messages)
      ensures speech.available == old(speech.available) && speech.isListening == old(speech.isListening)
      ensures speech.currentTranscript == old(speech.currentTranscript)
    {
      var outcome := callChatbot(query);
      match outcome {
        case None =>
          speech.error := Some(ChatbotUnreachableMessage);
        case Some(ReplyOk(reply)) =>
          chatbotResponse := reply;
          if ttsThrows {
            speech.error := Some(TtsFailedMessage);
          }
        case Some(ReplyError(_, e)) =>
          speech.error := Some(if e != "" then e else ChatbotErrorMessage);
      }
    }

    /**
     * `stopListening`: stop the recogniser; a transcript that is not blank is
     * saved as one note at the end and sent to the chatbot; the transcript is
     * left empty. When `stop()` throws, only the error changes.
     */
    method StopListening(stopThrows: bool, now: int,
                         callChatbot: string -> Option<LegacyChatRoute.ChatResponse>, ttsThrows: bool)
      modifies this, speech
      ensures var t := old(speech.Stopping(stopThrows));
        && messages == old(messages) + (if Trim(t) != "" then [Note(now, t)] else [])
        && (Trim(t) != "" ==> CurrentStatus() == AfterCall(old(CurrentStatus()), callChatbot(t), ttsThrows))
      ensures speech.available == old(speech.available)
      ensures old(speech.available && speech.isListening) && !stopThrows ==>
        && !speech.isListening && speech.currentTranscript == ""
        && (IsBlank(old(speech.currentTranscript)) ==> CurrentStatus() == old(CurrentStatus()))
      ensures old(speech.available && speech.isListening) && stopThrows ==>
        && speech.isListening && speech.currentTranscript == old(speech.currentTranscript)
        && messages == old(messages)
        && CurrentStatus() == Status(old(chatbotResponse), Some(StopFailedMessage))
      ensures !old(speech.available && speech.isListening) ==>
        && speech.isListening == old(speech.isListening)
        && speech.currentTranscript == old(speech.currentTranscript)
        && messages == old(messages) && CurrentStatus() == old(CurrentStatus())
    {
      var transcript := speech.StopListening(stopThrows);
      TrimEmptyIff(transcript);
      if Trim(transcript) != "" {
        messages := messages + [Note(now, transcript)];
        CallChatbot(transcript, callChatbot, ttsThrows);
      }
    }

    /** `deleteMessage`. */
    method DeleteMessage(id: int)
      modifies this
      ensures messages == WithoutId(old(messages), id)
      ensures chatbotResponse == old(chatbotResponse)
    {
      messages := WithoutId(messages, id);
    }

    /** `editMessage`. */
    method EditMessage(id: int, newText: string)
      modifies this
      ensures messages == WithText(old(messages), id, newText)
      ensures chatbotResponse == old(chatbotResponse)
    {
      messages := WithText(messages, id, newText);
    }

    /** `clearMessages`. */
    method ClearMessages()
      modifies this
      ensures messages == [] && chatbotResponse == old(chatbotResponse)
    {
      messages := [];
    }
  }

  // ---------------------------------------------------------------------------
  // Properties of the note list

  /** Deleting from two runs of notes deletes from each and keeps their order. */
  lemma {:induction false} WithoutIdAppend(a: seq<Note>, b: seq<Note>, id: int)
    ensures WithoutId(a + b, id) == WithoutId(a, id) + WithoutId(b, id)
  {
    if a != [] {
      assert (a + b)[1..] == a[1..] + b;
      WithoutIdAppend(a[1..], b, id);
    } else {
      assert a + b == b;
    }
  }

  /** Exactly the notes with the id disappear. */
  lemma {:induction false} WithoutIdCount(notes: seq<Note>, id: int)
    ensures |WithoutId(notes, id)| == |notes| - CountId(notes, id)
  {
    if notes != [] {
      WithoutIdCount(notes[1..], id);
    }
  }

  /** A second delete of the same id changes nothing. */
  lemma {:induction false} WithoutIdIdempotent(notes: seq<Note>, id: int)
    ensures WithoutId(WithoutId(notes, id), id) == WithoutId(notes, id)
  {
    if notes != [] {
      WithoutIdIdempotent(notes[1..], id);
      if notes[0].id != id {
        assert ([notes[0]] + WithoutId(notes[1..], id))[1..] == WithoutId(notes[1..], id);
      }
    }
  }

  /** With no note carrying the id, deleting keeps the list as it is. */
  lemma {:induction false} WithoutAbsentId(notes: seq<Note>, id: int)
    requires forall k :: 0 <= k < |notes| ==> notes[k].id != id
    ensures WithoutId(notes, id) == notes
  {
    if notes != [] {
      WithoutAbsentId(notes[1..], id);
      assert notes == [notes[0]] + notes[1..];
    }
  }

  /** Deleting after editing the same id is deleting: an edit leaves nothing behind. */
  lemma {:induction false} DeleteAfterEdit(notes: seq<Note>, id: int, text: string)
    ensures WithoutId(WithText(notes, id, text), id) == WithoutId(notes, id)
  {
    if notes != [] {
      DeleteAfterEdit(notes[1..], id, text);
      var r := WithText(notes, id, text);
      assert r[1..] == WithText(notes[1..], id, text);
    }
  }

  /** Editing twice with the same id keeps only the second text. */
  lemma EditTwice(notes: seq<Note>, id: int, t1: string, t2: string)
    ensures WithText(WithText(notes, id, t1), id, t2) == WithText(notes, id, t2)
  {
    var a := WithText(WithText(notes, id, t1), id, t2);
    var b := WithText(notes, id, t2);
    assert forall k :: 0 <= k < |a| ==> a[k] == b[k];
  }

  /** A note saved on stop is removed again by deleting its id, and nothing else moves. */
  lemma DeleteSavedNote(notes: seq<Note>, now: int, transcript: string)
    requires forall k :: 0 <= k < |notes| ==> notes[k].id != now
    ensures WithoutId(notes + [Note(now, transcript)], now) == notes
  {
    WithoutIdAppend(notes, [Note(now, transcript)], now);
    WithoutAbsentId(notes, now);
    assert [Note(now, transcript)][1..] == [];
  }

  // ---------------------------------------------------------------------------
  // Against the earlier chat route

  /**
   * What a spoken query shows when the page talks to the earlier route: a
   * completion shows a non-empty reply; a route failure shows the route's own
   * message (never the page's fallback) and keeps the previous reply.
   */
  lemma ShownAgainstRoute(
    config: LegacyChatRoute.Config, status: Status, query: string,
    groq: Chat.CompletionRequest -> Chat.Completion)
    ensures
      var answer := LegacyChatRoute.Post(config, Some(query), groq);
      var after := AfterCall(status, Some(answer), false);
      && (groq(LegacyChatRoute.RequestFor(query)).Completed? ==>
            after.chatbotResponse != "" && after.error == status.error)
      && (groq(LegacyChatRoute.RequestFor(query)).CompletionFailed? ==>
            after == Status(status.chatbotResponse, Some("Failed to generate response")))
  {
  }
}
