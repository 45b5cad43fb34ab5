/**
 * The transcript aggregator of the `useSpeechRecognition` hook: the state
 * `isListening`, `currentTranscript` and `error`, the handlers the browser's
 * recogniser calls (`onresult`, `onerror`, `onend`) and the operations the
 * page calls (`startListening`, `stopListening`, `clearTranscript`).
 *
 * The recogniser itself is outside the model: whether it exists, and whether
 * its `start()`/`stop()` throw, are parameters; its events are method calls.
 * React's batched state updates are modelled as one sequential step per
 * handler, and the 5-second `setTimeout` that clears an error as an explicit
 * `ErrorTimeout` step.
 */
module SpeechRecognition {
  import opened Options

  /** One entry of `event.results`: the first alternative's transcript and `isFinal`. */
  datatype Segment = Segment(transcript: string, isFinal: bool)

  /** A result event: all the session's results and the index of the first changed one. */
  datatype ResultEvent = ResultEvent(results: seq<Segment>, resultIndex: nat)

  function Clamp(i: nat, n: nat): nat
  {
    if i <= n then i else n
  }

  /** The results the handler looks at: from `resultIndex` to the end. */
  function Pending(ev: ResultEvent): seq<Segment>
  {
    ev.results[Clamp(ev.resultIndex, |ev.results|)..]
  }

  /** The final segments' transcripts, concatenated in order. */
  function FinalText(segs: seq<Segment>): string
  {
    if segs == [] then ""
    else FinalText(segs[..|segs| - 1]) + (if segs[|segs| - 1].isFinal then segs[|segs| - 1].transcript else "")
  }

  /** The interim segments' transcripts, concatenated in order. */
  function InterimText(segs: seq<Segment>): string
  {
    if segs == [] then ""
    else InterimText(segs[..|segs| - 1]) + (if segs[|segs| - 1].isFinal then "" else segs[|segs| - 1].transcript)
  }

  /** What an event shows: the final text when there is one, else the interim text. */
  function Shown(ev: ResultEvent): string
  {
    var pending := Pending(ev);
    if FinalText(pending) != "" then FinalText(pending) else InterimText(pending)
  }

  /** The `onresult` loop: fold the pending segments into a final and an interim string. */
  method CollectTranscripts(ev: ResultEvent) returns (finalTranscript: string, interimTranscript: string)
    ensures finalTranscript == FinalText(Pending(ev))
    ensures interimTranscript == InterimText(Pending(ev))
  {
    interimTranscript := "";
    finalTranscript := "";
    var n := |ev.results|;
    var i := ev.resultIndex;
    while i < n
      invariant ev.resultIndex <= i
      invariant Clamp(ev.resultIndex, n) <= Clamp(i, n)
      invariant finalTranscript == FinalText(ev.results[Clamp(ev.resultIndex, n)..Clamp(i, n)])
      invariant interimTranscript == InterimText(ev.results[Clamp(ev.resultIndex, n)..Clamp(i, n)])
    {
      var lo := Clamp(ev.resultIndex, n);
      assert ev.results[lo..i + 1][..i - lo] == ev.results[lo..i];
      var transcript := ev.results[i].transcript;
      if ev.results[i].isFinal {
        finalTranscript := finalTranscript + transcript;
      } else {
        interimTranscript := interimTranscript + transcript;
      }
      i := i + 1;
    }
    assert ev.results[Clamp(ev.resultIndex, n)..Clamp(i, n)] == Pending(ev);
  }

  // ---------------------------------------------------------------------------
  // Error messages

  /**
   * The message of each of the eight error codes the handler knows; `None`
   * for any other code. The messages are written as concatenations of
   * shorter literals because the verifier does not read single characters
   * out of a literal this long, and `KnownMessageIsNotFallback` needs them.
   */
  function KnownMessage(code: string): Option<string>
  {
    if code == "network" then Some("Network error: " + "Please check your internet connection and try again.")
    else if code == "no-speech" then Some("No speech was detected. " + "Please try again.")
    else if code == "aborted" then Some("Speech recognition " + "was aborted.")
    else if code == "audio-capture" then Some("No microphone was found. " + "Please check your microphone settings.")
    else if code == "not-allowed" then Some("Microphone access was denied. " + "Please allow microphone access in your browser settings.")
    else if code == "service-not-available" then Some("Speech recognition " + "service is not available. " + "Please try again later.")
    else if code == "bad-grammar" then Some("Grammar error in speech recognition.")
    else if code == "language-not-supported" then Some("The selected language is not supported.")
    else None
  }

  const FallbackPrefix: string := "Speech recognition " + "error: "

  /** The message shown for an error code; any other code is quoted after a fixed prefix. */
  function ErrorMessage(code: string): string
  {
    match KnownMessage(code)
    case Some(m) => m
    case None => FallbackPrefix + code
  }

  const UnsupportedMessage: string := "Your browser does not support the Web Speech API. Please use Chrome or Edge."
  const InitFailedMessage: string := "Failed to initialize speech recognition. Please try refreshing the page."
  const StartFailedMessage: string := "Failed to start speech recognition. Please try again."
  const StopFailedMessage: string := "Failed to stop speech recognition. Please try again."

  // ---------------------------------------------------------------------------
  // The hook's state

  class Recognizer {
    /** `recognitionRef.current` is set. */
    var available: bool
    var isListening: bool
    var currentTranscript: string
    var error: Option<string>

    /**
     * The initial state and the initialising effect: no Web Speech API, or a
     * constructor that throws, leaves no recogniser and an error message.
     */
    constructor (apiPresent: bool, constructorThrows: bool)
      ensures available == (apiPresent && !constructorThrows)
      ensures !isListening && currentTranscript == ""
      ensures error == (if !apiPresent then Some(UnsupportedMessage)
                        else if constructorThrows then Some(InitFailedMessage)
                        else None)
    {
      isListening := false;
      currentTranscript := "";
      if !apiPresent {
        available := false;
        error := Some(UnsupportedMessage);
      } else if constructorThrows {
        available := false;
        error := Some(InitFailedMessage);
      } else {
        available := true;
        error := None;
      }
    }

    /** `onresult`: the transcript is replaced by what the event shows, never appended to. */
    method OnResult(ev: ResultEvent)
      modifies this
      ensures currentTranscript == Shown(ev)
      ensures available == old(available) && isListening == old(isListening) && error == old(error)
    {
      var finalTranscript, interimTranscript := CollectTranscripts(ev);
      currentTranscript := if finalTranscript != "" then finalTranscript else interimTranscript;
    }

    /** `onerror`: show the code's message and stop listening, whatever the code. */
    method OnError(code: string)
      modifies this
      ensures error == Some(ErrorMessage(code)) && !isListening
      ensures available == old(available) && currentTranscript == old(currentTranscript)
    {
      error := Some(ErrorMessage(code));
      isListening := false;
    }

    /** The timer set by `onerror` fires: the error is cleared. */
    method ErrorTimeout()
      modifies this
      ensures error == None
      ensures available == old(available) && isListening == old(isListening)
      ensures currentTranscript == old(currentTranscript)
    {
      error := None;
    }

    /** `onend`: the session is over. */
    method OnEnd()
      modifies this
      ensures !isListening
      ensures available == old(available) && currentTranscript == old(currentTranscript) && error == old(error)
    {
      isListening := false;
    }

    /**
     * `startListening`: without a recogniser, or while already listening,
     * nothing happens. Otherwise the error is cleared and listening starts,
     * unless `start()` throws. The transcript is never touched.
     */
    method StartListening(startThrows: bool)
      modifies this
      ensures available == old(available) && currentTranscript == old(currentTranscript)
      ensures !old(available) || old(isListening) ==>
        isListening == old(isListening) && error == old(error)
      ensures old(available) && !old(isListening) && !startThrows ==>
        isListening && error == None
      ensures old(available) && !old(isListening) && startThrows ==>
        !isListening && error == Some(StartFailedMessage)
    {
      if available && !isListening {
        error := None;
        isListening := true;
        if startThrows {
          error := Some(StartFailedMessage);
          isListening := false;
        }
      }
    }

    /** What `stopListening` hands back: the transcript when a session is stopped, else "". */
    function Stopping(stopThrows: bool): string
      reads this
    {
      if available && isListening && !stopThrows then currentTranscript else ""
    }

    /**
     * `stopListening`: while listening, hand back the transcript and leave it
     * empty and listening off; otherwise return "" and change nothing. When
     * `stop()` throws, the error is shown, "" is returned and the rest stays.
     */
    method StopListening(stopThrows: bool) returns (transcript: string)
      modifies this
      ensures transcript == old(Stopping(stopThrows))
      ensures available == old(available)
      ensures old(available) && old(isListening) && !stopThrows ==>
        && transcript == old(currentTranscript)
        && currentTranscript == "" && !isListening && error == old(error)
      ensures old(available) && old(isListening) && stopThrows ==>
        && transcript == ""
        && currentTranscript == old(currentTranscript) && isListening && error == Some(StopFailedMessage)
      ensures !(old(available) && old(isListening)) ==>
        && transcript == ""
        && currentTranscript == old(currentTranscript) && isListening == old(isListening) && error == old(error)
    {
      transcript := "";
      if available && isListening {
        if stopThrows {
          error := Some(StopFailedMessage);
        } else {
          isListening := false;
          transcript := currentTranscript;
          currentTranscript := "";
        }
      }
    }

    /** `clearTranscript`: only the transcript changes. */
    method ClearTranscript()
      modifies this
      ensures currentTranscript == ""
      ensures available == old(available) && isListening == old(isListening) && error == old(error)
    {
      currentTranscript := "";
    }
  }

  // ---------------------------------------------------------------------------
  // Properties

  /** The final text of two runs of segments is the final text of each, in order. */
  lemma {:induction false} FinalTextAppend(a: seq<Segment>, b: seq<Segment>)
    ensures FinalText(a + b) == FinalText(a) + FinalText(b)
    decreases |b|
  {
    if b == [] {
      assert a + b == a;
    } else {
      assert (a + b)[..|a + b| - 1] == a + b[..|b| - 1];
      FinalTextAppend(a, b[..|b| - 1]);
    }
  }

  /** The interim text of two runs of segments is the interim text of each, in order. */
  lemma {:induction false} InterimTextAppend(a: seq<Segment>, b: seq<Segment>)
    ensures InterimText(a + b) == InterimText(a) + InterimText(b)
    decreases |b|
  {
    if b == [] {
      assert a + b == a;
    } else {
      assert (a + b)[..|a + b| - 1] == a + b[..|b| - 1];
      InterimTextAppend(a, b[..|b| - 1]);
    }
  }

  /** Segments without any final one have no final text. */
  lemma {:induction false} NoFinalSegments(segs: seq<Segment>)
    requires forall k :: 0 <= k < |segs| ==> !segs[k].isFinal
    ensures FinalText(segs) == ""
  {
    if segs != [] {
      NoFinalSegments(segs[..|segs| - 1]);
    }
  }

  /** An event with interim segments only shows their concatenation. */
  lemma InterimOnlyEvent(ev: ResultEvent)
    requires forall k :: 0 <= k < |Pending(ev)| ==> !Pending(ev)[k].isFinal
    ensures Shown(ev) == InterimText(Pending(ev))
  {
    NoFinalSegments(Pending(ev));
  }

  /** Results before `resultIndex` do not affect what an event shows. */
  lemma EarlierResultsIgnored(ev: ResultEvent, k: nat, s: Segment)
    requires k < ev.resultIndex && k < |ev.results|
    ensures Shown(ResultEvent(ev.results[k := s], ev.resultIndex)) == Shown(ev)
  {
    var ev' := ResultEvent(ev.results[k := s], ev.resultIndex);
    assert Pending(ev') == Pending(ev);
  }

  /** Different codes give different messages: the message identifies its code. */
  lemma ErrorMessageInjective(a: string, b: string)
    requires ErrorMessage(a) == ErrorMessage(b)
    ensures a == b
  {
    if KnownMessage(a).Some? && KnownMessage(b).None? {
      KnownMessageIsNotFallback(a, b);
    } else if KnownMessage(a).None? && KnownMessage(b).Some? {
      KnownMessageIsNotFallback(b, a);
    } else if KnownMessage(a).None? {
      assert ErrorMessage(a)[|FallbackPrefix|..] == a;
      assert ErrorMessage(b)[|FallbackPrefix|..] == b;
    } else {
      KnownMessageInjective(a, b);
    }
  }

  lemma KnownMessageInjective(a: string, b: string)
    requires KnownMessage(a).Some? && KnownMessage(a) == KnownMessage(b)
    ensures a == b
  {
    KnownMessageLength(a);
    KnownMessageLength(b);
  }

  /** The eight known messages have eight different lengths, so the length names the code. */
  lemma KnownMessageLength(code: string)
    requires KnownMessage(code).Some?
    ensures var n := |KnownMessage(code).value|;
      && (n == 67 <==> code == "network")
      && (n == 41 <==> code == "no-speech")
      && (n == 31 <==> code == "aborted")
      && (n == 63 <==> code == "audio-capture")
      && (n == 86 <==> code == "not-allowed")
      && (n == 68 <==> code == "service-not-available")
      && (n == 36 <==> code == "bad-grammar")
      && (n == 39 <==> code == "language-not-supported")
  {
    MessageLengthOf(code);
  }

  lemma MessageLengthOf(code: string)
    requires KnownMessage(code).Some?
    ensures var n := |KnownMessage(code).value|;
      && (code == "network" ==> n == 67)
      && (code == "no-speech" ==> n == 41)
      && (code == "aborted" ==> n == 31)
      && (code == "audio-capture" ==> n == 63)
      && (code == "not-allowed" ==> n == 86)
      && (code == "service-not-available" ==> n == 68)
      && (code == "bad-grammar" ==> n == 36)
      && (code == "language-not-supported" ==> n == 39)
      && (code == "network" || code == "no-speech" || code == "aborted" || code == "audio-capture"
          || code == "not-allowed" || code == "service-not-available" || code == "bad-grammar"
          || code == "language-not-supported")
  {
    if code == "network" {
    } else if code == "no-speech" {
    } else if code == "aborted" {
    } else if code == "audio-capture" {
    } else if code == "not-allowed" {
    } else if code == "service-not-available" {
    } else if code == "bad-grammar" {
    } else {
      assert code == "language-not-supported";
    }
  }

  lemma KnownMessageIsNotFallback(known: string, other: string)
    requires KnownMessage(known).Some?
    ensures KnownMessage(known).value != FallbackPrefix + other
  {
    var f := FallbackPrefix + other;
    assert f[0] == 'S' && f[19] == 'e';
    var m := KnownMessage(known).value;
    if known == "network" {
      assert m[0] == 'N';
    } else if known == "no-speech" {
      assert m[0] == 'N';
    } else if known == "aborted" {
      assert m[19] == 'w';
    } else if known == "audio-capture" {
      assert m[0] == 'N';
    } else if known == "not-allowed" {
      assert m[0] == 'M';
    } else if known == "service-not-available" {
      assert m[19] == 's';
    } else if known == "bad-grammar" {
      assert m[0] == 'G';
    } else {
      assert m[0] == 'T';
    }
  }

  /** A session: an interim event, then a final event replaces the shown text rather than extending it. */
  method ReplaceNotAppendExample()
  {
    var r := new Recognizer(true, false);
    r.StartListening(false);
    assert r.isListening;
    r.OnResult(ResultEvent([Segment("hel", false)], 0));
    assert r.currentTranscript == "hel";
    r.OnResult(ResultEvent([Segment("hello", true)], 0));
    assert r.currentTranscript == "hello";
    var t := r.StopListening(false);
    assert t == "hello" && r.currentTranscript == "" && !r.isListening;
    var again := r.StopListening(false);
    assert again == "";
  }
}
