/**
 * The turn handler of VoicifyAssistant.cs as a class. The recognizer's `Paused` flag and
 * the backend's reply are inputs; what the handler does to the recognizer, the effect
 * sink, the backend and the playback engine is appended to `trace`. GUIDs come from a
 * counter, `nextGuid`: every identifier issued so far is below it, so a new one is fresh.
 */
module Assistant {
  import opened Wrappers
  import opened Text
  import opened Dialogue

  class VoicifyAssistant {
    var userId: Guid
    var sessionId: Guid
    var deviceId: Guid
    var nextGuid: Guid
    const hasDialogText: bool      // `DialogText != null`
    var dialogText: string         // `DialogText.text`
    var trace: seq<TurnEvent>

    /** The session ids have been issued and are pairwise distinct. */
    ghost predicate Valid()
      reads this
    {
      && userId < nextGuid && sessionId < nextGuid && deviceId < nextGuid
      && userId != sessionId && userId != deviceId && sessionId != deviceId
    }

    function CurrentSession(): Session
      reads this
    {
      Session(userId, sessionId, deviceId)
    }

    /** `Awake`: the event subscriptions, then `ResetState`. */
    constructor (hasDialogText: bool, dialogText: string, firstGuid: Guid)
      ensures Valid()
      ensures this.hasDialogText == hasDialogText && this.dialogText == dialogText && trace == []
      ensures firstGuid <= userId && firstGuid <= sessionId && firstGuid <= deviceId
    {
      this.hasDialogText := hasDialogText;
      this.dialogText := dialogText;
      trace := [];
      nextGuid := firstGuid;
      userId, sessionId, deviceId := 0, 0, 0;
      new;
      ResetState();
    }

    /** `Guid.NewGuid()`: an identifier never issued before. */
    method NewGuid() returns (id: Guid)
      modifies this`nextGuid
      ensures id == old(nextGuid) && nextGuid == id + 1
    {
      id := nextGuid;
      nextGuid := nextGuid + 1;
    }

    /** `ResetState`: user, session and device ids are all replaced, each by a fresh one. */
    method ResetState()
      modifies this`userId, this`sessionId, this`deviceId, this`nextGuid
      ensures Valid()
      ensures old(nextGuid) <= userId && old(nextGuid) <= sessionId && old(nextGuid) <= deviceId
    {
      userId := NewGuid();
      sessionId := NewGuid();
      deviceId := NewGuid();
    }

    /**
     * `OnTranscriptionResult`. A result that is partial, empty, or arrives while the
     * recognizer is paused changes nothing. Otherwise the handler stops the recognizer,
     * builds a request with a fresh id from the session and the first phrase, raises the
     * keyword effects, sends the request and, if the reply has output speech, shows it and
     * speaks the reply's SSML. `reply` is None when posting or parsing throws.
     */
    method OnTranscriptionResult(result: RecognitionResult, paused: bool, reply: Option<AssistantResponse>)
      requires Valid()
      modifies this`nextGuid, this`dialogText, this`trace
      ensures Valid()
      ensures !Accepts(result, paused) ==> unchanged(this)
      ensures Accepts(result, paused) ==>
                && nextGuid == old(nextGuid) + 1
                && old(nextGuid) != userId && old(nextGuid) != sessionId && old(nextGuid) != deviceId
                && trace == old(trace) + TurnTrace(Input(result), BuildRequest(old(nextGuid), CurrentSession(), Input(result)), reply)
                && dialogText == if hasDialogText && Speaks(reply) then reply.value.outputSpeech.value else old(dialogText)
    {
      if !(!result.partial && |result.phrases| > 0 && !paused) {
        return;
      }
      ghost var before := trace;
      trace := trace + [RecognizerStop];
      var input := result.phrases[0].text;
      var requestId := NewGuid();
      var request := BuildRequest(requestId, CurrentSession(), input);
      var effects := EffectEvents(Classify(input));
      trace := trace + effects;
      trace := trace + [RequestSent(request)];
      if reply.Some? && !IsNullOrEmpty(reply.value.outputSpeech) {
        if hasDialogText {
          dialogText := reply.value.outputSpeech.value;
        }
        trace := trace + [Say(reply.value.ssml)];
      }
      assert trace == before + [RecognizerStop] + effects + [RequestSent(request)] + ReplyEvents(reply);
      TurnTraceAfter(before, input, request, reply);
    }

    /** `OnStopSpeaking`: the playback engine has gone quiet, so the recognizer is restarted. */
    method OnStopSpeaking()
      modifies this`trace
      ensures trace == old(trace) + [RecognizerRestart]
    {
      trace := trace + [RecognizerRestart];
    }
  }

  /** Appending the events one at a time yields the turn's trace. */
  lemma TurnTraceAfter(before: seq<TurnEvent>, input: string, request: Request, reply: Option<AssistantResponse>)
    ensures before + [RecognizerStop] + EffectEvents(Classify(input)) + [RequestSent(request)] + ReplyEvents(reply)
            == before + TurnTrace(input, request, reply)
  {
  }

  // ---------------------------------------------------------------------------
  // What a caller can derive from the contracts above alone.

  /** Two resets in a row give two different id triples, and neither reuses an earlier id. */
  method ScenarioResetTwice()
  {
    var a := new VoicifyAssistant(false, "", 0);
    var first := a.CurrentSession();
    a.ResetState();
    var second := a.CurrentSession();
    a.ResetState();
    var third := a.CurrentSession();
    assert first != second && second != third;
    assert third.userId != second.userId && third.sessionId != second.sessionId && third.deviceId != second.deviceId;
  }

  /** Partial results, empty results and results while paused are dropped without a trace. */
  method ScenarioGate(reply: Option<AssistantResponse>)
  {
    var a := new VoicifyAssistant(true, "", 0);
    a.OnTranscriptionResult(RecognitionResult(true, [Phrase("open", 1.0)]), false, reply);
    a.OnTranscriptionResult(RecognitionResult(false, []), false, reply);
    a.OnTranscriptionResult(RecognitionResult(false, [Phrase("open", 1.0)]), true, reply);
    assert a.trace == [];
  }

  /**
   * One full turn with a spoken reply: the recognizer is stopped first, the utterance's
   * effects follow, then a request whose id is not a session id, then the reply's SSML is
   * spoken; the playback engine's stop-speaking then restarts the recognizer.
   */
  method ScenarioTurn(text: string)
  {
    var a := new VoicifyAssistant(true, "", 0);
    var result := RecognitionResult(false, [Phrase(text, 0.9), Phrase("alternative", 0.1)]);
    var reply := Some(AssistantResponse(Some("<speak>Okay</speak>"), Some("Okay")));
    var session := a.CurrentSession();
    var id := a.nextGuid;
    a.OnTranscriptionResult(result, false, reply);
    var request := BuildRequest(id, session, text);
    var n := |Classify(text)|;
    TurnTraceOrder(text, request, reply);
    assert a.trace[0] == RecognizerStop;
    assert a.trace[n + 1] == RequestSent(request) && request.context.originalInput == text;
    assert a.trace[n + 2] == Say(Some("<speak>Okay</speak>")) && |a.trace| == n + 3;
    assert request.requestId != session.userId && request.requestId != session.sessionId;
    assert a.dialogText == "Okay";
    a.OnStopSpeaking();
    assert a.trace[n + 3] == RecognizerRestart;
  }

  /**
   * When the reply has no output speech, or the backend call throws, nothing is said and
   * nothing restarts the recognizer: it stays stopped.
   */
  method ScenarioSilentReply(text: string)
  {
    var a := new VoicifyAssistant(true, "before", 0);
    var result := RecognitionResult(false, [Phrase(text, 1.0)]);
    a.OnTranscriptionResult(result, false, Some(AssistantResponse(Some("<speak/>"), Some(""))));
    var request := BuildRequest(a.nextGuid - 1, a.CurrentSession(), text);
    TurnTraceEvents(text, request, Some(AssistantResponse(Some("<speak/>"), Some(""))));
    assert RecognizerRestart !in a.trace;
    assert a.dialogText == "before";
  }
}
