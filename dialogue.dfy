/**
 * The value-level rules of the turn handler in VoicifyAssistant.cs: which transcriptions
 * are acted on, which keyword effects an utterance raises, what request is sent to the
 * assistant backend, when the reply is spoken, and the order in which one turn does
 * these things. The class that applies them is in module Assistant.
 */
module Dialogue {
  import opened Wrappers
  import opened Text

  /** A GUID. Identifiers come from an abstract source that never issues one twice. */
  type Guid = nat

  // ---------------------------------------------------------------------------
  // Acceptance gate

  datatype Phrase = Phrase(text: string, confidence: real)

  /** A recognizer result, as parsed from the recognizer's JSON. */
  datatype RecognitionResult = RecognitionResult(partial: bool, phrases: seq<Phrase>)

  /** A transcription is acted on only if it is final, has a phrase, and the recognizer is not paused. */
  predicate Accepts(result: RecognitionResult, paused: bool) {
    !result.partial && |result.phrases| > 0 && !paused
  }

  /** The utterance of an accepted result: the text of its first phrase only. */
  function Input(result: RecognitionResult): string
    requires |result.phrases| > 0
  {
    result.phrases[0].text
  }

  // ---------------------------------------------------------------------------
  // Keyword effects

  datatype Effect = Door | Color | Turn | Lights

  /** The string handed to `OnEffect`. */
  function Tag(e: Effect): string {
    match e
    case Door => "Door"
    case Color => "Color"
    case Turn => "Turn"
    case Lights => "Lights"
  }

  /** The position of each test in the handler: Door, Color, Turn, Lights. */
  function Rank(e: Effect): nat {
    match e
    case Door => 0
    case Color => 1
    case Turn => 2
    case Lights => 3
  }

  /** The keyword table: case-sensitive substring tests, with no lower-casing of the input. */
  predicate Triggers(e: Effect, input: string) {
    match e
    case Door => Contains(input, "door") || Contains(input, "open")
    case Color => Contains(input, "color")
    case Turn => Contains(input, "spin") || Contains(input, "turn")
    case Lights => Contains(input, "light")
  }

  /** The effects one utterance raises, in the order they are raised. */
  function Classify(input: string): (effects: seq<Effect>)
    ensures forall e :: e in effects <==> Triggers(e, input)
    ensures forall i, j :: 0 <= i < j < |effects| ==> Rank(effects[i]) < Rank(effects[j])
  {
    (if Triggers(Door, input) then [Door] else [])
    + (if Triggers(Color, input) then [Color] else [])
    + (if Triggers(Turn, input) then [Turn] else [])
    + (if Triggers(Lights, input) then [Lights] else [])
  }

  /** Since ranks strictly increase, no effect is raised twice for one utterance. */
  lemma ClassifyRaisesEachAtMostOnce(input: string)
    ensures forall i, j :: 0 <= i < j < |Classify(input)| ==> Classify(input)[i] != Classify(input)[j]
  {
  }

  /** Two rules can fire for one utterance. */
  lemma {:induction false} ClassifyOpenTheLight(s: string)
    requires s == "open the light"
    ensures Classify(s) == [Door, Lights]
  {
    assert Triggers(Door, s) by {
      assert OccursAt(s, "open", 0);
      ContainsIffOccurs(s, "open");
    }
    assert Triggers(Lights, s) by {
      assert OccursAt(s, "light", 9);
      ContainsIffOccurs(s, "light");
    }
    assert !Triggers(Color, s) by {
      MissingCharRulesOut(s, "color", 0);
    }
    assert !Triggers(Turn, s) by {
      MissingCharRulesOut(s, "spin", 0);
      MissingCharRulesOut(s, "turn", 1);
    }
  }

  /** "turn" is a keyword of its own, so asking for the lights also raises Turn. */
  lemma {:induction false} ClassifyTurnOnTheLights(s: string)
    requires s == "turn on the lights"
    ensures Classify(s) == [Turn, Lights]
  {
    assert Triggers(Turn, s) by {
      assert OccursAt(s, "turn", 0);
      ContainsIffOccurs(s, "turn");
    }
    assert Triggers(Lights, s) by {
      assert OccursAt(s, "light", 12);
      ContainsIffOccurs(s, "light");
    }
    assert !Triggers(Door, s) by {
      MissingCharRulesOut(s, "door", 0);
      MissingCharRulesOut(s, "open", 1);
    }
    assert !Triggers(Color, s) by {
      MissingCharRulesOut(s, "color", 0);
    }
  }

  /** No keyword, no effect. */
  lemma {:induction false} ClassifyHello(s: string)
    requires s == "hello"
    ensures Classify(s) == []
  {
    MissingCharRulesOut(s, "door", 0);
    MissingCharRulesOut(s, "open", 1);
    MissingCharRulesOut(s, "color", 0);
    MissingCharRulesOut(s, "spin", 0);
    MissingCharRulesOut(s, "turn", 0);
    MissingCharRulesOut(s, "light", 2);
  }

  /** Matching is case-sensitive: the same words in capitals raise nothing. */
  lemma {:induction false} ClassifyIsCaseSensitive(s: string)
    requires s == "OPEN THE DOOR"
    ensures Classify(s) == []
  {
    MissingCharRulesOut(s, "door", 0);
    MissingCharRulesOut(s, "open", 0);
    MissingCharRulesOut(s, "color", 0);
    MissingCharRulesOut(s, "spin", 0);
    MissingCharRulesOut(s, "turn", 0);
    MissingCharRulesOut(s, "light", 0);
  }

  // ---------------------------------------------------------------------------
  // The request sent to the assistant backend

  datatype Session = Session(userId: Guid, sessionId: Guid, deviceId: Guid)

  datatype Device = Device(
    id: Guid, name: string,
    supportsVideo: bool, supportsForegroundImage: bool, supportsBackgroundImage: bool,
    supportsAudio: bool, supportsSsml: bool, supportsDisplayText: bool,
    supportsVoiceInput: bool, supportsTextInput: bool)

  datatype User = User(id: Guid, name: string)

  datatype RequestContext = RequestContext(
    sessionId: Guid, requestType: string, originalInput: string,
    channel: string, requiresLanguageUnderstanding: bool, locale: string)

  datatype Request = Request(requestId: Guid, context: RequestContext, device: Device, user: User)

  const AppName: string := "Voicify Unity App"

  /** The parts of every request that do not depend on the session or the utterance. */
  predicate HasFixedFields(r: Request) {
    && r.context.locale == "en-US"
    && r.context.channel == AppName
    && r.context.requestType == "IntentRequest"
    && r.context.requiresLanguageUnderstanding
    && r.device.name == AppName
    && r.device.supportsDisplayText && r.device.supportsTextInput
    && !r.device.supportsVideo && !r.device.supportsForegroundImage && !r.device.supportsBackgroundImage
    && !r.device.supportsAudio && !r.device.supportsSsml && !r.device.supportsVoiceInput
    && r.user.name == "Unity User"
  }

  /** The session identifiers a request carries. */
  function SessionOf(r: Request): Session {
    Session(r.user.id, r.context.sessionId, r.device.id)
  }

  /**
   * The request body: the session's ids and the utterance read back unchanged from the
   * request, the given request id, and the fixed capability flags and constants.
   */
  function BuildRequest(requestId: Guid, session: Session, input: string): (r: Request)
    ensures r.requestId == requestId
    ensures SessionOf(r) == session
    ensures r.context.originalInput == input
    ensures HasFixedFields(r)
  {
    Request(
      requestId,
      RequestContext(session.sessionId, "IntentRequest", input, AppName, true, "en-US"),
      Device(session.deviceId, AppName, false, false, false, false, false, true, false, true),
      User(session.userId, "Unity User"))
  }

  /** Two requests agree exactly when their id, session and utterance agree. */
  lemma BuildRequestInjective(id1: Guid, s1: Session, in1: string, id2: Guid, s2: Session, in2: string)
    ensures BuildRequest(id1, s1, in1) == BuildRequest(id2, s2, in2) <==> id1 == id2 && s1 == s2 && in1 == in2
  {
    if BuildRequest(id1, s1, in1) == BuildRequest(id2, s2, in2) {
      assert SessionOf(BuildRequest(id1, s1, in1)) == s1;
    }
  }

  // ---------------------------------------------------------------------------
  // The reply and the trace of one turn

  /** The reply fields the handler reads; null strings are `None`. */
  datatype AssistantResponse = AssistantResponse(ssml: Option<string>, outputSpeech: Option<string>)

  /** The reply is spoken only when it arrived and its output speech is neither null nor empty. */
  predicate Speaks(reply: Option<AssistantResponse>) {
    reply.Some? && !IsNullOrEmpty(reply.value.outputSpeech)
  }

  /** What the handler does to its collaborators, in order. */
  datatype TurnEvent =
    | RecognizerStop                  // `VoskSpeechToText.Stop()`
    | EffectRaised(effect: Effect)    // `OnEffect(Tag(effect))`
    | RequestSent(request: Request)   // the request posted to the backend
    | Say(ssml: Option<string>)       // the reply's SSML handed to the playback engine
    | RecognizerRestart               // `VoskSpeechToText.Restart()`

  function EffectEvents(effects: seq<Effect>): (events: seq<TurnEvent>)
    ensures |events| == |effects|
    ensures forall i :: 0 <= i < |effects| ==> events[i] == EffectRaised(effects[i])
  {
    if effects == [] then [] else [EffectRaised(effects[0])] + EffectEvents(effects[1..])
  }

  function ReplyEvents(reply: Option<AssistantResponse>): seq<TurnEvent> {
    if Speaks(reply) then [Say(reply.value.ssml)] else []
  }

  /**
   * One accepted turn: stop the recognizer, raise the utterance's effects, send the request,
   * and speak the reply's SSML if it has output speech. `reply` is None when posting or
   * parsing throws, which ends the handler after the request.
   */
  function TurnTrace(input: string, request: Request, reply: Option<AssistantResponse>): seq<TurnEvent> {
    [RecognizerStop] + EffectEvents(Classify(input)) + [RequestSent(request)] + ReplyEvents(reply)
  }

  /**
   * The order of a turn: the recognizer is stopped first, then every effect in classifier
   * order, then the request, and a Say, if any, comes last.
   */
  lemma TurnTraceOrder(input: string, request: Request, reply: Option<AssistantResponse>)
    ensures |TurnTrace(input, request, reply)| == |Classify(input)| + 2 + (if Speaks(reply) then 1 else 0)
    ensures TurnTrace(input, request, reply)[0] == RecognizerStop
    ensures forall k :: 0 <= k < |Classify(input)| ==>
              TurnTrace(input, request, reply)[1 + k] == EffectRaised(Classify(input)[k])
    ensures TurnTrace(input, request, reply)[|Classify(input)| + 1] == RequestSent(request)
    ensures Speaks(reply) ==> TurnTrace(input, request, reply)[|Classify(input)| + 2] == Say(reply.value.ssml)
  {
  }

  /**
   * Within one turn the recognizer is stopped exactly once, one request is sent, a Say
   * happens iff the reply has output speech (and it carries the SSML), and the handler
   * itself never restarts the recognizer: only a stop-speaking notification does.
   */
  lemma TurnTraceEvents(input: string, request: Request, reply: Option<AssistantResponse>)
    ensures forall i :: 0 <= i < |TurnTrace(input, request, reply)| ==>
              (TurnTrace(input, request, reply)[i] == RecognizerStop <==> i == 0)
    ensures forall i :: 0 <= i < |TurnTrace(input, request, reply)| ==>
              (TurnTrace(input, request, reply)[i].RequestSent? <==> i == |Classify(input)| + 1)
    ensures (exists i :: 0 <= i < |TurnTrace(input, request, reply)| && TurnTrace(input, request, reply)[i].Say?)
            <==> Speaks(reply)
    ensures forall i :: 0 <= i < |TurnTrace(input, request, reply)| && TurnTrace(input, request, reply)[i].Say? ==>
              TurnTrace(input, request, reply)[i] == Say(reply.value.ssml)
    ensures RecognizerRestart !in TurnTrace(input, request, reply)
  {
    var t := TurnTrace(input, request, reply);
    var n := |Classify(input)|;
    TurnTraceOrder(input, request, reply);
    if Speaks(reply) {
      assert t[n + 2].Say?;
    }
  }

  /**
   * Only the first phrase matters: two accepted results give the same request and the same
   * turn exactly when their first phrases agree, whatever the other phrases or confidences.
   */
  lemma TurnUsesFirstPhraseOnly(r1: RecognitionResult, r2: RecognitionResult, requestId: Guid,
                                session: Session, reply: Option<AssistantResponse>)
    requires |r1.phrases| > 0 && |r2.phrases| > 0
    ensures BuildRequest(requestId, session, Input(r1)) == BuildRequest(requestId, session, Input(r2))
            <==> r1.phrases[0].text == r2.phrases[0].text
    ensures r1.phrases[0].text == r2.phrases[0].text ==>
              TurnTrace(Input(r1), BuildRequest(requestId, session, Input(r1)), reply)
              == TurnTrace(Input(r2), BuildRequest(requestId, session, Input(r2)), reply)
  {
    BuildRequestInjective(requestId, session, Input(r1), requestId, session, Input(r2));
  }
}
