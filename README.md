# Voicify turn handling and playback, modelled in Dafny

This project models the two scripts of the Voicify voice assistant that hold logic of their own:

- `VoicifyAssistant` handles one speech transcription. It drops partial results, empty results and results that arrive while the recognizer is paused. For an accepted result it stops the recognizer and builds a backend request from the session ids and the first phrase. It raises keyword effects (Door, Color, Turn, Lights), sends the request, and speaks the reply's SSML when the reply has output speech. A stop-speaking notification restarts the recognizer.
- `VoicifyTTSProvider` is the playback engine. It raises start-speaking and posts the SSML. It reads the segment URLs from the reply and starts one download per URL. Once all downloads have finished it keeps the clips of the successful ones, in order, and plays the first one. It then advances round the track list as a cycle. A per-frame edge detector raises stop-speaking when the source goes quiet.

Files:

- `wrappers.dfy` (module `Wrappers`): `Option`, which stands for a nullable value or a call that threw.
- `text.dfy` (module `Text`): .NET's ordinal `String.Contains` and `String.IsNullOrEmpty` on `string`.
- `playback.dfy` (module `Playback`): the value-level rules of the playback engine. These are the URL projection, the download filter, `Mathf.Clamp`, C#'s truncating `%`, the track advance, the stop-speaking edge detector and the JSON array wrapper, with lemmas about each.
- `tts_provider.dfy` (module `TtsProvider`): class `VoicifyTtsProvider`, with the script's fields updated in place.
  - Each method runs a coroutine up to its first `yield`.
  - `trackWaiting` records that the play coroutine is suspended in its polling loop, and `Tick` resumes it on a later frame.
  - `AudioSource.isPlaying` is a parameter.
  - Raised events and device or network requests are appended to `signals`.
  - Exceptions are returned as `Fault` values, with the state as it was when the exception was thrown.
- `dialogue.dfy` (module `Dialogue`): the acceptance gate, the keyword classifier, the request builder, the rule for speaking a reply, and the event trace of one turn, with lemmas.
- `assistant.dfy` (module `Assistant`): class `VoicifyAssistant`.
  - The session ids and the event trace are fields.
  - The recognizer's `Paused` flag and the backend's reply are inputs.
  - GUIDs come from a counter (`nextGuid`), so "fresh" means "not issued before".

Each of the two class files ends with scenario methods. They show what a caller can derive from the contracts alone, for example that a failed middle download is dropped from `[A, fail, C]` to give `[A, C]`.

### Behaviour kept as the code has it

A few behaviours of the code are easy to misread; the model keeps them as written:

- Keyword matching is case-sensitive, with no lower-casing (`ClassifyIsCaseSensitive`). "turn on the lights" raises Turn as well as Lights, because "turn" is a keyword (`ClassifyTurnOnTheLights`).
- `PlayTrack` clamps to `[0, Count]`, so the index `Count` passes the clamp and the read is out of range (`ClampedIndexInRange`). The callers only pass 0, or the advanced index, which is always in range when the list is non-empty (`NextTrack`). So in practice the read fails only when the track list is empty.
- `currentTrack + 1` in `NextTitle` is unchecked `int` arithmetic. From an inspector value of `int.MaxValue` it wraps to `int.MinValue`. The C# remainder of that is negative, and the clamp then plays track 0. Any inspector value below -1 also lands on track 0 (`NextTrack`, `ScenarioIndexWrapsToFirstTrack`).
- When every download fails, the `PlayTrack` coroutine started by `PlayFirstTitle` throws (`IndexOutOfRange(0)`). `PlayFirstTitle` has already set `wasPlaying`, so stop-speaking comes from the next `Update`, not straight away (`ScenarioNothingDownloaded`). `NextTitle` on an empty list divides by zero.
- `isInitialized` is only ever set to false in this script. Unless something outside sets it, `NextTitle` and `StopMusic` do nothing and only one track is played (`ScenarioUninitialisedPlaysOneTrack`).
- When `isInitialized` is set, `NextTitle` raises stop-speaking on every advance, because a play coroutine is stored. So stop-speaking fires between tracks (`ScenarioInitialisedSignalsStopBetweenTracks`).
- When the backend call or the parse throws, or the reply has no output speech, the handler ends after sending the request. Nothing restarts the recognizer: it stays stopped (`TurnTraceEvents`, `ScenarioSilentReply`).

## Model

| member | source | states |
|---|---|---|
| Text.ContainsIffOccurs | Assets/Scripts/Voicify/VoicifyAssistant.cs:100-111 | the substring test used by the keyword rules holds iff the keyword occurs at some position of the input |
| Playback.Urls | Assets/Scripts/Voicify/VoicifyTTSProvider.cs:61 | `externalAudio` has one entry per reply element, the i-th being that element's `url` |
| Playback.SuccessfulClips | Assets/Scripts/Voicify/VoicifyTTSProvider.cs:118-133 | the tracks built from the download results are never more than the downloads |
| Playback.FilterKeepsSuccessesInOrder | Assets/Scripts/Voicify/VoicifyTTSProvider.cs:118-133 | the k-th track is the clip of the k-th successful download; positions strictly increase; every successful download is kept and no failed one has an entry |
| Playback.SuccessfulClipsAppend | Assets/Scripts/Voicify/VoicifyTTSProvider.cs:118-133 | filtering a concatenation of result lists is the concatenation of the filtered lists |
| Playback.AllFailedLeavesNoTracks | Assets/Scripts/Voicify/VoicifyTTSProvider.cs:118-134 | when every download fails, the track list is empty |
| Playback.Clamp | Assets/Scripts/Voicify/VoicifyTTSProvider.cs:155 | the clamped index lies in `[min, max]`, equals the value when that is in range, is `min` below it and `max` above it |
| Playback.ClampedIndexInRange | Assets/Scripts/Voicify/VoicifyTTSProvider.cs:155-161 | the clamped index is a valid track iff the list is non-empty and the index is below `Count`; `Count` itself passes the clamp |
| Playback.Int32Wrap | Assets/Scripts/Voicify/VoicifyTTSProvider.cs:187 | unchecked `int` arithmetic: the result is an `int`, equals the exact value when that is an `int`, and differs from it by a multiple of 2^32 |
| Playback.CsRem | Assets/Scripts/Voicify/VoicifyTTSProvider.cs:187 | C#'s remainder: strictly between `-n` and `n`, with the sign of the dividend, no larger in magnitude than the dividend, and differing from it by a multiple of `n` |
| Playback.NextTrack | Assets/Scripts/Voicify/VoicifyTTSProvider.cs:155-187 | after `NextTitle` and the clamp in `PlayTrack`, the track is always in `[0, Count)`. It is `(current + 1) mod Count` for a current track from -1 up to below `int.MaxValue`, and track 0 otherwise, `int.MaxValue` included because `+ 1` wraps |
| Playback.AdvanceCycles | Assets/Scripts/Voicify/VoicifyTTSProvider.cs:173-189 | starting at track 0, after k advances the engine is on track `k mod Count` for any `int` count: the queue is a cycle |
| Playback.StopFiresAtMostOnce | Assets/Scripts/Voicify/VoicifyTTSProvider.cs:81-88 | over any run of frames, `Update` raises stop-speaking exactly once if it was playing and some frame is quiet, and never otherwise; afterwards the flag is clear |
| Playback.StopNeverFiresWhenClear | Assets/Scripts/Voicify/VoicifyTTSProvider.cs:83-87 | with `wasPlaying` clear, no frame raises stop-speaking and the flag stays clear |
| Playback.StopEdgesAppend | Assets/Scripts/Voicify/VoicifyTTSProvider.cs:81-88 | the events of a run of frames are those of its first part plus those of the rest, which starts from the flag the first part leaves |
| Playback.WrapItems | Assets/Scripts/Voicify/VoicifyTTSProvider.cs:208 | the wrapped text starts with the `{ "Items": ` prefix, holds the array text unchanged right after it, and ends with `}` |
| Playback.UnwrapItems | Assets/Scripts/Voicify/VoicifyTTSProvider.cs:208 | the inverse of the wrapper (not the JSON parse): any text it recovers wraps back to exactly the text it came from |
| Playback.UnwrapWrap | Assets/Scripts/Voicify/VoicifyTTSProvider.cs:208 | wrapping loses nothing: unwrapping a wrapped array gives the array text back |
| TtsProvider.DownloadSignals | Assets/Scripts/Voicify/VoicifyTTSProvider.cs:103-112 | one download is started per URL, in URL order |
| TtsProvider.VoicifyTtsProvider.constructor | Assets/Scripts/Voicify/VoicifyTTSProvider.cs:28-38 | a new engine has no URLs, no requests, no coroutine and `wasPlaying` clear; `musicClips`, `currentTrack` and `isInitialized` hold their inspector values |
| TtsProvider.VoicifyTtsProvider.Start | Assets/Scripts/Voicify/VoicifyTTSProvider.cs:72-79 | `isInitialized` becomes false and nothing else changes |
| TtsProvider.VoicifyTtsProvider.Play | Assets/Scripts/Voicify/VoicifyTTSProvider.cs:40-68 | start-speaking is raised before the synthesis request and before any download. On a reply, `externalAudio` is the reply's URLs in order, the track list is cleared, and one download per URL is started in that order. If the request or parse throws, nothing follows |
| TtsProvider.VoicifyTtsProvider.BeginDownloads | Assets/Scripts/Voicify/VoicifyTTSProvider.cs:98-112 | the track list is cleared and the pending requests are exactly `externalAudio`, each started once, in order |
| TtsProvider.VoicifyTtsProvider.KeepSuccessfulClips | Assets/Scripts/Voicify/VoicifyTTSProvider.cs:118-133 | the track list grows by exactly the clips of the successful downloads, in download order |
| TtsProvider.VoicifyTtsProvider.DownloadsDone | Assets/Scripts/Voicify/VoicifyTTSProvider.cs:114-135 | after the join-all barrier, the successful clips are kept in order. Then the first title starts, or fails with an index fault when nothing was downloaded |
| TtsProvider.VoicifyTtsProvider.PlayFirstTitle | Assets/Scripts/Voicify/VoicifyTTSProvider.cs:138-150 | nothing changes while the source plays. Otherwise `wasPlaying` is set, the coroutine is replaced and track 0 starts; with no tracks this throws index-out-of-range at 0 |
| TtsProvider.VoicifyTtsProvider.PlayTrack | Assets/Scripts/Voicify/VoicifyTTSProvider.cs:152-165 | `currentTrack` becomes `Clamp(index, 0, Count)`. The read throws iff the list is empty or the index is at least `Count`; otherwise that clip is played and the coroutine waits |
| TtsProvider.VoicifyTtsProvider.Tick | Assets/Scripts/Voicify/VoicifyTTSProvider.cs:167-173 | a waiting coroutine keeps waiting while the source plays. Once the source is quiet it calls `NextTitle`: with `isInitialized` set, stop-speaking is raised before the next track plays. On an empty list it divides by zero, leaving the track index and the stored coroutine as they were |
| TtsProvider.VoicifyTtsProvider.NextTitle | Assets/Scripts/Voicify/VoicifyTTSProvider.cs:176-190 | nothing changes unless initialised. Otherwise stop-speaking is raised iff a coroutine is stored, and then the source is stopped. On an empty list it divides by zero; otherwise it moves to the in-range track `NextTrack(currentTrack, Count)` and plays it |
| TtsProvider.VoicifyTtsProvider.StopMusic | Assets/Scripts/Voicify/VoicifyTTSProvider.cs:193-204 | nothing changes unless initialised. Otherwise stop-speaking is raised iff a coroutine is stored, the coroutine and the source are stopped, and the track list and index stay as they were |
| TtsProvider.VoicifyTtsProvider.Update | Assets/Scripts/Voicify/VoicifyTTSProvider.cs:81-88 | stop-speaking is raised iff `wasPlaying` and the source is quiet; the flag is then cleared, and otherwise kept |
| Dialogue.Classify | Assets/Scripts/Voicify/VoicifyAssistant.cs:100-111 | an effect is raised iff its keyword rule holds (Door: "door" or "open"; Color: "color"; Turn: "spin" or "turn"; Lights: "light"). Effects come in the order Door, Color, Turn, Lights |
| Dialogue.ClassifyRaisesEachAtMostOnce | Assets/Scripts/Voicify/VoicifyAssistant.cs:100-111 | no effect is raised twice for one utterance |
| Dialogue.ClassifyOpenTheLight | Assets/Scripts/Voicify/VoicifyAssistant.cs:100-111 | "open the light" raises Door and Lights, in that order |
| Dialogue.ClassifyTurnOnTheLights | Assets/Scripts/Voicify/VoicifyAssistant.cs:106-111 | "turn on the lights" raises Turn and Lights |
| Dialogue.ClassifyHello | Assets/Scripts/Voicify/VoicifyAssistant.cs:100-111 | "hello" raises nothing |
| Dialogue.ClassifyIsCaseSensitive | Assets/Scripts/Voicify/VoicifyAssistant.cs:100-111 | "OPEN THE DOOR" raises nothing: there is no lower-casing |
| Dialogue.BuildRequest | Assets/Scripts/Voicify/VoicifyAssistant.cs:75-98 | the session ids, the request id and the utterance can be read back unchanged from the request. Locale is "en-US", channel and device name "Voicify Unity App", user name "Unity User", type "IntentRequest", and language understanding is required. Display text and text input are supported; every other capability flag is false |
| Dialogue.TurnUsesFirstPhraseOnly | Assets/Scripts/Voicify/VoicifyAssistant.cs:73-98 | only the first phrase is used: two accepted results give the same request iff their first phrases agree, and then the same turn, whatever their other phrases and confidences |
| Dialogue.BuildRequestInjective | Assets/Scripts/Voicify/VoicifyAssistant.cs:75-98 | two built requests are equal iff their request ids, sessions and utterances are equal |
| Dialogue.EffectEvents | Assets/Scripts/Voicify/VoicifyAssistant.cs:100-111 | one `OnEffect` call per classified effect, in classifier order |
| Dialogue.TurnTraceOrder | Assets/Scripts/Voicify/VoicifyAssistant.cs:68-127 | an accepted turn stops the recognizer first. Then come all effects in order, then the request, and a Say, if any, is last |
| Dialogue.TurnTraceEvents | Assets/Scripts/Voicify/VoicifyAssistant.cs:68-127 | in a turn the recognizer is stopped exactly once, as the first event. Exactly one request is sent, after the effects. A Say happens iff the reply has non-null, non-empty output speech, and it carries the reply's SSML. The handler never restarts the recognizer |
| Assistant.VoicifyAssistant.constructor | Assets/Scripts/Voicify/VoicifyAssistant.cs:30-36 | after `Awake` the three session ids are fresh and pairwise distinct, and nothing has been traced |
| Assistant.VoicifyAssistant.NewGuid | Assets/Scripts/Voicify/VoicifyAssistant.cs:94 | each identifier issued differs from every one issued before |
| Assistant.VoicifyAssistant.ResetState | Assets/Scripts/Voicify/VoicifyAssistant.cs:38-43 | user, session and device ids are all replaced together, each by a fresh id, pairwise distinct |
| Assistant.VoicifyAssistant.OnTranscriptionResult | Assets/Scripts/Voicify/VoicifyAssistant.cs:63-131 | a partial or empty result, or one that arrives while paused, changes nothing. Otherwise the trace grows by exactly the turn's trace, built from the first phrase. The request id is fresh and differs from the user, session and device ids. The dialog text is set to the output speech iff the text component exists and the reply is spoken |
| Assistant.VoicifyAssistant.OnStopSpeaking | Assets/Scripts/Voicify/VoicifyAssistant.cs:58-62 | a stop-speaking notification restarts the recognizer |

## Left out

- HTTP traffic (the backend post, the synthesis post, the audio downloads) is not modelled. The backend reply, the synthesis reply and the per-URL download results are inputs. A post or parse that throws is a `None` reply.
- JSON serialisation and parsing are not modelled, because they belong to Unity's `JsonUtility`. Only the wrapper string that `FromJsonArray` builds is modelled. The recognizer's result JSON is taken as already parsed.
- Coroutine and task scheduling is not modelled. The join-all wait is "one result per download sent", so the in-progress result cannot occur. Several `Play` calls whose downloads interleave are not modelled beyond what the fields allow. The `Run` wrapper only forwards to the download coroutine.
- `AudioSource` playback and clip decoding are device I/O, so clips are opaque handles and `isPlaying` is a parameter. The model assumes the source reports playing right after `Play()`, so a new `PlayTrack` coroutine always reaches its wait.
- An exception thrown inside `PlayTrack` ends that coroutine; the model keeps the coroutine handle stored, as `StartCoroutine` has already returned one.
- The event subscriptions in `Awake` are left out: the two classes are modelled separately. `OnStopSpeaking` is the assistant's handler, and stop-speaking from the engine appears as a signal.
- `OnStartSpeaking` in the assistant, `CheckState`, and every `Debug.Log` are left out because they do nothing observable. Rendering the dialog text is left out; only the assignment is modelled.
- `OnEffect` is assumed to have a subscriber. Without one, the call in the handler would throw.
- GUID randomness is not modelled. A counter stands in for `Guid.NewGuid`, which makes "fresh" certain rather than overwhelmingly likely.
- Request fields the handler leaves at their defaults (tracking, slots, request name, extra attributes and flags, access token) are not modelled. Reply fields the handler never reads are not modelled either. Phrase confidence is carried but unused.
- The synthesis request body (application id and key, locale, endpoint) is not modelled. The signal records only the SSML.
- Finding the `AudioSource` component in `Start` is not modelled.
- VoskResultText.cs is not part of this model; it only shows the first phrase in a UI text.
