/**
 * The playback engine of VoicifyTTSProvider.cs as a class whose methods update its fields
 * in place. Device state that the engine only reads (`AudioSource.isPlaying`) is passed
 * in; what the engine raises or asks of the device and the network is appended to
 * `signals`, in order. A coroutine is run up to its first `yield`; `trackWaiting` records
 * that the current `PlayTrack` coroutine is suspended in its polling loop, and `Tick`
 * resumes it on a later frame.
 */
module TtsProvider {
  import opened Wrappers
  import opened Playback

  /** Events raised and requests issued by the engine, in the order they happen. */
  datatype Signal =
    | StartSpeaking                           // OnStartSpeaking raised
    | StopSpeaking                            // OnStopSpeaking raised
    | SynthesisRequested(ssml: Option<string>) // the SSML posted to the synthesis service
    | DownloadStarted(url: string)            // one audio download sent
    | SourcePlay(clip: AudioClip)             // `source.clip := clip; source.Play()`
    | SourceStop                              // `source.Stop()`

  /** Exceptions the engine's own code throws. */
  datatype Fault = IndexOutOfRange(index: int) | DivideByZero

  /** One `DownloadStarted` per URL, in URL order. */
  function DownloadSignals(urls: seq<string>): (r: seq<Signal>)
    ensures |r| == |urls|
    ensures forall i :: 0 <= i < |urls| ==> r[i] == DownloadStarted(urls[i])
  {
    if urls == [] then [] else DownloadSignals(urls[..|urls| - 1]) + [DownloadStarted(urls[|urls| - 1])]
  }

  class VoicifyTtsProvider {
    var externalAudio: seq<string>
    var requests: seq<string>        // the downloads of the fetch coroutine, by URL, in the order sent
    var musicClips: seq<AudioClip>
    var currentTrack: int
    var isInitialized: bool
    var hasCurrentPlayTrack: bool    // `currentPlayTrack != null`
    var trackWaiting: bool           // that coroutine is suspended in `while (source.isPlaying)`
    var wasPlaying: bool
    var signals: seq<Signal>

    /** Only a stored coroutine can be waiting, and the track index is a C# `int`. */
    ghost predicate Valid()
      reads this
    {
      && (trackWaiting ==> hasCurrentPlayTrack)
      && IsInt32(currentTrack)
    }

    /**
     * A new component. The serialized fields `musicClips`, `currentTrack` and
     * `isInitialized` are inspector values and may start at anything.
     */
    constructor (musicClips: seq<AudioClip>, currentTrack: int, isInitialized: bool)
      requires IsInt32(currentTrack)
      ensures Valid()
      ensures this.musicClips == musicClips && this.currentTrack == currentTrack && this.isInitialized == isInitialized
      ensures externalAudio == [] && requests == [] && signals == []
      ensures !hasCurrentPlayTrack && !trackWaiting && !wasPlaying
    {
      this.musicClips := musicClips;
      this.currentTrack := currentTrack;
      this.isInitialized := isInitialized;
      externalAudio, requests, signals := [], [], [];
      hasCurrentPlayTrack, trackWaiting, wasPlaying := false, false, false;
    }

    /** `Start`: clears `isInitialized`; nothing in the component ever sets it again. */
    method Start()
      requires Valid()
      modifies this`isInitialized
      ensures Valid() && !isInitialized
    {
      isInitialized := false;
    }

    /**
     * `Play`: raises start-speaking before anything goes to the network, posts the SSML,
     * and on a reply takes its URLs in order and starts the download coroutine. `reply` is
     * None when the post or the parse throws, which ends `Play` there.
     */
    method Play(ssml: Option<string>, reply: Option<seq<SsmlResponse>>)
      requires Valid()
      modifies this`externalAudio, this`requests, this`musicClips, this`signals
      ensures Valid()
      ensures reply.None? ==>
                signals == old(signals) + [StartSpeaking, SynthesisRequested(ssml)]
                && unchanged(this`externalAudio, this`requests, this`musicClips)
      ensures reply.Some? ==>
                externalAudio == Urls(reply.value) && requests == externalAudio && musicClips == []
                && signals == old(signals) + [StartSpeaking, SynthesisRequested(ssml)] + DownloadSignals(externalAudio)
    {
      signals := signals + [StartSpeaking, SynthesisRequested(ssml)];
      if reply.None? {
        return;
      }
      externalAudio := Urls(reply.value);
      BeginDownloads();
    }

    /** First half of `GetAudioClipsParallel`: clear the tracks and send one download per URL, in order. */
    method BeginDownloads()
      requires Valid()
      modifies this`requests, this`musicClips, this`signals
      ensures Valid()
      ensures musicClips == [] && requests == externalAudio
      ensures signals == old(signals) + DownloadSignals(externalAudio)
    {
      musicClips := [];
      var urls := externalAudio;
      var sent: seq<string> := [];
      var started: seq<Signal> := [];
      var i := 0;
      while i < |urls|
        invariant 0 <= i <= |urls|
        invariant sent == urls[..i]
        invariant started == DownloadSignals(urls[..i])
      {
        assert urls[..i + 1][..i] == urls[..i];
        started := started + [DownloadStarted(urls[i])];
        sent := sent + [urls[i]];
        i := i + 1;
      }
      assert urls[..i] == urls;
      requests := sent;
      signals := signals + started;
    }

    /**
     * The filtering loop of `GetAudioClipsParallel`, once every download has finished:
     * appends the clip of each successful download, in download order, and skips the rest.
     */
    method KeepSuccessfulClips(results: seq<WebResult>)
      requires Valid()
      modifies this`musicClips
      ensures Valid()
      ensures musicClips == old(musicClips) + SuccessfulClips(results)
    {
      var i := 0;
      while i < |results|
        invariant 0 <= i <= |results|
        invariant musicClips == old(musicClips) + SuccessfulClips(results[..i])
      {
        assert results[..i + 1][..i] == results[..i];
        match results[i] {
          case ConnectionError =>
          case DataProcessingError =>
          case ProtocolError =>
          case Success(clip) =>
            musicClips := musicClips + [clip];
        }
        i := i + 1;
      }
      assert results[..i] == results;
    }

    /**
     * Second half of `GetAudioClipsParallel`: after the join-all barrier, one result per
     * download sent, keep the successful clips and start the first title.
     */
    method DownloadsDone(results: seq<WebResult>, isPlaying: bool) returns (fault: Option<Fault>)
      requires Valid()
      requires |results| == |requests|
      modifies this`musicClips, this`currentTrack, this`hasCurrentPlayTrack, this`trackWaiting, this`wasPlaying, this`signals
      ensures Valid()
      ensures musicClips == old(musicClips) + SuccessfulClips(results)
      ensures isPlaying ==> fault.None? && unchanged(this`currentTrack, this`hasCurrentPlayTrack, this`trackWaiting, this`wasPlaying, this`signals)
      ensures !isPlaying ==> wasPlaying && hasCurrentPlayTrack && currentTrack == 0
      ensures !isPlaying && musicClips == [] ==>
                fault == Some(IndexOutOfRange(0)) && !trackWaiting && signals == old(signals)
      ensures !isPlaying && musicClips != [] ==>
                fault.None? && trackWaiting && signals == old(signals) + [SourcePlay(musicClips[0])]
    {
      KeepSuccessfulClips(results);
      fault := PlayFirstTitle(isPlaying);
    }

    /**
     * `PlayFirstTitle`: nothing while the source is playing; otherwise marks the engine as
     * playing, replaces the play coroutine and starts track 0, which throws when there is
     * no track at all.
     */
    method PlayFirstTitle(isPlaying: bool) returns (fault: Option<Fault>)
      requires Valid()
      modifies this`currentTrack, this`hasCurrentPlayTrack, this`trackWaiting, this`wasPlaying, this`signals
      ensures Valid()
      ensures isPlaying ==> fault.None? && unchanged(this)
      ensures !isPlaying ==> wasPlaying && hasCurrentPlayTrack && currentTrack == 0
      ensures !isPlaying && musicClips == [] ==>
                fault == Some(IndexOutOfRange(0)) && !trackWaiting && signals == old(signals)
      ensures !isPlaying && musicClips != [] ==>
                fault.None? && trackWaiting && signals == old(signals) + [SourcePlay(musicClips[0])]
    {
      if isPlaying {
        return None;
      }
      wasPlaying := true;
      if hasCurrentPlayTrack {
        trackWaiting := false;
      }
      hasCurrentPlayTrack := true;
      fault := PlayTrack(0);
    }

    /**
     * The `PlayTrack` coroutine up to its first `yield`: clamps the index to `[0, Count]`,
     * makes it the current track, and plays that clip; the read throws exactly when the
     * list is empty or the index is at or past `Count`.
     */
    method PlayTrack(index: int) returns (fault: Option<Fault>)
      requires Valid() && hasCurrentPlayTrack && IsInt32(index)
      modifies this`currentTrack, this`trackWaiting, this`signals
      ensures Valid()
      ensures currentTrack == Clamp(index, 0, |musicClips|)
      ensures fault.Some? <==> |musicClips| == 0 || index >= |musicClips|
      ensures fault.Some? ==> fault == Some(IndexOutOfRange(|musicClips|)) && !trackWaiting && signals == old(signals)
      ensures fault.None? ==> trackWaiting && signals == old(signals) + [SourcePlay(musicClips[currentTrack])]
    {
      currentTrack := Clamp(index, 0, |musicClips|);
      if currentTrack >= |musicClips| {
        trackWaiting := false;
        return Some(IndexOutOfRange(currentTrack));
      }
      signals := signals + [SourcePlay(musicClips[currentTrack])];
      trackWaiting := true;
      fault := None;
    }

    /**
     * The play coroutine resumed on a later frame: while the source plays it keeps waiting;
     * once the source is quiet it leaves the loop and calls `NextTitle`.
     */
    method Tick(isPlaying: bool) returns (fault: Option<Fault>)
      requires Valid()
      modifies this`currentTrack, this`hasCurrentPlayTrack, this`trackWaiting, this`signals
      ensures Valid()
      ensures !(old(trackWaiting) && !isPlaying) ==> fault.None? && unchanged(this)
      ensures old(trackWaiting) && !isPlaying && !isInitialized ==>
                fault.None? && !trackWaiting && unchanged(this`currentTrack, this`hasCurrentPlayTrack, this`signals)
      ensures old(trackWaiting) && !isPlaying && isInitialized && musicClips == [] ==>
                fault == Some(DivideByZero) && !trackWaiting && currentTrack == old(currentTrack)
                && hasCurrentPlayTrack == old(hasCurrentPlayTrack)
                && signals == old(signals) + [StopSpeaking, SourceStop]
      ensures old(trackWaiting) && !isPlaying && isInitialized && musicClips != [] ==>
                fault.None? && trackWaiting && currentTrack == NextTrack(old(currentTrack), |musicClips|)
                && signals == old(signals) + [StopSpeaking, SourceStop, SourcePlay(musicClips[currentTrack])]
    {
      if trackWaiting && !isPlaying {
        trackWaiting := false;
        fault := NextTitle();
      } else {
        fault := None;
      }
    }

    /**
     * `NextTitle`: nothing unless initialised. Otherwise raises stop-speaking if a play
     * coroutine is stored, stops it and the source, advances to `(currentTrack + 1) % Count`
     * (unchecked `int` addition and C# remainder, which throws on an empty list) and plays
     * that track.
     */
    method NextTitle() returns (fault: Option<Fault>)
      requires Valid()
      modifies this`currentTrack, this`hasCurrentPlayTrack, this`trackWaiting, this`signals
      ensures Valid()
      ensures !isInitialized ==> fault.None? && unchanged(this)
      ensures isInitialized && musicClips == [] ==>
                fault == Some(DivideByZero) && !trackWaiting
                && unchanged(this`currentTrack, this`hasCurrentPlayTrack)
                && signals == old(signals) + (if old(hasCurrentPlayTrack) then [StopSpeaking] else []) + [SourceStop]
      ensures isInitialized && musicClips != [] ==>
                fault.None? && hasCurrentPlayTrack && trackWaiting
                && currentTrack == NextTrack(old(currentTrack), |musicClips|)
                && signals == old(signals) + (if old(hasCurrentPlayTrack) then [StopSpeaking] else [])
                              + [SourceStop, SourcePlay(musicClips[currentTrack])]
    {
      if !isInitialized {
        return None;
      }
      if hasCurrentPlayTrack {
        signals := signals + [StopSpeaking];
        trackWaiting := false;
      }
      signals := signals + [SourceStop];
      if |musicClips| == 0 {
        return Some(DivideByZero);
      }
      currentTrack := CsRem(Int32Wrap(currentTrack + 1), |musicClips|);
      hasCurrentPlayTrack := true;
      fault := PlayTrack(currentTrack);
    }

    /**
     * `StopMusic`: nothing unless initialised. Otherwise raises stop-speaking if a play
     * coroutine is stored, stops it and the source; the track list and index stay as they are.
     */
    method StopMusic()
      requires Valid()
      modifies this`trackWaiting, this`signals
      ensures Valid()
      ensures !isInitialized ==> unchanged(this)
      ensures isInitialized ==>
                !trackWaiting
                && signals == old(signals) + (if hasCurrentPlayTrack then [StopSpeaking] else []) + [SourceStop]
    {
      if !isInitialized {
        return;
      }
      if hasCurrentPlayTrack {
        signals := signals + [StopSpeaking];
        trackWaiting := false;
      }
      signals := signals + [SourceStop];
    }

    /** `Update`, once per frame: the one-bit stop-speaking edge detector. */
    method Update(isPlaying: bool)
      requires Valid()
      modifies this`wasPlaying, this`signals
      ensures Valid()
      ensures wasPlaying == WasPlayingAfter(old(wasPlaying), [isPlaying])
      ensures signals == old(signals) + (if StopEdge(old(wasPlaying), isPlaying) then [StopSpeaking] else [])
    {
      if !isPlaying && wasPlaying {
        wasPlaying := false;
        signals := signals + [StopSpeaking];
      }
    }
  }

  // ---------------------------------------------------------------------------
  // What a caller can derive from the contracts above alone.

  /** Three segments whose second download fails: the failed one is left out, the order kept. */
  method ScenarioFailedDownloadOmitted(a: AudioClip, c: AudioClip)
  {
    var tts := new VoicifyTtsProvider([], 0, false);
    tts.Play(Some("<speak>hi</speak>"),
             Some([SsmlResponse("audio", "u1"), SsmlResponse("audio", "u2"), SsmlResponse("audio", "u3")]));
    assert tts.requests == ["u1", "u2", "u3"];
    assert tts.signals[0] == StartSpeaking;
    var results := [Success(a), ConnectionError, Success(c)];
    assert results[..2][..1] == [Success(a)] && results[..2] == [Success(a), ConnectionError];
    assert SuccessfulClips(results[..2][..1]) == [a];
    assert SuccessfulClips(results[..2]) == [a];
    assert SuccessfulClips(results) == [a, c];
    var fault := tts.DownloadsDone(results, false);
    assert tts.musicClips == [a, c];
    assert fault.None? && tts.trackWaiting;
    assert tts.signals[|tts.signals| - 1] == SourcePlay(a);
  }

  /**
   * Every download fails: playing track 0 throws, but `wasPlaying` was already set, so the
   * next frame's `Update` raises stop-speaking once, and only once.
   */
  method ScenarioNothingDownloaded()
  {
    var tts := new VoicifyTtsProvider([], 0, false);
    tts.Play(None, Some([SsmlResponse("audio", "u1")]));
    var fault := tts.DownloadsDone([ProtocolError], false);
    assert fault == Some(IndexOutOfRange(0));
    assert tts.musicClips == [] && tts.wasPlaying;
    var before := |tts.signals|;
    tts.Update(false);
    assert tts.signals[before..] == [StopSpeaking];
    tts.Update(false);
    assert |tts.signals| == before + 1;
  }

  /**
   * With `isInitialized` false (as `Start` leaves it), the first track ends and nothing
   * follows: no second track, no stop-speaking from `NextTitle`; `Update` raises it once.
   */
  method ScenarioUninitialisedPlaysOneTrack(a: AudioClip, b: AudioClip)
  {
    var tts := new VoicifyTtsProvider([], 0, true);
    tts.Start();
    tts.Play(None, Some([SsmlResponse("audio", "u1"), SsmlResponse("audio", "u2")]));
    var fault := tts.DownloadsDone([Success(a), Success(b)], false);
    var before := |tts.signals|;
    tts.Update(true);
    fault := tts.Tick(true);
    assert tts.trackWaiting && |tts.signals| == before;
    tts.Update(false);
    fault := tts.Tick(false);
    assert !tts.trackWaiting && tts.currentTrack == 0;
    assert tts.signals[before..] == [StopSpeaking];
  }

  /**
   * With `isInitialized` set from outside, the end of track 0 makes `NextTitle` raise
   * stop-speaking before track 1 starts, although more audio follows.
   */
  method ScenarioInitialisedSignalsStopBetweenTracks(a: AudioClip, b: AudioClip)
  {
    var tts := new VoicifyTtsProvider([], 0, true);
    tts.Play(None, Some([SsmlResponse("audio", "u1"), SsmlResponse("audio", "u2")]));
    var fault := tts.DownloadsDone([Success(a), Success(b)], false);
    var before := |tts.signals|;
    fault := tts.Tick(false);
    assert tts.currentTrack == 1;
    assert tts.signals[before..] == [StopSpeaking, SourceStop, SourcePlay(b)];
    fault := tts.Tick(false);
    assert tts.currentTrack == 0;
  }

  /**
   * Clips and index set in the inspector, with the index at `int.MaxValue`: the unchecked
   * `+ 1` wraps to `int.MinValue`, whose C# remainder is negative, so the clamp plays track 0.
   */
  method ScenarioIndexWrapsToFirstTrack(a: AudioClip, b: AudioClip, c: AudioClip)
  {
    var tts := new VoicifyTtsProvider([a, b, c], Int32Max, true);
    var fault := tts.NextTitle();
    assert fault.None? && tts.currentTrack == 0;
    assert tts.signals == [SourceStop, SourcePlay(a)];
  }
}
