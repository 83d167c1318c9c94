/**
 * The value-level rules of the text-to-speech playback engine (VoicifyTTSProvider.cs):
 * which downloads become tracks, how a track index is clamped and advanced, when the
 * stop-speaking edge fires, how the segment URLs are read off the synthesis reply, and
 * the wrapper that lets the JSON array be parsed. The class that applies them step by
 * step is in module TtsProvider.
 */
module Playback {
  import opened Wrappers
  import opened Text

  /** A decoded audio segment; its contents are device data and stay opaque. */
  datatype AudioClip = AudioClip(handle: nat)

  /**
   * The terminal outcome of one audio download (`UnityWebRequest.result` once `isDone`),
   * with the clip that `DownloadHandlerAudioClip.GetContent` yields on success.
   */
  datatype WebResult =
    | Success(clip: AudioClip)
    | ConnectionError
    | ProtocolError
    | DataProcessingError

  /** One element of the synthesis service's reply array. */
  datatype SsmlResponse = SsmlResponse(rootElementType: string, url: string)

  // ---------------------------------------------------------------------------
  // Segment URLs

  /** `externalAudio`: the `url` of every reply element, in reply order. */
  function Urls(reply: seq<SsmlResponse>): (urls: seq<string>)
    ensures |urls| == |reply|
    ensures forall i :: 0 <= i < |reply| ==> urls[i] == reply[i].url
  {
    if reply == [] then [] else [reply[0].url] + Urls(reply[1..])
  }

  // ---------------------------------------------------------------------------
  // Filtering the downloads

  /** The clips of the successful downloads, in download order; failed downloads leave no entry. */
  function SuccessfulClips(results: seq<WebResult>): (clips: seq<AudioClip>)
    ensures |clips| <= |results|
  {
    if results == [] then []
    else
      var last := results[|results| - 1];
      SuccessfulClips(results[..|results| - 1]) + (if last.Success? then [last.clip] else [])
  }

  /** The positions of the successful downloads, in increasing order. */
  function Kept(results: seq<WebResult>): seq<nat>
  {
    if results == [] then []
    else
      var n := |results| - 1;
      Kept(results[..n]) + (if results[n].Success? then [n] else [])
  }

  /**
   * The filter keeps exactly the successful downloads, in their original relative order:
   * the k-th track is the clip of the k-th successful download, positions only increase,
   * and no successful download is skipped. Failed ones are omitted, not replaced.
   */
  lemma {:induction false} FilterKeepsSuccessesInOrder(results: seq<WebResult>)
    ensures |Kept(results)| == |SuccessfulClips(results)|
    ensures forall k :: 0 <= k < |Kept(results)| ==>
              Kept(results)[k] < |results| && results[Kept(results)[k]] == Success(SuccessfulClips(results)[k])
    ensures forall k, l :: 0 <= k < l < |Kept(results)| ==> Kept(results)[k] < Kept(results)[l]
    ensures forall i :: 0 <= i < |results| && results[i].Success? ==> i in Kept(results)
  {
    if results != [] {
      var n := |results| - 1;
      var init := results[..n];
      FilterKeepsSuccessesInOrder(init);
      assert forall i :: 0 <= i < n ==> init[i] == results[i];
    }
  }

  /** Downloading in one batch or in two consecutive batches yields the same track list. */
  lemma {:induction false} SuccessfulClipsAppend(a: seq<WebResult>, b: seq<WebResult>)
    ensures SuccessfulClips(a + b) == SuccessfulClips(a) + SuccessfulClips(b)
    decreases |b|
  {
    if b != [] {
      var n := |b| - 1;
      assert (a + b)[..|a + b| - 1] == a + b[..n];
      SuccessfulClipsAppend(a, b[..n]);
    } else {
      assert a + b == a;
    }
  }

  /** When every download fails there is nothing to play. */
  lemma {:induction false} AllFailedLeavesNoTracks(results: seq<WebResult>)
    requires forall i :: 0 <= i < |results| ==> !results[i].Success?
    ensures SuccessfulClips(results) == []
  {
    if results != [] {
      AllFailedLeavesNoTracks(results[..|results| - 1]);
    }
  }

  // ---------------------------------------------------------------------------
  // Track index arithmetic

  /** Unity's `Mathf.Clamp(int, int, int)`: below `min` gives `min`, otherwise above `max` gives `max`. */
  function Clamp(value: int, min: int, max: int): (r: int)
    ensures min <= max ==> min <= r <= max
    ensures min <= value <= max ==> r == value
    ensures value < min ==> r == min
    ensures min <= max < value ==> r == max
  {
    if value < min then min else if value > max then max else value
  }

  /**
   * `PlayTrack` clamps its index to `[0, Count]` and then reads `musicClips[index]`: the
   * read is in range exactly when the list is non-empty and the requested index is below
   * `Count`. The upper bound `Count` itself passes the clamp and is out of range.
   */
  lemma ClampedIndexInRange(index: int, count: nat)
    ensures Clamp(index, 0, count) < count <==> 0 < count && index < count
    ensures Clamp(count, 0, count) == count
  {
  }

  const Int32Min: int := -0x8000_0000
  const Int32Max: int := 0x7FFF_FFFF
  const Int32Span: int := 0x1_0000_0000

  /** The values of a C# `int`. */
  predicate IsInt32(x: int) {
    Int32Min <= x <= Int32Max
  }

  /** C#'s unchecked `int` arithmetic: the result reduced into the `int` range modulo 2^32. */
  function Int32Wrap(x: int): (r: int)
    ensures IsInt32(r)
    ensures IsInt32(x) ==> r == x
    ensures (x - r) % Int32Span == 0
  {
    (x - Int32Min) % Int32Span + Int32Min
  }

  /** C#'s `%` on `int`: truncating division, so the remainder takes the sign of the dividend. */
  function CsRem(a: int, n: int): (r: int)
    requires n > 0
    ensures -n < r < n
    ensures a >= 0 ==> r >= 0
    ensures a <= 0 ==> r <= 0
    ensures (a - r) % n == 0
    ensures a >= 0 ==> r <= a
    ensures a <= 0 ==> a <= r
  {
    if a >= 0 then
      assert a == (a / n) * n + a % n;
      ModUnique(a - a % n, n, a / n, 0);
      assert a < n ==> a % n == a by {
        if a < n { ModUnique(a, n, 0, a); }
      }
      a % n
    else
      var m := -a;
      assert m == (m / n) * n + m % n;
      ModUnique(a - -(m % n), n, -(m / n), 0);
      assert m < n ==> m % n == m by {
        if m < n { ModUnique(m, n, 0, m); }
      }
      -(m % n)
  }

  /**
   * The track `NextTitle` ends up on: `(currentTrack + 1) % Count` in unchecked C# `int`
   * arithmetic, then clamped by `PlayTrack`. It is always a valid index; from -1 up to
   * below `int.MaxValue` it is the next one round the cycle; from any other current
   * track (a negative one below -1, or `int.MaxValue`, which wraps) it is track 0.
   */
  function NextTrack(current: int, count: int): (r: int)
    requires IsInt32(current) && count > 0
    ensures 0 <= r < count && IsInt32(r)
    ensures -1 <= current < Int32Max ==> r == (current + 1) % count
    ensures current < -1 || current == Int32Max ==> r == 0
  {
    Clamp(CsRem(Int32Wrap(current + 1), count), 0, count)
  }

  /** The track reached from `current` after `k` advances. */
  function Advance(current: int, count: int, k: nat): (r: int)
    requires IsInt32(current) && count > 0
    ensures IsInt32(r)
  {
    if k == 0 then current else NextTrack(Advance(current, count, k - 1), count)
  }

  /**
   * Started at track 0, the queue is a cycle: after `k` advances it is on track `k mod Count`.
   * A list's `Count` is a C# `int`, so no track index reaches `int.MaxValue` and wraps.
   */
  lemma {:induction false} AdvanceCycles(count: int, k: nat)
    requires 0 < count <= Int32Max
    ensures Advance(0, count, k) == k % count
  {
    if k > 0 {
      AdvanceCycles(count, k - 1);
      ModSucc(k - 1, count);
    }
  }

  // Helpers on Euclidean `%` that the solver does not find unaided.

  lemma {:induction false} MulAtLeast(k: int, n: int)
    requires k >= 1 && n > 0
    ensures k * n >= n
  {
    if k > 1 {
      MulAtLeast(k - 1, n);
      assert k * n == (k - 1) * n + n;
    }
  }

  lemma ModUnique(a: int, n: int, q: int, r: int)
    requires n > 0 && 0 <= r < n && a == q * n + r
    ensures a % n == r
  {
    var q', r' := a / n, a % n;
    assert a == q' * n + r';
    if q' > q {
      assert (q' - q) * n == q' * n - q * n;
      MulAtLeast(q' - q, n);
    } else if q' < q {
      assert (q - q') * n == q * n - q' * n;
      MulAtLeast(q - q', n);
    }
  }

  lemma ModSucc(x: int, n: int)
    requires n > 0 && 0 <= x
    ensures (x % n + 1) % n == (x + 1) % n
  {
    var q, t := x / n, x % n;
    assert x == q * n + t;
    if t + 1 < n {
      ModUnique(x + 1, n, q, t + 1);
      ModUnique(t + 1, n, 0, t + 1);
    } else {
      ModUnique(x + 1, n, q + 1, 0);
      ModUnique(t + 1, n, 1, 0);
    }
  }

  // ---------------------------------------------------------------------------
  // Stop-speaking edge detector

  /** One `Update` raises stop-speaking iff the engine was playing and the source is now quiet. */
  predicate StopEdge(wasPlaying: bool, isPlaying: bool) {
    wasPlaying && !isPlaying
  }

  /** The number of stop-speaking events raised by `Update` over successive frames. */
  function StopEdges(wasPlaying: bool, frames: seq<bool>): nat
  {
    if frames == [] then 0
    else (if StopEdge(wasPlaying, frames[0]) then 1 else 0) + StopEdges(wasPlaying && frames[0], frames[1..])
  }

  /** `wasPlaying` after `Update` has run over successive frames. */
  function WasPlayingAfter(wasPlaying: bool, frames: seq<bool>): bool
  {
    if frames == [] then wasPlaying else WasPlayingAfter(wasPlaying && frames[0], frames[1..])
  }

  /**
   * Until `wasPlaying` is set again, `Update` raises stop-speaking at most once: exactly once
   * if the engine was playing and some frame finds the source quiet, never otherwise; and
   * after that frame the flag stays clear.
   */
  lemma {:induction false} StopFiresAtMostOnce(wasPlaying: bool, frames: seq<bool>)
    ensures StopEdges(wasPlaying, frames) == if wasPlaying && false in frames then 1 else 0
    ensures WasPlayingAfter(wasPlaying, frames) == (wasPlaying && false !in frames)
  {
    if frames != [] {
      StopFiresAtMostOnce(wasPlaying && frames[0], frames[1..]);
      assert false in frames <==> !frames[0] || false in frames[1..];
      if !wasPlaying || !frames[0] {
        StopNeverFiresWhenClear(frames[1..]);
      }
    }
  }

  /** With the flag clear, `Update` never fires and the flag stays clear. */
  lemma {:induction false} StopNeverFiresWhenClear(frames: seq<bool>)
    ensures StopEdges(false, frames) == 0 && !WasPlayingAfter(false, frames)
  {
    if frames != [] {
      StopNeverFiresWhenClear(frames[1..]);
    }
  }

  /** Frames can be split anywhere: the edges of the whole run are those of the parts. */
  lemma {:induction false} StopEdgesAppend(wasPlaying: bool, a: seq<bool>, b: seq<bool>)
    ensures StopEdges(wasPlaying, a + b) == StopEdges(wasPlaying, a) + StopEdges(WasPlayingAfter(wasPlaying, a), b)
    ensures WasPlayingAfter(wasPlaying, a + b) == WasPlayingAfter(WasPlayingAfter(wasPlaying, a), b)
  {
    if a != [] {
      assert (a + b)[1..] == a[1..] + b;
      StopEdgesAppend(wasPlaying && a[0], a[1..], b);
    } else {
      assert a + b == b;
    }
  }

  // ---------------------------------------------------------------------------
  // JSON array wrapper

  const ItemsPrefix: string := "{ \"Items\": "
  const ItemsSuffix: string := "}"

  /** `FromJsonArray` wraps a bare JSON array into an object with a single `Items` field. */
  function WrapItems(json: string): (wrapped: string)
    ensures StartsWith(wrapped, ItemsPrefix)
    ensures |wrapped| == |ItemsPrefix| + |json| + |ItemsSuffix|
    ensures wrapped[|ItemsPrefix|..|ItemsPrefix| + |json|] == json
    ensures wrapped[|wrapped| - 1] == '}'
  {
    ItemsPrefix + json + ItemsSuffix
  }

  /**
   * The inverse of the wrapper: the text between the `Items` prefix and the closing brace.
   * Whatever it recovers wraps back to the text it came from.
   */
  function UnwrapItems(wrapped: string): (json: Option<string>)
    ensures json.Some? ==> WrapItems(json.value) == wrapped
  {
    if |wrapped| >= |ItemsPrefix| + |ItemsSuffix| && StartsWith(wrapped, ItemsPrefix)
       && wrapped[|wrapped| - |ItemsSuffix|..] == ItemsSuffix
    then Some(wrapped[|ItemsPrefix|..|wrapped| - |ItemsSuffix|])
    else None
  }

  /** Wrapping loses nothing: the array text is recovered exactly. */
  lemma UnwrapWrap(json: string)
    ensures UnwrapItems(WrapItems(json)) == Some(json)
  {
    var w := WrapItems(json);
    assert w[|w| - |ItemsSuffix|..] == ItemsSuffix;
    assert w[|ItemsPrefix|..|w| - |ItemsSuffix|] == json;
  }
}
