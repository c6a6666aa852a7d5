/**
 * Decoded audio as the pipeline sees it: a sequence of one-millisecond
 * samples, so that pydub's `len(segment)` is the sequence length, slicing
 * `segment[:ms]` is taking a prefix and `a += b` is concatenation.
 */
module Audio {

  type Sample = int
  type Audio = seq<Sample>

  function Min(a: int, b: int): int {
    if a <= b then a else b
  }

  /**
   * The per-file step of cut_audio: a clip of `duration` seconds from the
   * start, or the whole track when it is shorter than that.
   */
  function Trim(audio: Audio, duration: nat): (clip: Audio)
    ensures clip <= audio
    ensures |clip| == Min(|audio|, duration * 1000)
  {
    var ms := duration * 1000;
    if |audio| < ms then audio else audio[..ms]
  }

  /** A track shorter than the target passes through unchanged (no padding). */
  lemma TrimShortPassesThrough(audio: Audio, duration: nat)
    requires |audio| <= duration * 1000
    ensures Trim(audio, duration) == audio
  {
  }

  /** Trimming a clip again to the same duration changes nothing. */
  lemma TrimIdempotent(audio: Audio, duration: nat)
    ensures Trim(Trim(audio, duration), duration) == Trim(audio, duration)
  {
  }

  /** `merged = AudioSegment.empty(); for clip in clips: merged += clip` */
  function Concat(clips: seq<Audio>): Audio
    decreases |clips|
  {
    if |clips| == 0 then [] else Concat(clips[..|clips| - 1]) + clips[|clips| - 1]
  }

  /** The sum of the clip lengths, in milliseconds. */
  function TotalLength(clips: seq<Audio>): nat
    decreases |clips|
  {
    if |clips| == 0 then 0 else |clips[0]| + TotalLength(clips[1..])
  }

  lemma {:induction false} TotalLengthAppend(clips: seq<Audio>, more: seq<Audio>)
    ensures TotalLength(clips + more) == TotalLength(clips) + TotalLength(more)
    decreases |clips|
  {
    if |clips| > 0 {
      assert (clips + more)[1..] == clips[1..] + more;
      TotalLengthAppend(clips[1..], more);
    } else {
      assert clips + more == more;
    }
  }

  /** The merged audio lasts exactly as long as the clips together. */
  lemma {:induction false} ConcatLength(clips: seq<Audio>)
    ensures |Concat(clips)| == TotalLength(clips)
    decreases |clips|
  {
    if |clips| > 0 {
      var n := |clips| - 1;
      ConcatLength(clips[..n]);
      TotalLengthAppend(clips[..n], [clips[n]]);
      assert clips[..n] + [clips[n]] == clips;
      assert TotalLength([clips[n]]) == |clips[n]|;
    }
  }

  lemma {:induction false} ConcatAppend(clips: seq<Audio>, more: seq<Audio>)
    ensures Concat(clips + more) == Concat(clips) + Concat(more)
    decreases |more|
  {
    if |more| == 0 {
      assert clips + more == clips;
    } else {
      var n := |more| - 1;
      assert (clips + more)[..|clips + more| - 1] == clips + more[..n];
      ConcatAppend(clips, more[..n]);
    }
  }

  /**
   * Clip `k` sits in the merged audio right after clips 0..k-1, whole and
   * unchanged: the merge keeps the order and leaves no gaps.
   */
  lemma PlacedInOrder(clips: seq<Audio>, k: nat)
    requires k < |clips|
    ensures TotalLength(clips[..k]) + |clips[k]| == TotalLength(clips[..k + 1]) <= |Concat(clips)|
    ensures Concat(clips)[TotalLength(clips[..k])..TotalLength(clips[..k + 1])] == clips[k]
  {
    var before, rest := clips[..k + 1], clips[k + 1..];
    assert clips == before + rest;
    ConcatAppend(before, rest);
    assert before[..k] == clips[..k];
    ConcatLength(clips[..k]);
    ConcatLength(before);
    ConcatLength(clips);
    var whole := Concat(clips);
    assert Concat(before) == Concat(clips[..k]) + clips[k];
    assert whole[..|Concat(before)|] == Concat(before);
  }
}
