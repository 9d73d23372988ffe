/**
 * Overlap-add, as both code/fft/fft.py (spectrogram_to_audio) and
 * code/adaptive-tone-control/src/energy_analysis.py (dynamic_tone_control)
 * do it: frame i is added into a buffer from its start position on, by
 * slice assignment buffer[start:start + len(frame)] += frame.
 */
module OverlapAddition {

  /** What frame `f`, placed at `start`, contributes to sample t. */
  function Contribution(f: seq<real>, start: int, t: int): real
  {
    if start <= t < start + |f| then f[t - start] else 0.0
  }

  /** The start of every frame: start_idx = i * step_size for frame i. */
  function Starts(frames: nat, step: nat): (starts: seq<int>)
    ensures |starts| == frames
  {
    seq(frames, i requires 0 <= i < frames => i * step)
  }

  /** The overlap-add at sample t of the first `count` frames, frame i placed at starts[i]. */
  function OverlapSum(frames: seq<seq<real>>, starts: seq<int>, t: int, count: nat): real
    requires count <= |frames| == |starts|
  {
    if count == 0 then 0.0
    else OverlapSum(frames, starts, t, count - 1) + Contribution(frames[count - 1], starts[count - 1], t)
  }

  /** The overlap sums of the first `count` frames at samples 0 .. length - 1. */
  function Sums(frames: seq<seq<real>>, starts: seq<int>, length: nat, count: nat): (sums: seq<real>)
    requires count <= |frames| == |starts|
    ensures |sums| == length
  {
    seq(length, t requires 0 <= t < length => OverlapSum(frames, starts, t, count))
  }

  /** buffer[start:start + len(frame)] += frame, as a value. */
  function Placed(buffer: seq<real>, frame: seq<real>, start: int): (r: seq<real>)
    ensures |r| == |buffer|
  {
    seq(|buffer|, t requires 0 <= t < |buffer| => buffer[t] + Contribution(frame, start, t))
  }

  /** Adding frame i at its start to the sums of the frames before it gives the sums up to frame i. */
  lemma {:induction false} PlacedExtends(frames: seq<seq<real>>, starts: seq<int>, length: nat, i: nat)
    requires i < |frames| == |starts|
    ensures Placed(Sums(frames, starts, length, i), frames[i], starts[i]) == Sums(frames, starts, length, i + 1)
  {
  }

  /** buffer[start:start + len(frame)] += frame */
  method AddFrame(buffer: array<real>, frame: seq<real>, start: nat)
    requires start + |frame| <= buffer.Length
    modifies buffer
    ensures buffer[..] == Placed(old(buffer[..]), frame, start)
  {
    forall t | start <= t < start + |frame| {
      buffer[t] := buffer[t] + frame[t - start];
    }
  }

  /**
   * One buffer update of a frame loop: a buffer holding the sums of frames
   * 0 .. i-1 then holds the sums of frames 0 .. i.
   */
  method ExtendSums(buffer: array<real>, frame: seq<real>, start: nat,
                    ghost frames: seq<seq<real>>, ghost starts: seq<int>, ghost i: nat)
    requires i < |frames| == |starts| && frame == frames[i] && start == starts[i]
    requires start + |frame| <= buffer.Length
    requires buffer[..] == Sums(frames, starts, buffer.Length, i)
    modifies buffer
    ensures buffer[..] == Sums(frames, starts, buffer.Length, i + 1)
  {
    AddFrame(buffer, frame, start);
    PlacedExtends(frames, starts, buffer.Length, i);
  }

  /** A sample that none of the first `count` frames covers sums to 0. */
  lemma {:induction false} OverlapSumOutside(frames: seq<seq<real>>, starts: seq<int>, t: int, count: nat)
    requires count <= |frames| == |starts|
    requires forall i :: 0 <= i < count ==> !(starts[i] <= t < starts[i] + |frames[i]|)
    ensures OverlapSum(frames, starts, t, count) == 0.0
  {
    if count > 0 {
      OverlapSumOutside(frames, starts, t, count - 1);
    }
  }
}
