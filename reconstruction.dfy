/**
 * spectrogram_to_audio in code/fft/fft.py: each column of a magnitude
 * spectrogram is given zero phase, mirrored into a Hermitian spectrum of
 * window samples, inverted with the radix-2 inverse transform, weighted by the
 * Hann window and added into an output buffer at its frame position; the
 * Hann weights are added into a second buffer, and in the end every sample
 * whose weight exceeds 1e-6 is divided by it.
 *
 * np.hanning(window) is the parameter `hann`; exp(1j*0) is exactly 1, so the
 * zero-phase spectrum is the column itself as complex values.
 */
module AudioReconstruction {
  import opened ComplexArith
  import opened FftEngine
  import opened Outcomes
  import opened SpectrogramAnalysis
  import opened OverlapAddition

  /** The 1e-6 a weight must exceed for its sample to be divided. */
  const Threshold: real := 0.000001

  /** numpy raises IndexError when the mirrored spectrum is shorter than the window. */
  datatype ReconstructionError = IndexError

  /** numpy's p[-2:0:-1]: the elements from index |p|-2 down to index 1. */
  function ReversedInterior(p: seq<Complex>): (r: seq<Complex>)
    ensures |r| == (if |p| >= 2 then |p| - 2 else 0)
    ensures forall j :: 0 <= j < |r| ==> r[j] == p[|p| - 2 - j]
  {
    if |p| < 3 then [] else seq(|p| - 2, j requires 0 <= j < |p| - 2 => p[|p| - 2 - j])
  }

  /** Length of the mirrored spectrum built from `bins` magnitudes. */
  function MirrorLength(bins: nat): nat
  {
    bins + (if bins >= 2 then bins - 2 else 0)
  }

  /** np.concatenate([positive, positive[-2:0:-1].conj()]) with zero phase. */
  function Mirror(column: seq<real>): (full: seq<Complex>)
    ensures |full| == MirrorLength(|column|)
  {
    var positive := Complexify(column);
    positive + ConjAll(ReversedInterior(positive))
  }

  /** Column i of a spectrogram given as rows of bins: spectrogram[:, i]. */
  function Column(spectrogram: seq<seq<real>>, i: nat): (col: seq<real>)
    requires forall b :: 0 <= b < |spectrogram| ==> i < |spectrogram[b]|
    ensures |col| == |spectrogram|
  {
    seq(|spectrogram|, b requires 0 <= b < |spectrogram| => spectrogram[b][i])
  }

  /**
   * The windowed time signal of one column: the real part of the inverse DFT
   * of the first `window` values of the mirrored spectrum, times the Hann
   * coefficients.
   */
  function FrameSignal(column: seq<real>, window: nat, root: Complex, hann: seq<real>): (signal: seq<real>)
    requires 0 < window <= MirrorLength(|column|) && |hann| == window
    ensures |signal| == window
  {
    Windowed(InverseDft(Mirror(column)[..window], root), hann)
  }

  /** (z.real) * hann, elementwise. */
  function Windowed(z: seq<Complex>, hann: seq<real>): (w: seq<real>)
    requires |z| == |hann|
    ensures |w| == |hann|
  {
    seq(|hann|, t requires 0 <= t < |hann| => z[t].re * hann[t])
  }

  /** Division by the accumulated weight where it exceeds 1e-6; other samples stay as they are. */
  function Normalised(sum: real, weight: real): real
  {
    if weight > Threshold then sum / weight else sum
  }

  predicate Shaped(spectrogram: seq<seq<real>>, frames: nat)
  {
    forall b :: 0 <= b < |spectrogram| ==> |spectrogram[b]| == frames
  }

  function FrameSignals(spectrogram: seq<seq<real>>, frames: nat, window: nat, root: Complex, hann: seq<real>)
    : (signals: seq<seq<real>>)
    requires Shaped(spectrogram, frames) && 0 < window <= MirrorLength(|spectrogram|) && |hann| == window
    ensures |signals| == frames
  {
    seq(frames, i requires 0 <= i < frames => FrameSignal(Column(spectrogram, i), window, root, hann))
  }

  /** `frames` copies of the Hann window: what each frame adds to the weight buffer. */
  function Repeat(hann: seq<real>, frames: nat): (r: seq<seq<real>>)
    ensures |r| == frames && forall i :: 0 <= i < frames ==> r[i] == hann
  {
    seq(frames, i requires 0 <= i < frames => hann)
  }

  /** Every sample divided by its weight where that exceeds 1e-6. */
  function Divided(sums: seq<real>, weights: seq<real>): (r: seq<real>)
    requires |sums| == |weights|
    ensures |r| == |sums|
  {
    seq(|sums|, t requires 0 <= t < |sums| => Normalised(sums[t], weights[t]))
  }

  /**
   * Overlap-add of `signals` and of `weights` into `length` samples, frame i
   * at starts[i], followed by the division by the weight where it exceeds
   * 1e-6.
   */
  function OverlapAdd(signals: seq<seq<real>>, weights: seq<seq<real>>, starts: seq<int>, length: nat): (audio: seq<real>)
    requires |signals| == |weights| == |starts|
    ensures |audio| == length
  {
    Divided(Sums(signals, starts, length, |signals|), Sums(weights, starts, length, |signals|))
  }

  /** The reconstructed signal: frames * step + overlap samples of normalised overlap-add. */
  function Reconstructed(spectrogram: seq<seq<real>>, frames: nat, window: nat, overlap: nat, root: Complex, hann: seq<real>)
    : (audio: seq<real>)
    requires Shaped(spectrogram, frames) && overlap <= window && 0 < window <= MirrorLength(|spectrogram|) && |hann| == window
    ensures |audio| == frames * (window - overlap) + overlap
  {
    OverlapAdd(FrameSignals(spectrogram, frames, window, root, hann), Repeat(hann, frames),
               Starts(frames, window - overlap), frames * (window - overlap) + overlap)
  }

  /** Frame i of the reconstruction lies inside the buffer; the last one ends exactly at its end. */
  lemma {:induction false} FrameFitsBuffer(frames: nat, window: nat, overlap: nat, i: nat)
    requires overlap <= window && i < frames
    ensures 0 <= i * (window - overlap) && i * (window - overlap) + window <= frames * (window - overlap) + overlap
    ensures i == frames - 1 ==> i * (window - overlap) + window == frames * (window - overlap) + overlap
  {
    var step := window - overlap;
    var d: nat := frames - 1 - i;
    assert frames * step == i * step + d * step + step;
    assert d * step >= 0;
  }

  /** The buffers hold frames * step + overlap samples, never a negative count. */
  lemma {:induction false} BufferLength(frames: nat, window: nat, overlap: nat)
    requires overlap <= window
    ensures overlap <= frames * (window - overlap) + overlap
  {
    var step: nat := window - overlap;
    assert frames * step >= 0;
  }

  /**
   * The mirrored spectrum of B >= 2 bins has 2B - 2 values, starts with the
   * column itself and is Hermitian: full[n - k] is the conjugate of full[k]
   * for 1 <= k <= B - 2.
   */
  lemma {:induction false} MirrorSymmetry(column: seq<real>)
    requires |column| >= 2
    ensures var full := Mirror(column);
            |full| == 2 * |column| - 2 &&
            (forall k :: 0 <= k < |column| ==> full[k] == OfReal(column[k])) &&
            (forall k :: 1 <= k <= |column| - 2 ==> full[|full| - k] == Conj(full[k]))
  {
    var full := Mirror(column);
    var b := |column|;
    forall k | 1 <= k <= b - 2
      ensures full[|full| - k] == Conj(full[k])
    {
      var j := b - 2 - k;
      assert |full| - k == b + j;
    }
  }

  /**
   * The body of the frame loop before the overlap-add: zero-phase mirrored
   * spectrum, inverse transform with stride 1, real part, Hann window.
   */
  method WindowedFrame(column: seq<real>, window: nat, root: Complex, hann: seq<real>) returns (signal: seq<real>)
    requires IsPowerOfTwo(window) && IsHalfTurnRoot(root, window) && |hann| == window
    requires window <= MirrorLength(|column|)
    ensures signal == FrameSignal(column, window, root, hann)
  {
    var full := Mirror(column);
    GatherPrefix(full, window);
    var inverse := InverseDitFft2(full, window, 1, root);
    signal := Windowed(inverse, hann);
  }

  /**
   * The frame loop of spectrogram_to_audio: frame i's windowed signal is
   * added to `audio` (audio_data) and the Hann weights to `weight`
   * (window_sum), both from i * step on.
   */
  method AccumulateFrames(spectrogram: seq<seq<real>>, frames: nat, window: nat, overlap: nat, root: Complex,
                          hann: seq<real>, ghost signals: seq<seq<real>>, ghost weights: seq<seq<real>>,
                          ghost starts: seq<int>)
    returns (audio: array<real>, weight: array<real>)
    requires Shaped(spectrogram, frames) && window <= MirrorLength(|spectrogram|)
    requires IsPowerOfTwo(window) && IsHalfTurnRoot(root, window) && overlap <= window && |hann| == window
    requires signals == FrameSignals(spectrogram, frames, window, root, hann)
    requires weights == Repeat(hann, frames) && starts == Starts(frames, window - overlap)
    ensures fresh(audio) && fresh(weight) && audio != weight
    ensures audio.Length == weight.Length == frames * (window - overlap) + overlap
    ensures audio[..] == Sums(signals, starts, audio.Length, frames)
    ensures weight[..] == Sums(weights, starts, audio.Length, frames)
  {
    BufferLength(frames, window, overlap);
    var length := frames * (window - overlap) + overlap;
    audio := new real[length](_ => 0.0);
    weight := new real[length](_ => 0.0);
    assert audio[..] == Sums(signals, starts, length, 0);
    assert weight[..] == Sums(weights, starts, length, 0);
    for i := 0 to frames
      invariant audio[..] == Sums(signals, starts, audio.Length, i)
      invariant weight[..] == Sums(weights, starts, audio.Length, i)
    {
      AddFrameAt(audio, weight, spectrogram, frames, window, overlap, root, hann, i, signals, weights, starts);
    }
  }

  /**
   * Pass i of the frame loop: the windowed signal of column i is added to
   * `audio` and the Hann weights to `weight`, both from i * step on.
   */
  method AddFrameAt(audio: array<real>, weight: array<real>, spectrogram: seq<seq<real>>, frames: nat,
                    window: nat, overlap: nat, root: Complex, hann: seq<real>, i: nat,
                    ghost signals: seq<seq<real>>, ghost weights: seq<seq<real>>, ghost starts: seq<int>)
    requires Shaped(spectrogram, frames) && window <= MirrorLength(|spectrogram|) && i < frames
    requires IsPowerOfTwo(window) && IsHalfTurnRoot(root, window) && overlap <= window && |hann| == window
    requires signals == FrameSignals(spectrogram, frames, window, root, hann)
    requires weights == Repeat(hann, frames) && starts == Starts(frames, window - overlap)
    requires audio != weight && audio.Length == weight.Length == frames * (window - overlap) + overlap
    requires audio[..] == Sums(signals, starts, audio.Length, i) && weight[..] == Sums(weights, starts, audio.Length, i)
    modifies audio, weight
    ensures audio[..] == Sums(signals, starts, audio.Length, i + 1)
    ensures weight[..] == Sums(weights, starts, audio.Length, i + 1)
  {
    var signal := WindowedFrame(Column(spectrogram, i), window, root, hann);
    FrameFitsBuffer(frames, window, overlap, i);
    var start := i * (window - overlap);
    ghost var expected := FrameSignal(Column(spectrogram, i), window, root, hann);
    assert signals[i] == expected;
    assert signal == expected;
    ExtendSums(audio, signal, start, signals, starts, i);
    ExtendSums(weight, hann, start, weights, starts, i);
  }

  /** audio_data[window_sum > 1e-6] /= window_sum[window_sum > 1e-6] */
  method DivideByWeight(audio: array<real>, weight: array<real>)
    requires audio != weight && audio.Length == weight.Length
    modifies audio
    ensures audio[..] == Divided(old(audio[..]), weight[..])
  {
    forall t | 0 <= t < audio.Length && weight[t] > Threshold {
      audio[t] := audio[t] / weight[t];
    }
  }

  /**
   * The buffers of spectrogram_to_audio once at least one frame exists: two
   * arrays of frames * step + overlap zeros; every frame adds its windowed
   * signal to the first and the Hann weights to the second, and the first is
   * finally divided by the second where that exceeds the threshold.
   */
  method OverlapAddFrames(spectrogram: seq<seq<real>>, frames: nat, window: nat, overlap: nat, root: Complex, hann: seq<real>)
    returns (samples: seq<real>)
    requires Shaped(spectrogram, frames) && window <= MirrorLength(|spectrogram|)
    requires IsPowerOfTwo(window) && IsHalfTurnRoot(root, window) && overlap <= window && |hann| == window
    ensures samples == Reconstructed(spectrogram, frames, window, overlap, root, hann)
  {
    ghost var signals := FrameSignals(spectrogram, frames, window, root, hann);
    ghost var weights := Repeat(hann, frames);
    ghost var starts := Starts(frames, window - overlap);
    var audio, weight := AccumulateFrames(spectrogram, frames, window, overlap, root, hann, signals, weights, starts);
    DivideByWeight(audio, weight);
    samples := audio[..];
  }

  /**
   * spectrogram_to_audio(spectrogram, window, overlap): `frames` is
   * spectrogram.shape[1]. With no frames the result is `overlap` zeros; with
   * frames, a spectrogram too short to mirror into a full window fails with
   * an index error, and otherwise the frames are overlap-added.
   */
  method SpectrogramToAudio(spectrogram: seq<seq<real>>, frames: nat, window: nat, overlap: nat, root: Complex, hann: seq<real>)
    returns (result: Result<seq<real>, ReconstructionError>)
    requires Shaped(spectrogram, frames)
    requires IsPowerOfTwo(window) && IsHalfTurnRoot(root, window) && overlap <= window && |hann| == window
    ensures result.Err? <==> frames > 0 && MirrorLength(|spectrogram|) < window
    ensures result.Ok? && frames > 0 ==>
              result.value == Reconstructed(spectrogram, frames, window, overlap, root, hann)
    ensures result.Ok? && frames == 0 ==> result.value == seq(overlap, t => 0.0)
  {
    if frames == 0 {
      var audio := new real[overlap](_ => 0.0);
      return Ok(audio[..]);
    }
    if MirrorLength(|spectrogram|) < window {
      return Err(IndexError);
    }
    var samples := OverlapAddFrames(spectrogram, frames, window, overlap, root, hann);
    return Ok(samples);
  }

  /**
   * Overlap-add at one sample t: when every frame contributes c times what
   * its weight contributes, the overlap sum is c times the weight sum.
   */
  lemma {:induction false} ConsistentFramesSum(signals: seq<seq<real>>, weights: seq<seq<real>>, starts: seq<int>,
                                               c: real, t: int, count: nat)
    requires count <= |signals| == |weights| == |starts|
    requires forall i :: 0 <= i < |signals| ==>
               Contribution(signals[i], starts[i], t) == c * Contribution(weights[i], starts[i], t)
    ensures OverlapSum(signals, starts, t, count) == c * OverlapSum(weights, starts, t, count)
  {
    if count > 0 {
      ConsistentFramesSum(signals, weights, starts, c, t, count - 1);
      Distribute(c, OverlapSum(weights, starts, t, count - 1), Contribution(weights[count - 1], starts[count - 1], t),
                 OverlapSum(weights, starts, t, count));
    }
  }

  /** A frame that is a Hann-weighted stretch of g contributes g[t] times its weight at t. */
  lemma {:induction false} StretchContributions(signals: seq<seq<real>>, hann: seq<real>, starts: seq<int>, g: seq<real>, t: nat)
    requires t < |g| && |signals| == |starts|
    requires forall i :: 0 <= i < |signals| ==> |signals[i]| == |hann|
    requires forall i, u :: 0 <= i < |signals| && 0 <= u < |hann| && starts[i] + u == t ==>
               signals[i][u] == g[t] * hann[u]
    ensures forall i :: 0 <= i < |signals| ==>
              Contribution(signals[i], starts[i], t) == g[t] * Contribution(Repeat(hann, |signals|)[i], starts[i], t)
  {
    forall i | 0 <= i < |signals|
      ensures Contribution(signals[i], starts[i], t) == g[t] * Contribution(Repeat(hann, |signals|)[i], starts[i], t)
    {
      if starts[i] <= t < starts[i] + |hann| {
        assert signals[i][t - starts[i]] == g[t] * hann[t - starts[i]];
      }
    }
  }

  /** c * (a + b) == c * a + c * b, with the sum given by name. */
  lemma Distribute(c: real, a: real, b: real, sum: real)
    requires sum == a + b
    ensures c * sum == c * a + c * b
  {
  }

  /** Dividing c * w by w > 1e-6 gives back c. */
  lemma NormalisationRecovers(sum: real, weight: real, c: real)
    requires sum == c * weight && weight > Threshold
    ensures Normalised(sum, weight) == c
  {
  }

  /** Frames contributing c times their weights at t are recovered as c wherever the weight sum exceeds 1e-6. */
  lemma {:induction false} ProportionalFramesRecover(signals: seq<seq<real>>, weights: seq<seq<real>>, starts: seq<int>, length: nat, t: nat, c: real)
    requires |signals| == |weights| == |starts| && t < length
    requires forall i :: 0 <= i < |signals| ==>
               Contribution(signals[i], starts[i], t) == c * Contribution(weights[i], starts[i], t)
    requires OverlapSum(weights, starts, t, |signals|) > Threshold
    ensures OverlapAdd(signals, weights, starts, length)[t] == c
  {
    ConsistentFramesSum(signals, weights, starts, c, t, |signals|);
    RecoveredAt(signals, weights, starts, length, t, c);
  }

  /** Where the frame sum is c times a weight sum above 1e-6, overlap-add yields c. */
  lemma {:induction false} RecoveredAt(signals: seq<seq<real>>, weights: seq<seq<real>>, starts: seq<int>, length: nat, t: nat, c: real)
    requires |signals| == |weights| == |starts| && t < length
    requires OverlapSum(weights, starts, t, |signals|) > Threshold
    requires OverlapSum(signals, starts, t, |signals|) == c * OverlapSum(weights, starts, t, |signals|)
    ensures OverlapAdd(signals, weights, starts, length)[t] == c
  {
    NormalisationRecovers(OverlapSum(signals, starts, t, |signals|), OverlapSum(weights, starts, t, |signals|), c);
  }

  /**
   * Overlap-add normalisation recovers the signal: if each frame's windowed
   * signal is g[starts[i] + u] * hann[u], overlap-add with the Hann weights
   * gives back g at every sample whose summed weight exceeds 1e-6.
   */
  lemma {:induction false} OverlapAddRecovers(signals: seq<seq<real>>, hann: seq<real>, starts: seq<int>, length: nat, g: seq<real>, t: nat)
    requires t < length <= |g| && |signals| == |starts|
    requires forall i :: 0 <= i < |signals| ==> |signals[i]| == |hann|
    requires forall i, u :: 0 <= i < |signals| && 0 <= u < |hann| && starts[i] + u == t ==>
               signals[i][u] == g[t] * hann[u]
    requires OverlapSum(Repeat(hann, |signals|), starts, t, |signals|) > Threshold
    ensures OverlapAdd(signals, Repeat(hann, |signals|), starts, length)[t] == g[t]
  {
    StretchContributions(signals, hann, starts, g, t);
    ProportionalFramesRecover(signals, Repeat(hann, |signals|), starts, length, t, g[t]);
  }
}
