/**
 * audio_to_spectrogram in code/fft/fft.py: the short-time Fourier transform.
 * Frames of `window` samples start `window - overlap` apart; each frame goes
 * through the radix-2 transform, the magnitudes of its first window//2 + 1
 * bins form one column, and the list of columns is transposed so that rows
 * are frequency bins.
 *
 * np.abs is the parameter `abs`; IsModulus says what it must compute.
 */
module SpectrogramAnalysis {
  import opened ComplexArith
  import opened FftEngine
  import opened Framing
  import opened Outcomes

  /** The frame count divides by window - overlap: equal sizes raise ZeroDivisionError. */
  datatype StftError = ZeroDivisionError

  function Norm2(z: Complex): real { z.re * z.re + z.im * z.im }

  function Square(r: real): real { r * r }

  /** `abs` is the complex modulus: non-negative, and its square is re^2 + im^2. */
  ghost predicate IsModulus(abs: Complex -> real)
  {
    forall z :: 0.0 <= abs(z) && Square(abs(z)) == Norm2(z)
  }

  /** A real signal as a complex one, as ditfft2 sees a float array. */
  function Complexify(frame: seq<real>): (c: seq<Complex>)
    ensures |c| == |frame|
  {
    seq(|frame|, j requires 0 <= j < |frame| => OfReal(frame[j]))
  }

  /** Number of bins kept per frame: window // 2 + 1. */
  function Bins(window: nat): nat { window / 2 + 1 }

  /** The magnitudes of the first window//2 + 1 DFT bins of a frame. */
  function MagnitudeColumn(frame: seq<real>, window: nat, root: Complex, abs: Complex -> real): (col: seq<real>)
    ensures |col| == Bins(window)
  {
    seq(Bins(window), k requires 0 <= k < Bins(window) => abs(Dft(Complexify(frame), root, k)))
  }

  /** All columns have the given length. */
  predicate Rectangular(cols: seq<seq<real>>, width: nat)
  {
    forall i :: 0 <= i < |cols| ==> |cols[i]| == width
  }

  /**
   * np.array(columns).T: rows become columns. An empty list of columns gives
   * an empty result.
   */
  function Transpose(cols: seq<seq<real>>, width: nat): (rows: seq<seq<real>>)
    requires Rectangular(cols, width)
    ensures |cols| == 0 ==> rows == []
    ensures |cols| > 0 ==> |rows| == width
    ensures forall b :: 0 <= b < |rows| ==> |rows[b]| == |cols|
    ensures forall b, i :: 0 <= b < |rows| && 0 <= i < |cols| ==> rows[b][i] == cols[i][b]
  {
    if |cols| == 0 then []
    else seq(width, b requires 0 <= b < width => seq(|cols|, i requires 0 <= i < |cols| => cols[i][b]))
  }

  /** Frame i: samples [i*step, i*step + window) (a clamped slice, as in Python). */
  function FrameAt(audio: seq<real>, window: nat, step: nat, i: nat): seq<real>
  {
    Slice(audio, i * step, i * step + window)
  }

  /** The column list the loop of audio_to_spectrogram builds, in frame order. */
  function Columns(audio: seq<real>, window: nat, overlap: int, root: Complex, abs: Complex -> real): (cols: seq<seq<real>>)
    requires overlap < window
    ensures |cols| == FrameCount(|audio|, window, window - overlap)
    ensures Rectangular(cols, Bins(window))
  {
    var step := window - overlap;
    seq(FrameCount(|audio|, window, step),
        i requires 0 <= i => MagnitudeColumn(FrameAt(audio, window, step, i), window, root, abs))
  }

  /** The spectrogram: rows are bins, columns are frames. */
  function Spectrogram(audio: seq<real>, window: nat, overlap: int, root: Complex, abs: Complex -> real): seq<seq<real>>
    requires overlap < window
  {
    Transpose(Columns(audio, window, overlap, root, abs), Bins(window))
  }

  /**
   * audio_to_spectrogram(audio, window, overlap, ditfft2): an overlap equal
   * to the window makes the frame count divide by zero; otherwise the column
   * list is built frame by frame, calling the radix-2 transform with stride 1
   * on each frame, and returned transposed.
   */
  method AudioToSpectrogram(audio: seq<real>, window: nat, overlap: int, root: Complex, abs: Complex -> real)
    returns (result: Result<seq<seq<real>>, StftError>)
    requires IsPowerOfTwo(window) && IsHalfTurnRoot(root, window) && overlap <= window
    ensures result.Err? <==> overlap == window
    ensures result.Ok? ==> overlap < window && result.value == Spectrogram(audio, window, overlap, root, abs)
  {
    var step := window - overlap;
    if step == 0 {
      return Err(ZeroDivisionError);
    }
    var count := FrameCount(|audio|, window, step);
    ghost var expected := Columns(audio, window, overlap, root, abs);
    var columns: seq<seq<real>> := [];
    for i := 0 to count
      invariant columns == expected[..i]
    {
      FrameInside(|audio|, window, step, i);
      var start := i * step;
      var frame := audio[start..start + window];
      assert frame == FrameAt(audio, window, step, i);
      var x := Complexify(frame);
      GatherPrefix(x, window);
      assert x[..window] == x;
      var spectrum := DitFft2(x, window, 1, root);
      var magnitude := seq(Bins(window), k requires 0 <= k < Bins(window) => abs(spectrum[k]));
      assert magnitude == expected[i];
      columns := columns + [magnitude];
    }
    assert columns == expected;
    return Ok(Transpose(columns, Bins(window)));
  }

  /**
   * What the spectrogram holds: one column per scheduled frame, in frame
   * order; the entry in row b and column i is the modulus of bin b of the DFT
   * of frame i, which lies wholly inside the signal. With a modulus the
   * entries are non-negative. A signal shorter than one window gives an
   * empty spectrogram, not an error.
   */
  lemma {:induction false} SpectrogramEntries(audio: seq<real>, window: nat, overlap: int, root: Complex, abs: Complex -> real,
                           b: nat, i: nat)
    requires overlap < window
    requires b < Bins(window) && i < FrameCount(|audio|, window, window - overlap)
    ensures var s := Spectrogram(audio, window, overlap, root, abs);
            |s| == Bins(window) && |s[b]| == FrameCount(|audio|, window, window - overlap) &&
            i * (window - overlap) + window <= |audio| &&
            s[b][i] == abs(Dft(Complexify(audio[i * (window - overlap)..i * (window - overlap) + window]), root, b)) &&
            (IsModulus(abs) ==> 0.0 <= s[b][i])
  {
    var step := window - overlap;
    FrameInside(|audio|, window, step, i);
    assert FrameAt(audio, window, step, i) == audio[i * step..i * step + window];
  }

  /** Too short a signal yields no columns at all, rather than an error. */
  lemma {:induction false} ShortAudioGivesEmptySpectrogram(audio: seq<real>, window: nat, overlap: int, root: Complex, abs: Complex -> real)
    requires overlap < window
    ensures |audio| < window <==> Spectrogram(audio, window, overlap, root, abs) == []
  {
    FrameSchedule(|audio|, window, window - overlap);
  }
}
