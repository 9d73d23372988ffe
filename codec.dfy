/**
 * The arithmetic of save_spectrogram and load_spectrogram in code/fft/fft.py:
 * the spectrogram goes to a log scale 10*log10(v + 1e-6), is shifted and
 * scaled affinely so that its minimum maps to 0 and its maximum to 255, and is
 * truncated to 8-bit pixels; loading scales the pixels back with the stored
 * minimum and maximum and undoes the logarithm.
 *
 * log10 and 10**x are the parameters `log10` and `exp10`; the PNG file and its
 * text metadata are not modelled (the minimum and maximum are carried in the
 * Image value, which matches Python's exact float-to-text round trip).
 */
module SpectrogramCodec {

  /** The 1e-6 added before taking the logarithm and subtracted after undoing it. */
  const Epsilon: real := 0.000001

  /** An 8-bit image with the log-scale minimum and maximum stored beside it. */
  datatype Image = Image(pixels: seq<seq<int>>, lo: real, hi: real)

  /**
   * What save_spectrogram produces. An empty spectrogram makes numpy's min()
   * raise ValueError. When every log value is the same, the code divides zero
   * by zero (there is no guard) and the pixels are casts of NaN.
   */
  datatype Saved = Saved(image: Image) | EmptySpectrogram | ZeroOverZero(level: real)

  function LogLevel(v: real, log10: real -> real): real
  {
    10.0 * log10(v + Epsilon)
  }

  function LogScale(s: seq<seq<real>>, log10: real -> real): (l: seq<seq<real>>)
    ensures |l| == |s|
    ensures forall b :: 0 <= b < |s| ==> |l[b]| == |s[b]|
    ensures forall b, i :: 0 <= b < |s| && 0 <= i < |s[b]| ==> l[b][i] == LogLevel(s[b][i], log10)
  {
    seq(|s|, b requires 0 <= b < |s| =>
      seq(|s[b]|, i requires 0 <= i < |s[b]| => LogLevel(s[b][i], log10)))
  }

  /** All entries of a matrix, row after row. */
  function Flatten(m: seq<seq<real>>): (f: seq<real>)
    ensures forall b, i :: 0 <= b < |m| && 0 <= i < |m[b]| ==> m[b][i] in f
    ensures forall v :: v in f ==> exists b, i :: 0 <= b < |m| && 0 <= i < |m[b]| && m[b][i] == v
  {
    if |m| == 0 then []
    else
      var rest := Flatten(m[1..]);
      assert forall b, i :: 1 <= b < |m| && 0 <= i < |m[b]| ==> m[1..][b - 1][i] == m[b][i];
      m[0] + rest
  }

  /** The smallest entry: numpy's min(). */
  function Minimum(v: seq<real>): (lo: real)
    requires |v| > 0
    ensures lo in v && forall x :: x in v ==> lo <= x
  {
    if |v| == 1 then v[0]
    else
      var m := Minimum(v[1..]);
      assert forall x :: x in v ==> x == v[0] || x in v[1..];
      if v[0] <= m then v[0] else m
  }

  /** The largest entry: numpy's max(). */
  function Maximum(v: seq<real>): (hi: real)
    requires |v| > 0
    ensures hi in v && forall x :: x in v ==> x <= hi
  {
    if |v| == 1 then v[0]
    else
      var m := Maximum(v[1..]);
      assert forall x :: x in v ==> x == v[0] || x in v[1..];
      if v[0] >= m then v[0] else m
  }

  /** (v - lo) / (hi - lo) * 255: the value before the cast to uint8. */
  function Normalise(v: real, lo: real, hi: real): real
    requires lo != hi
  {
    (v - lo) / (hi - lo) * 255.0
  }

  /** q / 255 * (hi - lo) + lo: load_spectrogram's scaling of a pixel back to a log level. */
  function Level(q: real, lo: real, hi: real): real
  {
    q / 255.0 * (hi - lo) + lo
  }

  /** astype(np.uint8) on a value in [0, 255]: truncation toward zero. */
  function Truncate(r: real): int
  {
    r.Floor
  }

  /** 10 ** (level / 10) - 1e-6: the inverse of the log scale. */
  function Restore(level: real, exp10: real -> real): real
  {
    exp10(level / 10.0) - Epsilon
  }

  /** save_spectrogram's arithmetic: log scale, affine normalisation to [0, 255], truncation. */
  function Quantise(s: seq<seq<real>>, log10: real -> real): Saved
  {
    var l := LogScale(s, log10);
    var flat := Flatten(l);
    if |flat| == 0 then EmptySpectrogram
    else
      var lo := Minimum(flat);
      var hi := Maximum(flat);
      if lo == hi then ZeroOverZero(lo)
      else
        Saved(Image(
          seq(|l|, b requires 0 <= b < |l| =>
            seq(|l[b]|, i requires 0 <= i < |l[b]| => Truncate(Normalise(l[b][i], lo, hi)))),
          lo, hi))
  }

  /** load_spectrogram's arithmetic: pixels back to log levels, then to linear values. */
  function Dequantise(image: Image, exp10: real -> real): (s: seq<seq<real>>)
    ensures |s| == |image.pixels|
    ensures forall b :: 0 <= b < |s| ==> |s[b]| == |image.pixels[b]|
  {
    seq(|image.pixels|, b requires 0 <= b < |image.pixels| =>
      seq(|image.pixels[b]|, i requires 0 <= i < |image.pixels[b]| =>
        Restore(Level(image.pixels[b][i] as real, image.lo, image.hi), exp10)))
  }

  /** Inside [lo, hi] the normalised value lies in [0, 255]; lo maps to 0 and hi to 255. */
  lemma NormaliseRange(v: real, lo: real, hi: real)
    requires lo < hi
    ensures Normalise(lo, lo, hi) == 0.0 && Normalise(hi, lo, hi) == 255.0
    ensures lo <= v <= hi ==> 0.0 <= Normalise(v, lo, hi) <= 255.0
  {
    var d := hi - lo;
    assert (hi - lo) / d == 1.0;
    if lo <= v <= hi {
      var f := (v - lo) / d;
      assert f * d == v - lo;
      assert 0.0 <= f <= 1.0;
    }
  }

  /** Before truncation, dequantisation is the exact inverse of normalisation. */
  lemma LevelInvertsNormalise(v: real, lo: real, hi: real)
    requires lo != hi
    ensures Level(Normalise(v, lo, hi), lo, hi) == v
  {
    var d := hi - lo;
    var f := (v - lo) / d;
    assert f * d == v - lo;
    assert f * 255.0 / 255.0 == f;
  }

  /** The share a/255 of the range d. */
  function Fraction(a: real, d: real): real { a / 255.0 * d }

  lemma LevelDifference(n: real, q: real, lo: real, hi: real)
    ensures Level(n, lo, hi) - Level(q, lo, hi) == Fraction(n - q, hi - lo)
  {
    assert n / 255.0 - q / 255.0 == (n - q) / 255.0;
    assert n / 255.0 * (hi - lo) - q / 255.0 * (hi - lo) == (n / 255.0 - q / 255.0) * (hi - lo);
  }

  lemma FractionBound(a: real, d: real)
    requires 0.0 <= a < 1.0 && d > 0.0
    ensures 0.0 <= Fraction(a, d) < d / 255.0
  {
    assert a / 255.0 * d == (a * d) / 255.0;
    assert a * d < d;
  }

  /**
   * With truncation to a whole pixel value the recovered log level never
   * exceeds the original and falls short of it by less than (hi - lo) / 255.
   */
  lemma TruncationError(v: real, lo: real, hi: real)
    requires lo < hi && lo <= v <= hi
    ensures var r := Level(Truncate(Normalise(v, lo, hi)) as real, lo, hi);
            r <= v && v - r < (hi - lo) / 255.0
  {
    var n := Normalise(v, lo, hi);
    var q := Truncate(n) as real;
    assert q <= n < q + 1.0;
    LevelInvertsNormalise(v, lo, hi);
    LevelDifference(n, q, lo, hi);
    FractionBound(n - q, hi - lo);
  }

  /**
   * Without truncation, loading what was saved restores the linear value,
   * whenever 10**x undoes log10 at v + 1e-6.
   */
  lemma RestoreInvertsLogScale(v: real, lo: real, hi: real, log10: real -> real, exp10: real -> real)
    requires lo != hi && exp10(log10(v + Epsilon)) == v + Epsilon
    ensures Restore(Level(Normalise(LogLevel(v, log10), lo, hi), lo, hi), exp10) == v
  {
    LevelInvertsNormalise(LogLevel(v, log10), lo, hi);
    assert LogLevel(v, log10) / 10.0 == log10(v + Epsilon);
  }

  /**
   * What save_spectrogram's arithmetic promises: an empty spectrogram is an
   * error; a constant one divides zero by zero; otherwise the image has the
   * spectrogram's shape, stores the minimum and maximum log level, every
   * pixel is the truncated normalised level and lies in [0, 255], and the
   * levels lo and hi become pixels 0 and 255.
   */
  lemma {:induction false} QuantiseSpec(s: seq<seq<real>>, log10: real -> real)
    ensures var l := LogScale(s, log10);
            var flat := Flatten(l);
            match Quantise(s, log10)
            case EmptySpectrogram => |flat| == 0
            case ZeroOverZero(level) => |flat| > 0 && forall x :: x in flat ==> x == level
            case Saved(img) =>
              |flat| > 0 && img.lo == Minimum(flat) && img.hi == Maximum(flat) && img.lo < img.hi &&
              |img.pixels| == |s| &&
              (forall b :: 0 <= b < |s| ==> |img.pixels[b]| == |s[b]|) &&
              (forall b, i :: 0 <= b < |s| && 0 <= i < |s[b]| ==>
                 img.pixels[b][i] == Truncate(Normalise(l[b][i], img.lo, img.hi)) &&
                 0 <= img.pixels[b][i] <= 255 &&
                 (l[b][i] == img.lo ==> img.pixels[b][i] == 0) &&
                 (l[b][i] == img.hi ==> img.pixels[b][i] == 255))
  {
    var l := LogScale(s, log10);
    var flat := Flatten(l);
    if |flat| > 0 {
      var lo := Minimum(flat);
      var hi := Maximum(flat);
      if lo == hi {
        assert forall x :: x in flat ==> lo <= x <= hi;
      } else {
        assert lo < hi;
        forall b, i | 0 <= b < |s| && 0 <= i < |s[b]|
          ensures 0 <= Truncate(Normalise(l[b][i], lo, hi)) <= 255
          ensures l[b][i] == lo ==> Truncate(Normalise(l[b][i], lo, hi)) == 0
          ensures l[b][i] == hi ==> Truncate(Normalise(l[b][i], lo, hi)) == 255
        {
          assert l[b][i] in flat;
          NormaliseRange(l[b][i], lo, hi);
        }
      }
    }
  }

  /**
   * What load_spectrogram recovers from what save_spectrogram wrote: the
   * loaded spectrogram has the original's shape; each entry is 10**(x/10) -
   * 1e-6 of the pixel's log level x, and that level is at most the original
   * log value and less than (hi - lo)/255 below it.
   */
  lemma {:induction false} DequantiseError(s: seq<seq<real>>, log10: real -> real, exp10: real -> real, img: Image)
    requires Quantise(s, log10) == Saved(img)
    ensures var l := LogScale(s, log10);
            var loaded := Dequantise(img, exp10);
            |loaded| == |s| && (forall b :: 0 <= b < |s| ==> |loaded[b]| == |s[b]|) &&
            forall b, i :: 0 <= b < |s| && 0 <= i < |s[b]| ==>
              var level := Level(img.pixels[b][i] as real, img.lo, img.hi);
              loaded[b][i] == Restore(level, exp10) &&
              level <= l[b][i] < level + (img.hi - img.lo) / 255.0
  {
    QuantiseSpec(s, log10);
    var l := LogScale(s, log10);
    var flat := Flatten(l);
    forall b, i | 0 <= b < |s| && 0 <= i < |s[b]|
      ensures var level := Level(img.pixels[b][i] as real, img.lo, img.hi);
              level <= l[b][i] < level + (img.hi - img.lo) / 255.0
    {
      assert l[b][i] in flat;
      TruncationError(l[b][i], img.lo, img.hi);
    }
  }
}
