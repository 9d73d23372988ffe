/**
 * interpolate_pitch_contours in code/interpolator/src/interpolator/pitch.py:
 * two pitch contours are cut to the shorter length n and blended linearly,
 * sample i weighted by alpha[i] = np.linspace(0, 1, n)[i] towards the second.
 */
module PitchInterpolation {

  function MinLength(a: nat, b: nat): nat { if a <= b then a else b }

  /**
   * np.linspace(0, 1, n): n evenly spaced values from 0 to 1, both ends
   * included; a single value is 0, and n = 0 gives no values.
   */
  function Linspace(n: nat): (alpha: seq<real>)
    ensures |alpha| == n
  {
    if n == 1 then [0.0]
    else seq(n, i requires 0 <= i < n => (i as real) / ((n - 1) as real))
  }

  /** The blended contour: (1 - alpha) * a + alpha * b over the first n samples. */
  function InterpolatePitchContours(a: seq<real>, b: seq<real>): (out: seq<real>)
    ensures |out| == MinLength(|a|, |b|)
  {
    var n := MinLength(|a|, |b|);
    var alpha := Linspace(n);
    seq(n, i requires 0 <= i < n => (1.0 - alpha[i]) * a[i] + alpha[i] * b[i])
  }

  /**
   * The weights run from 0 to 1: each lies in [0, 1], the first is 0, and
   * for n >= 2 the last is 1 and weight i is i / (n - 1).
   */
  lemma LinspaceSpec(n: nat, i: nat)
    requires i < n
    ensures 0.0 <= Linspace(n)[i] <= 1.0
    ensures i == 0 ==> Linspace(n)[i] == 0.0
    ensures n >= 2 ==> Linspace(n)[i] == (i as real) / ((n - 1) as real)
    ensures n >= 2 && i == n - 1 ==> Linspace(n)[i] == 1.0
  {
    if n >= 2 {
      var d := (n - 1) as real;
      var x, y := (i as real) / d, (d - i as real) / d;
      QuotientNonNegative(i as real, d);
      QuotientNonNegative(d - i as real, d);
      assert x * d == i as real && y * d == d - i as real;
      assert (x + y - 1.0) * d == 0.0;
      ZeroProduct(x + y - 1.0, d);
      if i == n - 1 {
        assert (x - 1.0) * d == 0.0;
        ZeroProduct(x - 1.0, d);
      }
    }
  }

  lemma QuotientNonNegative(p: real, d: real)
    requires 0.0 <= p && 0.0 < d
    ensures 0.0 <= p / d
  {
  }

  lemma ZeroProduct(p: real, d: real)
    requires d != 0.0 && p * d == 0.0
    ensures p == 0.0
  {
  }

  /** A blend with a weight in [0, 1] lies between its two ends. */
  lemma BlendBetween(x: real, y: real, alpha: real)
    requires 0.0 <= alpha <= 1.0
    ensures var v := (1.0 - alpha) * x + alpha * y;
            (x <= y ==> x <= v <= y) && (y <= x ==> y <= v <= x)
  {
    var v := (1.0 - alpha) * x + alpha * y;
    assert v == x + alpha * (y - x);
    assert v == y - (1.0 - alpha) * (y - x);
    if x <= y {
      Scale(alpha, y - x);
      Scale(1.0 - alpha, y - x);
    } else {
      Scale(alpha, x - y);
      Scale(1.0 - alpha, x - y);
    }
  }

  lemma Scale(k: real, d: real)
    requires 0.0 <= k && 0.0 <= d
    ensures 0.0 <= k * d
  {
  }

  /**
   * What the blend promises: the result is as long as the shorter contour;
   * every sample lies between the two contours' samples; it starts on the
   * first contour, and for n >= 2 it ends on the second.
   */
  lemma InterpolationSpec(a: seq<real>, b: seq<real>, i: nat)
    requires i < MinLength(|a|, |b|)
    ensures var out := InterpolatePitchContours(a, b);
            (a[i] <= b[i] ==> a[i] <= out[i] <= b[i]) && (b[i] <= a[i] ==> b[i] <= out[i] <= a[i])
    ensures i == 0 ==> InterpolatePitchContours(a, b)[i] == a[i]
    ensures i == MinLength(|a|, |b|) - 1 >= 1 ==> InterpolatePitchContours(a, b)[i] == b[i]
  {
    var n := MinLength(|a|, |b|);
    var out := InterpolatePitchContours(a, b);
    var alpha := Linspace(n)[i];
    LinspaceSpec(n, i);
    BlendBetween(a[i], b[i], alpha);
    assert out[i] == (1.0 - alpha) * a[i] + alpha * b[i];
  }

  /** A single shared sample is the first contour's, because linspace(0, 1, 1) is [0]. */
  lemma SingleSample(a: seq<real>, b: seq<real>)
    requires MinLength(|a|, |b|) == 1
    ensures InterpolatePitchContours(a, b) == [a[0]]
  {
  }

  /** Equal contours come back unchanged (cut to the shorter length). */
  lemma InterpolateSame(a: seq<real>)
    ensures InterpolatePitchContours(a, a) == a
  {
    var out := InterpolatePitchContours(a, a);
    forall i | 0 <= i < |a|
      ensures out[i] == a[i]
    {
      assert out[i] == (1.0 - Linspace(|a|)[i]) * a[i] + Linspace(|a|)[i] * a[i];
    }
  }
}
