/**
 * The hand-written radix-2 decimation-in-time FFT of code/fft/fft.py and the
 * inverse built from it by conjugation.
 *
 * The transform reads the `n` elements x[0], x[s], ..., x[(n-1)s] of its input
 * (size `n`, stride `s`). The twiddle factor exp(-2πik/n) is not computable in
 * Dafny's reals, so the caller passes `root`, standing for exp(-2πi/n); the k-th
 * twiddle is root^k, and the half-size calls receive root*root, which is
 * exp(-2πi/(n/2)). The only fact about exp the proofs use is that the
 * (n/2)-th power of exp(-2πi/n) is -1 (IsHalfTurnRoot).
 */
module FftEngine {
  import opened ComplexArith

  predicate IsPowerOfTwo(n: nat)
  {
    if n <= 1 then n == 1 else n % 2 == 0 && IsPowerOfTwo(n / 2)
  }

  /** `root` behaves as exp(-2πi/n): half-way round the circle it reaches -1. */
  predicate IsHalfTurnRoot(root: Complex, n: nat)
  {
    n >= 2 ==> Pow(root, n / 2) == Neg(One)
  }

  /**
   * Every element x[j*s] with j < n exists. Stated by following the recursion
   * of the transform, which steps to x[s:] rather than computing j*s.
   */
  predicate Addressable(x: seq<Complex>, n: nat, s: nat)
    decreases n
  {
    n == 0 || (0 < |x| && (n == 1 || (s <= |x| && Addressable(x[s..], n - 1, s))))
  }

  /** The n elements the transform addresses, in order: x[0], x[s], ..., x[(n-1)s]. */
  function Gather(x: seq<Complex>, n: nat, s: nat): (g: seq<Complex>)
    requires Addressable(x, n, s)
    ensures |g| == n
    decreases n
  {
    if n == 0 then []
    else if n == 1 then [x[0]]
    else [x[0]] + Gather(x[s..], n - 1, s)
  }

  /** Element j of the gathered sequence is x[j*s]: nothing else is read. */
  lemma {:induction false} GatherElement(x: seq<Complex>, n: nat, s: nat, j: nat)
    requires Addressable(x, n, s) && j < n
    ensures j * s < |x| && Gather(x, n, s)[j] == x[j * s]
    decreases n
  {
    if j > 0 {
      var i: nat := j - 1;
      var rest := x[s..];
      GatherElement(rest, n - 1, s, i);
      NextMultiple(i, s);
      var k := i * s;
      assert Gather(x, n, s)[j] == Gather(rest, n - 1, s)[i];
      assert rest[k] == x[s + k];
    }
  }

  lemma NextMultiple(i: nat, s: nat)
    ensures (i + 1) * s == s + i * s
  {
  }

  /** With stride 1 the transform reads the first n elements, in order. */
  lemma {:induction false} GatherPrefix(x: seq<Complex>, n: nat)
    requires n <= |x|
    ensures Addressable(x, n, 1) && Gather(x, n, 1) == x[..n]
    decreases n
  {
    if n >= 2 {
      GatherPrefix(x[1..], n - 1);
      assert [x[0]] + x[1..][..n - 1] == x[..n];
    }
  }

  /** The polynomial with coefficients y[0..n) evaluated at w: the sum over j < n of y[j]*w^j. */
  function Poly(y: seq<Complex>, w: Complex, n: nat): Complex
    requires n <= |y|
  {
    if n == 0 then Zero
    else Add(Poly(y, w, n - 1), Mul(y[n - 1], Pow(w, n - 1)))
  }

  /**
   * Bin k of the discrete Fourier transform of y with root r: the sum over
   * j of y[j]*r^(jk), written as the polynomial of y evaluated at r^k.
   */
  function Dft(y: seq<Complex>, r: Complex, k: nat): Complex
  {
    Poly(y, Pow(r, k), |y|)
  }

  function Evens(y: seq<Complex>): (e: seq<Complex>)
    ensures |e| == |y| / 2
  {
    seq(|y| / 2, j requires 0 <= j < |y| / 2 => y[2 * j])
  }

  function Odds(y: seq<Complex>): (o: seq<Complex>)
    ensures |o| == |y| / 2
  {
    seq(|y| / 2, j requires 0 <= j < |y| / 2 => y[2 * j + 1])
  }

  /** Splitting the sum into even and odd terms: P(w) == E(w*w) + w * O(w*w). */
  lemma {:induction false} EvenOddSplit(y: seq<Complex>, w: Complex, m: nat)
    requires 2 * m <= |y|
    ensures Poly(y, w, 2 * m)
         == Add(Poly(Evens(y), Mul(w, w), m), Mul(w, Poly(Odds(y), Mul(w, w), m)))
  {
    var ww := Mul(w, w);
    if m == 0 {
      MulZero(w);
    } else {
      var p: nat := m - 1;
      EvenOddSplit(y, w, p);
      var e0 := Poly(Evens(y), ww, p);
      var o0 := Poly(Odds(y), ww, p);
      var q := Pow(ww, p);
      var ie: nat := 2 * p;
      var io: nat := 2 * p + 1;
      PowSquare(w, p);
      assert Pow(w, ie) == q;
      assert Pow(w, io) == Mul(w, q);
      var a := y[io];
      MulAssoc(a, w, q);
      MulComm(a, w);
      MulAssoc(w, a, q);
      assert Mul(a, Pow(w, io)) == Mul(w, Mul(a, q));
      assert Poly(y, w, 2 * m)
          == Add(Add(Poly(y, w, ie), Mul(y[ie], Pow(w, ie))), Mul(a, Pow(w, io)));
      assert Evens(y)[p] == y[ie] && Odds(y)[p] == a;
      assert Poly(Evens(y), ww, m) == Add(e0, Mul(y[ie], q));
      assert Poly(Odds(y), ww, m) == Add(o0, Mul(a, q));
      MulAddDistrib(w, o0, Mul(a, q));
    }
  }

  lemma {:induction false} SplitPair(a: Complex, b: Complex, rest: seq<Complex>)
    ensures Evens([a, b] + rest) == [a] + Evens(rest)
    ensures Odds([a, b] + rest) == [b] + Odds(rest)
  {
    var y := [a, b] + rest;
    assert forall j :: 0 <= j < |rest| / 2 ==> y[2 * j + 2] == rest[2 * j] && y[2 * j + 3] == rest[2 * j + 1];
  }

  /** The even and odd halves of an addressable stride are addressable with twice the stride. */
  lemma {:induction false} AddressableHalves(x: seq<Complex>, m: nat, s: nat)
    requires m >= 1 && Addressable(x, 2 * m, s)
    ensures s <= |x| && Addressable(x, m, 2 * s) && Addressable(x[s..], m, 2 * s)
    decreases m
  {
    var x1 := x[s..];
    assert Addressable(x1, 2 * m - 1, s);
    if m > 1 {
      var x2 := x1[s..];
      assert Addressable(x2, 2 * (m - 1), s);
      AddressableHalves(x2, m - 1, s);
      assert x[2 * s..] == x2;
      assert x1[2 * s..] == x2[s..];
    }
  }

  /** The first two addressed elements, then the rest from x[2s:]. */
  lemma GatherTwoSteps(x: seq<Complex>, k: nat, s: nat)
    requires k >= 1 && Addressable(x, k + 2, s)
    ensures 2 * s <= |x| && Addressable(x[2 * s..], k, s)
    ensures Gather(x, k + 2, s) == [x[0], x[s]] + Gather(x[2 * s..], k, s)
  {
    GatherStep(x, k + 2, s);
    var x1 := x[s..];
    GatherStep(x1, k + 1, s);
    DropTwice(x, s);
    PrependTwo(x[0], x1[0], Gather(x1[s..], k, s));
  }

  lemma PrependTwo<T>(a: T, b: T, rest: seq<T>)
    ensures [a] + ([b] + rest) == [a, b] + rest
  {
  }

  /** The two elements addressed at size 2. */
  lemma GatherPair(x: seq<Complex>, s: nat)
    requires Addressable(x, 2, s)
    ensures s < |x| && Gather(x, 2, s) == [x[0], x[s]]
  {
    GatherStep(x, 2, s);
    var x1 := x[s..];
    assert Gather(x1, 1, s) == [x1[0]];
  }

  /** One step of the recursion: x[0], then the stride from x[s:]. */
  lemma GatherStep(x: seq<Complex>, n: nat, s: nat)
    requires n >= 2 && Addressable(x, n, s)
    ensures s <= |x| && Addressable(x[s..], n - 1, s) && Gather(x, n, s) == [x[0]] + Gather(x[s..], n - 1, s)
  {
  }

  lemma DropTwice<T>(x: seq<T>, s: nat)
    requires s <= |x| && s <= |x[s..]|
    ensures x[s..][s..] == x[2 * s..]
  {
  }

  /** Taking every other element of a stride gives the stride of twice the step. */
  lemma {:induction false} GatherHalves(x: seq<Complex>, m: nat, s: nat)
    requires m >= 1 && Addressable(x, 2 * m, s)
    ensures s <= |x| && Addressable(x, m, 2 * s) && Addressable(x[s..], m, 2 * s)
    ensures Evens(Gather(x, 2 * m, s)) == Gather(x, m, 2 * s)
    ensures Odds(Gather(x, 2 * m, s)) == Gather(x[s..], m, 2 * s)
    decreases m
  {
    AddressableHalves(x, m, s);
    if m == 1 {
      GatherPair(x, s);
      SplitPair(x[0], x[s], []);
      assert [x[0], x[s]] + [] == [x[0], x[s]];
    } else {
      var k: nat := 2 * (m - 1);
      assert 2 * m == k + 2;
      GatherTwoSteps(x, k, s);
      var x2 := x[2 * s..];
      GatherHalves(x2, m - 1, s);
      SplitPair(x[0], x[s], Gather(x2, 2 * (m - 1), s));
      assert x[s..][2 * s..] == x2[s..];
    }
  }

  /** The butterfly step of the transform agrees with the DFT of the whole input. */
  lemma {:induction false} Butterfly(x: seq<Complex>, n: nat, s: nat, root: Complex, k: nat)
    requires n >= 2 && n % 2 == 0 && Addressable(x, n, s) && IsHalfTurnRoot(root, n)
    requires k < n / 2
    ensures s <= |x| && Addressable(x, n / 2, 2 * s) && Addressable(x[s..], n / 2, 2 * s)
    ensures Dft(Gather(x, n, s), root, k)
         == Add(Dft(Gather(x, n / 2, 2 * s), Mul(root, root), k),
                Mul(Pow(root, k), Dft(Gather(x[s..], n / 2, 2 * s), Mul(root, root), k)))
    ensures Dft(Gather(x, n, s), root, k + n / 2)
         == Sub(Dft(Gather(x, n / 2, 2 * s), Mul(root, root), k),
                Mul(Pow(root, k), Dft(Gather(x[s..], n / 2, 2 * s), Mul(root, root), k)))
  {
    var h := n / 2;
    assert n == 2 * h;
    GatherHalves(x, h, s);
    var y := Gather(x, n, s);
    var ye := Gather(x, h, 2 * s);
    var yo := Gather(x[s..], h, 2 * s);
    var rr := Mul(root, root);
    var w := Pow(root, k);
    var ww := Mul(w, w);
    // (root*root)^k == w*w
    PowSquare(root, k);
    PowAdd(root, k, k);
    assert Pow(rr, k) == ww;
    var e := Poly(ye, ww, h);
    var o := Poly(yo, ww, h);
    assert Dft(ye, rr, k) == e;
    assert Dft(yo, rr, k) == o;
    assert |y| == n && Evens(y) == ye && Odds(y) == yo;
    EvenOddSplit(y, w, h);
    assert Poly(y, w, 2 * h) == Add(e, Mul(w, o));
    assert Dft(y, root, k) == Poly(y, w, 2 * h);
    // root^(k + n/2) == -w, and (-w)*(-w) == w*w
    HalfTurn(root, h, k);
    var v := Pow(root, k + h);
    assert v == Neg(w);
    MulNegNeg(w);
    assert Mul(v, v) == ww;
    EvenOddSplit(y, v, h);
    assert Poly(y, v, 2 * h) == Add(e, Mul(v, o));
    assert Dft(y, root, k + h) == Poly(y, v, 2 * h);
    MulNegLeft(w, o);
    AddNeg(e, Mul(w, o));
  }

  /** The transform of a single element is that element. */
  lemma {:induction false} SingleDft(x: seq<Complex>, s: nat, r: Complex)
    requires Addressable(x, 1, s)
    ensures Dft(Gather(x, 1, s), r, 0) == x[0] && Dft(Gather(x, 1, s), Conj(r), 0) == x[0]
  {
    MulOne(x[0]);
    var g := Gather(x, 1, s);
    assert g == [x[0]];
    assert Poly(g, One, 1) == Add(Zero, Mul(x[0], Pow(One, 0)));
  }

  /** Halving the size: root*root is a half-turn root for n/2 and n/2 is a power of two. */
  lemma {:induction false} SquaredRoot(root: Complex, h: nat)
    requires h >= 1 && IsPowerOfTwo(2 * h) && IsHalfTurnRoot(root, 2 * h)
    ensures IsPowerOfTwo(h) && IsHalfTurnRoot(Mul(root, root), h)
  {
    assert (2 * h) / 2 == h;
    if h >= 2 {
      assert h % 2 == 0;
      PowSquare(root, h / 2);
      assert 2 * (h / 2) == h;
    }
  }

  /**
   * ditfft2(x, N, s): the DFT of x[0], x[s], ..., x[(N-1)s], computed by
   * transforming the even half (same origin, stride 2s) and the odd half
   * (origin advanced by s, stride 2s) and combining them in a loop that fills
   * a fresh array.
   */
  method DitFft2(x: seq<Complex>, n: nat, s: nat, root: Complex) returns (out: seq<Complex>)
    requires IsPowerOfTwo(n) && Addressable(x, n, s) && IsHalfTurnRoot(root, n)
    ensures |out| == n
    ensures forall k :: 0 <= k < n ==> out[k] == Dft(Gather(x, n, s), root, k)
    decreases n
  {
    if n == 1 {
      SingleDft(x, s, root);
      return [x[0]];
    }
    var h := n / 2;
    var rr := Mul(root, root);
    AddressableHalves(x, h, s);
    SquaredRoot(root, h);
    var even := DitFft2(x, h, 2 * s, rr);
    var odd := DitFft2(x[s..], h, 2 * s, rr);
    var twiddles := seq(h, k requires 0 <= k < h => Pow(root, k));
    out := Combine(even, odd, twiddles);
    forall k | 0 <= k < n
      ensures out[k] == Dft(Gather(x, n, s), root, k)
    {
      if k < h {
        Butterfly(x, n, s, root, k);
      } else {
        Butterfly(x, n, s, root, k - h);
      }
    }
  }

  /**
   * The combining loop of ditfft2: a fresh array of twice the length whose
   * k-th entry is even[k] + t*odd[k] and whose (k+N/2)-th entry is
   * even[k] - t*odd[k], with t the k-th twiddle factor.
   */
  method Combine(even: seq<Complex>, odd: seq<Complex>, twiddles: seq<Complex>) returns (out: seq<Complex>)
    requires |even| == |odd| == |twiddles|
    ensures |out| == 2 * |even|
    ensures forall k :: 0 <= k < |even| ==> out[k] == Add(even[k], Mul(twiddles[k], odd[k]))
    ensures forall k :: |even| <= k < |out| ==>
              out[k] == Sub(even[k - |even|], Mul(twiddles[k - |even|], odd[k - |even|]))
  {
    var h := |even|;
    var arr := new Complex[2 * h];
    for k := 0 to h
      invariant forall j :: 0 <= j < k ==> arr[j] == Add(even[j], Mul(twiddles[j], odd[j]))
      invariant forall j :: h <= j < h + k ==> arr[j] == Sub(even[j - h], Mul(twiddles[j - h], odd[j - h]))
    {
      var t := Mul(twiddles[k], odd[k]);
      arr[k] := Add(even[k], t);
      arr[k + h] := Sub(even[k], t);
    }
    out := arr[..];
  }

  function ConjAll(y: seq<Complex>): (c: seq<Complex>)
    ensures |c| == |y|
  {
    seq(|y|, i requires 0 <= i < |y| => Conj(y[i]))
  }

  /** Conjugating the coefficients and the value of a polynomial conjugates its argument. */
  lemma {:induction false} ConjPoly(y: seq<Complex>, w: Complex, n: nat)
    requires n <= |y|
    ensures Conj(Poly(ConjAll(y), w, n)) == Poly(y, Conj(w), n)
  {
    if n > 0 {
      var j: nat := n - 1;
      ConjPoly(y, w, j);
      ConjMul(Conj(y[j]), Pow(w, j));
      ConjPow(w, j);
    }
  }

  lemma {:induction false} GatherConj(x: seq<Complex>, n: nat, s: nat)
    requires Addressable(x, n, s)
    ensures Addressable(ConjAll(x), n, s)
    ensures Gather(ConjAll(x), n, s) == ConjAll(Gather(x, n, s))
    decreases n
  {
    if n >= 2 {
      assert ConjAll(x)[s..] == ConjAll(x[s..]);
      GatherConj(x[s..], n - 1, s);
    }
  }

  /** The inverse DFT: the DFT with the conjugate root, each bin divided by the length. */
  function InverseDft(y: seq<Complex>, root: Complex): (z: seq<Complex>)
    requires |y| > 0
    ensures |z| == |y|
  {
    seq(|y|, k requires 0 <= k < |y| => DivReal(Dft(y, Conj(root), k), |y| as real))
  }

  /**
   * inverse_ditfft2(X, N, s): conjugate, run the forward transform once,
   * conjugate back and divide by N once. The result is the inverse DFT:
   * the DFT with the conjugate root, divided by N.
   */
  method InverseDitFft2(spectrum: seq<Complex>, n: nat, s: nat, root: Complex) returns (out: seq<Complex>)
    requires IsPowerOfTwo(n) && Addressable(spectrum, n, s) && IsHalfTurnRoot(root, n)
    ensures out == InverseDft(Gather(spectrum, n, s), root)
    ensures n == 1 ==> out == [spectrum[0]]
  {
    if n == 1 {
      SingleDft(spectrum, s, root);
      assert DivReal(spectrum[0], 1.0) == spectrum[0];
      return [spectrum[0]];
    }
    var conjugated := ConjAll(spectrum);
    GatherConj(spectrum, n, s);
    var transformed := DitFft2(conjugated, n, s, root);
    out := seq(n, k requires 0 <= k < n => DivReal(Conj(transformed[k]), n as real));
    forall k | 0 <= k < n
      ensures out[k] == DivReal(Dft(Gather(spectrum, n, s), Conj(root), k), n as real)
    {
      ConjPoly(Gather(spectrum, n, s), Pow(root, k), n);
      ConjPow(root, k);
    }
  }

  /** The geometric sum 1 + w + w^2 + ... + w^(n-1). */
  function Geo(w: Complex, n: nat): Complex
  {
    if n == 0 then Zero else Add(Geo(w, n - 1), Pow(w, n - 1))
  }

  /** A geometric sum of a + b terms is the first a terms plus w^a times the next b. */
  lemma {:induction false} GeoSplit(w: Complex, a: nat, b: nat)
    ensures Geo(w, a + b) == Add(Geo(w, a), Mul(Pow(w, a), Geo(w, b)))
  {
    if b == 0 {
      MulZero(Pow(w, a));
    } else {
      var c: nat := b - 1;
      GeoSplit(w, a, c);
      assert Geo(w, a + b) == Add(Geo(w, a + c), Pow(w, a + c));
      PowAdd(w, a, c);
      MulAddDistrib(Pow(w, a), Geo(w, c), Pow(w, c));
    }
  }

  /** Two half turns make a full turn. */
  lemma FullTurn(root: Complex, h: nat)
    requires Pow(root, h) == Neg(One)
    ensures Pow(root, h + h) == One
  {
    PowAdd(root, h, h);
    SquareOfNegOne(Pow(root, h));
  }

  /** When w^h is -1 the second half of the sum cancels the first. */
  lemma HalvesCancel(w: Complex, h: nat)
    requires Pow(w, h) == Neg(One)
    ensures Geo(w, h + h) == Zero
  {
    GeoSplit(w, h, h);
    MulNegLeft(One, Geo(w, h));
    MulOne(Geo(w, h));
  }

  /** When w^h is 1 the second half of the sum repeats the first, doubling it. */
  lemma HalvesRepeat(w: Complex, h: nat, full: bool)
    requires Pow(w, h) == One && Geo(w, h) == if full then OfReal(h as real) else Zero
    ensures Geo(w, h + h) == if full then OfReal((h + h) as real) else Zero
  {
    GeoSplit(w, h, h);
    MulOne(Geo(w, h));
  }

  /** If root^h is -1, then (root^d)^h is (-1)^d. */
  lemma HalfTurnPower(root: Complex, h: nat, d: nat)
    requires Pow(root, h) == Neg(One)
    ensures Pow(Pow(root, d), h) == if d % 2 == 0 then One else Neg(One)
  {
    var e: nat := d * h;
    assert e == h * d;
    PowMul(root, d, h, e);
    PowMul(root, h, d, e);
    PowOfNegOne(d);
  }

  /** A one-term geometric sum is 1. */
  lemma SingleTermSum(w: Complex)
    ensures Geo(w, 1) == One
  {
    assert Pow(w, 0) == One;
    assert Geo(w, 1) == Add(Geo(w, 0), Pow(w, 0));
  }

  /** For odd d the sum of root^(dk) over a full turn cancels. */
  lemma OddFrequency(root: Complex, h: nat, d: nat)
    requires Pow(root, h) == Neg(One) && d % 2 == 1
    ensures Geo(Pow(root, d), h + h) == Zero
  {
    HalfTurnPower(root, h, d);
    HalvesCancel(Pow(root, d), h);
  }

  /** For even d = 2e the sum over a full turn is twice the sum over half a turn at root*root. */
  lemma EvenFrequency(root: Complex, h: nat, e: nat, full: bool)
    requires Pow(root, h) == Neg(One)
    requires Geo(Pow(Mul(root, root), e), h) == if full then OfReal(h as real) else Zero
    ensures Geo(Pow(root, 2 * e), h + h) == if full then OfReal((h + h) as real) else Zero
  {
    HalfTurnPower(root, h, 2 * e);
    PowSquare(root, e);
    HalvesRepeat(Pow(root, 2 * e), h, full);
  }

  /**
   * Orthogonality of the DFT basis: for 0 <= d < 2N, the sum over k < N of
   * root^(dk) is N when d is 0 or N and 0 otherwise. The proof halves N as
   * the transform does: for odd d the two halves cancel, since root^(dN/2)
   * is -1; for even d they are equal sums at the squared root.
   */
  lemma {:induction false} Orthogonality(root: Complex, n: nat, d: nat)
    requires IsPowerOfTwo(n) && IsHalfTurnRoot(root, n) && d < 2 * n
    ensures Geo(Pow(root, d), n) == if d == 0 || d == n then OfReal(n as real) else Zero
    decreases n
  {
    if n == 1 {
      SingleTermSum(Pow(root, d));
    } else {
      var h := n / 2;
      assert n == h + h;
      if d % 2 == 1 {
        OddFrequency(root, h, d);
      } else {
        var e := d / 2;
        assert d == 2 * e;
        SquaredRoot(root, h);
        Orthogonality(Mul(root, root), h, e);
        EvenFrequency(root, h, e, e == 0 || e == h);
      }
    }
  }

  /** (conj(root) * root)^h == conj(root^h) * root^h == (-1) * (-1) == 1. */
  lemma ConjProductPower(root: Complex, h: nat)
    requires Pow(root, h) == Neg(One)
    ensures Pow(Mul(Conj(root), root), h) == One
  {
    PowOfProduct(Conj(root), root, h);
    ConjPow(root, h);
    assert Pow(Conj(root), h) == Neg(One);
    SquareOfNegOne(Neg(One));
  }

  /** A non-negative real whose h-th power is 1, for h >= 1, is 1. */
  lemma RealUnitPower(p: Complex, t: real, h: nat)
    requires p == OfReal(t) && 0.0 <= t && h >= 1 && Pow(p, h) == One
    ensures p == One
  {
    PowOfReal(t, h);
    UnitRealPower(t, h);
  }

  /** A half-turn root has modulus 1: its conjugate times itself is 1. */
  lemma UnitModulus(root: Complex, h: nat)
    requires h >= 1 && Pow(root, h) == Neg(One)
    ensures Mul(Conj(root), root) == One
  {
    ConjProductPower(root, h);
    ConjTimesSelf(root);
    RealUnitPower(Mul(Conj(root), root), root.re * root.re + root.im * root.im, h);
  }

  /** Inverses are unique: a*b == 1 and c*b == 1 give a == c. */
  lemma InverseUnique(a: Complex, b: Complex, c: Complex)
    requires Mul(a, b) == One && Mul(c, b) == One
    ensures a == c
  {
    MulComm(c, b);
    MulAssoc(a, b, c);
    MulOne(a);
    MulOne(c);
  }

  /**
   * With |root| forced to 1 by the half-turn, conjugating the root inverts
   * it: conj(root)^m == root^(N-m), where N is two half turns.
   */
  lemma ConjRootPower(root: Complex, h: nat, m: nat)
    requires h >= 1 && Pow(root, h) == Neg(One) && m <= h + h
    ensures Pow(Conj(root), m) == Pow(root, h + h - m)
  {
    UnitModulus(root, h);
    PowerOfInverse(root, m);
    ComplementPower(root, h, m);
    InverseUnique(Pow(Conj(root), m), Pow(root, m), Pow(root, h + h - m));
  }

  /** If conj(z) inverts z, then conj(z)^m inverts z^m. */
  lemma PowerOfInverse(z: Complex, m: nat)
    requires Mul(Conj(z), z) == One
    ensures Mul(Pow(Conj(z), m), Pow(z, m)) == One
  {
    PowOfProduct(Conj(z), z, m);
    PowOfOne(m);
  }

  /** root^(N-m) inverts root^m when root^N is a full turn. */
  lemma ComplementPower(root: Complex, h: nat, m: nat)
    requires Pow(root, h) == Neg(One) && m <= h + h
    ensures Mul(Pow(root, h + h - m), Pow(root, m)) == One
  {
    PowAdd(root, h + h - m, m);
    FullTurn(root, h);
    assert h + h - m + m == h + h;
  }

  /** The sum over j < J of x[j] * (root^(j+c))^n: one k-term of the swapped double sum. */
  function Column(x: seq<Complex>, root: Complex, c: nat, n: nat, J: nat): Complex
    requires J <= |x|
  {
    if J == 0 then Zero else Add(Column(x, root, c, n, J - 1), Mul(x[J - 1], Pow(Pow(root, J - 1 + c), n)))
  }

  /** The sum over j < J of x[j] times the geometric sum of root^(j+c) over n terms. */
  function Mixed(x: seq<Complex>, root: Complex, c: nat, n: nat, J: nat): Complex
    requires J <= |x|
  {
    if J == 0 then Zero else Add(Mixed(x, root, c, n, J - 1), Mul(x[J - 1], Geo(Pow(root, J - 1 + c), n)))
  }

  lemma {:induction false} MixedEmpty(x: seq<Complex>, root: Complex, c: nat, J: nat)
    requires J <= |x|
    ensures Mixed(x, root, c, 0, J) == Zero
  {
    if J > 0 {
      MixedEmpty(x, root, c, J - 1);
      MulZero(x[J - 1]);
    }
  }

  lemma {:induction false} MixedStep(x: seq<Complex>, root: Complex, c: nat, n: nat, J: nat)
    requires J <= |x|
    ensures Mixed(x, root, c, n + 1, J) == Add(Mixed(x, root, c, n, J), Column(x, root, c, n, J))
  {
    if J > 0 {
      var j: nat := J - 1;
      var w := Pow(root, j + c);
      MixedStep(x, root, c, n, j);
      assert Geo(w, n + 1) == Add(Geo(w, n), Pow(w, n));
      MulAddDistrib(x[j], Geo(w, n), Pow(w, n));
    }
  }

  /** (root^n)^j * (root^c)^n == (root^(j+c))^n. */
  lemma ExponentsCombine(root: Complex, n: nat, j: nat, c: nat)
    ensures Mul(Pow(Pow(root, n), j), Pow(Pow(root, c), n)) == Pow(Pow(root, j + c), n)
  {
    var e1: nat := n * j;
    var e2: nat := c * n;
    var e3: nat := (j + c) * n;
    assert e1 + e2 == e3;
    PowMul(root, n, j, e1);
    PowMul(root, c, n, e2);
    PowAdd(root, e1, e2);
    PowMul(root, j + c, n, e3);
  }

  /** Bin n of the DFT times root^(cn) is the k = n term of the swapped sum. */
  lemma {:induction false} ColumnOfBin(x: seq<Complex>, root: Complex, c: nat, n: nat, J: nat)
    requires J <= |x|
    ensures Mul(Poly(x, Pow(root, n), J), Pow(Pow(root, c), n)) == Column(x, root, c, n, J)
  {
    var u := Pow(Pow(root, c), n);
    if J == 0 {
      MulComm(Zero, u);
      MulZero(u);
    } else {
      var j: nat := J - 1;
      var v := Pow(root, n);
      var a := x[j];
      ColumnOfBin(x, root, c, n, j);
      assert Poly(x, v, J) == Add(Poly(x, v, j), Mul(a, Pow(v, j)));
      MulAddDistribRight(Poly(x, v, j), Mul(a, Pow(v, j)), u);
      MulAssoc(a, Pow(v, j), u);
      ExponentsCombine(root, n, j, c);
    }
  }

  /** Exchanging the order of summation: sum_k X[k] root^(ck) == sum_j x[j] sum_k root^((j+c)k). */
  lemma {:induction false} SwapSums(x: seq<Complex>, spectrum: seq<Complex>, root: Complex, c: nat, n: nat)
    requires |spectrum| == |x| && n <= |x|
    requires forall k :: 0 <= k < |spectrum| ==> spectrum[k] == Dft(x, root, k)
    ensures Poly(spectrum, Pow(root, c), n) == Mixed(x, root, c, n, |x|)
  {
    if n == 0 {
      MixedEmpty(x, root, c, |x|);
    } else {
      var p: nat := n - 1;
      SwapSums(x, spectrum, root, c, p);
      ColumnOfBin(x, root, c, p, |x|);
      MixedStep(x, root, c, p, |x|);
    }
  }

  /** With c = N - m, the orthogonality sums keep x[m] alone, N times over. */
  lemma {:induction false} MixedPicks(x: seq<Complex>, root: Complex, m: nat, J: nat)
    requires IsPowerOfTwo(|x|) && IsHalfTurnRoot(root, |x|) && m < |x| && J <= |x|
    ensures Mixed(x, root, |x| - m, |x|, J) == if m < J then Mul(x[m], OfReal(|x| as real)) else Zero
  {
    if J > 0 {
      var n := |x|;
      var j: nat := J - 1;
      MixedPicks(x, root, m, j);
      Orthogonality(root, n, j + (n - m));
      if j != m {
        MulZero(x[j]);
      }
    }
  }

  /**
   * The inverse undoes the forward transform: for a power-of-two length and
   * a half-turn root, the inverse DFT of the DFT of x is x.
   */
  lemma InverseAfterForward(x: seq<Complex>, root: Complex)
    requires IsPowerOfTwo(|x|) && IsHalfTurnRoot(root, |x|)
    ensures InverseDft(seq(|x|, k requires 0 <= k < |x| => Dft(x, root, k)), root) == x
  {
    var n := |x|;
    var spectrum := seq(n, k requires 0 <= k < n => Dft(x, root, k));
    var back := InverseDft(spectrum, root);
    forall m | 0 <= m < n
      ensures back[m] == x[m]
    {
      if n == 1 {
        SingleDft(x, 1, root);
        assert Gather(x, 1, 1) == x;
        SingleDft(spectrum, 1, root);
        assert Gather(spectrum, 1, 1) == spectrum;
      } else {
        var h := n / 2;
        assert n == h + h;
        ConjRootPower(root, h, m);
        SwapSums(x, spectrum, root, n - m, n);
        MixedPicks(x, root, m, n);
        ScaleDivide(x[m], n as real);
      }
    }
  }

  /**
   * The round trip of the two procedures at stride 1: whatever ditfft2
   * returns for the first N samples, inverse_ditfft2 of it returns those
   * samples.
   */
  lemma InverseUndoesForward(x: seq<Complex>, n: nat, root: Complex, spectrum: seq<Complex>)
    requires IsPowerOfTwo(n) && Addressable(x, n, 1) && IsHalfTurnRoot(root, n)
    requires |spectrum| == n && forall k :: 0 <= k < n ==> spectrum[k] == Dft(Gather(x, n, 1), root, k)
    ensures n <= |x| && Addressable(spectrum, n, 1) && InverseDft(Gather(spectrum, n, 1), root) == x[..n]
  {
    GatherElement(x, n, 1, n - 1);
    GatherPrefix(x, n);
    GatherPrefix(spectrum, n);
    assert spectrum[..n] == spectrum;
    var y := x[..n];
    InverseAfterForward(y, root);
    assert seq(|y|, k requires 0 <= k < |y| => Dft(y, root, k)) == spectrum;
  }
}
