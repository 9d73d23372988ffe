/** Complex numbers as pairs of reals, with the ring laws the FFT proofs need. */
module ComplexArith {

  datatype Complex = Complex(re: real, im: real)

  const Zero: Complex := Complex(0.0, 0.0)
  const One: Complex := Complex(1.0, 0.0)

  /** A real sample seen as a complex value (numpy's cast to dtype=complex). */
  function OfReal(r: real): Complex { Complex(r, 0.0) }

  function Add(a: Complex, b: Complex): Complex { Complex(a.re + b.re, a.im + b.im) }
  function Sub(a: Complex, b: Complex): Complex { Complex(a.re - b.re, a.im - b.im) }
  function Neg(a: Complex): Complex { Complex(-a.re, -a.im) }
  function Mul(a: Complex, b: Complex): Complex {
    Complex(a.re * b.re - a.im * b.im, a.re * b.im + a.im * b.re)
  }
  function Conj(a: Complex): Complex { Complex(a.re, -a.im) }

  /** Division of a complex value by a non-zero real, as numpy's `z / N`. */
  function DivReal(a: Complex, d: real): Complex
    requires d != 0.0
  {
    Complex(a.re / d, a.im / d)
  }

  /** z to the n-th power, by repeated multiplication. */
  function Pow(z: Complex, n: nat): Complex
    decreases n
  {
    if n == 0 then One else Mul(z, Pow(z, n - 1))
  }

  lemma MulComm(a: Complex, b: Complex)
    ensures Mul(a, b) == Mul(b, a)
  {
  }

  lemma MulAssoc(a: Complex, b: Complex, c: Complex)
    ensures Mul(Mul(a, b), c) == Mul(a, Mul(b, c))
  {
    assert (a.re * b.re - a.im * b.im) * c.re - (a.re * b.im + a.im * b.re) * c.im
        == a.re * (b.re * c.re - b.im * c.im) - a.im * (b.re * c.im + b.im * c.re);
    assert (a.re * b.re - a.im * b.im) * c.im + (a.re * b.im + a.im * b.re) * c.re
        == a.re * (b.re * c.im + b.im * c.re) + a.im * (b.re * c.re - b.im * c.im);
  }

  lemma MulAddDistrib(a: Complex, b: Complex, c: Complex)
    ensures Mul(a, Add(b, c)) == Add(Mul(a, b), Mul(a, c))
  {
    assert a.re * (b.re + c.re) - a.im * (b.im + c.im)
        == (a.re * b.re - a.im * b.im) + (a.re * c.re - a.im * c.im);
    assert a.re * (b.im + c.im) + a.im * (b.re + c.re)
        == (a.re * b.im + a.im * b.re) + (a.re * c.im + a.im * c.re);
  }

  lemma MulZero(a: Complex)
    ensures Mul(a, Zero) == Zero
  {
  }

  lemma MulOne(a: Complex)
    ensures Mul(a, One) == a && Mul(One, a) == a
  {
  }

  lemma MulNegOneRight(a: Complex)
    ensures Mul(a, Neg(One)) == Neg(a)
  {
  }

  lemma MulNegLeft(a: Complex, b: Complex)
    ensures Mul(Neg(a), b) == Neg(Mul(a, b))
  {
  }

  lemma MulNegNeg(a: Complex)
    ensures Mul(Neg(a), Neg(a)) == Mul(a, a)
  {
  }

  lemma AddNeg(a: Complex, b: Complex)
    ensures Add(a, Neg(b)) == Sub(a, b)
  {
  }

  lemma ConjMul(a: Complex, b: Complex)
    ensures Conj(Mul(a, b)) == Mul(Conj(a), Conj(b))
  {
  }

  lemma {:induction false} PowAdd(z: Complex, a: nat, b: nat)
    ensures Pow(z, a + b) == Mul(Pow(z, a), Pow(z, b))
    decreases a
  {
    if a == 0 {
      MulOne(Pow(z, b));
    } else {
      var c: nat := a - 1;
      PowAdd(z, c, b);
      assert Pow(z, a + b) == Mul(z, Pow(z, c + b));
      MulAssoc(z, Pow(z, c), Pow(z, b));
    }
  }

  /** Squaring the base doubles the exponent: (z*z)^m == z^(2m). */
  lemma {:induction false} PowSquare(z: Complex, m: nat)
    ensures Pow(Mul(z, z), m) == Pow(z, 2 * m)
  {
    if m > 0 {
      var p: nat := m - 1;
      var e: nat := 2 * p;
      PowSquare(z, p);
      assert 2 * m == 2 + e;
      PowAdd(z, 2, e);
      assert Pow(z, 2) == Mul(z, Mul(z, One));
      MulOne(z);
      assert Pow(Mul(z, z), m) == Mul(Mul(z, z), Pow(Mul(z, z), p));
    }
  }

  lemma {:induction false} ConjPow(z: Complex, n: nat)
    ensures Conj(Pow(z, n)) == Pow(Conj(z), n)
  {
    if n > 0 {
      var m: nat := n - 1;
      ConjPow(z, m);
      ConjMul(z, Pow(z, m));
    }
  }

  /** If z^m == -1 then z^(k+m) == -z^k. */
  lemma {:induction false} HalfTurn(z: Complex, m: nat, k: nat)
    requires Pow(z, m) == Neg(One)
    ensures Pow(z, k + m) == Neg(Pow(z, k))
  {
    PowAdd(z, k, m);
    MulNegOneRight(Pow(z, k));
  }

  lemma MulAddDistribRight(a: Complex, b: Complex, c: Complex)
    ensures Mul(Add(a, b), c) == Add(Mul(a, c), Mul(b, c))
  {
    MulComm(Add(a, b), c);
    MulAddDistrib(c, a, b);
    MulComm(c, a);
    MulComm(c, b);
  }

  /** (a*b)*(c*d) == (a*c)*(b*d). */
  lemma MulSwapMiddle(a: Complex, b: Complex, c: Complex, d: Complex)
    ensures Mul(Mul(a, b), Mul(c, d)) == Mul(Mul(a, c), Mul(b, d))
  {
    MulAssoc(a, b, Mul(c, d));
    MulAssoc(b, c, d);
    MulComm(b, c);
    MulAssoc(c, b, d);
    MulAssoc(a, c, Mul(b, d));
  }

  /** A complex value times its conjugate is the real re^2 + im^2. */
  lemma ConjTimesSelf(z: Complex)
    ensures Mul(Conj(z), z) == OfReal(z.re * z.re + z.im * z.im)
    ensures 0.0 <= z.re * z.re + z.im * z.im
  {
  }

  /** (z^a)^b == z^e for e == a*b. */
  lemma {:induction false} PowMul(z: Complex, a: nat, b: nat, e: nat)
    requires e == a * b
    ensures Pow(Pow(z, a), b) == Pow(z, e)
  {
    if b > 0 {
      var c: nat := b - 1;
      ProductStep(a, c);
      var f: nat := a * c;
      PowMul(z, a, c, f);
      assert Pow(Pow(z, a), b) == Mul(Pow(z, a), Pow(z, f));
      PowAdd(z, a, f);
    }
  }

  lemma ProductStep(a: nat, c: nat)
    ensures a * c >= 0 && a * (c + 1) == a + a * c
  {
  }

  /** (a*b)^n == a^n * b^n. */
  lemma {:induction false} PowOfProduct(a: Complex, b: Complex, n: nat)
    ensures Pow(Mul(a, b), n) == Mul(Pow(a, n), Pow(b, n))
  {
    if n == 0 {
      MulOne(One);
    } else {
      PowOfProduct(a, b, n - 1);
      MulSwapMiddle(a, b, Pow(a, n - 1), Pow(b, n - 1));
    }
  }

  /** t^n for a real t. */
  function RealPow(t: real, n: nat): real
  {
    if n == 0 then 1.0 else t * RealPow(t, n - 1)
  }

  lemma {:induction false} PowOfReal(t: real, n: nat)
    ensures Pow(OfReal(t), n) == OfReal(RealPow(t, n))
  {
    if n > 0 {
      PowOfReal(t, n - 1);
    }
  }

  lemma {:induction false} RealPowOfOne(n: nat)
    ensures RealPow(1.0, n) == 1.0
  {
    if n > 0 {
      RealPowOfOne(n - 1);
    }
  }

  lemma {:induction false} RealPowOfNegOne(d: nat)
    ensures RealPow(-1.0, d) == if d % 2 == 0 then 1.0 else -1.0
  {
    if d > 0 {
      RealPowOfNegOne(d - 1);
      assert (d - 1) % 2 == 0 <==> d % 2 == 1;
    }
  }

  lemma SquareOfNegOne(q: Complex)
    requires q == Neg(One)
    ensures Mul(q, q) == One
  {
  }

  /** Every power of 1 is 1. */
  lemma PowOfOne(n: nat)
    ensures Pow(One, n) == One
  {
    PowOfReal(1.0, n);
    RealPowOfOne(n);
  }

  /** Powers of -1 alternate between 1 and -1. */
  lemma PowOfNegOne(d: nat)
    ensures Pow(Neg(One), d) == if d % 2 == 0 then One else Neg(One)
  {
    PowOfReal(-1.0, d);
    RealPowOfNegOne(d);
  }

  lemma {:induction false} RealPowAboveOne(t: real, n: nat)
    requires t > 1.0
    ensures RealPow(t, n) >= 1.0 && (n >= 1 ==> RealPow(t, n) > 1.0)
  {
    if n > 0 {
      var q := RealPow(t, n - 1);
      RealPowAboveOne(t, n - 1);
      assert t * q - t == t * (q - 1.0);
      assert t * (q - 1.0) >= 0.0;
    }
  }

  lemma {:induction false} RealPowBelowOne(t: real, n: nat)
    requires 0.0 <= t < 1.0
    ensures 0.0 <= RealPow(t, n) <= 1.0 && (n >= 1 ==> RealPow(t, n) < 1.0)
  {
    if n > 0 {
      var q := RealPow(t, n - 1);
      RealPowBelowOne(t, n - 1);
      assert t * q <= t * 1.0 by {
        assert t * (1.0 - q) >= 0.0;
      }
      assert t * q >= 0.0;
    }
  }

  /** The only non-negative real whose n-th power is 1, for n >= 1, is 1. */
  lemma UnitRealPower(t: real, n: nat)
    requires 0.0 <= t && n >= 1 && RealPow(t, n) == 1.0
    ensures t == 1.0
  {
    if t > 1.0 {
      RealPowAboveOne(t, n);
    } else if t < 1.0 {
      RealPowBelowOne(t, n);
    }
  }

  /** Scaling by a non-zero real and dividing by it gives the value back. */
  lemma ScaleDivide(a: Complex, t: real)
    requires t != 0.0
    ensures DivReal(Mul(a, OfReal(t)), t) == a
  {
    assert a.re * t / t == a.re;
    assert a.im * t / t == a.im;
  }
}
