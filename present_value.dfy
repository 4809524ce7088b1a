/** Time value of money: discrete compounding over whole periods and
    continuous compounding over real time, as in
    `pricing/present_value.py` and its copy `01_PresentValue.py`. */
module PresentValue {
  import opened Elementary

  /** x raised to a whole power n (Python's `x ** n` for an int n >= 0). */
  function Pow(x: real, n: nat): (p: real)
    ensures x != 0.0 ==> p != 0.0
    ensures x > 0.0 ==> p > 0.0
  {
    if n == 0 then 1.0 else x * Pow(x, n - 1)
  }

  /** Value after n periods of x invested at rate r per period. */
  function FutureDiscreteValue(x: real, r: real, n: nat): real
  {
    x * Pow(1.0 + r, n)
  }

  /** Value today of x paid after n periods at rate r per period. The source
      divides by (1 + r) ** n, which fails when that power is zero: r = -1
      with n >= 1. */
  function PresentDiscreteValue(x: real, r: real, n: nat): real
    requires 1.0 + r != 0.0 || n == 0
  {
    x / Pow(1.0 + r, n)
  }

  /** Value after time t of x compounded continuously at rate r. */
  function FutureContinuousValue(x: real, r: real, t: real, exp: real -> real): real
  {
    x * exp(r * t)
  }

  /** Value today of x paid at time t, discounted continuously at rate r. */
  function PresentContinuousValue(x: real, r: real, t: real, exp: real -> real): real
  {
    x * exp(-r * t)
  }

  /** Discounting undoes compounding and compounding undoes discounting. */
  lemma DiscreteRoundTrip(x: real, r: real, n: nat)
    requires 1.0 + r != 0.0 || n == 0
    ensures PresentDiscreteValue(FutureDiscreteValue(x, r, n), r, n) == x
    ensures FutureDiscreteValue(PresentDiscreteValue(x, r, n), r, n) == x
  {
  }

  /** With no periods both discrete functions return x unchanged. */
  lemma DiscreteZeroPeriods(x: real, r: real)
    ensures FutureDiscreteValue(x, r, 0) == x
    ensures PresentDiscreteValue(x, r, 0) == x
  {
  }

  /** One more period multiplies the future value by (1 + r) and divides the
      present value by it. */
  lemma DiscreteOneMorePeriod(x: real, r: real, n: nat)
    requires 1.0 + r != 0.0
    ensures FutureDiscreteValue(x, r, n + 1) == (1.0 + r) * FutureDiscreteValue(x, r, n)
    ensures PresentDiscreteValue(x, r, n + 1) == PresentDiscreteValue(x, r, n) / (1.0 + r)
  {
    var q := Pow(1.0 + r, n);
    assert Pow(1.0 + r, n + 1) == (1.0 + r) * q;
    assert x / ((1.0 + r) * q) == (x / q) / (1.0 + r);
  }

  /** A base above one raised to a positive power stays above one. */
  lemma {:induction false} PowAboveOne(b: real, n: nat)
    requires b > 1.0 && n >= 1
    ensures Pow(b, n) > 1.0
  {
    if n > 1 {
      PowAboveOne(b, n - 1);
      calc {
        Pow(b, n);
        b * Pow(b, n - 1);
      > 1.0 * Pow(b, n - 1);
      > 1.0;
      }
    }
  }

  /** At a positive rate, a positive amount paid one or more periods from now
      is worth strictly less today. */
  lemma PresentDiscreteBelowAmount(x: real, r: real, n: nat)
    requires r > 0.0 && n >= 1 && x > 0.0
    ensures PresentDiscreteValue(x, r, n) < x
  {
    var q := Pow(1.0 + r, n);
    PowAboveOne(1.0 + r, n);
    var y := x / q;
    assert y > 0.0;
    calc {
      x - y;
    == y * q - y;
    == y * (q - 1.0);
    >  0.0;
    }
  }

  /** Continuous discounting undoes continuous compounding, and the reverse. */
  lemma ContinuousRoundTrip(x: real, r: real, t: real, exp: real -> real)
    requires IsExp(exp)
    ensures PresentContinuousValue(FutureContinuousValue(x, r, t, exp), r, t, exp) == x
    ensures FutureContinuousValue(PresentContinuousValue(x, r, t, exp), r, t, exp) == x
  {
    assert r * t + -r * t == 0.0;
    assert exp(r * t) * exp(-r * t) == 1.0;
  }

  /** All four values are linear in the amount. */
  lemma ValuesLinearInAmount(a: real, x: real, r: real, n: nat, t: real, exp: real -> real)
    requires 1.0 + r != 0.0 || n == 0
    ensures FutureDiscreteValue(a * x, r, n) == a * FutureDiscreteValue(x, r, n)
    ensures PresentDiscreteValue(a * x, r, n) == a * PresentDiscreteValue(x, r, n)
    ensures FutureContinuousValue(a * x, r, t, exp) == a * FutureContinuousValue(x, r, t, exp)
    ensures PresentContinuousValue(a * x, r, t, exp) == a * PresentContinuousValue(x, r, t, exp)
  {
  }

  /** At a non-negative rate over a non-negative time, continuous discounting
      keeps a non-negative amount between zero and itself, and a positive
      amount positive. */
  lemma PresentContinuousBounds(x: real, r: real, t: real, exp: real -> real)
    requires IsExp(exp) && x >= 0.0 && r >= 0.0 && t >= 0.0
    ensures 0.0 <= PresentContinuousValue(x, r, t, exp) <= x
    ensures x > 0.0 ==> PresentContinuousValue(x, r, t, exp) > 0.0
  {
    var d := exp(-r * t);
    assert r * t >= 0.0;
    assert d <= 1.0 by {
      if -r * t < 0.0 {
        ExpBelowOne(exp, -r * t);
      }
    }
    assert x * d <= x * 1.0;
  }
}
