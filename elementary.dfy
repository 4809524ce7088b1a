/** The library functions the source calls -- `math.exp`/`numpy.exp`,
    `numpy.sqrt`, `numpy.log` and `scipy.stats.norm.ppf` -- cannot be computed
    over the reals. They enter the model as function-valued parameters, and the
    predicates below state the only facts about them the proofs rely on. */
module Elementary {

  /** The facts about the exponential the proofs use: exp(0) = 1, exp is
      positive, exp(a) * exp(-a) = 1, and exp is strictly increasing. */
  ghost predicate IsExp(exp: real -> real)
  {
    && exp(0.0) == 1.0
    && (forall a :: exp(a) > 0.0)
    && (forall a, b :: a + b == 0.0 ==> exp(a) * exp(b) == 1.0)
    && (forall a, b :: a < b ==> exp(a) < exp(b))
  }

  /** The non-negative square root of a non-negative number. */
  ghost predicate IsSqrt(sqrt: real -> real)
  {
    forall x :: 0.0 <= x ==> 0.0 <= sqrt(x) && sqrt(x) * sqrt(x) == x
  }

  /** The logarithm turns products of positive numbers into sums. */
  ghost predicate IsLogOfProduct(log: real -> real)
  {
    forall a, b :: 0.0 < a && 0.0 < b ==> log(a * b) == log(a) + log(b)
  }

  /** The standard normal quantile function (norm.ppf): zero at the median and
      strictly increasing on the open unit interval. */
  ghost predicate IsNormalQuantile(ppf: real -> real)
  {
    && ppf(0.5) == 0.0
    && (forall p, q :: 0.0 < p < q < 1.0 ==> ppf(p) < ppf(q))
  }

  /** exp(-a) is the reciprocal of exp(a). */
  lemma ExpNegation(exp: real -> real, a: real)
    requires IsExp(exp)
    ensures exp(-a) == 1.0 / exp(a)
  {
    assert a + -a == 0.0;
    assert exp(a) * exp(-a) == 1.0;
  }

  /** A negative exponent discounts: exp(a) < 1 for a < 0. */
  lemma ExpBelowOne(exp: real -> real, a: real)
    requires IsExp(exp) && a < 0.0
    ensures exp(a) < 1.0
  {
    assert exp(a) < exp(0.0);
  }

  /** The square root of a positive number is positive. */
  lemma SqrtPositive(sqrt: real -> real, x: real)
    requires IsSqrt(sqrt) && 0.0 < x
    ensures 0.0 < sqrt(x)
  {
    assert sqrt(x) * sqrt(x) == x;
  }

  /** sqrt(1) = 1. */
  lemma SqrtOne(sqrt: real -> real)
    requires IsSqrt(sqrt)
    ensures sqrt(1.0) == 1.0
  {
    var s := sqrt(1.0);
    assert 0.0 <= s && s * s == 1.0;
    if s < 1.0 {
      SquareIncreasing(s, 1.0);
      assert false;
    } else if s > 1.0 {
      SquareIncreasing(1.0, s);
      assert false;
    }
  }

  /** The square root is the only non-negative number squaring to x. */
  lemma SqrtUnique(sqrt: real -> real, x: real, r: real)
    requires IsSqrt(sqrt) && 0.0 <= r && r * r == x
    ensures sqrt(x) == r
  {
    var s := sqrt(x);
    assert 0.0 <= s && s * s == x;
    if s < r {
      SquareIncreasing(s, r);
      assert false;
    } else if s > r {
      SquareIncreasing(r, s);
      assert false;
    }
  }

  /** The square root of a product of non-negative numbers is the product of
      their square roots. */
  lemma SqrtOfProduct(sqrt: real -> real, a: real, b: real)
    requires IsSqrt(sqrt) && 0.0 <= a && 0.0 <= b
    ensures sqrt(a * b) == sqrt(a) * sqrt(b)
  {
    var p := sqrt(a) * sqrt(b);
    assert 0.0 <= sqrt(a) && 0.0 <= sqrt(b);
    assert p * p == (sqrt(a) * sqrt(a)) * (sqrt(b) * sqrt(b));
    SqrtUnique(sqrt, a * b, p);
  }

  /** Squaring is increasing on the non-negative reals. */
  lemma SquareIncreasing(a: real, b: real)
    requires 0.0 <= a < b
    ensures a * a < b * b
  {
    calc {
      a * a;
    <= a * b;
    <  b * b;
    }
  }

  /** A rational function with the four properties IsExp asks for: 1 + x on
      the non-negative reals, 1 / (1 - x) on the negative ones. */
  function RationalExp(x: real): real
  {
    if x >= 0.0 then 1.0 + x else 1.0 / (1.0 - x)
  }

  lemma RationalExpPositive(a: real)
    ensures RationalExp(a) > 0.0
  {
    if a < 0.0 {
      assert 1.0 - a > 0.0;
    }
  }

  lemma RationalExpInverse(a: real, b: real)
    requires a + b == 0.0
    ensures RationalExp(a) * RationalExp(b) == 1.0
  {
    if a < 0.0 {
      assert RationalExp(a) == 1.0 / (1.0 + b);
    } else if b < 0.0 {
      assert RationalExp(b) == 1.0 / (1.0 + a);
    }
  }

  lemma RationalExpIncreasing(a: real, b: real)
    requires a < b
    ensures RationalExp(a) < RationalExp(b)
  {
    if b < 0.0 {
      assert 1.0 - b < 1.0 - a;
    } else if a < 0.0 {
      assert 1.0 / (1.0 - a) < 1.0;
    }
  }

  /** The four facts IsExp states are consistent: RationalExp has them all. */
  lemma ExpFactsConsistent()
    ensures exists exp: real -> real :: IsExp(exp)
  {
    var f: real -> real := RationalExp;
    assert f(0.0) == 1.0;
    forall a ensures f(a) > 0.0 {
      RationalExpPositive(a);
    }
    forall a, b | a + b == 0.0 ensures f(a) * f(b) == 1.0 {
      RationalExpInverse(a, b);
    }
    forall a, b | a < b ensures f(a) < f(b) {
      RationalExpIncreasing(a, b);
    }
    assert IsExp(f);
  }
}
