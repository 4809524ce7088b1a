/** Bond pricing by discounting cash flows (`pricing/bonds.py`, with the
    script copies `02_zeroCouponBond.py` and `03_couponBond.py`). A bond's
    fields are set once at construction and never updated, so a bond is a
    value. Rates are given to the constructors in percent and stored as
    fractions. */
module Bonds {
  import opened Elementary
  import opened PresentValue

  /** A bond that pays only its face value at maturity. */
  datatype ZeroCouponBond = ZeroCouponBond(principal: real, maturity: nat, interestRate: real)

  /** A bond that pays principal * rate at the end of every year and the
      principal at maturity. */
  datatype CouponBond = CouponBond(principal: real, rate: real, maturity: nat, interestRate: real)

  /** The constructor: the market rate arrives in percent. */
  function NewZeroCouponBond(principal: real, maturity: nat, interestRatePercent: real): (b: ZeroCouponBond)
    ensures b.principal == principal && b.maturity == maturity
    ensures b.interestRate * 100.0 == interestRatePercent
  {
    ZeroCouponBond(principal, maturity, interestRatePercent / 100.0)
  }

  /** The constructor: coupon rate and market rate arrive in percent. */
  function NewCouponBond(principal: real, ratePercent: real, maturity: nat, interestRatePercent: real): (b: CouponBond)
    ensures b.principal == principal && b.maturity == maturity
    ensures b.rate * 100.0 == ratePercent && b.interestRate * 100.0 == interestRatePercent
  {
    CouponBond(principal, ratePercent / 100.0, maturity, interestRatePercent / 100.0)
  }

  /** Discrete discounting over m periods is defined unless the market rate is
      -100% and there is at least one period to discount over. */
  predicate Discountable(interestRate: real, m: nat)
  {
    1.0 + interestRate != 0.0 || m == 0
  }

  /** The price of a zero-coupon bond: its face value discounted over its
      maturity. */
  function ZeroCouponPrice(b: ZeroCouponBond): real
    requires Discountable(b.interestRate, b.maturity)
  {
    PresentDiscreteValue(b.principal, b.interestRate, b.maturity)
  }

  /** The present value of one unit paid at the end of each of the first m
      years. */
  function Annuity(interestRate: real, m: nat): real
    requires Discountable(interestRate, m)
  {
    if m == 0 then 0.0 else Annuity(interestRate, m - 1) + 1.0 / Pow(1.0 + interestRate, m)
  }

  /** The discounted coupons of the first m years, in the order the pricing
      loop adds them. */
  function CouponStream(b: CouponBond, m: nat): real
    requires Discountable(b.interestRate, m)
  {
    if m == 0 then 0.0
    else CouponStream(b, m - 1) + PresentDiscreteValue(b.principal * b.rate, b.interestRate, m)
  }

  /** The discrete price of a coupon bond: all coupons plus the principal,
      each discounted to today. */
  function CouponBondPrice(b: CouponBond): real
    requires Discountable(b.interestRate, b.maturity)
  {
    CouponStream(b, b.maturity) + PresentDiscreteValue(b.principal, b.interestRate, b.maturity)
  }

  /** CouponBond.calculate_price: a loop over the coupon dates that adds each
      discounted coupon, then the discounted principal. */
  method CalculatePrice(b: CouponBond) returns (price: real)
    requires Discountable(b.interestRate, b.maturity)
    ensures price == CouponBondPrice(b)
  {
    price := 0.0;
    for t := 1 to b.maturity + 1
      invariant price == CouponStream(b, t - 1)
    {
      price := price + PresentDiscreteValue(b.principal * b.rate, b.interestRate, t);
    }
    price := price + PresentDiscreteValue(b.principal, b.interestRate, b.maturity);
  }

  /** The continuously discounted coupons of the first m years. */
  function ContinuousCouponStream(b: CouponBond, m: nat, exp: real -> real): real
  {
    if m == 0 then 0.0
    else ContinuousCouponStream(b, m - 1, exp) + PresentContinuousValue(b.principal * b.rate, b.interestRate, m as real, exp)
  }

  /** The continuous price of a coupon bond. */
  function ContinuousCouponBondPrice(b: CouponBond, exp: real -> real): real
  {
    ContinuousCouponStream(b, b.maturity, exp) + PresentContinuousValue(b.principal, b.interestRate, b.maturity as real, exp)
  }

  /** CouponBond.calculate_continuous_price: the same loop with continuous
      discounting. */
  method CalculateContinuousPrice(b: CouponBond, exp: real -> real) returns (price: real)
    ensures price == ContinuousCouponBondPrice(b, exp)
  {
    price := 0.0;
    for t := 1 to b.maturity + 1
      invariant price == ContinuousCouponStream(b, t - 1, exp)
    {
      price := price + PresentContinuousValue(b.principal * b.rate, b.interestRate, t as real, exp);
    }
    price := price + PresentContinuousValue(b.principal, b.interestRate, b.maturity as real, exp);
  }

  /** The coupons are the coupon amount times the annuity factor. */
  lemma {:induction false} CouponStreamIsAnnuity(b: CouponBond, m: nat)
    requires Discountable(b.interestRate, m)
    ensures CouponStream(b, m) == b.principal * b.rate * Annuity(b.interestRate, m)
  {
    if m > 0 {
      var c := b.principal * b.rate;
      var a := Annuity(b.interestRate, m - 1);
      var q := Pow(1.0 + b.interestRate, m);
      var r := 1.0 / q;
      assert CouponStream(b, m) == c * a + c * r by {
        CouponStreamIsAnnuity(b, m - 1);
        DivisionAsProduct(c, q);
      }
      ScaleSum(c, Annuity(b.interestRate, m), a, r);
    }
  }

  lemma ScaleSum(c: real, x: real, a: real, r: real)
    requires x == a + r
    ensures c * x == c * a + c * r
  {
  }

  lemma DivisionAsProduct(x: real, q: real)
    requires q != 0.0
    ensures x / q == x * (1.0 / q)
  {
  }

  /** The annuity identity: discounting one unit over m years plus i times the
      annuity factor gives back the unit, v^m + i * a_m = 1. */
  lemma {:induction false} AnnuityIdentity(i: real, m: nat)
    requires Discountable(i, m)
    ensures 1.0 / Pow(1.0 + i, m) + i * Annuity(i, m) == 1.0
  {
    if m > 0 {
      AnnuityIdentity(i, m - 1);
      var q := Pow(1.0 + i, m - 1);
      var a := Annuity(i, m - 1);
      assert Pow(1.0 + i, m) == (1.0 + i) * q;
      calc {
        1.0 / ((1.0 + i) * q) + i * (a + 1.0 / ((1.0 + i) * q));
      == (1.0 + i) / ((1.0 + i) * q) + i * a;
      == 1.0 / q + i * a;
      }
    }
  }

  /** Price minus principal is the principal times the coupon-minus-market
      spread times the annuity factor. */
  lemma CouponBondPriceSpread(b: CouponBond)
    requires Discountable(b.interestRate, b.maturity)
    ensures CouponBondPrice(b) == b.principal + b.principal * (b.rate - b.interestRate) * Annuity(b.interestRate, b.maturity)
  {
    var i, m := b.interestRate, b.maturity;
    CouponStreamIsAnnuity(b, m);
    AnnuityIdentity(i, m);
    var a := Annuity(i, m);
    var v := 1.0 / Pow(1.0 + i, m);
    assert PresentDiscreteValue(b.principal, i, m) == b.principal * v;
    calc {
      CouponBondPrice(b);
    == b.principal * b.rate * a + b.principal * v;
    == b.principal * b.rate * a + b.principal * (1.0 - i * a);
    == b.principal + b.principal * (b.rate - i) * a;
    }
  }

  /** At a market rate above -100%, an annuity of one or more years is worth
      more than nothing. */
  lemma {:induction false} AnnuityPositive(i: real, m: nat)
    requires 1.0 + i > 0.0 && m >= 1
    ensures Annuity(i, m) > 0.0
  {
    if m > 1 {
      AnnuityPositive(i, m - 1);
    }
  }

  /** A bond whose coupon rate equals the market rate trades at par. */
  lemma ParBond(b: CouponBond)
    requires Discountable(b.interestRate, b.maturity)
    requires b.rate == b.interestRate
    ensures CouponBondPrice(b) == b.principal
  {
    CouponBondPriceSpread(b);
  }

  /** A coupon rate above the market rate prices the bond above par. */
  lemma PremiumBond(b: CouponBond)
    requires 1.0 + b.interestRate > 0.0 && b.maturity >= 1 && b.principal > 0.0
    requires b.rate > b.interestRate
    ensures CouponBondPrice(b) > b.principal
  {
    CouponBondPriceSpread(b);
    AnnuityPositive(b.interestRate, b.maturity);
    var s := b.rate - b.interestRate;
    assert b.principal * s > 0.0;
  }

  /** A coupon rate below the market rate prices the bond below par. */
  lemma DiscountBond(b: CouponBond)
    requires 1.0 + b.interestRate > 0.0 && b.maturity >= 1 && b.principal > 0.0
    requires b.rate < b.interestRate
    ensures CouponBondPrice(b) < b.principal
  {
    CouponBondPriceSpread(b);
    AnnuityPositive(b.interestRate, b.maturity);
    var s := b.interestRate - b.rate;
    assert b.principal * s > 0.0;
  }

  /** A coupon bond with a zero coupon rate is priced as the zero-coupon bond
      with the same principal, maturity and market rate. */
  lemma ZeroCouponEquivalence(b: CouponBond)
    requires Discountable(b.interestRate, b.maturity)
    requires b.rate == 0.0
    ensures CouponBondPrice(b) == ZeroCouponPrice(ZeroCouponBond(b.principal, b.maturity, b.interestRate))
  {
    CouponStreamIsAnnuity(b, b.maturity);
  }

  /** A bond maturing now is worth its principal under both discountings. */
  lemma MaturityZero(b: CouponBond, exp: real -> real)
    requires IsExp(exp) && b.maturity == 0
    ensures CouponBondPrice(b) == b.principal
    ensures ContinuousCouponBondPrice(b, exp) == b.principal
  {
    assert -b.interestRate * 0.0 == 0.0;
  }

  /** At a positive market rate a zero-coupon bond with a positive principal
      and maturity costs less than its face value. */
  lemma ZeroCouponBelowPrincipal(b: ZeroCouponBond)
    requires b.interestRate > 0.0 && b.maturity >= 1 && b.principal > 0.0
    ensures ZeroCouponPrice(b) < b.principal
  {
    PresentDiscreteBelowAmount(b.principal, b.interestRate, b.maturity);
  }

  /** The documented zero-coupon example: 1000 due in two years at 4% costs
      1000 / 1.0816, between 924.556 and 924.557. */
  lemma ZeroCouponExample()
    ensures NewZeroCouponBond(1000.0, 2, 4.0).interestRate == 0.04
    ensures ZeroCouponPrice(NewZeroCouponBond(1000.0, 2, 4.0)) == 1000.0 / 1.0816
    ensures 924.556 < ZeroCouponPrice(NewZeroCouponBond(1000.0, 2, 4.0)) < 924.557
  {
    var b := NewZeroCouponBond(1000.0, 2, 4.0);
    assert Pow(1.04, 2) == 1.0816;
  }

  /** The documented coupon example: a 10% coupon over three years at a 4%
      market rate is a premium bond, priced above 1000. */
  lemma CouponBondExample()
    ensures CouponBondPrice(NewCouponBond(1000.0, 10.0, 3, 4.0)) > 1000.0
  {
    PremiumBond(NewCouponBond(1000.0, 10.0, 3, 4.0));
  }

  /** With no continuous discounting (exp(0) = 1) the coupons add up to
      principal * rate per year. */
  lemma {:induction false} ContinuousStreamAtZeroRate(b: CouponBond, m: nat, exp: real -> real)
    requires IsExp(exp) && b.interestRate == 0.0
    ensures ContinuousCouponStream(b, m, exp) == b.principal * b.rate * m as real
  {
    if m > 0 {
      ContinuousStreamAtZeroRate(b, m - 1, exp);
      var c := b.principal * b.rate;
      assert -b.interestRate * m as real == 0.0;
      assert exp(-b.interestRate * m as real) == 1.0;
      assert PresentContinuousValue(c, b.interestRate, m as real, exp) == c;
      assert c * (m - 1) as real + c == c * m as real;
    }
  }

  /** With no discrete discounting the annuity factor counts the years. */
  lemma {:induction false} AnnuityAtZeroRate(m: nat)
    ensures Annuity(0.0, m) == m as real
  {
    if m > 0 {
      AnnuityAtZeroRate(m - 1);
      PowOne(m);
    }
  }

  lemma {:induction false} PowOne(n: nat)
    ensures Pow(1.0, n) == 1.0
  {
    if n > 0 {
      PowOne(n - 1);
    }
  }

  /** At a zero market rate both pricings agree: every cash flow is counted
      at face value, principal * (1 + rate * maturity). */
  lemma ContinuousMatchesDiscreteAtZeroRate(b: CouponBond, exp: real -> real)
    requires IsExp(exp) && b.interestRate == 0.0
    ensures ContinuousCouponBondPrice(b, exp) == b.principal * (1.0 + b.rate * b.maturity as real)
    ensures CouponBondPrice(b) == ContinuousCouponBondPrice(b, exp)
  {
    ContinuousStreamAtZeroRate(b, b.maturity, exp);
    assert -b.interestRate * b.maturity as real == 0.0;
    CouponBondPriceSpread(b);
    AnnuityAtZeroRate(b.maturity);
  }

  /** A coupon bond with a zero coupon rate pays no coupons. */
  lemma {:induction false} ContinuousZeroCouponStream(b: CouponBond, m: nat, exp: real -> real)
    requires b.rate == 0.0
    ensures ContinuousCouponStream(b, m, exp) == 0.0
  {
    if m > 0 {
      ContinuousZeroCouponStream(b, m - 1, exp);
    }
  }

  /** A coupon bond with a zero coupon rate is, under continuous discounting,
      its principal discounted over its maturity. */
  lemma ContinuousZeroCoupon(b: CouponBond, exp: real -> real)
    requires b.rate == 0.0
    ensures ContinuousCouponBondPrice(b, exp) == PresentContinuousValue(b.principal, b.interestRate, b.maturity as real, exp)
  {
    ContinuousZeroCouponStream(b, b.maturity, exp);
  }

  /** Continuously discounted at a non-negative market rate, the coupons of m
      years are worth between nothing and their face value. */
  lemma {:induction false} ContinuousStreamBounds(b: CouponBond, m: nat, exp: real -> real)
    requires IsExp(exp) && b.principal > 0.0 && b.rate >= 0.0 && b.interestRate >= 0.0
    ensures 0.0 <= ContinuousCouponStream(b, m, exp) <= b.principal * b.rate * m as real
  {
    if m > 0 {
      ContinuousStreamBounds(b, m - 1, exp);
      var c := b.principal * b.rate;
      assert c >= 0.0;
      PresentContinuousBounds(c, b.interestRate, m as real, exp);
      assert c * m as real == c * (m - 1) as real + c;
    }
  }

  /** Continuously discounted at a non-negative market rate, a bond with a
      positive principal and a non-negative coupon has a positive price no
      larger than the undiscounted cash flows, principal * (1 + rate * maturity). */
  lemma ContinuousPriceBounds(b: CouponBond, exp: real -> real)
    requires IsExp(exp) && b.principal > 0.0 && b.rate >= 0.0 && b.interestRate >= 0.0
    ensures 0.0 < ContinuousCouponBondPrice(b, exp) <= b.principal * (1.0 + b.rate * b.maturity as real)
  {
    ContinuousStreamBounds(b, b.maturity, exp);
    PresentContinuousBounds(b.principal, b.interestRate, b.maturity as real, exp);
    assert b.principal * (1.0 + b.rate * b.maturity as real) == b.principal * b.rate * b.maturity as real + b.principal;
  }
}
