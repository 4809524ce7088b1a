/** The Vasicek short-rate model and Monte Carlo bond pricing under it
    (`models/vasicek.py`, `14_vasicekModel.py`, `15_bondPricingVasicek.py`).
    A rate path is the Euler recurrence dr = kappa * (theta - r) dt +
    sigma * sqrt(dt) * z of the Stochastic module. */
module Vasicek {
  import opened Outcomes
  import opened Elementary
  import opened Series
  import opened Stochastic

  /** The rate path vasicek_model produces for N steps over [0, T]. */
  function VasicekRates(r0: real, kappa: real, theta: real, sigma: real, T: real, N: nat, z: seq<real>, sqrt: real -> real): (rates: seq<real>)
    requires N >= 1 && |z| == N
    ensures |rates| == N + 1 && rates[0] == r0
  {
    EulerPath(r0, kappa, theta, T / N as real, NoiseScale(sigma, T / N as real, sqrt), z)
  }

  /** The rate change of one step as the source writes it:
      dr = kappa * (theta - r) * dt + sigma * sqrt(dt) * z; adding it to r is
      one Euler step. */
  function RateChange(r: real, kappa: real, theta: real, dt: real, sigma: real, sqrtDt: real, z: real): (dr: real)
    ensures r + dr == EulerStep(r, kappa, theta, dt, sigma * sqrtDt, z)
  {
    kappa * (theta - r) * dt + sigma * sqrtDt * z
  }

  /** The loop vasicek_model (and each simulation of
      monte_carlo_bond_pricing) runs: start from r0 and append r + dr once per
      draw. */
  method SimulateRates(r0: real, kappa: real, theta: real, sigma: real, dt: real, z: seq<real>, sqrt: real -> real)
    returns (rates: seq<real>)
    ensures rates == EulerPath(r0, kappa, theta, dt, NoiseScale(sigma, dt, sqrt), z)
  {
    rates := [r0];
    for i := 0 to |z|
      invariant rates == EulerPath(r0, kappa, theta, dt, NoiseScale(sigma, dt, sqrt), z[..i])
    {
      var dr := RateChange(rates[|rates| - 1], kappa, theta, dt, sigma, sqrt(dt), z[i]);
      EulerPathExtend(r0, kappa, theta, dt, NoiseScale(sigma, dt, sqrt), z, i);
      rates := rates + [rates[|rates| - 1] + dr];
    }
    assert z[..|z|] == z;
  }

  /** vasicek_model: the time grid linspace(0, T, N + 1) and a rate list
      grown by one Euler step per draw. The source divides by N, so N >= 1. */
  method VasicekModel(r0: real, kappa: real, theta: real, sigma: real, T: real, N: nat, z: seq<real>, sqrt: real -> real)
    returns (t: seq<real>, rates: seq<real>)
    requires N >= 1 && |z| == N
    ensures t == Linspace(0.0, T, N + 1)
    ensures rates == VasicekRates(r0, kappa, theta, sigma, T, N, z, sqrt)
  {
    t := Linspace(0.0, T, N + 1);
    rates := SimulateRates(r0, kappa, theta, sigma, T / N as real, z, sqrt);
  }

  /** Time grid and rates have N + 1 entries; the grid runs from 0 to T, the
      rates start at r0 and follow the Euler recurrence with dt = T / N. */
  lemma VasicekShape(r0: real, kappa: real, theta: real, sigma: real, T: real, N: nat, z: seq<real>, sqrt: real -> real, i: nat)
    requires N >= 1 && |z| == N && i < N
    ensures |Linspace(0.0, T, N + 1)| == |VasicekRates(r0, kappa, theta, sigma, T, N, z, sqrt)|
    ensures Linspace(0.0, T, N + 1)[0] == 0.0 && Linspace(0.0, T, N + 1)[N] == T
    ensures VasicekRates(r0, kappa, theta, sigma, T, N, z, sqrt)[i + 1]
         == VasicekRates(r0, kappa, theta, sigma, T, N, z, sqrt)[i]
            + RateChange(VasicekRates(r0, kappa, theta, sigma, T, N, z, sqrt)[i], kappa, theta, T / N as real, sigma, sqrt(T / N as real), z[i])
  {
    LinspaceEnds(0.0, T, N + 1);
    EulerPathStep(r0, kappa, theta, T / N as real, NoiseScale(sigma, T / N as real, sqrt), z, i);
  }

  /** With no volatility a rate that starts at the long-term mean stays there. */
  lemma VasicekAtMean(theta: real, kappa: real, T: real, N: nat, z: seq<real>, sqrt: real -> real, i: nat)
    requires N >= 1 && |z| == N && i <= N
    ensures VasicekRates(theta, kappa, theta, 0.0, T, N, z, sqrt)[i] == theta
  {
    assert NoiseScale(0.0, T / N as real, sqrt) == 0.0;
    EulerAtLevel(theta, kappa, T / N as real, z, i);
  }

  /** With no volatility and 0 < kappa * dt <= 1 the rate moves monotonically
      toward theta and never crosses it; nothing else bounds it, and with
      volatility it can fall below zero (Stochastic.EulerCanGoNegative). */
  lemma VasicekNoVolatilityMonotone(r0: real, kappa: real, theta: real, T: real, N: nat, z: seq<real>, sqrt: real -> real, i: nat)
    requires N >= 1 && |z| == N && i < N
    requires 0.0 < kappa * (T / N as real) <= 1.0
    ensures r0 >= theta ==> theta <= VasicekRates(r0, kappa, theta, 0.0, T, N, z, sqrt)[i + 1] <= VasicekRates(r0, kappa, theta, 0.0, T, N, z, sqrt)[i]
    ensures r0 <= theta ==> VasicekRates(r0, kappa, theta, 0.0, T, N, z, sqrt)[i] <= VasicekRates(r0, kappa, theta, 0.0, T, N, z, sqrt)[i + 1] <= theta
  {
    assert NoiseScale(0.0, T / N as real, sqrt) == 0.0;
    EulerNoCrossing(r0, kappa, theta, T / N as real, z, i);
  }

  // ---------------------------------------------------------------------
  // Monte Carlo bond pricing
  // ---------------------------------------------------------------------

  /** One rate path per row of draws, each from r0 with dt = T / numPoints. */
  function RatePaths(r0: real, kappa: real, theta: real, dt: real, scale: real, z: seq<seq<real>>): (paths: seq<seq<real>>)
    ensures |paths| == |z|
    ensures forall j :: 0 <= j < |z| ==> paths[j] == EulerPath(r0, kappa, theta, dt, scale, z[j])
  {
    seq(|z|, j requires 0 <= j < |z| => EulerPath(r0, kappa, theta, dt, scale, z[j]))
  }

  /** The discount factor of a rate path: exp of minus its integral, the
      integral being the sum of the path's rates times dt. */
  function PathDiscount(path: seq<real>, dt: real, exp: real -> real): real
  {
    exp(-(Sum(path) * dt))
  }

  /** The discount factor of every path. */
  function PathDiscounts(paths: seq<seq<real>>, dt: real, exp: real -> real): (d: seq<real>)
    ensures |d| == |paths|
  {
    seq(|paths|, j requires 0 <= j < |paths| => PathDiscount(paths[j], dt, exp))
  }

  /** The estimate: face value times the average discount factor; the mean of
      no simulations is NaN, here None. */
  function BondEstimate(x: real, paths: seq<seq<real>>, dt: real, exp: real -> real): (price: Option<real>)
    ensures price.None? <==> |paths| == 0
  {
    if |paths| == 0 then None else Some(x * Mean(PathDiscounts(paths, dt, exp)))
  }

  /** The rate paths monte_carlo_bond_pricing simulates from the draws z,
      one row of numPoints draws per simulation, with dt = T / numPoints. */
  function SimulatedRatePaths(r0: real, kappa: real, theta: real, sigma: real, T: real, numPoints: nat, z: seq<seq<real>>, sqrt: real -> real): (paths: seq<seq<real>>)
    requires numPoints >= 1
    ensures |paths| == |z|
  {
    RatePaths(r0, kappa, theta, T / numPoints as real, NoiseScale(sigma, T / numPoints as real, sqrt), z)
  }

  /** The price monte_carlo_bond_pricing computes from the draws z. */
  function MonteCarloBondPrice(x: real, r0: real, kappa: real, theta: real, sigma: real, T: real, numPoints: nat, z: seq<seq<real>>, exp: real -> real, sqrt: real -> real): (price: Option<real>)
    requires numPoints >= 1
    ensures price.None? <==> |z| == 0
  {
    BondEstimate(x, SimulatedRatePaths(r0, kappa, theta, sigma, T, numPoints, z, sqrt), T / numPoints as real, exp)
  }

  /** monte_carlo_bond_pricing: nested loops build one rate path per
      simulation, then the paths are integrated, discounted and averaged. The
      source divides by num_points, so numPoints >= 1. */
  method MonteCarloBondPricing(x: real, r0: real, kappa: real, theta: real, sigma: real, T: real,
                               numSimulations: nat, numPoints: nat, z: seq<seq<real>>, exp: real -> real, sqrt: real -> real)
    returns (price: Option<real>)
    requires numPoints >= 1 && |z| == numSimulations
    requires forall j :: 0 <= j < |z| ==> |z[j]| == numPoints
    ensures price == MonteCarloBondPrice(x, r0, kappa, theta, sigma, T, numPoints, z, exp, sqrt)
  {
    var results: seq<seq<real>> := [];
    for j := 0 to numSimulations
      invariant results == RatePaths(r0, kappa, theta, T / numPoints as real, NoiseScale(sigma, T / numPoints as real, sqrt), z[..j])
    {
      var rates := SimulateRates(r0, kappa, theta, sigma, T / numPoints as real, z[j], sqrt);
      assert z[..j + 1] == z[..j] + [z[j]];
      results := results + [rates];
    }
    assert z[..numSimulations] == z;
    price := BondEstimate(x, results, T / numPoints as real, exp);
  }

  /** Every simulated path has numPoints + 1 rates and starts at r0. */
  lemma BondPathShape(r0: real, kappa: real, theta: real, dt: real, scale: real, z: seq<seq<real>>, numPoints: nat, j: nat)
    requires j < |z| && |z[j]| == numPoints
    ensures |RatePaths(r0, kappa, theta, dt, scale, z)[j]| == numPoints + 1
    ensures RatePaths(r0, kappa, theta, dt, scale, z)[j][0] == r0
  {
  }

  /** A discount factor is positive, and below one when every rate on the
      path is positive and dt is positive. */
  lemma PathDiscountBounds(path: seq<real>, dt: real, exp: real -> real)
    requires IsExp(exp)
    ensures PathDiscount(path, dt, exp) > 0.0
    ensures |path| > 0 && dt > 0.0 && (forall i :: 0 <= i < |path| ==> path[i] > 0.0) ==> PathDiscount(path, dt, exp) < 1.0
  {
    if |path| > 0 && dt > 0.0 && (forall i :: 0 <= i < |path| ==> path[i] > 0.0) {
      SumStrictLower(path, 0.0);
      assert Sum(path) * dt > 0.0;
      ExpBelowOne(exp, -(Sum(path) * dt));
    }
  }

  /** With a positive face value and at least one simulation the estimate is
      positive. */
  lemma BondEstimatePositive(x: real, paths: seq<seq<real>>, dt: real, exp: real -> real)
    requires IsExp(exp) && x > 0.0 && |paths| >= 1
    ensures BondEstimate(x, paths, dt, exp).Some? && BondEstimate(x, paths, dt, exp).value > 0.0
  {
    var d := PathDiscounts(paths, dt, exp);
    forall j | 0 <= j < |d|
      ensures 0.0 < d[j]
    {
      PathDiscountBounds(paths[j], dt, exp);
    }
    MeanStrictLower(d, 0.0);
  }

  /** When every rate on every path is positive (and dt > 0), each path
      discounts, so the estimate is below the face value. */
  lemma BondEstimateBelowFace(x: real, paths: seq<seq<real>>, dt: real, exp: real -> real)
    requires IsExp(exp) && x > 0.0 && |paths| >= 1 && dt > 0.0
    requires forall j :: 0 <= j < |paths| ==> |paths[j]| > 0
    requires forall j, i :: 0 <= j < |paths| && 0 <= i < |paths[j]| ==> paths[j][i] > 0.0
    ensures BondEstimate(x, paths, dt, exp).Some? && BondEstimate(x, paths, dt, exp).value < x
  {
    var d := PathDiscounts(paths, dt, exp);
    forall j | 0 <= j < |d|
      ensures d[j] < 1.0
    {
      PathDiscountBounds(paths[j], dt, exp);
    }
    MeanStrictUpper(d, 1.0);
    assert x * Mean(d) < x * 1.0;
  }

  /** The priced bond is worth more than nothing for a positive face value
      and at least one simulation, and less than its face value when T > 0
      and every simulated rate is positive. */
  lemma MonteCarloBondPriceBounds(x: real, r0: real, kappa: real, theta: real, sigma: real, T: real, numPoints: nat, z: seq<seq<real>>, exp: real -> real, sqrt: real -> real)
    requires numPoints >= 1 && IsExp(exp) && x > 0.0 && |z| >= 1
    requires forall j :: 0 <= j < |z| ==> |z[j]| == numPoints
    ensures MonteCarloBondPrice(x, r0, kappa, theta, sigma, T, numPoints, z, exp, sqrt).Some?
    ensures MonteCarloBondPrice(x, r0, kappa, theta, sigma, T, numPoints, z, exp, sqrt).value > 0.0
    ensures T > 0.0 && AllRatesPositive(SimulatedRatePaths(r0, kappa, theta, sigma, T, numPoints, z, sqrt))
            ==> MonteCarloBondPrice(x, r0, kappa, theta, sigma, T, numPoints, z, exp, sqrt).value < x
  {
    var paths := SimulatedRatePaths(r0, kappa, theta, sigma, T, numPoints, z, sqrt);
    BondEstimatePositive(x, paths, T / numPoints as real, exp);
    if T > 0.0 && AllRatesPositive(paths) {
      BondEstimateBelowFace(x, paths, T / numPoints as real, exp);
    }
  }

  /** On the same draws a path from a higher r0 has a strictly higher
      integral, so it discounts strictly more. */
  lemma PathDiscountDecreasingInRate(r0: real, r1: real, kappa: real, theta: real, dt: real, scale: real, z: seq<real>, exp: real -> real)
    requires IsExp(exp) && r0 < r1 && dt > 0.0 && 0.0 <= kappa * dt <= 1.0
    ensures PathDiscount(EulerPath(r1, kappa, theta, dt, scale, z), dt, exp) < PathDiscount(EulerPath(r0, kappa, theta, dt, scale, z), dt, exp)
  {
    var p0 := EulerPath(r0, kappa, theta, dt, scale, z);
    var p1 := EulerPath(r1, kappa, theta, dt, scale, z);
    forall k | 0 <= k < |p0|
      ensures p0[k] <= p1[k]
    {
      EulerPathMonotone(r0, r1, kappa, theta, dt, scale, z, k);
    }
    SumStrictMonotone(p0, p1);
    assert Sum(p0) * dt < Sum(p1) * dt;
  }

  /** When every path of one set discounts strictly more than the matching
      path of another, its estimate is strictly lower. */
  lemma BondEstimateDecreasing(x: real, paths0: seq<seq<real>>, paths1: seq<seq<real>>, dt: real, exp: real -> real)
    requires x > 0.0 && |paths0| == |paths1| >= 1
    requires forall j :: 0 <= j < |paths1| ==> PathDiscount(paths1[j], dt, exp) < PathDiscount(paths0[j], dt, exp)
    ensures BondEstimate(x, paths1, dt, exp).value < BondEstimate(x, paths0, dt, exp).value
  {
    var d0 := PathDiscounts(paths0, dt, exp);
    var d1 := PathDiscounts(paths1, dt, exp);
    MeanStrictMonotone(d1, d0);
    assert x * Mean(d1) < x * Mean(d0);
  }

  /** Raising the initial rate r0, all else fixed and on the same draws,
      strictly lowers the Monte Carlo bond price, provided the Euler step
      keeps the order of rates (0 <= kappa * dt <= 1). */
  lemma MonteCarloBondPriceDecreasingInRate(x: real, r0: real, r1: real, kappa: real, theta: real, sigma: real, T: real, numPoints: nat, z: seq<seq<real>>, exp: real -> real, sqrt: real -> real)
    requires numPoints >= 1 && IsExp(exp) && x > 0.0 && |z| >= 1 && T > 0.0
    requires 0.0 <= kappa * (T / numPoints as real) <= 1.0
    requires r0 < r1
    ensures MonteCarloBondPrice(x, r0, kappa, theta, sigma, T, numPoints, z, exp, sqrt).Some?
    ensures MonteCarloBondPrice(x, r1, kappa, theta, sigma, T, numPoints, z, exp, sqrt).Some?
    ensures MonteCarloBondPrice(x, r1, kappa, theta, sigma, T, numPoints, z, exp, sqrt).value
          < MonteCarloBondPrice(x, r0, kappa, theta, sigma, T, numPoints, z, exp, sqrt).value
  {
    var dt := T / numPoints as real;
    var scale := NoiseScale(sigma, dt, sqrt);
    var paths0 := SimulatedRatePaths(r0, kappa, theta, sigma, T, numPoints, z, sqrt);
    var paths1 := SimulatedRatePaths(r1, kappa, theta, sigma, T, numPoints, z, sqrt);
    forall j | 0 <= j < |paths1|
      ensures PathDiscount(paths1[j], dt, exp) < PathDiscount(paths0[j], dt, exp)
    {
      assert paths0[j] == EulerPath(r0, kappa, theta, dt, scale, z[j]);
      assert paths1[j] == EulerPath(r1, kappa, theta, dt, scale, z[j]);
      PathDiscountDecreasingInRate(r0, r1, kappa, theta, dt, scale, z[j], exp);
    }
    BondEstimateDecreasing(x, paths0, paths1, dt, exp);
  }

  /** Every rate on every path is positive. */
  predicate AllRatesPositive(paths: seq<seq<real>>)
  {
    forall j, i :: 0 <= j < |paths| && 0 <= i < |paths[j]| ==> paths[j][i] > 0.0
  }

  /** With no volatility every path is the noise-free path from r0, so the
      estimate is x times that path's discount factor. */
  lemma NoVolatilityEstimate(x: real, r0: real, kappa: real, theta: real, T: real, numPoints: nat, z: seq<seq<real>>, exp: real -> real, sqrt: real -> real)
    requires numPoints >= 1 && |z| >= 1
    requires forall j :: 0 <= j < |z| ==> |z[j]| == numPoints
    ensures MonteCarloBondPrice(x, r0, kappa, theta, 0.0, T, numPoints, z, exp, sqrt).Some?
    ensures MonteCarloBondPrice(x, r0, kappa, theta, 0.0, T, numPoints, z, exp, sqrt).value
         == x * PathDiscount(EulerPath(r0, kappa, theta, T / numPoints as real, 0.0, z[0]), T / numPoints as real, exp)
  {
    assert NoiseScale(0.0, T / numPoints as real, sqrt) == 0.0;
    var paths := SimulatedRatePaths(r0, kappa, theta, 0.0, T, numPoints, z, sqrt);
    var d := PathDiscounts(paths, T / numPoints as real, exp);
    var c := PathDiscount(EulerPath(r0, kappa, theta, T / numPoints as real, 0.0, z[0]), T / numPoints as real, exp);
    forall j | 0 <= j < |d|
      ensures d[j] == c
    {
      assert paths[j] == EulerPath(r0, kappa, theta, T / numPoints as real, 0.0, z[j]);
      EulerIgnoresDraws(r0, kappa, theta, T / numPoints as real, z[j], z[0]);
    }
    MeanConstant(d, c);
    assert MonteCarloBondPrice(x, r0, kappa, theta, 0.0, T, numPoints, z, exp, sqrt) == BondEstimate(x, paths, T / numPoints as real, exp);
    assert Mean(PathDiscounts(paths, T / numPoints as real, exp)) == c;
    assert BondEstimate(x, paths, T / numPoints as real, exp).value == x * c;
  }

  /** With no volatility the estimate does not depend on the number of
      simulations or on the draws. */
  lemma MonteCarloBondPriceNoVolatility(x: real, r0: real, kappa: real, theta: real, T: real, numPoints: nat, z: seq<seq<real>>, y: seq<seq<real>>, exp: real -> real, sqrt: real -> real)
    requires numPoints >= 1 && |z| >= 1 && |y| >= 1
    requires forall j :: 0 <= j < |z| ==> |z[j]| == numPoints
    requires forall j :: 0 <= j < |y| ==> |y[j]| == numPoints
    ensures MonteCarloBondPrice(x, r0, kappa, theta, 0.0, T, numPoints, z, exp, sqrt)
         == MonteCarloBondPrice(x, r0, kappa, theta, 0.0, T, numPoints, y, exp, sqrt)
  {
    NoVolatilityEstimate(x, r0, kappa, theta, T, numPoints, z, exp, sqrt);
    NoVolatilityEstimate(x, r0, kappa, theta, T, numPoints, y, exp, sqrt);
    EulerIgnoresDraws(r0, kappa, theta, T / numPoints as real, z[0], y[0]);
    var dt := T / numPoints as real;
    var c := PathDiscount(EulerPath(r0, kappa, theta, dt, 0.0, z[0]), dt, exp);
    assert c == PathDiscount(EulerPath(r0, kappa, theta, dt, 0.0, y[0]), dt, exp);
    var pz := MonteCarloBondPrice(x, r0, kappa, theta, 0.0, T, numPoints, z, exp, sqrt);
    var py := MonteCarloBondPrice(x, r0, kappa, theta, 0.0, T, numPoints, y, exp, sqrt);
    assert pz.Some? && py.Some? && pz.value == py.value;
  }

  /** 15_bondPricingVasicek.py: the same pricing with 1000 simulations of 200
      steps each (the script prints the price; here it is returned). */
  method BondPricingScript(x: real, r0: real, kappa: real, theta: real, sigma: real, T: real, z: seq<seq<real>>, exp: real -> real, sqrt: real -> real)
    returns (price: real)
    requires |z| == 1000 && forall j :: 0 <= j < |z| ==> |z[j]| == 200
    ensures Some(price) == MonteCarloBondPrice(x, r0, kappa, theta, sigma, T, 200, z, exp, sqrt)
  {
    var estimate := MonteCarloBondPricing(x, r0, kappa, theta, sigma, T, 1000, 200, z, exp, sqrt);
    price := estimate.value;
  }
}
