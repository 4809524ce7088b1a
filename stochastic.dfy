/** Path generators of `models/stochastic.py` and the scripts
    `06_wienerProcess.py` and `07_gbm.py`, plus the Euler recurrence they share
    with the Vasicek model. Every random draw is an element of an input
    sequence `z` of standard normals; numpy's `normal(mean, scale)` is
    `mean + scale * z`. */
module Stochastic {
  import opened Elementary
  import opened Series

  /** A draw of numpy's normal(mean, scale) made from a standard normal z. */
  function NormalDraw(mean: real, scale: real, z: real): real
  {
    mean + scale * z
  }

  /** A vector of draws of normal(mean, scale). */
  function Draws(mean: real, scale: real, z: seq<real>): (d: seq<real>)
    ensures |d| == |z|
    ensures forall i :: 0 <= i < |z| ==> d[i] == NormalDraw(mean, scale, z[i])
  {
    seq(|z|, i requires 0 <= i < |z| => NormalDraw(mean, scale, z[i]))
  }

  // ---------------------------------------------------------------------
  // Wiener process
  // ---------------------------------------------------------------------

  /** The construction both Wiener generators share: the time axis
      linspace(x0, n, n + 1), and a walk that is zero at index 0 and holds the
      running sums of n draws of normal(mean, sqrt(dt)) at indices 1..n. */
  function WienerWalk(mean: real, dt: real, x0: real, n: nat, z: seq<real>, sqrt: real -> real): (r: (seq<real>, seq<real>))
    requires |z| == n
    ensures |r.0| == n + 1 && |r.1| == n + 1
  {
    (Linspace(x0, n as real, n + 1), [0.0] + PrefixSums(Draws(mean, sqrt(dt), z)))
  }

  /** wiener_process of the package: increments of mean 0. */
  function WienerProcess(dt: real, x0: real, n: nat, z: seq<real>, sqrt: real -> real): (r: (seq<real>, seq<real>))
    requires |z| == n
    ensures |r.1| == n + 1 && r.1[0] == 0.0
    ensures forall i :: 1 <= i <= n ==> r.1[i] - r.1[i - 1] == sqrt(dt) * z[i - 1]
  {
    WalkIncrements(0.0, dt, x0, n, z, sqrt);
    WienerWalk(0.0, dt, x0, n, z, sqrt)
  }

  /** wiener_process of the script 06_wienerProcess.py: increments of mean 1. */
  function WienerProcessDrifted(dt: real, x0: real, n: nat, z: seq<real>, sqrt: real -> real): (r: (seq<real>, seq<real>))
    requires |z| == n
    ensures |r.1| == n + 1 && r.1[0] == 0.0
    ensures forall i :: 1 <= i <= n ==> r.1[i] - r.1[i - 1] == 1.0 + sqrt(dt) * z[i - 1]
  {
    WalkIncrements(1.0, dt, x0, n, z, sqrt);
    WienerWalk(1.0, dt, x0, n, z, sqrt)
  }

  /** Time axis and walk have n + 1 entries each; the walk starts at zero and
      each later entry adds one draw to the one before. */
  lemma WienerRecurrence(mean: real, dt: real, x0: real, n: nat, z: seq<real>, sqrt: real -> real, i: nat)
    requires |z| == n && 1 <= i <= n
    ensures |WienerWalk(mean, dt, x0, n, z, sqrt).0| == |WienerWalk(mean, dt, x0, n, z, sqrt).1| == n + 1
    ensures WienerWalk(mean, dt, x0, n, z, sqrt).1[0] == 0.0
    ensures WienerWalk(mean, dt, x0, n, z, sqrt).1[i] == WienerWalk(mean, dt, x0, n, z, sqrt).1[i - 1] + NormalDraw(mean, sqrt(dt), z[i - 1])
  {
    PrefixSumsStep(Draws(mean, sqrt(dt), z), i - 1);
  }

  /** Every step of the walk adds one normal(mean, sqrt(dt)) draw. */
  lemma WalkIncrements(mean: real, dt: real, x0: real, n: nat, z: seq<real>, sqrt: real -> real)
    requires |z| == n
    ensures WienerWalk(mean, dt, x0, n, z, sqrt).1[0] == 0.0
    ensures forall i :: 1 <= i <= n ==> WienerWalk(mean, dt, x0, n, z, sqrt).1[i] - WienerWalk(mean, dt, x0, n, z, sqrt).1[i - 1] == mean + sqrt(dt) * z[i - 1]
  {
    forall i | 1 <= i <= n
      ensures WienerWalk(mean, dt, x0, n, z, sqrt).1[i] - WienerWalk(mean, dt, x0, n, z, sqrt).1[i - 1] == mean + sqrt(dt) * z[i - 1]
    {
      WienerRecurrence(mean, dt, x0, n, z, sqrt, i);
    }
  }

  /** x0 only sets where the time axis starts (it runs from x0 to n); the walk
      itself always starts at zero, whatever x0 is. */
  lemma WienerTimeAxis(mean: real, dt: real, x0: real, y0: real, n: nat, z: seq<real>, sqrt: real -> real)
    requires |z| == n
    ensures WienerWalk(mean, dt, x0, n, z, sqrt).0[0] == x0
    ensures n >= 1 ==> WienerWalk(mean, dt, x0, n, z, sqrt).0[n] == n as real
    ensures WienerWalk(mean, dt, x0, n, z, sqrt).1 == WienerWalk(mean, dt, y0, n, z, sqrt).1
  {
    LinspaceEnds(x0, n as real, n + 1);
  }

  /** When every standard draw is zero (each increment equals its mean) the
      walk is the mean times the index. */
  lemma {:induction false} WienerAtZeroDraws(mean: real, dt: real, x0: real, n: nat, z: seq<real>, sqrt: real -> real, i: nat)
    requires |z| == n && i <= n
    requires forall k :: 0 <= k < n ==> z[k] == 0.0
    ensures WienerWalk(mean, dt, x0, n, z, sqrt).1[i] == mean * i as real
  {
    if i > 0 {
      WienerAtZeroDraws(mean, dt, x0, n, z, sqrt, i - 1);
      WienerRecurrence(mean, dt, x0, n, z, sqrt, i);
    }
  }

  /** With every draw at its mean, the package walk stays at zero, as a
      Wiener process should in expectation, while the script's walk climbs by
      one per step. */
  lemma WienerDriftFinding(dt: real, x0: real, n: nat, z: seq<real>, sqrt: real -> real, i: nat)
    requires |z| == n && i <= n
    requires forall k :: 0 <= k < n ==> z[k] == 0.0
    ensures WienerProcess(dt, x0, n, z, sqrt).1[i] == 0.0
    ensures WienerProcessDrifted(dt, x0, n, z, sqrt).1[i] == i as real
  {
    WienerAtZeroDraws(0.0, dt, x0, n, z, sqrt, i);
    WienerAtZeroDraws(1.0, dt, x0, n, z, sqrt, i);
  }

  // ---------------------------------------------------------------------
  // Geometric Brownian motion
  // ---------------------------------------------------------------------

  /** The GBM price at time t when the Brownian path is at w:
      s0 * exp((mu - sigma^2 / 2) * t + sigma * w). */
  function GbmPrice(s0: real, mu: real, sigma: real, t: real, w: real, exp: real -> real): real
  {
    s0 * exp((mu - 0.5 * sigma * sigma) * t + sigma * w)
  }

  /** numpy.cumsum(z) * scale. */
  function ScaledWalk(z: seq<real>, scale: real): (w: seq<real>)
    ensures |w| == |z|
  {
    seq(|z|, i requires 0 <= i < |z| => PrefixSums(z)[i] * scale)
  }

  /** The time step T / N the Brownian increments are scaled to. */
  function TimeStep(T: real, N: nat): real
    requires N >= 1
  {
    T / N as real
  }

  /** simulate_gbm as written: N grid points linspace(0, T, N), and a
      Brownian path cumsum(z) * sqrt(T / N) that already holds one increment
      at the first point. The source divides by N, so N >= 1. */
  function SimulateGbm(s0: real, T: real, N: nat, mu: real, sigma: real, z: seq<real>, exp: real -> real, sqrt: real -> real): (r: (seq<real>, seq<real>))
    requires N >= 1 && |z| == N
    ensures |r.0| == N && |r.1| == N
  {
    var t := Linspace(0.0, T, N);
    var w := ScaledWalk(z, sqrt(TimeStep(T, N)));
    (t, seq(N, i requires 0 <= i < N => GbmPrice(s0, mu, sigma, t[i], w[i], exp)))
  }

  /** GBM as intended: N + 1 points linspace(0, T, N + 1) spaced dt = T / N
      apart, and a Brownian path that starts at zero. */
  function SimulateGbmFromStart(s0: real, T: real, N: nat, mu: real, sigma: real, z: seq<real>, exp: real -> real, sqrt: real -> real): (r: (seq<real>, seq<real>))
    requires N >= 1 && |z| == N
    ensures |r.0| == N + 1 && |r.1| == N + 1
  {
    var t := Linspace(0.0, T, N + 1);
    var w := [0.0] + ScaledWalk(z, sqrt(TimeStep(T, N)));
    (t, seq(N + 1, i requires 0 <= i < N + 1 => GbmPrice(s0, mu, sigma, t[i], w[i], exp)))
  }

  /** A GBM price from a positive start is positive. */
  lemma GbmPricePositive(s0: real, mu: real, sigma: real, t: real, w: real, exp: real -> real)
    requires IsExp(exp) && s0 > 0.0
    ensures GbmPrice(s0, mu, sigma, t, w, exp) > 0.0
  {
    assert exp((mu - 0.5 * sigma * sigma) * t + sigma * w) > 0.0;
  }

  /** Every simulated price is positive when s0 is, in both versions. */
  lemma GbmPositive(s0: real, T: real, N: nat, mu: real, sigma: real, z: seq<real>, exp: real -> real, sqrt: real -> real)
    requires N >= 1 && |z| == N
    requires IsExp(exp) && s0 > 0.0
    ensures forall i :: 0 <= i < N ==> SimulateGbm(s0, T, N, mu, sigma, z, exp, sqrt).1[i] > 0.0
    ensures forall i :: 0 <= i <= N ==> SimulateGbmFromStart(s0, T, N, mu, sigma, z, exp, sqrt).1[i] > 0.0
  {
    var r := SimulateGbm(s0, T, N, mu, sigma, z, exp, sqrt);
    var q := SimulateGbmFromStart(s0, T, N, mu, sigma, z, exp, sqrt);
    var t := Linspace(0.0, T, N);
    var t' := Linspace(0.0, T, N + 1);
    var w := ScaledWalk(z, sqrt(TimeStep(T, N)));
    var w' := [0.0] + w;
    forall i | 0 <= i < N
      ensures r.1[i] > 0.0
    {
      GbmPricePositive(s0, mu, sigma, t[i], w[i], exp);
    }
    forall i | 0 <= i <= N
      ensures q.1[i] > 0.0
    {
      GbmPricePositive(s0, mu, sigma, t'[i], w'[i], exp);
    }
  }

  /** The time grid of simulate_gbm starts at 0 and, with two or more points,
      ends at T, so its spacing is T / (N - 1); the Brownian increments are
      scaled by sqrt(T / N), a different step whenever T is not zero. */
  lemma GbmGrid(s0: real, T: real, N: nat, mu: real, sigma: real, z: seq<real>, exp: real -> real, sqrt: real -> real)
    requires N >= 1 && |z| == N
    ensures SimulateGbm(s0, T, N, mu, sigma, z, exp, sqrt).0[0] == 0.0
    ensures N >= 2 ==> SimulateGbm(s0, T, N, mu, sigma, z, exp, sqrt).0[N - 1] == T
    ensures N >= 2 ==> SimulateGbm(s0, T, N, mu, sigma, z, exp, sqrt).0[1] - SimulateGbm(s0, T, N, mu, sigma, z, exp, sqrt).0[0] == T / (N - 1) as real
    ensures N >= 2 && T != 0.0 ==> T / (N - 1) as real != T / N as real
  {
    LinspaceEnds(0.0, T, N);
    if N >= 2 {
      LinspaceSpacing(0.0, T, N, 0);
      if T != 0.0 {
        DistinctDivisors(T, (N - 1) as real, N as real);
      }
    }
  }

  lemma DistinctDivisors(x: real, a: real, b: real)
    requires x != 0.0 && 0.0 < a < b
    ensures x / a != x / b
  {
    if x / a == x / b {
      assert false;
    }
  }

  /** The first price of simulate_gbm already carries the first draw: the
      Brownian value at the first grid point is z[0] * sqrt(T / N), not 0,
      and S[0] = s0 * exp(sigma * that value). */
  lemma GbmFirstPrice(s0: real, T: real, N: nat, mu: real, sigma: real, z: seq<real>, exp: real -> real, sqrt: real -> real)
    requires N >= 1 && |z| == N
    ensures ScaledWalk(z, sqrt(TimeStep(T, N)))[0] == z[0] * sqrt(TimeStep(T, N))
    ensures SimulateGbm(s0, T, N, mu, sigma, z, exp, sqrt).1[0] == s0 * exp(sigma * ScaledWalk(z, sqrt(TimeStep(T, N)))[0])
  {
    var t := Linspace(0.0, T, N);
    var w := ScaledWalk(z, sqrt(TimeStep(T, N)));
    LinspaceEnds(0.0, T, N);
    PrefixSumsStep(z, 0);
    GbmPriceAtStart(s0, mu, sigma, t[0], w[0], exp);
  }

  /** At time 0 only the Brownian term is left in the exponent. */
  lemma GbmPriceAtStart(s0: real, mu: real, sigma: real, t: real, w: real, exp: real -> real)
    requires t == 0.0
    ensures GbmPrice(s0, mu, sigma, t, w, exp) == s0 * exp(sigma * w)
  {
    assert (mu - 0.5 * sigma * sigma) * t + sigma * w == sigma * w;
  }

  /** The documented call simulate_gbm(s0=100, T=1, N=100) returns a first
      price of exactly 100 only when the first draw is zero: for any other
      draw and a non-zero volatility (the default is 0.05) it differs. */
  lemma GbmFirstPriceMoves(mu: real, sigma: real, z: seq<real>, exp: real -> real, sqrt: real -> real)
    requires |z| == 100 && IsExp(exp) && IsSqrt(sqrt)
    requires sigma != 0.0 && z[0] != 0.0
    ensures SimulateGbm(100.0, 1.0, 100, mu, sigma, z, exp, sqrt).1[0] != 100.0
  {
    GbmFirstPrice(100.0, 1.0, 100, mu, sigma, z, exp, sqrt);
    SqrtPositive(sqrt, TimeStep(1.0, 100));
    var w0 := ScaledWalk(z, sqrt(TimeStep(1.0, 100)))[0];
    assert w0 != 0.0;
    ExpNotOne(exp, sigma * w0);
  }

  /** exp(a) = 1 only at a = 0. */
  lemma ExpNotOne(exp: real -> real, a: real)
    requires IsExp(exp) && a != 0.0
    ensures exp(a) != 1.0
  {
    if a < 0.0 {
      assert exp(a) < exp(0.0);
    } else {
      assert exp(0.0) < exp(a);
    }
  }

  /** With no volatility every price grows at the drift: S[i] = s0 * exp(mu * t[i]). */
  lemma GbmNoVolatility(s0: real, T: real, N: nat, mu: real, z: seq<real>, exp: real -> real, sqrt: real -> real, i: nat)
    requires N >= 1 && |z| == N && i < N
    ensures SimulateGbm(s0, T, N, mu, 0.0, z, exp, sqrt).1[i] == s0 * exp(mu * SimulateGbm(s0, T, N, mu, 0.0, z, exp, sqrt).0[i])
  {
    var t := Linspace(0.0, T, N);
    var w := ScaledWalk(z, sqrt(TimeStep(T, N)));
    assert (mu - 0.5 * 0.0 * 0.0) * t[i] + 0.0 * w[i] == mu * t[i];
  }

  /** The intended GBM starts at s0 at time 0, ends at time T, and its grid
      steps by dt = T / N, the step the Brownian increments are scaled by. */
  lemma GbmFromStartFacts(s0: real, T: real, N: nat, mu: real, sigma: real, z: seq<real>, exp: real -> real, sqrt: real -> real, i: nat)
    requires N >= 1 && |z| == N && i < N
    requires IsExp(exp)
    ensures SimulateGbmFromStart(s0, T, N, mu, sigma, z, exp, sqrt).1[0] == s0
    ensures SimulateGbmFromStart(s0, T, N, mu, sigma, z, exp, sqrt).0[0] == 0.0
    ensures SimulateGbmFromStart(s0, T, N, mu, sigma, z, exp, sqrt).0[N] == T
    ensures SimulateGbmFromStart(s0, T, N, mu, sigma, z, exp, sqrt).0[i + 1] - SimulateGbmFromStart(s0, T, N, mu, sigma, z, exp, sqrt).0[i] == T / N as real
  {
    var t := Linspace(0.0, T, N + 1);
    LinspaceEnds(0.0, T, N + 1);
    LinspaceSpacing(0.0, T, N + 1, i);
    assert (mu - 0.5 * sigma * sigma) * t[0] + sigma * 0.0 == 0.0;
  }

  // ---------------------------------------------------------------------
  // Euler recurrence of the mean-reverting processes
  // ---------------------------------------------------------------------

  /** The noise scale of one step of length dt: sigma * sqrt(dt), so that
      sigma * normal(0, sqrt(dt)) is NoiseScale(sigma, dt, sqrt) * z. */
  function NoiseScale(sigma: real, dt: real, sqrt: real -> real): real
  {
    sigma * sqrt(dt)
  }

  /** The increment the sources compute, speed * (level - x) * dt + the
      scaled draw, added to x, is one Euler step. */
  lemma EulerIncrement(x: real, speed: real, level: real, dt: real, sigma: real, sqrtDt: real, z: real)
    ensures x + (speed * (level - x) * dt + sigma * sqrtDt * z) == EulerStep(x, speed, level, dt, sigma * sqrtDt, z)
    ensures x + speed * (level - x) * dt + sigma * NormalDraw(0.0, sqrtDt, z) == EulerStep(x, speed, level, dt, sigma * sqrtDt, z)
  {
  }

  /** One Euler step of dX = speed * (level - X) dt + scale * dW, where the
      standard draw z gives the noise scale * z. */
  function EulerStep(x: real, speed: real, level: real, dt: real, scale: real, z: real): real
  {
    x + speed * (level - x) * dt + scale * z
  }

  /** The path from x0 after one Euler step per draw; the noise of step k is
      scale * z[k]. */
  function EulerPath(x0: real, speed: real, level: real, dt: real, scale: real, z: seq<real>): (p: seq<real>)
    ensures |p| == |z| + 1 && p[0] == x0
  {
    if |z| == 0 then [x0]
    else
      var q := EulerPath(x0, speed, level, dt, scale, z[..|z| - 1]);
      q + [EulerStep(q[|q| - 1], speed, level, dt, scale, z[|z| - 1])]
  }

  /** With 0 <= speed * dt <= 1 an Euler step preserves the order of its
      starting points: it moves y - x to (1 - speed * dt) * (y - x). */
  lemma EulerStepMonotone(x: real, y: real, speed: real, level: real, dt: real, scale: real, z: real)
    requires 0.0 <= speed * dt <= 1.0 && x <= y
    ensures EulerStep(x, speed, level, dt, scale, z) <= EulerStep(y, speed, level, dt, scale, z)
  {
    var f := speed * dt;
    var g := 1.0 - f;
    var d := y - x;
    assert EulerStep(y, speed, level, dt, scale, z) - EulerStep(x, speed, level, dt, scale, z) == g * d;
    NonNegativeProduct(g, d);
  }

  /** On the same draws, a path from a higher start stays at or above the
      path from a lower start. */
  lemma {:induction false} EulerPathMonotone(x0: real, y0: real, speed: real, level: real, dt: real, scale: real, z: seq<real>, k: nat)
    requires 0.0 <= speed * dt <= 1.0 && x0 <= y0 && k <= |z|
    ensures EulerPath(x0, speed, level, dt, scale, z)[k] <= EulerPath(y0, speed, level, dt, scale, z)[k]
  {
    if k > 0 {
      EulerPathMonotone(x0, y0, speed, level, dt, scale, z, k - 1);
      EulerPathStep(x0, speed, level, dt, scale, z, k - 1);
      EulerPathStep(y0, speed, level, dt, scale, z, k - 1);
      EulerStepMonotone(EulerPath(x0, speed, level, dt, scale, z)[k - 1], EulerPath(y0, speed, level, dt, scale, z)[k - 1],
                        speed, level, dt, scale, z[k - 1]);
    }
  }

  /** The first m + 1 points of a path depend only on the first m draws. */
  lemma {:induction false} EulerPathPrefix(x0: real, speed: real, level: real, dt: real, scale: real, z: seq<real>, m: nat)
    requires m <= |z|
    ensures EulerPath(x0, speed, level, dt, scale, z)[..m + 1] == EulerPath(x0, speed, level, dt, scale, z[..m])
  {
    if m < |z| {
      var init := z[..|z| - 1];
      EulerPathPrefix(x0, speed, level, dt, scale, init, m);
      assert init[..m] == z[..m];
      var q := EulerPath(x0, speed, level, dt, scale, init);
      assert EulerPath(x0, speed, level, dt, scale, z)[..m + 1] == q[..m + 1];
    } else {
      assert z[..m] == z;
    }
  }

  /** Every point of a path is one Euler step from the point before it. */
  lemma {:induction false} EulerPathStep(x0: real, speed: real, level: real, dt: real, scale: real, z: seq<real>, k: nat)
    requires k < |z|
    ensures EulerPath(x0, speed, level, dt, scale, z)[k + 1] == EulerStep(EulerPath(x0, speed, level, dt, scale, z)[k], speed, level, dt, scale, z[k])
  {
    var init := z[..|z| - 1];
    if k < |init| {
      EulerPathStep(x0, speed, level, dt, scale, init, k);
      assert init[k] == z[k];
    }
  }

  /** Extending the draws by one adds one Euler step to the path. */
  lemma EulerPathExtend(x0: real, speed: real, level: real, dt: real, scale: real, z: seq<real>, m: nat)
    requires m < |z|
    ensures EulerPath(x0, speed, level, dt, scale, z[..m + 1])
         == EulerPath(x0, speed, level, dt, scale, z[..m]) + [EulerStep(EulerPath(x0, speed, level, dt, scale, z[..m])[m], speed, level, dt, scale, z[m])]
  {
    var zm := z[..m + 1];
    EulerPathUnfold(x0, speed, level, dt, scale, zm);
    assert zm[..|zm| - 1] == z[..m];
    assert zm[|zm| - 1] == z[m];
    var prefix := EulerPath(x0, speed, level, dt, scale, zm[..|zm| - 1]);
    assert prefix == EulerPath(x0, speed, level, dt, scale, z[..m]);
    assert EulerPath(x0, speed, level, dt, scale, zm) == prefix + [EulerStep(prefix[|zm| - 1], speed, level, dt, scale, zm[|zm| - 1])];
  }

  lemma EulerPathUnfold(x0: real, speed: real, level: real, dt: real, scale: real, z: seq<real>)
    requires |z| > 0
    ensures EulerPath(x0, speed, level, dt, scale, z)
         == EulerPath(x0, speed, level, dt, scale, z[..|z| - 1]) + [EulerStep(EulerPath(x0, speed, level, dt, scale, z[..|z| - 1])[|z| - 1], speed, level, dt, scale, z[|z| - 1])]
  {
  }

  /** Without noise a step shrinks the distance to the level by the factor
      1 - speed * dt. */
  lemma EulerStepNoiseFree(x: real, speed: real, level: real, dt: real, z: real)
    ensures EulerStep(x, speed, level, dt, 0.0, z) - level == (1.0 - speed * dt) * (x - level)
  {
  }

  /** Without noise a path that starts at the level stays there. */
  lemma {:induction false} EulerAtLevel(level: real, speed: real, dt: real, z: seq<real>, k: nat)
    requires k <= |z|
    ensures EulerPath(level, speed, level, dt, 0.0, z)[k] == level
  {
    if k > 0 {
      EulerAtLevel(level, speed, dt, z, k - 1);
      EulerPathStep(level, speed, level, dt, 0.0, z, k - 1);
      EulerStepNoiseFree(level, speed, level, dt, z[k - 1]);
    }
  }

  /** Without noise, and with 0 <= speed * dt <= 1, no step moves the path
      further from the level. */
  lemma EulerContracts(x0: real, speed: real, level: real, dt: real, z: seq<real>, k: nat)
    requires k < |z| && 0.0 <= speed * dt <= 1.0
    ensures Abs(EulerPath(x0, speed, level, dt, 0.0, z)[k + 1] - level) <= Abs(EulerPath(x0, speed, level, dt, 0.0, z)[k] - level)
  {
    var p := EulerPath(x0, speed, level, dt, 0.0, z);
    EulerPathStep(x0, speed, level, dt, 0.0, z, k);
    EulerStepNoiseFree(p[k], speed, level, dt, z[k]);
    ShrinkAbs(p[k] - level, 1.0 - speed * dt);
  }

  lemma ShrinkAbs(d: real, f: real)
    requires 0.0 <= f <= 1.0
    ensures Abs(f * d) <= Abs(d)
  {
    if d < 0.0 {
      assert f * d >= d;
    } else {
      assert f * d <= d;
    }
  }

  /** Without noise, and with 0 < speed * dt <= 1, a path moves monotonically
      toward the level and never crosses it: from above it falls but stays at
      or above the level, from below it rises but stays at or below it. */
  lemma {:induction false} EulerNoCrossing(x0: real, speed: real, level: real, dt: real, z: seq<real>, k: nat)
    requires k < |z| && 0.0 < speed * dt <= 1.0
    ensures x0 >= level ==> level <= EulerPath(x0, speed, level, dt, 0.0, z)[k + 1] <= EulerPath(x0, speed, level, dt, 0.0, z)[k]
    ensures x0 <= level ==> EulerPath(x0, speed, level, dt, 0.0, z)[k] <= EulerPath(x0, speed, level, dt, 0.0, z)[k + 1] <= level
  {
    var p := EulerPath(x0, speed, level, dt, 0.0, z);
    if k > 0 {
      EulerNoCrossing(x0, speed, level, dt, z, k - 1);
    }
    EulerPathStep(x0, speed, level, dt, 0.0, z, k);
    EulerStepToward(p[k], speed, level, dt, z[k]);
  }

  /** One noise-free step with 0 < speed * dt <= 1 moves toward the level
      without crossing it. */
  lemma EulerStepToward(x: real, speed: real, level: real, dt: real, z: real)
    requires 0.0 < speed * dt <= 1.0
    ensures x >= level ==> level <= EulerStep(x, speed, level, dt, 0.0, z) <= x
    ensures x <= level ==> x <= EulerStep(x, speed, level, dt, 0.0, z) <= level
  {
    var f := 1.0 - speed * dt;
    var d := x - level;
    var y := EulerStep(x, speed, level, dt, 0.0, z);
    assert y - level == f * d by {
      EulerStepNoiseFree(x, speed, level, dt, z);
    }
    ShrinkSigned(f, d);
  }

  /** A factor in [0, 1] moves a number toward zero without crossing it. */
  lemma ShrinkSigned(f: real, d: real)
    requires 0.0 <= f <= 1.0
    ensures 0.0 <= d ==> 0.0 <= f * d <= d
    ensures d <= 0.0 ==> d <= f * d <= 0.0
  {
    var g := 1.0 - f;
    assert d - f * d == g * d;
    if 0.0 <= d {
      NonNegativeProduct(f, d);
      NonNegativeProduct(g, d);
    } else {
      NonNegativeProduct(f, -d);
      NonNegativeProduct(g, -d);
    }
  }

  lemma NonNegativeProduct(a: real, b: real)
    requires 0.0 <= a && 0.0 <= b
    ensures 0.0 <= a * b
  {
  }

  /** Without noise the draws are irrelevant: any two draw sequences of the
      same length give the same path. */
  lemma {:induction false} EulerIgnoresDraws(x0: real, speed: real, level: real, dt: real, z: seq<real>, y: seq<real>)
    requires |z| == |y|
    ensures EulerPath(x0, speed, level, dt, 0.0, z) == EulerPath(x0, speed, level, dt, 0.0, y)
  {
    if |z| > 0 {
      var n := |z| - 1;
      EulerIgnoresDraws(x0, speed, level, dt, z[..n], y[..n]);
      var q := EulerPath(x0, speed, level, dt, 0.0, z[..n]);
      assert q == EulerPath(x0, speed, level, dt, 0.0, y[..n]);
      EulerPathUnfold(x0, speed, level, dt, 0.0, z);
      EulerPathUnfold(x0, speed, level, dt, 0.0, y);
      assert EulerStep(q[n], speed, level, dt, 0.0, z[n]) == EulerStep(q[n], speed, level, dt, 0.0, y[n]) by {
        EulerStepNoiseFree(q[n], speed, level, dt, z[n]);
        EulerStepNoiseFree(q[n], speed, level, dt, y[n]);
      }
    }
  }

  /** Nothing keeps the path above zero: from a 1% rate, one step toward a
      5% level with a large negative draw goes below zero. */
  lemma EulerCanGoNegative()
    ensures EulerPath(0.01, 1.0, 0.05, 0.1, 0.1, [-5.0])[1] < 0.0
  {
    EulerPathStep(0.01, 1.0, 0.05, 0.1, 0.1, [-5.0], 0);
  }

  // ---------------------------------------------------------------------
  // Ornstein-Uhlenbeck process
  // ---------------------------------------------------------------------

  /** generate_ornstein_uhlenbeck: n values that start at 0 and follow the
      Euler recurrence toward mu with noise sigma * normal(0, sqrt(dt)); the
      n - 1 steps use n - 1 draws. */
  function OrnsteinUhlenbeck(dt: real, theta: real, mu: real, sigma: real, n: nat, z: seq<real>, sqrt: real -> real): (x: seq<real>)
    requires |z| == (if n == 0 then 0 else n - 1)
    ensures |x| == n
    ensures n >= 1 ==> x[0] == 0.0
  {
    if n == 0 then [] else EulerPath(0.0, theta, mu, dt, NoiseScale(sigma, dt, sqrt), z)
  }

  /** The loop of generate_ornstein_uhlenbeck over a zero-filled array. */
  method GenerateOrnsteinUhlenbeck(dt: real, theta: real, mu: real, sigma: real, n: nat, z: seq<real>, sqrt: real -> real) returns (x: seq<real>)
    requires |z| == (if n == 0 then 0 else n - 1)
    ensures x == OrnsteinUhlenbeck(dt, theta, mu, sigma, n, z, sqrt)
  {
    if n == 0 {
      return [];
    }
    var a := new real[n](_ => 0.0);
    var scale := NoiseScale(sigma, dt, sqrt);
    assert a[..1] == [0.0];
    for t := 1 to n
      invariant a[..t] == EulerPath(0.0, theta, mu, dt, scale, z[..t - 1])
    {
      ghost var q := EulerPath(0.0, theta, mu, dt, scale, z[..t - 1]);
      assert a[t - 1] == q[t - 1];
      EulerIncrement(a[t - 1], theta, mu, dt, sigma, sqrt(dt), z[t - 1]);
      a[t] := a[t - 1] + theta * (mu - a[t - 1]) * dt + sigma * NormalDraw(0.0, sqrt(dt), z[t - 1]);
      assert a[t] == EulerStep(q[t - 1], theta, mu, dt, scale, z[t - 1]);
      EulerPathExtend(0.0, theta, mu, dt, scale, z, t - 1);
      assert a[..t + 1] == a[..t] + [a[t]];
    }
    assert z[..n - 1] == z;
    x := a[..];
    assert x == a[..n];
  }

  /** Each value after the first is the previous one plus the pull toward mu
      and the scaled draw. */
  lemma OrnsteinUhlenbeckRecurrence(dt: real, theta: real, mu: real, sigma: real, n: nat, z: seq<real>, sqrt: real -> real, k: nat)
    requires |z| == (if n == 0 then 0 else n - 1) && 1 <= k < n
    ensures OrnsteinUhlenbeck(dt, theta, mu, sigma, n, z, sqrt)[k]
         == OrnsteinUhlenbeck(dt, theta, mu, sigma, n, z, sqrt)[k - 1]
            + theta * (mu - OrnsteinUhlenbeck(dt, theta, mu, sigma, n, z, sqrt)[k - 1]) * dt
            + sigma * NormalDraw(0.0, sqrt(dt), z[k - 1])
  {
    EulerPathStep(0.0, theta, mu, dt, NoiseScale(sigma, dt, sqrt), z, k - 1);
    EulerIncrement(OrnsteinUhlenbeck(dt, theta, mu, sigma, n, z, sqrt)[k - 1], theta, mu, dt, sigma, sqrt(dt), z[k - 1]);
  }

  /** Without volatility, and with 0 <= theta * dt <= 1, the process reverts
      to its mean: no step moves it further from mu. */
  lemma OrnsteinUhlenbeckReverts(dt: real, theta: real, mu: real, n: nat, z: seq<real>, sqrt: real -> real, k: nat)
    requires |z| == (if n == 0 then 0 else n - 1) && 1 <= k < n
    requires 0.0 <= theta * dt <= 1.0
    ensures Abs(OrnsteinUhlenbeck(dt, theta, mu, 0.0, n, z, sqrt)[k] - mu) <= Abs(OrnsteinUhlenbeck(dt, theta, mu, 0.0, n, z, sqrt)[k - 1] - mu)
  {
    assert NoiseScale(0.0, dt, sqrt) == 0.0;
    EulerContracts(0.0, theta, mu, dt, z, k - 1);
  }
}
