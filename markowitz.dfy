/** Markowitz mean-variance portfolio simulation, `portfolio/markowitz.py` and
    `04_markowitzModel.py`. Daily log returns are taken from a price table;
    random weight vectors are normalised to sum to one and each is scored by
    its annualised expected return (252 trading days times the weighted mean
    daily return) and its annualised volatility sqrt(w' (252 C) w); the Sharpe
    ratio is return over volatility.

    Tables are sequences of rows (one row per date), each row holding one
    entry per asset. */
module Markowitz {
  import opened Outcomes
  import opened Elementary
  import opened Series

  /** Trading days per year used to annualise daily statistics. */
  const NumTradingDays: real := 252.0

  /** The number of random portfolios generated by default. */
  const DefaultPortfolios: nat := 10000

  /** The number of stocks in the script's universe. */
  const ScriptAssets: nat := 6

  /** Every row of the table has one entry per asset. */
  predicate Rectangular(table: seq<seq<real>>, assets: nat)
  {
    forall i :: 0 <= i < |table| ==> |table[i]| == assets
  }

  /** Every price in the table is positive. */
  predicate PositivePrices(table: seq<seq<real>>)
  {
    forall i, k :: 0 <= i < |table| && 0 <= k < |table[i]| ==> 0.0 < table[i][k]
  }

  /** The entries of one asset, date by date. */
  function Column(table: seq<seq<real>>, assets: nat, k: nat): (c: seq<real>)
    requires Rectangular(table, assets) && k < assets
    ensures |c| == |table|
    ensures forall i :: 0 <= i < |table| ==> c[i] == table[i][k]
  {
    seq(|table|, i requires 0 <= i < |table| => table[i][k])
  }

  // ---------------------------------------------------------------------------
  // Log returns
  // ---------------------------------------------------------------------------

  /** The log returns of one positive price series: log(p[i+1] / p[i]) for
      each consecutive pair, so one entry fewer than there are prices. */
  function LogReturns(p: seq<real>, log: real -> real): (r: seq<real>)
    requires forall i :: 0 <= i < |p| ==> 0.0 < p[i]
    ensures |r| == if |p| == 0 then 0 else |p| - 1
  {
    if |p| == 0 then [] else seq(|p| - 1, i requires 0 <= i < |p| - 1 => log(p[i + 1] / p[i]))
  }

  /** `calculate_returns`: log(data / data.shift(1)) with the first row, which
      has no predecessor, dropped. */
  function CalculateReturns(prices: seq<seq<real>>, assets: nat, log: real -> real): (r: seq<seq<real>>)
    requires Rectangular(prices, assets) && PositivePrices(prices)
    ensures |r| == if |prices| == 0 then 0 else |prices| - 1
    ensures Rectangular(r, assets)
  {
    if |prices| == 0 then []
    else
      seq(|prices| - 1, i requires 0 <= i < |prices| - 1 =>
        seq(assets, k requires 0 <= k < assets => log(prices[i + 1][k] / prices[i][k])))
  }

  /** Each asset's column of returns is the log return series of its prices. */
  lemma ReturnsColumn(prices: seq<seq<real>>, assets: nat, k: nat, log: real -> real)
    requires Rectangular(prices, assets) && PositivePrices(prices) && k < assets
    ensures Column(CalculateReturns(prices, assets, log), assets, k) == LogReturns(Column(prices, assets, k), log)
  {
  }

  /** The log of a positive price is the log of the one before plus the log
      of their ratio. */
  lemma LogRatio(log: real -> real, a: real, b: real)
    requires 0.0 < a && 0.0 < b && IsLogOfProduct(log)
    ensures log(b) == log(a) + log(b / a)
  {
    var r := b / a;
    assert 0.0 < r;
    assert a * r == b;
    assert log(a * r) == log(a) + log(r);
  }

  /** Log returns telescope: over the whole series they add up to the log of
      the last price minus the log of the first. */
  lemma {:induction false} LogReturnsTelescope(p: seq<real>, log: real -> real)
    requires |p| >= 1
    requires forall i :: 0 <= i < |p| ==> 0.0 < p[i]
    requires IsLogOfProduct(log)
    ensures Sum(LogReturns(p, log)) == log(p[|p| - 1]) - log(p[0])
  {
    var n := |p| - 1;
    if n > 0 {
      var r := LogReturns(p, log);
      assert Sum(r[..n - 1]) == log(p[n - 1]) - log(p[0]) by {
        LogReturnsTelescope(p[..n], log);
        assert r[..n - 1] == LogReturns(p[..n], log);
      }
      assert r[n - 1] == log(p[n] / p[n - 1]);
      assert log(p[n]) == log(p[n - 1]) + log(p[n] / p[n - 1]) by {
        LogRatio(log, p[n - 1], p[n]);
      }
    }
  }

  /** The daily log returns of an asset add up to its log price change over
      the whole table. */
  lemma ReturnsTelescope(prices: seq<seq<real>>, assets: nat, k: nat, log: real -> real)
    requires Rectangular(prices, assets) && PositivePrices(prices) && k < assets
    requires |prices| >= 1 && IsLogOfProduct(log)
    ensures Sum(Column(CalculateReturns(prices, assets, log), assets, k)) == log(prices[|prices| - 1][k]) - log(prices[0][k])
  {
    ReturnsColumn(prices, assets, k, log);
    LogReturnsTelescope(Column(prices, assets, k), log);
  }

  // ---------------------------------------------------------------------------
  // Weights
  // ---------------------------------------------------------------------------

  /** The draws of `np.random.random`: each in [0, 1), not all zero. */
  predicate UniformDraws(u: seq<real>)
  {
    (forall i :: 0 <= i < |u| ==> 0.0 <= u[i] < 1.0) && Sum(u) > 0.0
  }

  /** `weights /= np.sum(weights)`. */
  function Normalise(u: seq<real>): (w: seq<real>)
    requires Sum(u) != 0.0
    ensures |w| == |u|
    ensures forall i :: 0 <= i < |u| ==> w[i] == u[i] / Sum(u)
  {
    seq(|u|, i requires 0 <= i < |u| => u[i] / Sum(u))
  }

  /** Normalised weights sum to one. */
  lemma NormaliseSumsToOne(u: seq<real>)
    requires Sum(u) != 0.0
    ensures Sum(Normalise(u)) == 1.0
  {
    var w := Normalise(u);
    var s := Sum(u);
    forall i | 0 <= i < |w| ensures w[i] == (1.0 / s) * u[i] + 0.0 * u[i] {
      assert u[i] / s == (1.0 / s) * u[i];
    }
    SumLinear(w, u, u, 1.0 / s, 0.0);
    assert (1.0 / s) * s == 1.0;
  }

  /** A share of a positive whole lies in [0, 1]. */
  lemma ShareBounds(x: real, s: real)
    requires 0.0 <= x <= s && 0.0 < s
    ensures 0.0 <= x / s <= 1.0
  {
    var w := x / s;
    assert w * s == x;
  }

  /** Normalising non-negative draws gives long-only weights, each in [0, 1]. */
  lemma NormaliseBounds(u: seq<real>)
    requires forall i :: 0 <= i < |u| ==> 0.0 <= u[i]
    requires Sum(u) > 0.0
    ensures forall i :: 0 <= i < |u| ==> 0.0 <= Normalise(u)[i] <= 1.0
  {
    forall i | 0 <= i < |u| ensures 0.0 <= Normalise(u)[i] <= 1.0 {
      ElementAtMostSum(u, i);
      ShareBounds(u[i], Sum(u));
    }
  }

  /** `weights /= np.sum(weights)`: the array is divided by its sum in place. */
  method NormaliseInPlace(a: array<real>)
    requires Sum(a[..]) != 0.0
    modifies a
    ensures a[..] == Normalise(old(a[..]))
  {
    ghost var draws := a[..];
    var total := Sum(a[..]);
    for i := 0 to a.Length
      invariant forall k :: 0 <= k < i ==> a[k] == draws[k] / total
      invariant forall k :: i <= k < a.Length ==> a[k] == draws[k]
    {
      a[i] := a[i] / total;
    }
    assert a[..] == Normalise(draws);
  }

  // ---------------------------------------------------------------------------
  // Portfolio statistics
  // ---------------------------------------------------------------------------

  /** The dot product of two vectors of one length. */
  function Dot(a: seq<real>, b: seq<real>): real
    requires |a| == |b|
  {
    Sum(seq(|a|, i requires 0 <= i < |a| => a[i] * b[i]))
  }

  /** A matrix with every entry multiplied by k, as `returns.cov() * 252`. */
  function ScaleMatrix(M: seq<seq<real>>, k: real): (a: seq<seq<real>>)
    ensures |a| == |M|
    ensures forall i :: 0 <= i < |M| ==> |a[i]| == |M[i]|
    ensures forall i, j :: 0 <= i < |M| && 0 <= j < |M[i]| ==> a[i][j] == M[i][j] * k
  {
    seq(|M|, i requires 0 <= i < |M| =>
      seq(|M[i]|, j requires 0 <= j < |M[i]| => M[i][j] * k))
  }

  /** The matrix-vector product `np.dot(M, w)`. */
  function MatVec(M: seq<seq<real>>, w: seq<real>): (v: seq<real>)
    requires Rectangular(M, |w|)
    ensures |v| == |M|
    ensures forall i :: 0 <= i < |M| ==> v[i] == Dot(M[i], w)
  {
    seq(|M|, i requires 0 <= i < |M| => Dot(M[i], w))
  }

  /** When every asset has the same mean return, the weighted sum scaled by
      k is k times that mean times the total weight. */
  lemma EqualMeansReturn(mean: seq<real>, w: seq<real>, k: real)
    requires |mean| == |w|
    ensures |w| > 0 && (forall i :: 0 <= i < |w| ==> mean[i] == mean[0])
        ==> Sum(seq(|w|, i requires 0 <= i < |w| => (mean[i] * w[i]) * k)) == k * mean[0] * Sum(w)
  {
    if |w| > 0 && (forall i :: 0 <= i < |w| ==> mean[i] == mean[0]) {
      var s := seq(|w|, i requires 0 <= i < |w| => (mean[i] * w[i]) * k);
      SumScale(s, w, k * mean[0]);
    }
  }

  /** The annualised expected return: np.sum((mean * w) * 252). */
  function PortfolioReturn(mean: seq<real>, w: seq<real>): (r: real)
    requires |mean| == |w|
    ensures |w| > 0 && (forall i :: 0 <= i < |w| ==> mean[i] == mean[0]) ==> r == NumTradingDays * mean[0] * Sum(w)
  {
    EqualMeansReturn(mean, w, NumTradingDays);
    Sum(seq(|w|, i requires 0 <= i < |w| => (mean[i] * w[i]) * NumTradingDays))
  }

  /** The annualised variance w' (252 C) w. */
  function PortfolioVariance(cov: seq<seq<real>>, w: seq<real>): real
    requires |cov| == |w| && Rectangular(cov, |w|)
  {
    Dot(w, MatVec(ScaleMatrix(cov, NumTradingDays), w))
  }

  /** The annualised volatility: the square root of the variance. */
  function PortfolioVolatility(cov: seq<seq<real>>, w: seq<real>, sqrt: real -> real): (v: real)
    requires |cov| == |w| && Rectangular(cov, |w|)
    ensures IsSqrt(sqrt) && PortfolioVariance(cov, w) >= 0.0 ==> 0.0 <= v && v * v == PortfolioVariance(cov, w)
  {
    sqrt(PortfolioVariance(cov, w))
  }

  /** What `statistics` returns: the expected return, the volatility and the
      Sharpe ratio. numpy divides a float by a zero volatility without raising
      and yields inf or nan; the model says None there. */
  datatype PortfolioStatistics = PortfolioStatistics(ret: real, volatility: real, sharpe: Option<real>)

  /** `statistics(weights, returns)`, given the daily mean returns and the
      daily covariance matrix of the returns table. */
  function Statistics(w: seq<real>, mean: seq<real>, cov: seq<seq<real>>, sqrt: real -> real): (s: PortfolioStatistics)
    requires |mean| == |w| && |cov| == |w| && Rectangular(cov, |w|)
    ensures s.sharpe.None? <==> s.volatility == 0.0
    ensures s.sharpe.Some? ==> s.sharpe.value * s.volatility == s.ret
  {
    var ret := PortfolioReturn(mean, w);
    var vol := PortfolioVolatility(cov, w, sqrt);
    PortfolioStatistics(ret, vol, if vol == 0.0 then None else Some(ret / vol))
  }

  /** The expected return is linear in the weights. */
  lemma PortfolioReturnLinear(mean: seq<real>, w: seq<real>, v: seq<real>, x: seq<real>, a: real, b: real)
    requires |mean| == |w| == |v| == |x|
    requires forall i :: 0 <= i < |w| ==> w[i] == a * v[i] + b * x[i]
    ensures PortfolioReturn(mean, w) == a * PortfolioReturn(mean, v) + b * PortfolioReturn(mean, x)
  {
    var s := seq(|w|, i requires 0 <= i < |w| => (mean[i] * w[i]) * NumTradingDays);
    var t := seq(|v|, i requires 0 <= i < |v| => (mean[i] * v[i]) * NumTradingDays);
    var u := seq(|x|, i requires 0 <= i < |x| => (mean[i] * x[i]) * NumTradingDays);
    forall i | 0 <= i < |w| ensures s[i] == a * t[i] + b * u[i] {
      calc {
        s[i];
        (mean[i] * (a * v[i] + b * x[i])) * NumTradingDays;
        a * ((mean[i] * v[i]) * NumTradingDays) + b * ((mean[i] * x[i]) * NumTradingDays);
      }
    }
    SumLinear(s, t, u, a, b);
    assert PortfolioReturn(mean, w) == Sum(s);
    assert PortfolioReturn(mean, v) == Sum(t);
    assert PortfolioReturn(mean, x) == Sum(u);
  }

  /** With long-only weights summing to one the annualised return lies
      between 252 times the smallest and 252 times the largest mean return. */
  lemma PortfolioReturnBounds(mean: seq<real>, w: seq<real>, lo: real, hi: real)
    requires |mean| == |w|
    requires forall i :: 0 <= i < |w| ==> 0.0 <= w[i]
    requires Sum(w) == 1.0
    requires forall i :: 0 <= i < |mean| ==> lo <= mean[i] <= hi
    ensures lo * NumTradingDays <= PortfolioReturn(mean, w) <= hi * NumTradingDays
  {
    var s := seq(|w|, i requires 0 <= i < |w| => (mean[i] * w[i]) * NumTradingDays);
    forall i | 0 <= i < |w| ensures (lo * NumTradingDays) * w[i] <= s[i] <= (hi * NumTradingDays) * w[i] {
      WeightedTermBounds(mean[i], w[i], lo, hi, s[i]);
    }
    WeightedSumLower(s, w, lo * NumTradingDays);
    WeightedSumUpper(s, w, hi * NumTradingDays);
  }

  /** Terms at least lo times their weights sum to at least lo times the
      total weight. */
  lemma {:induction false} WeightedSumLower(s: seq<real>, w: seq<real>, lo: real)
    requires |s| == |w|
    requires forall i :: 0 <= i < |s| ==> lo * w[i] <= s[i]
    ensures lo * Sum(w) <= Sum(s)
  {
    if |s| > 0 {
      var n := |s| - 1;
      WeightedSumLower(s[..n], w[..n], lo);
      Distribute(lo, Sum(w[..n]), w[n]);
    }
  }

  /** Terms at most hi times their weights sum to at most hi times the total
      weight. */
  lemma {:induction false} WeightedSumUpper(s: seq<real>, w: seq<real>, hi: real)
    requires |s| == |w|
    requires forall i :: 0 <= i < |s| ==> s[i] <= hi * w[i]
    ensures Sum(s) <= hi * Sum(w)
  {
    if |s| > 0 {
      var n := |s| - 1;
      WeightedSumUpper(s[..n], w[..n], hi);
      Distribute(hi, Sum(w[..n]), w[n]);
    }
  }

  /** Multiplication distributes over addition. */
  lemma Distribute(a: real, x: real, y: real)
    ensures a * (x + y) == a * x + a * y
  {
  }

  /** One annualised term m * w * 252 with w >= 0 and lo <= m <= hi. */
  lemma WeightedTermBounds(m: real, w: real, lo: real, hi: real, t: real)
    requires 0.0 <= w && lo <= m <= hi && t == (m * w) * NumTradingDays
    ensures (lo * NumTradingDays) * w <= t <= (hi * NumTradingDays) * w
  {
    assert (m - lo) * w >= 0.0;
    assert (hi - m) * w >= 0.0;
  }

  /** The product of a scaled row with a vector is the scaled product. */
  lemma DotScale(a: seq<real>, b: seq<real>, w: seq<real>, k: real)
    requires |a| == |b| == |w|
    requires forall j :: 0 <= j < |a| ==> a[j] == b[j] * k
    ensures Dot(a, w) == k * Dot(b, w)
  {
    var s := seq(|a|, j requires 0 <= j < |a| => a[j] * w[j]);
    var t := seq(|b|, j requires 0 <= j < |b| => b[j] * w[j]);
    forall j | 0 <= j < |a| ensures s[j] == k * t[j] {
      ProductRegroup(b[j], w[j], k, a[j], s[j], t[j]);
    }
    SumScale(s, t, k);
  }

  /** (x k) y = k (x y), stated over named values. */
  lemma ProductRegroup(x: real, y: real, k: real, a: real, p: real, q: real)
    requires a == x * k && p == a * y && q == x * y
    ensures p == k * q
  {
  }

  /** The quadratic form of a scaled matrix is the scaled quadratic form:
      w' (k M) w = k (w' M w). */
  lemma QuadraticFormScale(M: seq<seq<real>>, w: seq<real>, k: real)
    requires |M| == |w| && Rectangular(M, |w|)
    ensures Dot(w, MatVec(ScaleMatrix(M, k), w)) == k * Dot(w, MatVec(M, w))
  {
    var v := MatVec(M, w);
    var vk := MatVec(ScaleMatrix(M, k), w);
    assert forall i :: 0 <= i < |M| ==> vk[i] == k * v[i] by {
      forall i | 0 <= i < |M| ensures vk[i] == k * v[i] {
        DotScale(ScaleMatrix(M, k)[i], M[i], w, k);
      }
    }
    var s := seq(|w|, i requires 0 <= i < |w| => w[i] * vk[i]);
    var t := seq(|w|, i requires 0 <= i < |w| => w[i] * v[i]);
    assert Sum(s) == k * Sum(t) by {
      forall i | 0 <= i < |w| ensures s[i] == k * t[i] {
        ScaledFactor(w[i], v[i], k, vk[i], s[i], t[i]);
      }
      SumScale(s, t, k);
    }
  }

  /** y (k x) = k (y x), stated over named values. */
  lemma ScaledFactor(y: real, x: real, k: real, a: real, p: real, q: real)
    requires a == k * x && p == y * a && q == y * x
    ensures p == k * q
  {
  }

  /** The annualised variance is 252 times the daily variance w' C w. */
  lemma VarianceAnnualised(cov: seq<seq<real>>, w: seq<real>)
    requires |cov| == |w| && Rectangular(cov, |w|)
    ensures PortfolioVariance(cov, w) == NumTradingDays * Dot(w, MatVec(cov, w))
  {
    QuadraticFormScale(cov, w, NumTradingDays);
  }

  /** The unit weight vector holding only asset k. */
  function Unit(n: nat, k: nat): (e: seq<real>)
    requires k < n
    ensures |e| == n && e[k] == 1.0
    ensures forall i :: 0 <= i < n && i != k ==> e[i] == 0.0
  {
    seq(n, i requires 0 <= i < n => if i == k then 1.0 else 0.0)
  }

  /** A sum whose entries vanish except at k is the entry at k. */
  lemma {:induction false} SumSingle(s: seq<real>, k: nat)
    requires k < |s|
    requires forall i :: 0 <= i < |s| && i != k ==> s[i] == 0.0
    ensures Sum(s) == s[k]
  {
    var n := |s| - 1;
    if k == n {
      var init := s[..n];
      SumMonotone(init, seq(n, i => 0.0));
      SumMonotone(seq(n, i => 0.0), init);
      SumBounds(seq(n, i => 0.0), 0.0, 0.0);
    } else {
      SumSingle(s[..n], k);
    }
  }

  /** Dotting with the unit vector of asset k picks entry k. */
  lemma DotUnit(a: seq<real>, k: nat)
    requires k < |a|
    ensures Dot(a, Unit(|a|, k)) == a[k]
    ensures Dot(Unit(|a|, k), a) == a[k]
  {
    var e := Unit(|a|, k);
    SumSingle(seq(|a|, i requires 0 <= i < |a| => a[i] * e[i]), k);
    SumSingle(seq(|a|, i requires 0 <= i < |a| => e[i] * a[i]), k);
  }

  /** A portfolio holding one asset only has that asset's annualised mean
      return and annualised variance. */
  lemma SingleAssetPortfolio(mean: seq<real>, cov: seq<seq<real>>, k: nat)
    requires |mean| == |cov| && Rectangular(cov, |cov|) && k < |cov|
    ensures PortfolioReturn(mean, Unit(|cov|, k)) == mean[k] * NumTradingDays
    ensures PortfolioVariance(cov, Unit(|cov|, k)) == cov[k][k] * NumTradingDays
  {
    var n := |cov|;
    var e := Unit(n, k);
    SumSingle(seq(n, i requires 0 <= i < n => (mean[i] * e[i]) * NumTradingDays), k);
    var A := ScaleMatrix(cov, NumTradingDays);
    DotUnit(A[k], k);
    DotUnit(MatVec(A, e), k);
  }

  // ---------------------------------------------------------------------------
  // Generating random portfolios
  // ---------------------------------------------------------------------------

  /** The three index-aligned arrays `generate_portfolios` returns. */
  datatype Portfolios = Portfolios(weights: seq<seq<real>>, means: seq<real>, risks: seq<real>)

  /** Every row of draws has one entry per asset and can be normalised. */
  predicate ValidDraws(draws: seq<seq<real>>, assets: nat)
  {
    forall j :: 0 <= j < |draws| ==> |draws[j]| == assets && UniformDraws(draws[j])
  }

  /** The portfolios generated from the given rows of draws, one per row. */
  function GeneratedPortfolios(mean: seq<real>, cov: seq<seq<real>>, draws: seq<seq<real>>, sqrt: real -> real): (p: Portfolios)
    requires |cov| == |mean| && Rectangular(cov, |mean|) && ValidDraws(draws, |mean|)
    ensures |p.weights| == |p.means| == |p.risks| == |draws|
  {
    if |draws| == 0 then Portfolios([], [], [])
    else
      var n := |draws| - 1;
      var p := GeneratedPortfolios(mean, cov, draws[..n], sqrt);
      var w := Normalise(draws[n]);
      Portfolios(p.weights + [w], p.means + [PortfolioReturn(mean, w)], p.risks + [PortfolioVolatility(cov, w, sqrt)])
  }

  /** Entry j of the generated arrays is the portfolio of draw row j: its
      normalised weights, their expected return and their volatility. */
  lemma {:induction false} GeneratedEntry(mean: seq<real>, cov: seq<seq<real>>, draws: seq<seq<real>>, sqrt: real -> real, j: nat)
    requires |cov| == |mean| && Rectangular(cov, |mean|) && ValidDraws(draws, |mean|)
    requires j < |draws|
    ensures GeneratedPortfolios(mean, cov, draws, sqrt).weights[j] == Normalise(draws[j])
    ensures GeneratedPortfolios(mean, cov, draws, sqrt).means[j] == PortfolioReturn(mean, Normalise(draws[j]))
    ensures GeneratedPortfolios(mean, cov, draws, sqrt).risks[j] == PortfolioVolatility(cov, Normalise(draws[j]), sqrt)
  {
    var n := |draws| - 1;
    if j < n {
      GeneratedEntry(mean, cov, draws[..n], sqrt, j);
      assert draws[..n][j] == draws[j];
    }
  }

  /** Every generated weight vector is long-only and sums to one. */
  lemma GeneratedWeightsNormalised(mean: seq<real>, cov: seq<seq<real>>, draws: seq<seq<real>>, sqrt: real -> real, j: nat)
    requires |cov| == |mean| && Rectangular(cov, |mean|) && ValidDraws(draws, |mean|)
    requires j < |draws|
    ensures |GeneratedPortfolios(mean, cov, draws, sqrt).weights[j]| == |mean|
    ensures Sum(GeneratedPortfolios(mean, cov, draws, sqrt).weights[j]) == 1.0
    ensures forall i :: 0 <= i < |mean| ==> 0.0 <= GeneratedPortfolios(mean, cov, draws, sqrt).weights[j][i] <= 1.0
  {
    GeneratedEntry(mean, cov, draws, sqrt, j);
    NormaliseSumsToOne(draws[j]);
    NormaliseBounds(draws[j]);
  }

  /** `statistics` applied to a generated weight vector reproduces the
      generated return and risk, and its Sharpe ratio is their quotient. */
  lemma StatisticsMatchGenerated(mean: seq<real>, cov: seq<seq<real>>, draws: seq<seq<real>>, sqrt: real -> real, j: nat)
    requires |cov| == |mean| && Rectangular(cov, |mean|) && ValidDraws(draws, |mean|)
    requires j < |draws|
    ensures |GeneratedPortfolios(mean, cov, draws, sqrt).weights[j]| == |mean|
    ensures Statistics(GeneratedPortfolios(mean, cov, draws, sqrt).weights[j], mean, cov, sqrt).ret
         == GeneratedPortfolios(mean, cov, draws, sqrt).means[j]
    ensures Statistics(GeneratedPortfolios(mean, cov, draws, sqrt).weights[j], mean, cov, sqrt).volatility
         == GeneratedPortfolios(mean, cov, draws, sqrt).risks[j]
  {
    GeneratedEntry(mean, cov, draws, sqrt, j);
  }

  /** The generated expected returns lie within 252 times the range of the
      daily mean returns. */
  lemma GeneratedReturnBounds(mean: seq<real>, cov: seq<seq<real>>, draws: seq<seq<real>>, sqrt: real -> real, lo: real, hi: real, j: nat)
    requires |cov| == |mean| && Rectangular(cov, |mean|) && ValidDraws(draws, |mean|)
    requires j < |draws|
    requires forall i :: 0 <= i < |mean| ==> lo <= mean[i] <= hi
    ensures lo * NumTradingDays <= GeneratedPortfolios(mean, cov, draws, sqrt).means[j] <= hi * NumTradingDays
  {
    GeneratedEntry(mean, cov, draws, sqrt, j);
    NormaliseSumsToOne(draws[j]);
    NormaliseBounds(draws[j]);
    PortfolioReturnBounds(mean, Normalise(draws[j]), lo, hi);
  }

  /** `generate_portfolios`: one portfolio per row of draws, appended to the
      three lists in turn. */
  method GeneratePortfolios(mean: seq<real>, cov: seq<seq<real>>, numPortfolios: nat, draws: seq<seq<real>>, sqrt: real -> real)
    returns (weights: seq<seq<real>>, means: seq<real>, risks: seq<real>)
    requires |cov| == |mean| && Rectangular(cov, |mean|)
    requires |draws| == numPortfolios && ValidDraws(draws, |mean|)
    ensures Portfolios(weights, means, risks) == GeneratedPortfolios(mean, cov, draws, sqrt)
  {
    weights, means, risks := [], [], [];
    for j := 0 to numPortfolios
      invariant Portfolios(weights, means, risks) == GeneratedPortfolios(mean, cov, draws[..j], sqrt)
    {
      var buffer := new real[|mean|](k requires 0 <= k < |mean| => draws[j][k]);
      assert buffer[..] == draws[j];
      NormaliseInPlace(buffer);
      var w := buffer[..];
      assert draws[..j + 1][..j] == draws[..j];
      weights := weights + [w];
      means := means + [PortfolioReturn(mean, w)];
      risks := risks + [PortfolioVolatility(cov, w, sqrt)];
    }
    assert draws[..numPortfolios] == draws;
  }

  /** The script and the package default: 10000 portfolios over six stocks. */
  method GeneratePortfoliosScript(mean: seq<real>, cov: seq<seq<real>>, draws: seq<seq<real>>, sqrt: real -> real)
    returns (weights: seq<seq<real>>, means: seq<real>, risks: seq<real>)
    requires |mean| == ScriptAssets && |cov| == |mean| && Rectangular(cov, |mean|)
    requires |draws| == DefaultPortfolios && ValidDraws(draws, |mean|)
    ensures |weights| == |means| == |risks| == DefaultPortfolios
    ensures Portfolios(weights, means, risks) == GeneratedPortfolios(mean, cov, draws, sqrt)
  {
    weights, means, risks := GeneratePortfolios(mean, cov, DefaultPortfolios, draws, sqrt);
  }
}
