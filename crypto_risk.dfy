/** Value at risk for cryptocurrency positions, `crypto/risk.py`, from the
    return statistics onward (the price download is not part of the model).
    Cryptocurrencies trade every day, so the annualisation factor is 365.
    `crypto_var_analysis` reports the analytical figure as a positive loss and,
    on request, the Monte Carlo figure beside it; `crypto_portfolio_var`
    validates tickers and weights, reports a VaR per ticker and one for the
    whole portfolio built from the weighted mean and the covariance. */
module CryptoRisk {
  import opened Outcomes
  import opened Elementary
  import opened Series
  import Markowitz
  import ValueAtRisk

  /** Days per year for assets that trade every day. */
  const CryptoTradingDays: real := 365.0

  /** How far the weights may sum from one before they are refused. */
  const WeightTolerance: real := 0.000001

  /** The default confidence level. */
  const DefaultConfidence: real := 0.99

  /** The default horizon in days. */
  const DefaultDays: nat := 1

  /** The default number of Monte Carlo iterations. */
  const DefaultMonteCarloIterations: nat := 100000

  // ---------------------------------------------------------------------------
  // crypto_var_analysis
  // ---------------------------------------------------------------------------

  /** The dictionary `crypto_var_analysis` returns; the two Monte Carlo keys
      are present only when the Monte Carlo figure was asked for. */
  datatype VarAnalysis = VarAnalysis(
    analyticalVar: real,
    meanReturn: real,
    volatility: real,
    annualizedVolatility: real,
    confidenceLevel: real,
    timeHorizonDays: nat,
    monteCarloVar: Option<real>,
    varDifference: Option<real>)

  /** The Monte Carlo model `crypto_var_analysis` builds. */
  function MonteCarloModel(position: real, c: real, days: nat, mcIterations: nat, meanReturn: real, volatility: real): ValueAtRisk.ValueAtRiskMonteCarlo
  {
    ValueAtRisk.ValueAtRiskMonteCarlo(position, meanReturn, volatility, c, days, mcIterations)
  }

  /** `crypto_var_analysis` given the mean and the standard deviation of the
      daily log returns; z are the Monte Carlo draws. A failure of the Monte
      Carlo simulation propagates as the error. */
  function CryptoVarAnalysis(position: real, c: real, days: nat, useMonteCarlo: bool, mcIterations: nat,
                             meanReturn: real, volatility: real, z: seq<real>,
                             exp: real -> real, sqrt: real -> real, ppf: real -> real): (r: Result<VarAnalysis, ValueAtRisk.SimulationError>)
    requires useMonteCarlo ==> |z| == mcIterations
    ensures r.Err? <==> useMonteCarlo && ValueAtRisk.Simulation(MonteCarloModel(position, c, days, mcIterations, meanReturn, volatility), z, exp, sqrt).Err?
    ensures r.Ok? ==> 0.0 <= r.value.analyticalVar
    ensures r.Ok? ==> (r.value.monteCarloVar.Some? <==> useMonteCarlo) && (r.value.varDifference.Some? <==> useMonteCarlo)
    ensures r.Ok? && useMonteCarlo ==> r.value.varDifference.value == r.value.analyticalVar - r.value.monteCarloVar.value
  {
    var analytical := ValueAtRisk.ValueAtRiskN(position, c, meanReturn, volatility, days, ppf, sqrt);
    var report := VarAnalysis(Abs(analytical), meanReturn, volatility, volatility * sqrt(CryptoTradingDays), c, days, None, None);
    if !useMonteCarlo then Ok(report)
    else
      var mc := ValueAtRisk.Simulation(MonteCarloModel(position, c, days, mcIterations, meanReturn, volatility), z, exp, sqrt);
      if mc.Err? then Err(mc.error)
      else Ok(report.(monteCarloVar := Some(mc.value), varDifference := Some(Abs(analytical) - mc.value)))
  }

  /** When the analytical VaR is positive (a confident enough level, a
      non-negative drift, a long position), taking its absolute value changes
      nothing; the annualised volatility is the daily one times sqrt(365). */
  lemma AnalysisFigures(position: real, c: real, days: nat, useMonteCarlo: bool, mcIterations: nat,
                        meanReturn: real, volatility: real, z: seq<real>,
                        exp: real -> real, sqrt: real -> real, ppf: real -> real)
    requires useMonteCarlo ==> |z| == mcIterations
    requires CryptoVarAnalysis(position, c, days, useMonteCarlo, mcIterations, meanReturn, volatility, z, exp, sqrt, ppf).Ok?
    requires IsNormalQuantile(ppf) && IsSqrt(sqrt)
    requires 0.5 < c < 1.0 && meanReturn >= 0.0 && volatility > 0.0 && position > 0.0 && days >= 1
    ensures CryptoVarAnalysis(position, c, days, useMonteCarlo, mcIterations, meanReturn, volatility, z, exp, sqrt, ppf).value.analyticalVar
         == ValueAtRisk.ValueAtRiskN(position, c, meanReturn, volatility, days, ppf, sqrt)
    ensures CryptoVarAnalysis(position, c, days, useMonteCarlo, mcIterations, meanReturn, volatility, z, exp, sqrt, ppf).value.annualizedVolatility
         > volatility
  {
    ValueAtRisk.ValueAtRiskPositive(position, c, meanReturn, volatility, days, ppf, sqrt);
    SqrtAboveOne(sqrt, CryptoTradingDays);
  }

  /** The square root of a number above one is above one. */
  lemma SqrtAboveOne(sqrt: real -> real, x: real)
    requires IsSqrt(sqrt) && 1.0 < x
    ensures 1.0 < sqrt(x)
  {
    SqrtOne(sqrt);
    var s := sqrt(x);
    assert 0.0 <= s && s * s == x;
    if s < 1.0 {
      SquareIncreasing(s, 1.0);
      assert false;
    } else if s == 1.0 {
      assert false;
    }
  }

  /** The Monte Carlo figure lies between the position minus the largest and
      the position minus the smallest simulated value. */
  lemma AnalysisMonteCarloBounds(position: real, c: real, days: nat, mcIterations: nat,
                                 meanReturn: real, volatility: real, z: seq<real>,
                                 exp: real -> real, sqrt: real -> real, ppf: real -> real)
    requires |z| == mcIterations
    requires CryptoVarAnalysis(position, c, days, true, mcIterations, meanReturn, volatility, z, exp, sqrt, ppf).Ok?
    ensures |z| > 0
    ensures position - Max(ValueAtRisk.PortfolioValues(MonteCarloModel(position, c, days, mcIterations, meanReturn, volatility), z, exp, sqrt))
         <= CryptoVarAnalysis(position, c, days, true, mcIterations, meanReturn, volatility, z, exp, sqrt, ppf).value.monteCarloVar.value
         <= position - Min(ValueAtRisk.PortfolioValues(MonteCarloModel(position, c, days, mcIterations, meanReturn, volatility), z, exp, sqrt))
  {
    var m := MonteCarloModel(position, c, days, mcIterations, meanReturn, volatility);
    assert ValueAtRisk.Simulation(m, z, exp, sqrt).Ok?;
    ValueAtRisk.LossBounds(m, z, exp, sqrt);
  }

  // ---------------------------------------------------------------------------
  // crypto_portfolio_var
  // ---------------------------------------------------------------------------

  /** The two `ValueError`s raised before any data is fetched. */
  datatype PortfolioError = LengthMismatch | WeightsNotNormalised

  /** The return statistics of the downloaded table: per ticker the mean and
      the standard deviation of its daily log returns, and the covariance
      matrix of the daily log returns. */
  datatype ReturnStatistics = ReturnStatistics(means: seq<real>, vols: seq<real>, cov: seq<seq<real>>)

  /** One mean, one volatility and one covariance row per ticker. */
  predicate StatisticsFor(stats: ReturnStatistics, n: nat)
  {
    |stats.means| == n && |stats.vols| == n && |stats.cov| == n && Markowitz.Rectangular(stats.cov, n)
  }

  /** The dictionary `crypto_portfolio_var` returns, without the correlation
      matrix. */
  datatype PortfolioVar = PortfolioVar(
    portfolioVar: real,
    individualVars: map<string, real>,
    portfolioVolatility: real,
    portfolioMeanReturn: real,
    confidenceLevel: real,
    timeHorizonDays: nat)

  /** The checks made in order: equal lengths first, then weights summing to
      one within the tolerance. */
  function Validate(tickers: seq<string>, weights: seq<real>): (e: Option<PortfolioError>)
    ensures e == Some(LengthMismatch) <==> |tickers| != |weights|
    ensures e == Some(WeightsNotNormalised) <==> |tickers| == |weights| && Abs(Sum(weights) - 1.0) > WeightTolerance
    ensures e.None? <==> |tickers| == |weights| && Abs(Sum(weights) - 1.0) <= WeightTolerance
  {
    if |tickers| != |weights| then Some(LengthMismatch)
    else if Abs(Sum(weights) - 1.0) > WeightTolerance then Some(WeightsNotNormalised)
    else None
  }

  /** The money held in each ticker: weight times the total position. */
  function Positions(weights: seq<real>, position: real): (p: seq<real>)
    ensures |p| == |weights|
    ensures forall i :: 0 <= i < |weights| ==> p[i] == weights[i] * position
  {
    seq(|weights|, i requires 0 <= i < |weights| => weights[i] * position)
  }

  /** The VaR of ticker i, reported as a positive loss. */
  function IndividualVar(positions: seq<real>, c: real, stats: ReturnStatistics, days: nat, i: nat,
                         ppf: real -> real, sqrt: real -> real): (v: real)
    requires i < |positions| == |stats.means| == |stats.vols|
    ensures 0.0 <= v
  {
    Abs(ValueAtRisk.ValueAtRiskN(positions[i], c, stats.means[i], stats.vols[i], days, ppf, sqrt))
  }

  /** The `individual_vars` dictionary after the first n tickers: each ticker
      is written in turn, so a repeated ticker keeps its last figure. */
  function IndividualVars(tickers: seq<string>, positions: seq<real>, c: real, stats: ReturnStatistics, days: nat, n: nat,
                          ppf: real -> real, sqrt: real -> real): map<string, real>
    requires n <= |tickers| == |positions| == |stats.means| == |stats.vols|
  {
    if n == 0 then map[]
    else IndividualVars(tickers, positions, c, stats, days, n - 1, ppf, sqrt)[tickers[n - 1] := IndividualVar(positions, c, stats, days, n - 1, ppf, sqrt)]
  }

  /** The portfolio's annualised mean: the weighted sum of the daily means,
      times 365. */
  function PortfolioMean(means: seq<real>, weights: seq<real>): (m: real)
    requires |means| == |weights|
    ensures |weights| > 0 && (forall i :: 0 <= i < |weights| ==> means[i] == means[0]) ==> m == means[0] * Sum(weights) * CryptoTradingDays
  {
    Markowitz.EqualMeansReturn(means, weights, 1.0);
    assert seq(|weights|, i requires 0 <= i < |weights| => (means[i] * weights[i]) * 1.0)
        == seq(|weights|, i requires 0 <= i < |weights| => means[i] * weights[i]);
    Sum(seq(|weights|, i requires 0 <= i < |weights| => means[i] * weights[i])) * CryptoTradingDays
  }

  /** The portfolio's annualised volatility sqrt(w' (365 C) w). */
  function PortfolioVolatility(cov: seq<seq<real>>, weights: seq<real>, sqrt: real -> real): (v: real)
    requires |cov| == |weights| && Markowitz.Rectangular(cov, |weights|)
    ensures var q := Markowitz.Dot(weights, Markowitz.MatVec(Markowitz.ScaleMatrix(cov, CryptoTradingDays), weights));
            IsSqrt(sqrt) && q >= 0.0 ==> 0.0 <= v && v * v == q
  {
    sqrt(Markowitz.Dot(weights, Markowitz.MatVec(Markowitz.ScaleMatrix(cov, CryptoTradingDays), weights)))
  }

  /** The portfolio VaR over the de-annualised mean and volatility. */
  function PortfolioVarFigure(position: real, c: real, days: nat, mean: real, volatility: real,
                              ppf: real -> real, sqrt: real -> real): (v: real)
    requires sqrt(CryptoTradingDays) != 0.0
    ensures 0.0 <= v
  {
    Abs(ValueAtRisk.ValueAtRiskN(position, c, mean / CryptoTradingDays, volatility / sqrt(CryptoTradingDays), days, ppf, sqrt))
  }

  /** `crypto_portfolio_var` given the return statistics of the tickers. */
  function PortfolioVarReport(tickers: seq<string>, weights: seq<real>, position: real, c: real, days: nat,
                              stats: ReturnStatistics, ppf: real -> real, sqrt: real -> real): (r: Result<PortfolioVar, PortfolioError>)
    requires StatisticsFor(stats, |tickers|) && sqrt(CryptoTradingDays) != 0.0
    ensures r.Err? <==> Validate(tickers, weights).Some?
    ensures r.Err? ==> r.error == Validate(tickers, weights).value
  {
    match Validate(tickers, weights)
    case Some(e) => Err(e)
    case None =>
      var positions := Positions(weights, position);
      var mean := PortfolioMean(stats.means, weights);
      var volatility := PortfolioVolatility(stats.cov, weights, sqrt);
      Ok(PortfolioVar(
        PortfolioVarFigure(position, c, days, mean, volatility, ppf, sqrt),
        IndividualVars(tickers, positions, c, stats, days, |tickers|, ppf, sqrt),
        volatility, mean, c, days))
  }

  /** `crypto_portfolio_var`: validation, then the per-ticker loop filling
      the dictionary, then the portfolio figures. */
  method CryptoPortfolioVar(tickers: seq<string>, weights: seq<real>, position: real, c: real, days: nat,
                            stats: ReturnStatistics, ppf: real -> real, sqrt: real -> real)
    returns (r: Result<PortfolioVar, PortfolioError>)
    requires StatisticsFor(stats, |tickers|) && sqrt(CryptoTradingDays) != 0.0
    ensures r == PortfolioVarReport(tickers, weights, position, c, days, stats, ppf, sqrt)
  {
    if |tickers| != |weights| {
      return Err(LengthMismatch);
    }
    if Abs(Sum(weights) - 1.0) > WeightTolerance {
      return Err(WeightsNotNormalised);
    }
    var positions := Positions(weights, position);
    var individualVars: map<string, real> := map[];
    for i := 0 to |tickers|
      invariant individualVars == IndividualVars(tickers, positions, c, stats, days, i, ppf, sqrt)
    {
      var v := IndividualVar(positions, c, stats, days, i, ppf, sqrt);
      individualVars := individualVars[tickers[i] := v];
    }
    var mean := PortfolioMean(stats.means, weights);
    var volatility := PortfolioVolatility(stats.cov, weights, sqrt);
    r := Ok(PortfolioVar(PortfolioVarFigure(position, c, days, mean, volatility, ppf, sqrt), individualVars, volatility, mean, c, days));
  }

  /** The dictionary has a key for exactly the tickers seen so far. */
  lemma {:induction false} IndividualVarsKeys(tickers: seq<string>, positions: seq<real>, c: real, stats: ReturnStatistics, days: nat, n: nat,
                                              ppf: real -> real, sqrt: real -> real)
    requires n <= |tickers| == |positions| == |stats.means| == |stats.vols|
    ensures IndividualVars(tickers, positions, c, stats, days, n, ppf, sqrt).Keys == set i | 0 <= i < n :: tickers[i]
  {
    if n > 0 {
      IndividualVarsKeys(tickers, positions, c, stats, days, n - 1, ppf, sqrt);
      assert (set i | 0 <= i < n :: tickers[i]) == (set i | 0 <= i < n - 1 :: tickers[i]) + {tickers[n - 1]};
    }
  }

  /** The entry of a ticker is the VaR of its last occurrence. */
  lemma {:induction false} IndividualVarsLastWins(tickers: seq<string>, positions: seq<real>, c: real, stats: ReturnStatistics, days: nat, n: nat,
                                                  ppf: real -> real, sqrt: real -> real, i: nat)
    requires n <= |tickers| == |positions| == |stats.means| == |stats.vols|
    requires i < n && forall j :: i < j < n ==> tickers[j] != tickers[i]
    ensures tickers[i] in IndividualVars(tickers, positions, c, stats, days, n, ppf, sqrt)
    ensures IndividualVars(tickers, positions, c, stats, days, n, ppf, sqrt)[tickers[i]] == IndividualVar(positions, c, stats, days, i, ppf, sqrt)
  {
    if i < n - 1 {
      IndividualVarsLastWins(tickers, positions, c, stats, days, n - 1, ppf, sqrt, i);
    }
  }

  /** Every entry of the dictionary is a non-negative loss. */
  lemma {:induction false} IndividualVarsNonNegative(tickers: seq<string>, positions: seq<real>, c: real, stats: ReturnStatistics, days: nat, n: nat,
                                                     ppf: real -> real, sqrt: real -> real)
    requires n <= |tickers| == |positions| == |stats.means| == |stats.vols|
    ensures forall t :: t in IndividualVars(tickers, positions, c, stats, days, n, ppf, sqrt) ==>
      0.0 <= IndividualVars(tickers, positions, c, stats, days, n, ppf, sqrt)[t]
  {
    if n > 0 {
      IndividualVarsNonNegative(tickers, positions, c, stats, days, n - 1, ppf, sqrt);
    }
  }

  /** With distinct tickers the dictionary has exactly one entry per ticker. */
  lemma {:induction false} IndividualVarsCount(tickers: seq<string>, positions: seq<real>, c: real, stats: ReturnStatistics, days: nat, n: nat,
                                               ppf: real -> real, sqrt: real -> real)
    requires n <= |tickers| == |positions| == |stats.means| == |stats.vols|
    requires forall i, j :: 0 <= i < j < |tickers| ==> tickers[i] != tickers[j]
    ensures |IndividualVars(tickers, positions, c, stats, days, n, ppf, sqrt)| == n
  {
    if n > 0 {
      IndividualVarsCount(tickers, positions, c, stats, days, n - 1, ppf, sqrt);
      IndividualVarsKeys(tickers, positions, c, stats, days, n - 1, ppf, sqrt);
      assert tickers[n - 1] !in IndividualVars(tickers, positions, c, stats, days, n - 1, ppf, sqrt);
    }
  }

  /** Every reported VaR is a non-negative loss, and there is one
      individual figure per distinct ticker. */
  lemma ReportFigures(tickers: seq<string>, weights: seq<real>, position: real, c: real, days: nat,
                      stats: ReturnStatistics, ppf: real -> real, sqrt: real -> real)
    requires StatisticsFor(stats, |tickers|) && sqrt(CryptoTradingDays) != 0.0
    requires PortfolioVarReport(tickers, weights, position, c, days, stats, ppf, sqrt).Ok?
    ensures 0.0 <= PortfolioVarReport(tickers, weights, position, c, days, stats, ppf, sqrt).value.portfolioVar
    ensures forall t :: t in PortfolioVarReport(tickers, weights, position, c, days, stats, ppf, sqrt).value.individualVars ==>
      0.0 <= PortfolioVarReport(tickers, weights, position, c, days, stats, ppf, sqrt).value.individualVars[t]
    ensures PortfolioVarReport(tickers, weights, position, c, days, stats, ppf, sqrt).value.individualVars.Keys
         == set i | 0 <= i < |tickers| :: tickers[i]
  {
    var positions := Positions(weights, position);
    IndividualVarsNonNegative(tickers, positions, c, stats, days, |tickers|, ppf, sqrt);
    IndividualVarsKeys(tickers, positions, c, stats, days, |tickers|, ppf, sqrt);
  }

  /** Accepted weights split the position into pieces that add up to it, up
      to the tolerance on the weights' sum. */
  lemma PositionsSum(weights: seq<real>, position: real)
    requires Abs(Sum(weights) - 1.0) <= WeightTolerance
    ensures Abs(Sum(Positions(weights, position)) - position) <= WeightTolerance * Abs(position)
  {
    var p := Positions(weights, position);
    forall i | 0 <= i < |p| ensures p[i] == position * weights[i] {
    }
    SumScale(p, weights, position);
    var d := Sum(weights) - 1.0;
    assert Sum(p) - position == position * d;
    AbsProduct(position, d);
    assert Abs(position) * Abs(d) <= Abs(position) * WeightTolerance;
  }

  /** |a b| = |a| |b|. */
  lemma AbsProduct(a: real, b: real)
    ensures Abs(a * b) == Abs(a) * Abs(b)
  {
  }

  /** Multiplying by 365 and dividing again cancel: the daily portfolio mean
      is the weighted sum of the daily means. */
  lemma DailyMeanCancels(means: seq<real>, weights: seq<real>)
    requires |means| == |weights|
    ensures PortfolioMean(means, weights) / CryptoTradingDays
         == Sum(seq(|weights|, i requires 0 <= i < |weights| => means[i] * weights[i]))
  {
  }

  /** Dividing by sqrt(365) undoes the annualisation of the volatility: the
      daily portfolio volatility is sqrt(w' C w). */
  lemma DailyVolatilityCancels(cov: seq<seq<real>>, weights: seq<real>, sqrt: real -> real)
    requires |cov| == |weights| && Markowitz.Rectangular(cov, |weights|)
    requires IsSqrt(sqrt)
    requires 0.0 <= Markowitz.Dot(weights, Markowitz.MatVec(cov, weights))
    ensures PortfolioVolatility(cov, weights, sqrt) / sqrt(CryptoTradingDays)
         == sqrt(Markowitz.Dot(weights, Markowitz.MatVec(cov, weights)))
  {
    var x := Markowitz.Dot(weights, Markowitz.MatVec(cov, weights));
    Markowitz.QuadraticFormScale(cov, weights, CryptoTradingDays);
    SqrtOfProduct(sqrt, CryptoTradingDays, x);
    SqrtPositive(sqrt, CryptoTradingDays);
    CancelLeft(sqrt(CryptoTradingDays), sqrt(x));
  }

  /** (a b) / a = b for non-zero a. */
  lemma CancelLeft(a: real, b: real)
    requires a != 0.0
    ensures (a * b) / a == b
  {
  }

  /** One ticker at weight one: the daily portfolio mean is the ticker's. */
  lemma SingleTickerMean(mean: real)
    ensures PortfolioMean([mean], [1.0]) / CryptoTradingDays == mean
  {
    DailyMeanCancels([mean], [1.0]);
    assert seq(1, i requires 0 <= i < 1 => [mean][i] * [1.0][i]) == [mean * 1.0];
    assert Sum([mean * 1.0]) == mean;
  }

  /** One ticker at weight one with covariance vol^2: the daily portfolio
      volatility is the ticker's. */
  lemma SingleTickerVolatility(vol: real, sqrt: real -> real)
    requires IsSqrt(sqrt) && 0.0 <= vol
    ensures PortfolioVolatility([[vol * vol]], [1.0], sqrt) / sqrt(CryptoTradingDays) == vol
  {
    var cov := [[vol * vol]];
    var w := [1.0];
    var v := Markowitz.MatVec(cov, w);
    assert v[0] == vol * vol by {
      assert seq(1, i requires 0 <= i < 1 => cov[0][i] * w[i]) == [vol * vol * 1.0];
      assert Sum([vol * vol * 1.0]) == vol * vol;
    }
    assert Markowitz.Dot(w, v) == vol * vol by {
      assert seq(1, i requires 0 <= i < 1 => w[i] * v[i]) == [1.0 * v[0]];
      assert Sum([1.0 * v[0]]) == v[0];
    }
    DailyVolatilityCancels(cov, w, sqrt);
    SqrtUnique(sqrt, vol * vol, vol);
  }

  /** A one-ticker portfolio with weight one agrees with the single-asset
      analysis: its individual VaR is the analytical VaR of the position, and
      when the covariance is the variance vol^2 the portfolio VaR is the same
      figure. */
  lemma SingleTickerAgreement(ticker: string, position: real, c: real, days: nat, mean: real, vol: real,
                              exp: real -> real, sqrt: real -> real, ppf: real -> real)
    requires IsSqrt(sqrt) && 0.0 <= vol && sqrt(CryptoTradingDays) != 0.0
    ensures PortfolioVarReport([ticker], [1.0], position, c, days, ReturnStatistics([mean], [vol], [[vol * vol]]), ppf, sqrt).Ok?
    ensures PortfolioVarReport([ticker], [1.0], position, c, days, ReturnStatistics([mean], [vol], [[vol * vol]]), ppf, sqrt).value.individualVars
         == map[ticker := CryptoVarAnalysis(position, c, days, false, 0, mean, vol, [], exp, sqrt, ppf).value.analyticalVar]
    ensures PortfolioVarReport([ticker], [1.0], position, c, days, ReturnStatistics([mean], [vol], [[vol * vol]]), ppf, sqrt).value.portfolioVar
         == CryptoVarAnalysis(position, c, days, false, 0, mean, vol, [], exp, sqrt, ppf).value.analyticalVar
  {
    var stats := ReturnStatistics([mean], [vol], [[vol * vol]]);
    assert Sum([1.0]) == 1.0;
    var positions := Positions([1.0], position);
    assert positions[0] == position;
    var v := Abs(ValueAtRisk.ValueAtRiskN(position, c, mean, vol, days, ppf, sqrt));
    assert IndividualVar(positions, c, stats, days, 0, ppf, sqrt) == v;
    assert IndividualVars([ticker], positions, c, stats, days, 1, ppf, sqrt) == map[ticker := v];
    SingleTickerMean(mean);
    SingleTickerVolatility(vol, sqrt);
  }
}
