/** The stock-price Monte Carlo ensemble of `models/monte_carlo.py` and
    `09_stockPriceMonteCarlo.py`: every simulation multiplies the last price by
    exp((mu - sigma^2 / 2) + sigma * z) once per step (no dt factor), the paths
    become the columns of a table and a `mean` column holds the average of
    each row. */
module MonteCarlo {
  import opened Elementary
  import opened Series

  /** The factor one step multiplies the price by. */
  function GrowthFactor(mu: real, sigma: real, z: real, exp: real -> real): real
  {
    exp((mu - 0.5 * sigma * sigma) + sigma * z)
  }

  /** One step: the last price times the growth factor of the draw. */
  function PriceStep(price: real, mu: real, sigma: real, z: real, exp: real -> real): real
  {
    price * GrowthFactor(mu, sigma, z, exp)
  }

  /** The price path of one simulation: s0 followed by one price per draw. */
  function PricePath(s0: real, mu: real, sigma: real, z: seq<real>, exp: real -> real): (p: seq<real>)
    ensures |p| == |z| + 1 && p[0] == s0
  {
    if |z| == 0 then [s0]
    else
      var q := PricePath(s0, mu, sigma, z[..|z| - 1], exp);
      q + [PriceStep(q[|q| - 1], mu, sigma, z[|z| - 1], exp)]
  }

  /** The table the function returns: the simulated paths (the columns of the
      transposed frame) and the `mean` column. */
  datatype SimulationTable = SimulationTable(paths: seq<seq<real>>, mean: seq<real>)

  /** Row k of the table: the k-th price of every path. */
  function Row(paths: seq<seq<real>>, k: nat): (r: seq<real>)
    requires forall j :: 0 <= j < |paths| ==> k < |paths[j]|
    ensures |r| == |paths|
    ensures forall j :: 0 <= j < |paths| ==> r[j] == paths[j][k]
  {
    seq(|paths|, j requires 0 <= j < |paths| => paths[j][k])
  }

  /** `mean(axis=1)`: the average of each of the n rows. A frame built from no
      paths has no rows, so its mean column is empty. */
  function MeanColumn(paths: seq<seq<real>>, n: nat): (m: seq<real>)
    requires forall j :: 0 <= j < |paths| ==> |paths[j]| == n
    ensures |paths| == 0 ==> m == []
    ensures |paths| > 0 ==> |m| == n && forall k :: 0 <= k < n ==> m[k] == Mean(Row(paths, k))
  {
    if |paths| == 0 then [] else seq(n, k requires 0 <= k < n => Mean(Row(paths, k)))
  }

  /** The paths the function simulates from the draws z, one row of N draws
      per simulation. */
  function PricePaths(s0: real, mu: real, sigma: real, z: seq<seq<real>>, exp: real -> real): (paths: seq<seq<real>>)
    ensures |paths| == |z|
    ensures forall j :: 0 <= j < |z| ==> paths[j] == PricePath(s0, mu, sigma, z[j], exp)
  {
    seq(|z|, j requires 0 <= j < |z| => PricePath(s0, mu, sigma, z[j], exp))
  }

  /** The table stock_price_monte_carlo returns for the draws z. */
  function StockPriceTable(s0: real, mu: real, sigma: real, N: nat, z: seq<seq<real>>, exp: real -> real): SimulationTable
    requires forall j :: 0 <= j < |z| ==> |z[j]| == N
  {
    SimulationTable(PricePaths(s0, mu, sigma, z, exp), MeanColumn(PricePaths(s0, mu, sigma, z, exp), N + 1))
  }

  /** Appending one draw appends one price: the last price times the growth
      factor of that draw. */
  lemma PricePathExtend(s0: real, mu: real, sigma: real, z: seq<real>, m: nat, exp: real -> real)
    requires m < |z|
    ensures PricePath(s0, mu, sigma, z[..m + 1], exp)
         == PricePath(s0, mu, sigma, z[..m], exp) + [PriceStep(PricePath(s0, mu, sigma, z[..m], exp)[m], mu, sigma, z[m], exp)]
  {
    var zm := z[..m + 1];
    PricePathUnfold(s0, mu, sigma, zm, exp);
    assert zm[..|zm| - 1] == z[..m];
    assert zm[|zm| - 1] == z[m];
    var prefix := PricePath(s0, mu, sigma, zm[..|zm| - 1], exp);
    assert prefix == PricePath(s0, mu, sigma, z[..m], exp);
    assert PricePath(s0, mu, sigma, zm, exp) == prefix + [PriceStep(prefix[|zm| - 1], mu, sigma, zm[|zm| - 1], exp)];
  }

  lemma PricePathUnfold(s0: real, mu: real, sigma: real, z: seq<real>, exp: real -> real)
    requires |z| > 0
    ensures PricePath(s0, mu, sigma, z, exp)
         == PricePath(s0, mu, sigma, z[..|z| - 1], exp) + [PriceStep(PricePath(s0, mu, sigma, z[..|z| - 1], exp)[|z| - 1], mu, sigma, z[|z| - 1], exp)]
  {
  }

  /** The inner loop: start from s0 and append last * factor once per draw. */
  method SimulatePrices(s0: real, mu: real, sigma: real, z: seq<real>, exp: real -> real) returns (prices: seq<real>)
    ensures prices == PricePath(s0, mu, sigma, z, exp)
  {
    prices := [s0];
    for i := 0 to |z|
      invariant prices == PricePath(s0, mu, sigma, z[..i], exp)
    {
      PricePathExtend(s0, mu, sigma, z, i, exp);
      prices := prices + [PriceStep(prices[|prices| - 1], mu, sigma, z[i], exp)];
    }
    assert z[..|z|] == z;
  }

  /** stock_price_monte_carlo: numSimulations paths of N steps appended to a
      result list, then the mean column of the transposed table. */
  method StockPriceMonteCarlo(s0: real, mu: real, sigma: real, N: nat, numSimulations: nat, z: seq<seq<real>>, exp: real -> real)
    returns (table: SimulationTable)
    requires |z| == numSimulations
    requires forall j :: 0 <= j < |z| ==> |z[j]| == N
    ensures table == StockPriceTable(s0, mu, sigma, N, z, exp)
  {
    var results: seq<seq<real>> := [];
    for j := 0 to numSimulations
      invariant results == PricePaths(s0, mu, sigma, z[..j], exp)
    {
      var prices := SimulatePrices(s0, mu, sigma, z[j], exp);
      assert z[..j + 1] == z[..j] + [z[j]];
      results := results + [prices];
    }
    assert z[..numSimulations] == z;
    table := SimulationTable(results, MeanColumn(results, N + 1));
  }

  /** 09_stockPriceMonteCarlo.py: the same loops with NUM_OF_SIMULATIONS =
      1000 (the script plots the table instead of returning it). */
  method StockMonteCarloScript(s0: real, mu: real, sigma: real, N: nat, z: seq<seq<real>>, exp: real -> real)
    returns (table: SimulationTable)
    requires |z| == 1000
    requires forall j :: 0 <= j < |z| ==> |z[j]| == N
    ensures |table.paths| == 1000 && |table.mean| == N + 1
    ensures table == StockPriceTable(s0, mu, sigma, N, z, exp)
  {
    table := StockPriceMonteCarlo(s0, mu, sigma, N, 1000, z, exp);
  }

  /** Each price is the one before times the growth factor of its draw. */
  lemma {:induction false} PricePathStep(s0: real, mu: real, sigma: real, z: seq<real>, k: nat, exp: real -> real)
    requires k < |z|
    ensures PricePath(s0, mu, sigma, z, exp)[k + 1] == PricePath(s0, mu, sigma, z, exp)[k] * GrowthFactor(mu, sigma, z[k], exp)
  {
    var init := z[..|z| - 1];
    if k < |init| {
      PricePathStep(s0, mu, sigma, init, k, exp);
      assert init[k] == z[k];
    }
  }

  /** From a positive start every price is positive. */
  lemma {:induction false} PricePathPositive(s0: real, mu: real, sigma: real, z: seq<real>, k: nat, exp: real -> real)
    requires IsExp(exp) && s0 > 0.0 && k <= |z|
    ensures PricePath(s0, mu, sigma, z, exp)[k] > 0.0
  {
    if k > 0 {
      PricePathPositive(s0, mu, sigma, z, k - 1, exp);
      PricePathStep(s0, mu, sigma, z, k - 1, exp);
      var p := PricePath(s0, mu, sigma, z, exp);
      var g := GrowthFactor(mu, sigma, z[k - 1], exp);
      assert g > 0.0;
      assert p[k] == p[k - 1] * g;
    }
  }

  /** With at least one simulation the table has one path per simulation,
      each of N + 1 prices starting at s0, and a mean column of N + 1 row
      averages whose first entry is s0. */
  lemma StockPriceTableShape(s0: real, mu: real, sigma: real, N: nat, z: seq<seq<real>>, exp: real -> real)
    requires |z| >= 1
    requires forall j :: 0 <= j < |z| ==> |z[j]| == N
    ensures |StockPriceTable(s0, mu, sigma, N, z, exp).paths| == |z|
    ensures forall j :: 0 <= j < |z| ==> |StockPriceTable(s0, mu, sigma, N, z, exp).paths[j]| == N + 1
    ensures forall j :: 0 <= j < |z| ==> StockPriceTable(s0, mu, sigma, N, z, exp).paths[j][0] == s0
    ensures |StockPriceTable(s0, mu, sigma, N, z, exp).mean| == N + 1
    ensures StockPriceTable(s0, mu, sigma, N, z, exp).mean[0] == s0
  {
    var paths := PricePaths(s0, mu, sigma, z, exp);
    MeanConstant(Row(paths, 0), s0);
  }

  /** From a positive start every entry of the mean column is positive. */
  lemma StockPriceMeanPositive(s0: real, mu: real, sigma: real, N: nat, z: seq<seq<real>>, exp: real -> real, k: nat)
    requires IsExp(exp) && s0 > 0.0 && |z| >= 1 && k <= N
    requires forall j :: 0 <= j < |z| ==> |z[j]| == N
    ensures StockPriceTable(s0, mu, sigma, N, z, exp).mean[k] > 0.0
  {
    var paths := PricePaths(s0, mu, sigma, z, exp);
    var row := Row(paths, k);
    forall j | 0 <= j < |row|
      ensures 0.0 < row[j]
    {
      PricePathPositive(s0, mu, sigma, z[j], k, exp);
    }
    MeanStrictLower(row, 0.0);
  }

  /** Without volatility the draws play no part: paths over equally many draws
      are equal. */
  lemma {:induction false} PricePathIgnoresDraws(s0: real, mu: real, z: seq<real>, y: seq<real>, exp: real -> real)
    requires |z| == |y|
    ensures PricePath(s0, mu, 0.0, z, exp) == PricePath(s0, mu, 0.0, y, exp)
  {
    if |z| > 0 {
      PricePathIgnoresDraws(s0, mu, z[..|z| - 1], y[..|y| - 1], exp);
      assert (mu - 0.5 * 0.0 * 0.0) + 0.0 * z[|z| - 1] == (mu - 0.5 * 0.0 * 0.0) + 0.0 * y[|y| - 1];
      assert GrowthFactor(mu, 0.0, z[|z| - 1], exp) == GrowthFactor(mu, 0.0, y[|y| - 1], exp);
      var q := PricePath(s0, mu, 0.0, z[..|z| - 1], exp);
      assert PriceStep(q[|q| - 1], mu, 0.0, z[|z| - 1], exp) == PriceStep(q[|q| - 1], mu, 0.0, y[|y| - 1], exp);
    }
  }

  /** Without volatility every path is the same, and the mean column equals
      every one of them. */
  lemma StockPriceNoVolatility(s0: real, mu: real, N: nat, z: seq<seq<real>>, exp: real -> real, j: nat)
    requires j < |z|
    requires forall i :: 0 <= i < |z| ==> |z[i]| == N
    ensures StockPriceTable(s0, mu, 0.0, N, z, exp).paths[j] == PricePath(s0, mu, 0.0, z[0], exp)
    ensures StockPriceTable(s0, mu, 0.0, N, z, exp).mean == StockPriceTable(s0, mu, 0.0, N, z, exp).paths[j]
  {
    var paths := PricePaths(s0, mu, 0.0, z, exp);
    var p := PricePath(s0, mu, 0.0, z[0], exp);
    forall i | 0 <= i < |z|
      ensures paths[i] == p
    {
      PricePathIgnoresDraws(s0, mu, z[i], z[0], exp);
    }
    var m := MeanColumn(paths, N + 1);
    forall k | 0 <= k < N + 1
      ensures m[k] == p[k]
    {
      MeanConstant(Row(paths, k), p[k]);
    }
  }
}
