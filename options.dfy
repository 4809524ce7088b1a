/** Monte Carlo pricing of European options, `OptionPriceMonteCarlo` in
    `pricing/options.py` and `10_optionPriceMonteCarlo.py`. Each trial draws a
    terminal stock price S = S0 * exp((rf - sigma^2 / 2) T + sigma sqrt(T) z);
    the payoff column of a two-column zero buffer is set to S - E (call) or
    E - S (put), the row maxima are averaged and discounted by exp(-rf T). */
module Options {
  import opened Outcomes
  import opened Elementary
  import opened Series

  /** The model's parameters, set once by the constructor. */
  datatype OptionPriceMonteCarlo = OptionPriceMonteCarlo(S0: real, E: real, T: real, rf: real, sigma: real, iterations: nat)

  /** The constructor's default number of iterations in the package. */
  const PackageDefaultIterations: nat := 10000

  /** The constructor's default number of iterations in the script. */
  const ScriptDefaultIterations: nat := 5

  /** The stock price at expiry for one standard normal draw z. */
  function TerminalPrice(m: OptionPriceMonteCarlo, z: real, exp: real -> real, sqrt: real -> real): real
  {
    GrowPrice(m.S0, m.rf, m.sigma, m.T, z, exp, sqrt)
  }

  /** S0 * exp((rf - sigma^2 / 2) T + sigma sqrt(T) z), over the fields it reads. */
  function GrowPrice(S0: real, rf: real, sigma: real, T: real, z: real, exp: real -> real, sqrt: real -> real): real
  {
    S0 * exp((rf - 0.5 * sigma * sigma) * T + sigma * sqrt(T) * z)
  }

  /** The terminal price of every trial. */
  function TerminalPrices(m: OptionPriceMonteCarlo, z: seq<real>, exp: real -> real, sqrt: real -> real): (s: seq<real>)
    ensures |s| == |z|
    ensures forall i :: 0 <= i < |z| ==> s[i] == TerminalPrice(m, z[i], exp, sqrt)
  {
    seq(|z|, i requires 0 <= i < |z| => TerminalPrice(m, z[i], exp, sqrt))
  }

  /** `np.amax` over a row of the buffer (0, v). */
  function RowMax(a: real, b: real): (r: real)
    ensures r >= a && r >= b && (r == a || r == b)
  {
    if a >= b then a else b
  }

  /** Column 1 of the call buffer: S - E per trial. */
  function CallColumn(s: seq<real>, E: real): (c: seq<real>)
    ensures |c| == |s|
    ensures forall i :: 0 <= i < |s| ==> c[i] == s[i] - E
  {
    seq(|s|, i requires 0 <= i < |s| => s[i] - E)
  }

  /** Column 1 of the put buffer: E - S per trial. */
  function PutColumn(s: seq<real>, E: real): (c: seq<real>)
    ensures |c| == |s|
    ensures forall i :: 0 <= i < |s| ==> c[i] == E - s[i]
  {
    seq(|s|, i requires 0 <= i < |s| => E - s[i])
  }

  /** The payoffs: the maximum of each buffer row (0, column[i]). */
  function Payoffs(column: seq<real>): (p: seq<real>)
    ensures |p| == |column|
    ensures forall i :: 0 <= i < |column| ==> p[i] == RowMax(0.0, column[i])
    ensures forall i :: 0 <= i < |column| ==> 0.0 <= p[i] && column[i] <= p[i] && (p[i] == 0.0 || p[i] == column[i])
  {
    seq(|column|, i requires 0 <= i < |column| => RowMax(0.0, column[i]))
  }

  /** A total payoff averaged over count trials and discounted by exp(-rf T). */
  function Discounted(total: real, count: nat, rf: real, T: real, exp: real -> real): real
    requires count > 0
  {
    total / count as real * exp(-rf * T)
  }

  /** The payoffs' sum divided by the number of trials and discounted. With no
      trials the division is 0 / 0, NaN, here None. */
  function Estimate(column: seq<real>, rf: real, T: real, exp: real -> real): (price: Option<real>)
    ensures price.None? <==> |column| == 0
  {
    if |column| == 0 then None else Some(Discounted(Sum(Payoffs(column)), |column|, rf, T, exp))
  }

  /** The call price computed from the iterations draws z. */
  function CallPrice(m: OptionPriceMonteCarlo, z: seq<real>, exp: real -> real, sqrt: real -> real): (price: Option<real>)
    ensures price.None? <==> |z| == 0
  {
    Estimate(CallColumn(TerminalPrices(m, z, exp, sqrt), m.E), m.rf, m.T, exp)
  }

  /** The put price computed from the iterations draws z. */
  function PutPrice(m: OptionPriceMonteCarlo, z: seq<real>, exp: real -> real, sqrt: real -> real): (price: Option<real>)
    ensures price.None? <==> |z| == 0
  {
    Estimate(PutColumn(TerminalPrices(m, z, exp, sqrt), m.E), m.rf, m.T, exp)
  }

  /** The buffer step both prices share: allocate an iterations-by-2 zero
      buffer, overwrite column 1, take the row maxima, sum them, divide by the
      number of rows and discount. */
  method BufferEstimate(column: seq<real>, rf: real, T: real, exp: real -> real) returns (price: Option<real>)
    ensures price == Estimate(column, rf, T, exp)
  {
    var n := |column|;
    var optionData := new real[n, 2]((i, j) => 0.0);
    for i := 0 to n
      invariant forall k :: 0 <= k < n ==> optionData[k, 0] == 0.0
      invariant forall k :: 0 <= k < i ==> optionData[k, 1] == column[k]
    {
      optionData[i, 1] := column[i];
    }
    var total := 0.0;
    for i := 0 to n
      invariant forall k :: 0 <= k < n ==> optionData[k, 0] == 0.0 && optionData[k, 1] == column[k]
      invariant total == Sum(Payoffs(column)[..i])
    {
      assert Payoffs(column)[..i + 1] == Payoffs(column)[..i] + [RowMax(optionData[i, 0], optionData[i, 1])];
      SumAppend(Payoffs(column)[..i], RowMax(optionData[i, 0], optionData[i, 1]));
      total := total + RowMax(optionData[i, 0], optionData[i, 1]);
    }
    assert Payoffs(column)[..n] == Payoffs(column);
    if n == 0 {
      price := None;
    } else {
      price := Some(Discounted(total, n, rf, T, exp));
    }
  }

  /** call_option_price, with the draws z standing for the random vector. */
  method CallOptionPrice(m: OptionPriceMonteCarlo, z: seq<real>, exp: real -> real, sqrt: real -> real) returns (price: Option<real>)
    requires |z| == m.iterations
    ensures price == CallPrice(m, z, exp, sqrt)
  {
    var stockPrice := TerminalPrices(m, z, exp, sqrt);
    price := BufferEstimate(CallColumn(stockPrice, m.E), m.rf, m.T, exp);
  }

  /** put_option_price, with the draws z standing for the random vector. */
  method PutOptionPrice(m: OptionPriceMonteCarlo, z: seq<real>, exp: real -> real, sqrt: real -> real) returns (price: Option<real>)
    requires |z| == m.iterations
    ensures price == PutPrice(m, z, exp, sqrt)
  {
    var stockPrice := TerminalPrices(m, z, exp, sqrt);
    price := BufferEstimate(PutColumn(stockPrice, m.E), m.rf, m.T, exp);
  }

  /** A positive spot gives a positive terminal price. */
  lemma TerminalPricePositive(m: OptionPriceMonteCarlo, z: real, exp: real -> real, sqrt: real -> real)
    requires IsExp(exp) && m.S0 > 0.0
    ensures TerminalPrice(m, z, exp, sqrt) > 0.0
  {
    var g := exp((m.rf - 0.5 * m.sigma * m.sigma) * m.T + m.sigma * sqrt(m.T) * z);
    assert g > 0.0;
  }

  /** Averaging and discounting keeps the order of totals. */
  lemma DiscountedMonotone(a: real, b: real, count: nat, rf: real, T: real, exp: real -> real)
    requires IsExp(exp) && count > 0 && a <= b
    ensures Discounted(a, count, rf, T, exp) <= Discounted(b, count, rf, T, exp)
  {
    var n := count as real;
    var d := exp(-rf * T);
    assert d > 0.0;
    assert a / n <= b / n;
    assert a / n * d <= b / n * d;
  }

  /** Averaging and discounting is linear in the total. */
  lemma DiscountedDifference(a: real, b: real, count: nat, rf: real, T: real, exp: real -> real)
    requires count > 0
    ensures Discounted(a, count, rf, T, exp) - Discounted(b, count, rf, T, exp) == Discounted(a - b, count, rf, T, exp)
  {
    var n := count as real;
    var d := exp(-rf * T);
    assert a / n - b / n == (a - b) / n;
    assert a / n * d - b / n * d == (a / n - b / n) * d;
  }

  /** count times a per-trial amount averages back to that amount. */
  lemma DiscountedOfCount(b: real, count: nat, rf: real, T: real, exp: real -> real)
    requires count > 0
    ensures Discounted(count as real * b, count, rf, T, exp) == b * exp(-rf * T)
  {
    var n := count as real;
    assert n * b / n == b;
  }

  /** An estimate is never negative, whatever the draws. */
  lemma EstimateNonNegative(column: seq<real>, rf: real, T: real, exp: real -> real)
    requires IsExp(exp) && |column| > 0
    ensures Estimate(column, rf, T, exp).value >= 0.0
  {
    var p := Payoffs(column);
    SumNonNegative(p);
    DiscountedMonotone(0.0, Sum(p), |column|, rf, T, exp);
  }

  /** Call and put prices are non-negative for any draws and at least one
      iteration. */
  lemma PricesNonNegative(m: OptionPriceMonteCarlo, z: seq<real>, exp: real -> real, sqrt: real -> real)
    requires IsExp(exp) && |z| > 0
    ensures CallPrice(m, z, exp, sqrt).Some? && CallPrice(m, z, exp, sqrt).value >= 0.0
    ensures PutPrice(m, z, exp, sqrt).Some? && PutPrice(m, z, exp, sqrt).value >= 0.0
  {
    var s := TerminalPrices(m, z, exp, sqrt);
    EstimateNonNegative(CallColumn(s, m.E), m.rf, m.T, exp);
    EstimateNonNegative(PutColumn(s, m.E), m.rf, m.T, exp);
  }

  /** An estimate whose every payoff is at most b is at most b discounted. */
  lemma EstimateAtMost(column: seq<real>, rf: real, T: real, exp: real -> real, b: real)
    requires IsExp(exp) && |column| > 0
    requires forall i :: 0 <= i < |column| ==> RowMax(0.0, column[i]) <= b
    ensures Estimate(column, rf, T, exp).value <= b * exp(-rf * T)
  {
    var p := Payoffs(column);
    SumBounds(p, 0.0, b);
    DiscountedMonotone(Sum(p), |column| as real * b, |column|, rf, T, exp);
    DiscountedOfCount(b, |column|, rf, T, exp);
  }

  /** With a positive spot and a non-negative strike, every stock price is
      positive, so no put pays more than E and the put price is at most
      E * exp(-rf T). */
  lemma PutAtMostDiscountedStrike(m: OptionPriceMonteCarlo, z: seq<real>, exp: real -> real, sqrt: real -> real)
    requires IsExp(exp) && |z| > 0 && m.S0 > 0.0 && m.E >= 0.0
    ensures PutPrice(m, z, exp, sqrt).value <= m.E * exp(-m.rf * m.T)
  {
    var s := TerminalPrices(m, z, exp, sqrt);
    var c := PutColumn(s, m.E);
    forall i | 0 <= i < |c|
      ensures RowMax(0.0, c[i]) <= m.E
    {
      TerminalPricePositive(m, z[i], exp, sqrt);
    }
    EstimateAtMost(c, m.rf, m.T, exp, m.E);
  }

  /** Row by row, call payoff minus put payoff is the call column:
      max(0, v) - max(0, -v) == v. */
  lemma PayoffParity(c: seq<real>, p: seq<real>)
    requires |c| == |p|
    requires forall i :: 0 <= i < |c| ==> p[i] == -c[i]
    ensures Sum(Payoffs(c)) - Sum(Payoffs(p)) == Sum(c)
  {
    SumLinear(c, Payoffs(c), Payoffs(p), 1.0, -1.0);
  }

  /** Subtracting E from every element subtracts |s| * E from the sum. */
  lemma {:induction false} SumShift(s: seq<real>, c: seq<real>, E: real)
    requires |c| == |s|
    requires forall i :: 0 <= i < |s| ==> c[i] == s[i] - E
    ensures Sum(c) == Sum(s) - |s| as real * E
  {
    if |s| > 0 {
      SumShift(s[..|s| - 1], c[..|c| - 1], E);
      assert |s| as real * E == (|s| - 1) as real * E + E;
    }
  }

  /** Parity on the terminal prices: the call estimate minus the put estimate
      is the discounted mean price minus the discounted strike. */
  lemma EstimateParity(s: seq<real>, E: real, rf: real, T: real, exp: real -> real)
    requires |s| > 0
    ensures Estimate(CallColumn(s, E), rf, T, exp).value - Estimate(PutColumn(s, E), rf, T, exp).value
         == (Mean(s) - E) * exp(-rf * T)
  {
    var c := CallColumn(s, E);
    var p := PutColumn(s, E);
    assert Sum(Payoffs(c)) - Sum(Payoffs(p)) == Sum(s) - |s| as real * E by {
      PayoffParity(c, p);
      SumShift(s, c, E);
    }
    ParityAlgebra(Sum(Payoffs(c)), Sum(Payoffs(p)), Sum(s), |s|, Mean(s), E, rf, T, exp);
  }

  /** Put-call parity of the estimates: on the same draws the call price
      minus the put price is the discounted mean terminal price minus the
      discounted strike. */
  lemma PutCallParity(m: OptionPriceMonteCarlo, z: seq<real>, exp: real -> real, sqrt: real -> real)
    requires |z| > 0
    ensures CallPrice(m, z, exp, sqrt).value - PutPrice(m, z, exp, sqrt).value
         == (Mean(TerminalPrices(m, z, exp, sqrt)) - m.E) * exp(-m.rf * m.T)
  {
    EstimateParity(TerminalPrices(m, z, exp, sqrt), m.E, m.rf, m.T, exp);
  }

  /** The algebra behind parity: if the call and put totals differ by
      total - count * E, their estimates differ by (total / count - E)
      discounted. */
  lemma ParityAlgebra(pc: real, pp: real, total: real, count: nat, mean: real, E: real, rf: real, T: real, exp: real -> real)
    requires count > 0 && pc - pp == total - count as real * E && mean == total / count as real
    ensures Discounted(pc, count, rf, T, exp) - Discounted(pp, count, rf, T, exp) == (mean - E) * exp(-rf * T)
  {
    DiscountedDifference(pc, pp, count, rf, T, exp);
    MeanMinusConstant(total, count, E, rf, T, exp);
  }

  /** (total - count * c) averaged and discounted is (total / count - c)
      discounted. */
  lemma MeanMinusConstant(total: real, count: nat, c: real, rf: real, T: real, exp: real -> real)
    requires count > 0
    ensures Discounted(total - count as real * c, count, rf, T, exp) == (total / count as real - c) * exp(-rf * T)
  {
    var n := count as real;
    assert (total - n * c) / n == total / n - c;
  }

  /** On the same prices a higher strike never raises the call estimate. */
  lemma CallEstimateNonIncreasing(s: seq<real>, E: real, E2: real, rf: real, T: real, exp: real -> real)
    requires IsExp(exp) && |s| > 0 && E <= E2
    ensures Estimate(CallColumn(s, E2), rf, T, exp).value <= Estimate(CallColumn(s, E), rf, T, exp).value
  {
    var low := Payoffs(CallColumn(s, E2));
    var high := Payoffs(CallColumn(s, E));
    SumMonotone(low, high);
    DiscountedMonotone(Sum(low), Sum(high), |s|, rf, T, exp);
  }

  /** On the same draws a higher strike never raises the call price. */
  lemma CallNonIncreasingInStrike(m: OptionPriceMonteCarlo, E2: real, z: seq<real>, exp: real -> real, sqrt: real -> real)
    requires IsExp(exp) && |z| > 0 && m.E <= E2
    ensures CallPrice(m.(E := E2), z, exp, sqrt).value <= CallPrice(m, z, exp, sqrt).value
  {
    var m2 := m.(E := E2);
    forall i | 0 <= i < |z|
      ensures TerminalPrice(m2, z[i], exp, sqrt) == TerminalPrice(m, z[i], exp, sqrt)
    {
      assert m2.S0 == m.S0 && m2.rf == m.rf && m2.sigma == m.sigma && m2.T == m.T;
    }
    assert TerminalPrices(m2, z, exp, sqrt) == TerminalPrices(m, z, exp, sqrt);
    CallEstimateNonIncreasing(TerminalPrices(m, z, exp, sqrt), m.E, E2, m.rf, m.T, exp);
  }

  /** When no trial ends above the strike the call price is zero. */
  lemma CallWorthlessOutOfTheMoney(m: OptionPriceMonteCarlo, z: seq<real>, exp: real -> real, sqrt: real -> real)
    requires |z| > 0
    requires forall i :: 0 <= i < |z| ==> TerminalPrice(m, z[i], exp, sqrt) <= m.E
    ensures CallPrice(m, z, exp, sqrt) == Some(0.0)
  {
    var p := Payoffs(CallColumn(TerminalPrices(m, z, exp, sqrt), m.E));
    SumBounds(p, 0.0, 0.0);
    assert Sum(p) == 0.0;
    assert Discounted(0.0, |z|, m.rf, m.T, exp) == 0.0;
  }
}
