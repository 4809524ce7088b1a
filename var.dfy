/** Value at risk, `risk/var.py` and the scripts `11_valueAtRisk.py` and
    `12_valueAtRiskMonteCarlo.py`: the analytical n-day figure
    position * (mu n - ppf(1 - c) sigma sqrt(n)), and the Monte Carlo figure
    S minus the (1 - c) * 100 percentile of simulated portfolio values, the
    percentile taken with numpy's default linear interpolation. */
module ValueAtRisk {
  import opened Outcomes
  import opened Elementary
  import opened Series

  // ---------------------------------------------------------------------
  // Analytical value at risk
  // ---------------------------------------------------------------------

  /** value_at_risk_n, with norm.ppf and np.sqrt as parameters. */
  function ValueAtRiskN(position: real, c: real, mu: real, sigma: real, n: nat, ppf: real -> real, sqrt: real -> real): (v: real)
    ensures IsNormalQuantile(ppf) && c == 0.5 ==> v == position * mu * n as real
  {
    position * (mu * n as real - ppf(1.0 - c) * sigma * sqrt(n as real))
  }

  /** The figure is linear in the position. */
  lemma ValueAtRiskLinear(a: real, position: real, c: real, mu: real, sigma: real, n: nat, ppf: real -> real, sqrt: real -> real)
    ensures ValueAtRiskN(a * position, c, mu, sigma, n, ppf, sqrt) == a * ValueAtRiskN(position, c, mu, sigma, n, ppf, sqrt)
  {
  }

  /** Over one day the square root drops out: position * (mu - z sigma). */
  lemma ValueAtRiskOneDay(position: real, c: real, mu: real, sigma: real, ppf: real -> real, sqrt: real -> real)
    requires IsSqrt(sqrt)
    ensures ValueAtRiskN(position, c, mu, sigma, 1, ppf, sqrt) == position * (mu - ppf(1.0 - c) * sigma)
  {
    SqrtOne(sqrt);
  }

  /** Horizon scaling: the n-day figure is n times the one-day drift part
      plus sqrt(n) times the one-day volatility part. */
  lemma ValueAtRiskHorizon(position: real, c: real, mu: real, sigma: real, n: nat, ppf: real -> real, sqrt: real -> real)
    requires IsSqrt(sqrt)
    ensures ValueAtRiskN(position, c, mu, sigma, n, ppf, sqrt)
         == n as real * ValueAtRiskN(position, c, mu, 0.0, 1, ppf, sqrt)
            + sqrt(n as real) * ValueAtRiskN(position, c, 0.0, sigma, 1, ppf, sqrt)
  {
    SqrtOne(sqrt);
    var z := ppf(1.0 - c);
    var r := sqrt(n as real);
    assert ValueAtRiskN(position, c, mu, 0.0, 1, ppf, sqrt) == position * mu;
    assert ValueAtRiskN(position, c, 0.0, sigma, 1, ppf, sqrt) == -(position * z * sigma);
    calc {
      ValueAtRiskN(position, c, mu, sigma, n, ppf, sqrt);
      position * (mu * n as real - z * sigma * r);
      n as real * (position * mu) + r * -(position * z * sigma);
    }
  }

  /** Above 50% confidence the quantile ppf(1 - c) is negative, so with a
      non-negative drift, positive volatility, a positive position and at
      least one day the figure is a positive amount. */
  lemma ValueAtRiskPositive(position: real, c: real, mu: real, sigma: real, n: nat, ppf: real -> real, sqrt: real -> real)
    requires IsNormalQuantile(ppf) && IsSqrt(sqrt)
    requires 0.5 < c < 1.0 && mu >= 0.0 && sigma > 0.0 && position > 0.0 && n >= 1
    ensures ValueAtRiskN(position, c, mu, sigma, n, ppf, sqrt) > 0.0
  {
    var z := ppf(1.0 - c);
    assert z < ppf(0.5);
    var r := sqrt(n as real);
    SqrtPositive(sqrt, n as real);
    assert z * sigma < 0.0;
    assert z * sigma * r < 0.0;
    assert mu * n as real >= 0.0;
    var t := mu * n as real - z * sigma * r;
    assert t > 0.0;
    assert position * t > 0.0;
  }

  /** The docstring's example value_at_risk_n(1000000, 0.99, 0.001, 0.02, 1)
      is positive, so its `var < 0` answers False. */
  lemma ValueAtRiskDoctest(ppf: real -> real, sqrt: real -> real)
    requires IsNormalQuantile(ppf) && IsSqrt(sqrt)
    ensures !(ValueAtRiskN(1000000.0, 0.99, 0.001, 0.02, 1, ppf, sqrt) < 0.0)
  {
    ValueAtRiskPositive(1000000.0, 0.99, 0.001, 0.02, 1, ppf, sqrt);
  }

  // ---------------------------------------------------------------------
  // Sorting and numpy's linear percentile
  // ---------------------------------------------------------------------

  /** Non-decreasing order. */
  predicate Sorted(s: seq<real>)
  {
    forall i, j :: 0 <= i < j < |s| ==> s[i] <= s[j]
  }

  /** Inserts x into a sequence before its first element that is not
      smaller. */
  function Insert(x: real, s: seq<real>): (r: seq<real>)
    ensures |r| == |s| + 1
    ensures multiset(r) == multiset(s) + multiset{x}
    ensures r[0] == x || (|s| > 0 && r[0] == s[0])
    ensures Sorted(s) ==> Sorted(r)
  {
    if |s| == 0 then [x]
    else if x <= s[0] then [x] + s
    else
      assert s == [s[0]] + s[1..];
      [s[0]] + Insert(x, s[1..])
  }

  /** np.sort: the values in non-decreasing order, and nothing else. */
  function Sort(s: seq<real>): (r: seq<real>)
    ensures |r| == |s|
    ensures multiset(r) == multiset(s)
    ensures Sorted(r)
  {
    if |s| == 0 then []
    else
      assert s == [s[0]] + s[1..];
      Insert(s[0], Sort(s[1..]))
  }

  /** A sorted sequence is the only sorted arrangement of its elements, so
      any sorting algorithm (numpy's included) yields Sort(s). */
  lemma {:induction false} SortedUnique(a: seq<real>, b: seq<real>)
    requires Sorted(a) && Sorted(b) && multiset(a) == multiset(b)
    ensures a == b
  {
    if |a| > 0 {
      assert |b| == |a| by {
        assert |b| == |multiset(b)| == |multiset(a)| == |a|;
      }
      assert a[0] == b[0] by {
        SortedHeadIsMinimum(a, b);
        SortedHeadIsMinimum(b, a);
      }
      assert multiset(a[1..]) == multiset(b[1..]) by {
        assert a == [a[0]] + a[1..];
        assert b == [b[0]] + b[1..];
        assert multiset(a) == multiset{a[0]} + multiset(a[1..]);
        assert multiset(b) == multiset{b[0]} + multiset(b[1..]);
        forall x
          ensures multiset(a[1..])[x] == multiset(b[1..])[x]
        {
          assert multiset(a)[x] == multiset{a[0]}[x] + multiset(a[1..])[x];
          assert multiset(b)[x] == multiset{b[0]}[x] + multiset(b[1..])[x];
        }
      }
      SortedUnique(a[1..], b[1..]);
      assert a == [a[0]] + a[1..];
      assert b == [b[0]] + b[1..];
    } else {
      assert |b| == |multiset(b)| == 0;
    }
  }

  /** The head of a sorted sequence is at most every element of any sequence
      with the same elements. */
  lemma SortedHeadIsMinimum(a: seq<real>, b: seq<real>)
    requires Sorted(a) && |a| > 0 && multiset(a) == multiset(b)
    ensures forall j :: 0 <= j < |b| ==> a[0] <= b[j]
  {
    forall j | 0 <= j < |b|
      ensures a[0] <= b[j]
    {
      assert b[j] in multiset(b);
      assert b[j] in a;
      var k :| 0 <= k < |a| && a[k] == b[j];
    }
  }

  /** numpy's virtual index for percentile q of n values: (n - 1) q / 100. */
  function VirtualIndex(n: nat, q: real): (h: real)
    requires n > 0 && 0.0 <= q <= 100.0
    ensures 0.0 <= h <= (n - 1) as real
  {
    (n - 1) as real * q / 100.0
  }

  /** The index below the virtual index, and the one above it clipped to the
      last position. */
  function Below(n: nat, q: real): (lo: nat)
    requires n > 0 && 0.0 <= q <= 100.0
    ensures lo < n && lo as real <= VirtualIndex(n, q) < lo as real + 1.0
  {
    VirtualIndex(n, q).Floor
  }

  function Above(n: nat, q: real): (hi: nat)
    requires n > 0 && 0.0 <= q <= 100.0
    ensures Below(n, q) <= hi < n
    ensures hi == Below(n, q) || hi == Below(n, q) + 1
  {
    if Below(n, q) + 1 < n then Below(n, q) + 1 else n - 1
  }

  /** numpy's linear interpolation from a (t = 0) to b (t = 1). */
  function Lerp(a: real, b: real, t: real): real
  {
    a + t * (b - a)
  }

  /** For 0 <= t <= 1 the interpolation stays between a <= b and grows
      with t. */
  lemma LerpBetween(a: real, b: real, t: real)
    requires a <= b && 0.0 <= t <= 1.0
    ensures a <= Lerp(a, b, t) <= b
  {
    var d := b - a;
    var s := t * d;
    ScaleWithin(t, d);
    assert Lerp(a, b, t) == a + s;
  }

  /** A fraction t in [0, 1] of a non-negative d lies between 0 and d. */
  lemma ScaleWithin(t: real, d: real)
    requires 0.0 <= t <= 1.0 && 0.0 <= d
    ensures 0.0 <= t * d <= d
  {
    var g := 1.0 - t;
    assert d - t * d == g * d;
    NonNegativeFactors(t, d);
    NonNegativeFactors(g, d);
  }

  lemma NonNegativeFactors(x: real, y: real)
    requires 0.0 <= x && 0.0 <= y
    ensures 0.0 <= x * y
  {
  }

  /** Multiplying by a non-negative factor keeps the order. */
  lemma ScaleMonotone(k: real, x: real, y: real)
    requires 0.0 <= k && x <= y
    ensures k * x <= k * y
  {
    assert k * (y - x) >= 0.0;
  }

  lemma LerpMonotone(a: real, b: real, t1: real, t2: real)
    requires a <= b && t1 <= t2
    ensures Lerp(a, b, t1) <= Lerp(a, b, t2)
  {
    ScaleMonotone(b - a, t1, t2);
  }

  /** np.percentile(a, q) with the default linear method: interpolate
      between the neighbours of the virtual index. */
  function Percentile(a: seq<real>, q: real): (v: real)
    requires |a| > 0 && 0.0 <= q <= 100.0
    ensures VirtualIndex(|a|, q) == Below(|a|, q) as real ==> v == a[Below(|a|, q)]
    ensures a[Below(|a|, q)] == a[Above(|a|, q)] ==> v == a[Below(|a|, q)]
  {
    var lo := Below(|a|, q);
    Lerp(a[lo], a[Above(|a|, q)], VirtualIndex(|a|, q) - lo as real)
  }

  /** On sorted values the percentile lies between the two neighbours it
      interpolates, hence between the smallest and the largest value. */
  lemma PercentileBetween(a: seq<real>, q: real)
    requires |a| > 0 && 0.0 <= q <= 100.0 && Sorted(a)
    ensures a[Below(|a|, q)] <= Percentile(a, q) <= a[Above(|a|, q)]
    ensures a[0] <= Percentile(a, q) <= a[|a| - 1]
  {
    var lo := Below(|a|, q);
    LerpBetween(a[lo], a[Above(|a|, q)], VirtualIndex(|a|, q) - lo as real);
  }

  /** The 0th percentile is the smallest value, the 100th the largest. */
  lemma PercentileEnds(a: seq<real>)
    requires |a| > 0
    ensures Percentile(a, 0.0) == a[0]
    ensures Percentile(a, 100.0) == a[|a| - 1]
  {
    assert VirtualIndex(|a|, 100.0) == (|a| - 1) as real;
  }

  /** The virtual index grows with the percentile. */
  lemma VirtualIndexMonotone(n: nat, q1: real, q2: real)
    requires n > 0 && 0.0 <= q1 <= q2 <= 100.0
    ensures VirtualIndex(n, q1) <= VirtualIndex(n, q2)
  {
    var k := (n - 1) as real;
    var p1 := k * q1;
    var p2 := k * q2;
    ScaleMonotone(k, q1, q2);
    assert p1 <= p2;
    assert p1 / 100.0 <= p2 / 100.0;
    assert VirtualIndex(n, q1) == p1 / 100.0;
    assert VirtualIndex(n, q2) == p2 / 100.0;
  }

  /** On sorted values the percentile never decreases as q grows. */
  lemma PercentileMonotone(a: seq<real>, q1: real, q2: real)
    requires |a| > 0 && 0.0 <= q1 <= q2 <= 100.0 && Sorted(a)
    ensures Percentile(a, q1) <= Percentile(a, q2)
  {
    var n := |a|;
    var h1 := VirtualIndex(n, q1);
    var h2 := VirtualIndex(n, q2);
    VirtualIndexMonotone(n, q1, q2);
    var lo1 := Below(n, q1);
    var lo2 := Below(n, q2);
    PercentileBetween(a, q1);
    PercentileBetween(a, q2);
    if lo1 == lo2 {
      LerpMonotone(a[lo1], a[Above(n, q1)], h1 - lo1 as real, h2 - lo1 as real);
    } else {
      assert lo1 < lo2;
      assert Above(n, q1) == lo1 + 1;
      assert a[lo1 + 1] <= a[lo2];
    }
  }

  // ---------------------------------------------------------------------
  // Monte Carlo value at risk
  // ---------------------------------------------------------------------

  /** The model's parameters, set once by the constructor. */
  datatype ValueAtRiskMonteCarlo = ValueAtRiskMonteCarlo(S: real, mu: real, sigma: real, c: real, n: nat, iterations: nat)

  /** The constructor's default number of iterations in the package (the
      script has no default). */
  const DefaultIterations: nat := 100000

  /** Why simulation yields no number: np.percentile rejects a percentile
      outside [0, 100], and no iterations leave nothing to take it of. */
  datatype SimulationError = PercentileOutOfRange | NoIterations

  /** The portfolio value after n days for one standard normal draw z. */
  function PortfolioValue(S: real, mu: real, sigma: real, n: nat, z: real, exp: real -> real, sqrt: real -> real): real
  {
    S * exp((mu - 0.5 * sigma * sigma) * n as real + sigma * sqrt(n as real) * z)
  }

  /** The portfolio value of every draw. */
  function PortfolioValues(m: ValueAtRiskMonteCarlo, z: seq<real>, exp: real -> real, sqrt: real -> real): (v: seq<real>)
    ensures |v| == |z|
    ensures forall i :: 0 <= i < |z| ==> v[i] == PortfolioValue(m.S, m.mu, m.sigma, m.n, z[i], exp, sqrt)
  {
    seq(|z|, i requires 0 <= i < |z| => PortfolioValue(m.S, m.mu, m.sigma, m.n, z[i], exp, sqrt))
  }

  /** A positive starting value gives positive simulated values. */
  lemma PortfolioValuePositive(S: real, mu: real, sigma: real, n: nat, z: real, exp: real -> real, sqrt: real -> real)
    requires IsExp(exp) && S > 0.0
    ensures PortfolioValue(S, mu, sigma, n, z, exp, sqrt) > 0.0
  {
    var g := exp((mu - 0.5 * sigma * sigma) * n as real + sigma * sqrt(n as real) * z);
    assert g > 0.0;
  }

  /** The percentile simulation takes: (1 - c) * 100. */
  function LossPercentile(c: real): real
  {
    (1.0 - c) * 100.0
  }

  /** simulation: values, sort, percentile (1 - c) * 100, and the loss
      S - percentile. */
  function Simulation(m: ValueAtRiskMonteCarlo, z: seq<real>, exp: real -> real, sqrt: real -> real): (r: Result<real, SimulationError>)
    requires |z| == m.iterations
    ensures r == Err(PercentileOutOfRange) <==> !(0.0 <= m.c <= 1.0)
    ensures r == Err(NoIterations) <==> 0.0 <= m.c <= 1.0 && m.iterations == 0
  {
    var q := LossPercentile(m.c);
    if !(0.0 <= q <= 100.0) then Err(PercentileOutOfRange)
    else if |z| == 0 then Err(NoIterations)
    else Ok(m.S - Percentile(Sort(PortfolioValues(m, z, exp, sqrt)), q))
  }

  /** Every element of a sorted rearrangement of v lies between Min(v) and
      Max(v). */
  lemma SortedWithinRange(a: seq<real>, v: seq<real>, k: nat)
    requires |v| > 0 && multiset(a) == multiset(v) && k < |a|
    ensures Min(v) <= a[k] <= Max(v)
  {
    assert a[k] in multiset(a);
    assert a[k] in v;
    var j :| 0 <= j < |v| && v[j] == a[k];
  }

  /** The loss lies between S - max(values) and S - min(values). */
  lemma LossBounds(m: ValueAtRiskMonteCarlo, z: seq<real>, exp: real -> real, sqrt: real -> real)
    requires |z| == m.iterations
    requires Simulation(m, z, exp, sqrt).Ok?
    ensures m.S - Max(PortfolioValues(m, z, exp, sqrt)) <= Simulation(m, z, exp, sqrt).value
    ensures Simulation(m, z, exp, sqrt).value <= m.S - Min(PortfolioValues(m, z, exp, sqrt))
  {
    var v := PortfolioValues(m, z, exp, sqrt);
    var a := Sort(v);
    PercentileBetween(a, LossPercentile(m.c));
    SortedWithinRange(a, v, 0);
    SortedWithinRange(a, v, |a| - 1);
  }

  /** With a positive starting value every simulated value is positive, so
      the loss is less than S. */
  lemma LossBelowStart(m: ValueAtRiskMonteCarlo, z: seq<real>, exp: real -> real, sqrt: real -> real)
    requires |z| == m.iterations
    requires IsExp(exp) && m.S > 0.0 && Simulation(m, z, exp, sqrt).Ok?
    ensures Simulation(m, z, exp, sqrt).value < m.S
  {
    var v := PortfolioValues(m, z, exp, sqrt);
    forall i | 0 <= i < |v|
      ensures v[i] > 0.0
    {
      PortfolioValuePositive(m.S, m.mu, m.sigma, m.n, z[i], exp, sqrt);
    }
    PercentilePositive(v, LossPercentile(m.c));
  }

  /** The percentile of positive values is positive. */
  lemma PercentilePositive(v: seq<real>, q: real)
    requires |v| > 0 && 0.0 <= q <= 100.0
    requires forall i :: 0 <= i < |v| ==> v[i] > 0.0
    ensures Percentile(Sort(v), q) > 0.0
  {
    var a := Sort(v);
    SortedWithinRange(a, v, 0);
    PercentileBetween(a, q);
  }

  /** On the same draws a higher confidence level never gives a smaller
      loss. */
  lemma LossMonotoneInConfidence(m: ValueAtRiskMonteCarlo, c2: real, z: seq<real>, exp: real -> real, sqrt: real -> real)
    requires |z| == m.iterations
    requires Simulation(m, z, exp, sqrt).Ok? && m.c <= c2 <= 1.0
    ensures Simulation(m.(c := c2), z, exp, sqrt).Ok?
    ensures Simulation(m, z, exp, sqrt).value <= Simulation(m.(c := c2), z, exp, sqrt).value
  {
    var m2 := m.(c := c2);
    var v := PortfolioValues(m, z, exp, sqrt);
    assert PortfolioValues(m2, z, exp, sqrt) == v;
    PercentileMonotone(Sort(v), LossPercentile(c2), LossPercentile(m.c));
  }
}
