# quant-finance-toolkit in Dafny

A Dafny model of the pricing and risk arithmetic of quant-finance-toolkit. The
model covers:

- time-value-of-money discounting;
- zero-coupon and coupon bond pricing;
- the Wiener, geometric Brownian motion (GBM), Ornstein-Uhlenbeck and Vasicek
  path generators;
- the stock-price Monte Carlo ensemble;
- Monte Carlo European option prices;
- analytical and Monte Carlo value at risk, including numpy's
  linear-interpolation percentile;
- Markowitz random-portfolio generation and portfolio statistics;
- the validation and aggregation arithmetic of the crypto value-at-risk
  reports.

Each generator and estimator is a deterministic function of its parameters
and an explicit sequence of standard normal draws: `z` stands for what numpy
would have drawn. A draw of `normal(m, s)` is `m + s * z`.

Values are Dafny `real`. `exp`, `sqrt`, `log` and `norm.ppf` are
function-valued parameters. The ghost predicates of module `Elementary`
(`IsExp`, `IsSqrt`, `IsLogOfProduct`, `IsNormalQuantile`) state the only facts
the proofs use about them, for example `exp(a) * exp(-a) == 1`, `exp`
increasing, and `sqrt(x)^2 == x`. `Elementary.ExpFactsConsistent` shows that
the facts about `exp` can be satisfied.

Where the source would produce a Python exception or a NaN, the model returns
an `Outcomes.Option` or `Outcomes.Result` value:

- a division by zero iterations;
- the mean of no simulations;
- a percentile outside [0, 100];
- a zero volatility in a Sharpe ratio.

Places where the source changes state keep that form:

- The coupon-bond pricing loops are methods with loop invariants.
- The Vasicek and Monte Carlo list-appending loops are methods over sequences.
- The Ornstein-Uhlenbeck generator writes into an `array`.
- The option estimator fills column 1 of a two-column zero buffer (`array2`).
- `weights /= np.sum(weights)` divides an `array` in place.
- The crypto report fills its `individual_vars` map in a loop.

Each such method is proved equal to a specification function, and the
properties are proved about those functions.

The root scripts are copies of the package modules with different constants.
The same members model them:

- `01_PresentValue.py`: lines 4-17.
- `02_zeroCouponBond.py`: lines 1-12.
- `03_couponBond.py`: lines 14-33.
- `07_gbm.py`: lines 6-18.
- `10_optionPriceMonteCarlo.py`: lines 13-57, default of 5 iterations.
- `11_valueAtRisk.py`: lines 15-17.
- `12_valueAtRiskMonteCarlo.py`: lines 15-36.
- `14_vasicekModel.py`: lines 6-13.

Where a script's constants differ, a small wrapper member states them. This
covers `04_markowitzModel.py`, `06_wienerProcess.py`,
`09_stockPriceMonteCarlo.py` and `15_bondPricingVasicek.py`.

## Model

| member | source | states |
|---|---|---|
| PresentValue.DiscreteRoundTrip | src/quant_finance_toolkit/pricing/present_value.py:28-53 | for 1 + r != 0, discounting over n periods undoes compounding over n periods, and the reverse |
| PresentValue.Pow | src/quant_finance_toolkit/pricing/present_value.py:28 | (1 + r)**n is non-zero for a non-zero base and positive for a positive base, so dividing by it is defined |
| PresentValue.DiscreteZeroPeriods | src/quant_finance_toolkit/pricing/present_value.py:28-53 | with n = 0 both discrete values return x unchanged |
| PresentValue.DiscreteOneMorePeriod | src/quant_finance_toolkit/pricing/present_value.py:28-53 | one more period multiplies the future value by (1 + r) and divides the present value by it |
| PresentValue.PresentDiscreteBelowAmount | src/quant_finance_toolkit/pricing/present_value.py:53 | at r > 0, n >= 1 and x > 0, the present value is below x |
| PresentValue.ContinuousRoundTrip | src/quant_finance_toolkit/pricing/present_value.py:78-103 | continuous discounting undoes continuous compounding, and the reverse |
| PresentValue.ValuesLinearInAmount | src/quant_finance_toolkit/pricing/present_value.py:28-103 | all four values are linear in the amount x |
| PresentValue.PresentContinuousBounds | src/quant_finance_toolkit/pricing/present_value.py:103 | at r >= 0, t >= 0 and x >= 0, the continuous present value lies in [0, x], and is positive when x is |
| Bonds.NewZeroCouponBond | src/quant_finance_toolkit/pricing/bonds.py:33-36 | the constructor keeps principal and maturity and stores the percentage rate divided by 100 |
| Bonds.NewCouponBond | src/quant_finance_toolkit/pricing/bonds.py:74-80 | the constructor stores both the coupon rate and the market rate as percentage / 100 |
| Bonds.CalculatePrice | src/quant_finance_toolkit/pricing/bonds.py:90-96 | the `price +=` loop over t = 1..maturity returns the discounted coupons plus the discounted principal |
| Bonds.CalculateContinuousPrice | src/quant_finance_toolkit/pricing/bonds.py:106-114 | the same loop with continuous discounting returns the continuously discounted coupons plus principal |
| Bonds.CouponStreamIsAnnuity | src/quant_finance_toolkit/pricing/bonds.py:92-93 | the discounted coupons equal the coupon amount times the annuity factor |
| Bonds.AnnuityIdentity | src/quant_finance_toolkit/pricing/bonds.py:92-96 | v^m + i * a_m = 1, where v^m discounts one unit over m years and a_m is the annuity factor |
| Bonds.CouponBondPriceSpread | src/quant_finance_toolkit/pricing/bonds.py:90-96 | price = principal + principal * (coupon rate - market rate) * annuity factor |
| Bonds.AnnuityPositive | src/quant_finance_toolkit/pricing/bonds.py:92-93 | at a market rate above -100% and one or more years, the annuity factor is positive |
| Bonds.ParBond | src/quant_finance_toolkit/pricing/bonds.py:90-96 | when the coupon rate equals the market rate, the price is exactly the principal |
| Bonds.PremiumBond | src/quant_finance_toolkit/pricing/bonds.py:68-96 | when the coupon rate is above the market rate, the maturity is at least one year and the principal is positive, the price is above the principal |
| Bonds.DiscountBond | src/quant_finance_toolkit/pricing/bonds.py:90-96 | when the coupon rate is below the market rate, the price is below the principal |
| Bonds.ZeroCouponEquivalence | src/quant_finance_toolkit/pricing/bonds.py:46-96 | a coupon bond with a zero coupon rate costs what the zero-coupon bond with the same principal, maturity and rate costs |
| Bonds.MaturityZero | src/quant_finance_toolkit/pricing/bonds.py:90-114 | at maturity 0 the loop is skipped and both prices are the principal |
| Bonds.ZeroCouponBelowPrincipal | src/quant_finance_toolkit/pricing/bonds.py:46 | at a positive market rate and maturity >= 1, the zero-coupon price is below the principal |
| Bonds.ZeroCouponExample | src/quant_finance_toolkit/pricing/bonds.py:28-30 | ZeroCouponBond(1000, 2, 4) stores rate 0.04 and prices at 1000 / 1.04^2, which lies in (924.556, 924.557) |
| Bonds.CouponBondExample | src/quant_finance_toolkit/pricing/bonds.py:68-71 | CouponBond(1000, 10, 3, 4) prices above 1000 |
| Bonds.ContinuousStreamAtZeroRate | src/quant_finance_toolkit/pricing/bonds.py:108-109 | at a zero market rate the continuous coupons add up to m times the coupon |
| Bonds.AnnuityAtZeroRate | src/quant_finance_toolkit/pricing/bonds.py:92-93 | at a zero market rate the annuity factor counts the years |
| Bonds.ContinuousMatchesDiscreteAtZeroRate | src/quant_finance_toolkit/pricing/bonds.py:90-114 | at a zero market rate both prices are principal * (1 + rate * maturity) |
| Bonds.ContinuousZeroCouponStream | src/quant_finance_toolkit/pricing/bonds.py:108-109 | a zero coupon rate gives no continuous coupons |
| Bonds.ContinuousZeroCoupon | src/quant_finance_toolkit/pricing/bonds.py:106-114 | with a zero coupon rate, the continuous price is the principal discounted continuously over the maturity |
| Bonds.ContinuousStreamBounds | src/quant_finance_toolkit/pricing/bonds.py:108-109 | at non-negative rates the continuous coupons lie between 0 and their undiscounted total |
| Bonds.ContinuousPriceBounds | src/quant_finance_toolkit/pricing/bonds.py:106-114 | at non-negative rates the continuous price is positive and at most principal * (1 + rate * maturity) |
| Stochastic.WienerRecurrence | src/quant_finance_toolkit/models/stochastic.py:33-36 | t and w both have n + 1 entries, w[0] = 0, and w[i] = w[i-1] + the i-th normal(mean, sqrt(dt)) draw |
| Stochastic.WienerWalk | src/quant_finance_toolkit/models/stochastic.py:33-36 | the time axis and the walk each have n + 1 entries |
| Stochastic.WienerTimeAxis | src/quant_finance_toolkit/models/stochastic.py:34 | x0 only sets where the time axis starts (it ends at n), and the walk does not depend on x0 |
| Stochastic.WienerAtZeroDraws | src/quant_finance_toolkit/models/stochastic.py:36 | when every increment equals its mean, w[i] = mean * i |
| Stochastic.WienerDriftFinding | 06_wienerProcess.py:10 | when every increment equals its mean, the package walk stays at 0 and the script's walk is w[i] = i |
| Stochastic.WienerProcess | src/quant_finance_toolkit/models/stochastic.py:33-36 | the package walk starts at w[0] = 0 and each step adds exactly sqrt(dt) * z, with no drift |
| Stochastic.WienerProcessDrifted | 06_wienerProcess.py:10 | the script's walk starts at w[0] = 0 and each step adds 1 + sqrt(dt) * z: a drift of 1 per step |
| Stochastic.SimulateGbm | src/quant_finance_toolkit/models/stochastic.py:73-84 | simulate_gbm returns exactly N times and N prices |
| Stochastic.GbmPositive | src/quant_finance_toolkit/models/stochastic.py:81-82 | from s0 > 0, every price is positive (also in the corrected version) |
| Stochastic.GbmPricePositive | src/quant_finance_toolkit/models/stochastic.py:81-82 | one GBM price s0 * exp(X) is positive whenever s0 is |
| Stochastic.GbmPriceAtStart | src/quant_finance_toolkit/models/stochastic.py:81-82 | at t = 0 the drift term vanishes and the price is s0 * exp(sigma * W) |
| Stochastic.GbmGrid | src/quant_finance_toolkit/models/stochastic.py:73-74 | the grid runs from 0 to T with spacing T / (N - 1), which differs from dt = T / N when T != 0 and N >= 2 |
| Stochastic.ScaledWalk | src/quant_finance_toolkit/models/stochastic.py:77-79 | the Brownian path cumsum(z) * scale has one entry per draw |
| Stochastic.GbmFirstPrice | src/quant_finance_toolkit/models/stochastic.py:77-82 | S[0] = s0 * exp(sigma * z[0] * sqrt(T / N)) |
| Stochastic.GbmFirstPriceMoves | src/quant_finance_toolkit/models/stochastic.py:69-71 | simulate_gbm(100, 1, 100) has S[0] != 100 whenever sigma != 0 and the first draw is non-zero |
| Stochastic.GbmNoVolatility | src/quant_finance_toolkit/models/stochastic.py:81-82 | with sigma = 0, S[i] = s0 * exp(mu * t[i]) |
| Stochastic.SimulateGbmFromStart | src/quant_finance_toolkit/models/stochastic.py:73-82 | the corrected GBM has N + 1 times and N + 1 prices |
| Stochastic.GbmFromStartFacts | src/quant_finance_toolkit/models/stochastic.py:73-82 | the corrected GBM starts at s0 at time 0, ends at T, and steps by dt = T / N |
| Stochastic.EulerIncrement | src/quant_finance_toolkit/models/stochastic.py:122-126 | the sources' increment speed * (level - x) * dt + sigma * sqrt(dt) * z is one step of the shared Euler recurrence |
| Stochastic.EulerStepNoiseFree | src/quant_finance_toolkit/models/vasicek.py:49-50 | without noise one Euler step shrinks the distance to the level theta by the factor 1 - kappa * dt |
| Stochastic.EulerPath | src/quant_finance_toolkit/models/vasicek.py:47-50 | the path has one more entry than there are draws and starts at the initial value |
| Stochastic.EulerPathStep | src/quant_finance_toolkit/models/vasicek.py:47-50 | every point of an Euler path is one Euler step from the point before |
| Stochastic.EulerAtLevel | src/quant_finance_toolkit/models/vasicek.py:49-50 | without noise, a path that starts at the long-term level stays there |
| Stochastic.EulerContracts | src/quant_finance_toolkit/models/stochastic.py:122-126 | without noise and with 0 <= speed * dt <= 1, no step increases the distance to the level |
| Stochastic.EulerStepToward | src/quant_finance_toolkit/models/vasicek.py:49-50 | without noise and with 0 < speed * dt <= 1, one step moves toward the level without crossing it |
| Stochastic.EulerNoCrossing | src/quant_finance_toolkit/models/vasicek.py:49-50 | without noise, a path from above falls monotonically and stays at or above the level; from below it rises and stays at or below |
| Stochastic.EulerStepMonotone | src/quant_finance_toolkit/models/vasicek.py:49-50 | with 0 <= kappa * dt <= 1, one Euler step preserves the order of two starting rates under the same draw |
| Stochastic.EulerPathMonotone | src/quant_finance_toolkit/models/vasicek.py:47-50 | with 0 <= kappa * dt <= 1, a higher starting rate gives a path that is at least as high at every step, under the same draws |
| Stochastic.EulerIgnoresDraws | src/quant_finance_toolkit/models/vasicek.py:47-50 | without noise, any two draw sequences of one length give the same path |
| Stochastic.EulerCanGoNegative | src/quant_finance_toolkit/models/vasicek.py:49-50 | nothing clamps rates at zero: one step from 1% toward 5% with draw -5 goes negative |
| Stochastic.OrnsteinUhlenbeck | src/quant_finance_toolkit/models/stochastic.py:119-127 | the process has n values and x[0] = 0 |
| Stochastic.GenerateOrnsteinUhlenbeck | src/quant_finance_toolkit/models/stochastic.py:119-127 | the loop writing x[t] into a zero array returns the Ornstein-Uhlenbeck sequence |
| Stochastic.OrnsteinUhlenbeckRecurrence | src/quant_finance_toolkit/models/stochastic.py:122-126 | x[k] = x[k-1] + theta * (mu - x[k-1]) * dt + sigma * (a normal(0, sqrt(dt)) draw) |
| Stochastic.OrnsteinUhlenbeckReverts | src/quant_finance_toolkit/models/stochastic.py:122-126 | with sigma = 0 and 0 <= theta * dt <= 1, abs(x[k] - mu) <= abs(x[k-1] - mu) |
| Vasicek.VasicekRates | src/quant_finance_toolkit/models/vasicek.py:45-51 | the rate path has N + 1 entries and starts at r0 |
| Vasicek.RateChange | src/quant_finance_toolkit/models/vasicek.py:49-50 | rates[-1] + dr is one Euler step of the shared recurrence |
| Vasicek.SimulateRates | src/quant_finance_toolkit/models/vasicek.py:47-50 | the appending loop builds the Euler path from r0 with noise scale sigma * sqrt(dt) |
| Vasicek.VasicekModel | src/quant_finance_toolkit/models/vasicek.py:45-51 | vasicek_model returns linspace(0, T, N + 1) and the Vasicek rate path |
| Vasicek.VasicekShape | src/quant_finance_toolkit/models/vasicek.py:41-50 | t and rates have equal length, t runs from 0 to T, and rates[i+1] = rates[i] + dr_i with dt = T / N |
| Vasicek.VasicekAtMean | src/quant_finance_toolkit/models/vasicek.py:49-50 | with sigma = 0 and r0 = theta, every rate is theta |
| Vasicek.VasicekNoVolatilityMonotone | src/quant_finance_toolkit/models/vasicek.py:49-50 | with sigma = 0 and 0 < kappa * dt <= 1, the rates move monotonically toward theta and never cross it |
| Vasicek.SimulatedRatePaths | src/quant_finance_toolkit/models/vasicek.py:96-107 | with dt = T / num_points, one simulated rate path per draw sequence |
| Vasicek.BondEstimate | src/quant_finance_toolkit/models/vasicek.py:109-117 | the estimate is missing exactly when there is no simulation |
| Vasicek.PathDiscounts | src/quant_finance_toolkit/models/vasicek.py:112-114 | one discount factor per rate path |
| Vasicek.MonteCarloBondPricing | src/quant_finance_toolkit/models/vasicek.py:96-119 | the nested appending loops and the reduction compute the bond price of the rate paths |
| Vasicek.BondPathShape | src/quant_finance_toolkit/models/vasicek.py:99-107 | every path has num_points + 1 rates and starts at r0 |
| Vasicek.PathDiscountBounds | src/quant_finance_toolkit/models/vasicek.py:112-114 | each discount factor exp(-sum(path) * dt) is positive, and below 1 when every rate is positive and dt > 0 |
| Vasicek.PathDiscountDecreasingInRate | src/quant_finance_toolkit/models/vasicek.py:112-114 | with 0 <= kappa * dt <= 1, a strictly higher r0 gives a strictly smaller discount factor exp(-sum(path) * dt) for the same draws |
| Vasicek.BondEstimateDecreasing | src/quant_finance_toolkit/models/vasicek.py:112-117 | if every path's discount factor is strictly smaller, the averaged bond price is strictly smaller |
| Vasicek.BondEstimatePositive | src/quant_finance_toolkit/models/vasicek.py:92-117 | with x > 0 and at least one simulation, the price exists and is positive |
| Vasicek.BondEstimateBelowFace | src/quant_finance_toolkit/models/vasicek.py:112-117 | when every rate on every path is positive, the price is below the face value |
| Vasicek.MonteCarloBondPriceBounds | src/quant_finance_toolkit/models/vasicek.py:91-119 | the simulated price is positive, and below x when T > 0 and every simulated rate is positive |
| Vasicek.MonteCarloBondPrice | src/quant_finance_toolkit/models/vasicek.py:96-119 | the Monte Carlo bond price is defined exactly when there is at least one simulation |
| Vasicek.MonteCarloBondPriceDecreasingInRate | src/quant_finance_toolkit/models/vasicek.py:91-119 | with 0 <= kappa * dt <= 1, a strictly higher initial rate r0 gives a strictly lower Monte Carlo bond price for the same draws |
| Vasicek.NoVolatilityEstimate | src/quant_finance_toolkit/models/vasicek.py:99-117 | with sigma = 0 the price is x times the discount factor of the single noise-free path |
| Vasicek.MonteCarloBondPriceNoVolatility | src/quant_finance_toolkit/models/vasicek.py:99-117 | with sigma = 0 the price does not depend on the number of simulations or on the draws |
| Vasicek.BondPricingScript | 15_bondPricingVasicek.py:6-30 | 1000 simulations of 200 points give the same price as the package pricer |
| MonteCarlo.PricePath | src/quant_finance_toolkit/models/monte_carlo.py:49-54 | a path has N + 1 prices and starts at S0 |
| MonteCarlo.SimulatePrices | src/quant_finance_toolkit/models/monte_carlo.py:49-54 | the inner appending loop builds the price path |
| MonteCarlo.StockPriceMonteCarlo | src/quant_finance_toolkit/models/monte_carlo.py:46-65 | the nested loops and the added mean column produce the simulation table |
| MonteCarlo.StockMonteCarloScript | 09_stockPriceMonteCarlo.py:5-22 | 1000 simulations give 1000 path columns and an (N + 1)-row mean column |
| MonteCarlo.PricePathStep | src/quant_finance_toolkit/models/monte_carlo.py:51-54 | prices[k+1] = prices[k] * exp((mu - sigma^2 / 2) + sigma * z_k), with no dt factor |
| MonteCarlo.PricePathPositive | src/quant_finance_toolkit/models/monte_carlo.py:51-54 | from S0 > 0, every price is positive |
| MonteCarlo.StockPriceTableShape | src/quant_finance_toolkit/models/monte_carlo.py:46-60 | the table has one path per simulation and N + 1 rows, each path starts at S0, and the mean column starts at S0 |
| MonteCarlo.StockPriceMeanPositive | src/quant_finance_toolkit/models/monte_carlo.py:60 | from S0 > 0, every mean entry is positive |
| MonteCarlo.PricePathIgnoresDraws | src/quant_finance_toolkit/models/monte_carlo.py:51-54 | with sigma = 0 the draws play no part |
| MonteCarlo.StockPriceNoVolatility | src/quant_finance_toolkit/models/monte_carlo.py:46-60 | with sigma = 0 all paths are identical and equal the mean column |
| ValueAtRisk.ValueAtRiskLinear | src/quant_finance_toolkit/risk/var.py:39 | the analytical VaR is linear in the position |
| ValueAtRisk.ValueAtRiskOneDay | src/quant_finance_toolkit/risk/var.py:39 | over one day, VaR = position * (mu - ppf(1 - c) * sigma) |
| ValueAtRisk.ValueAtRiskHorizon | src/quant_finance_toolkit/risk/var.py:39 | the n-day VaR is n times the one-day drift part plus sqrt(n) times the one-day volatility part |
| ValueAtRisk.ValueAtRiskPositive | src/quant_finance_toolkit/risk/var.py:39 | at 0.5 < c < 1, mu >= 0, sigma > 0, position > 0 and n >= 1, the VaR is positive |
| ValueAtRisk.ValueAtRiskDoctest | src/quant_finance_toolkit/risk/var.py:35-37 | the documented call does not return a negative value |
| ValueAtRisk.ValueAtRiskN | src/quant_finance_toolkit/risk/var.py:39 | at confidence 0.5 (where ppf(0.5) = 0) the value at risk is the expected gain position * mu * n only |
| ValueAtRisk.Insert | src/quant_finance_toolkit/risk/var.py:102 | insertion adds exactly one element and keeps a sorted sequence sorted |
| ValueAtRisk.Sort | src/quant_finance_toolkit/risk/var.py:102 | np.sort returns a non-decreasing permutation of its input |
| ValueAtRisk.SortedUnique | src/quant_finance_toolkit/risk/var.py:102 | two sorted sequences with the same elements are equal, so the sorted order is unique |
| ValueAtRisk.SortedHeadIsMinimum | src/quant_finance_toolkit/risk/var.py:102 | the head of the sorted values is at most every value |
| ValueAtRisk.Below | src/quant_finance_toolkit/risk/var.py:105 | the lower neighbour index is the floor of the virtual index (n - 1) * q / 100 |
| ValueAtRisk.Above | src/quant_finance_toolkit/risk/var.py:105 | the upper neighbour is the next index, clipped to the last one |
| ValueAtRisk.VirtualIndex | src/quant_finance_toolkit/risk/var.py:105 | for q in [0, 100], the virtual index lies in [0, n - 1], so both neighbours are valid indices |
| ValueAtRisk.LerpBetween | src/quant_finance_toolkit/risk/var.py:105 | linear interpolation with 0 <= t <= 1 stays between its ends |
| ValueAtRisk.LerpMonotone | src/quant_finance_toolkit/risk/var.py:105 | linear interpolation grows with t |
| ValueAtRisk.PercentileBetween | src/quant_finance_toolkit/risk/var.py:105 | on sorted values the percentile lies between its two neighbours, hence between the minimum and the maximum |
| ValueAtRisk.Percentile | src/quant_finance_toolkit/risk/var.py:105 | on an integral virtual index the percentile is that element, and between two equal neighbours it is their common value |
| ValueAtRisk.PercentileEnds | src/quant_finance_toolkit/risk/var.py:105 | the 0th percentile is the first value and the 100th the last |
| ValueAtRisk.VirtualIndexMonotone | src/quant_finance_toolkit/risk/var.py:105 | the virtual index grows with q |
| ValueAtRisk.PercentileMonotone | src/quant_finance_toolkit/risk/var.py:105 | on sorted values the percentile never decreases as q grows |
| ValueAtRisk.PortfolioValuePositive | src/quant_finance_toolkit/risk/var.py:97-99 | from S > 0, every simulated value is positive |
| ValueAtRisk.Simulation | src/quant_finance_toolkit/risk/var.py:85-108 | one standard draw per iteration; the simulation fails with a percentile error exactly when c lies outside [0, 1], and otherwise with a no-iterations error exactly when there are no iterations |
| ValueAtRisk.SortedWithinRange | src/quant_finance_toolkit/risk/var.py:102-105 | every sorted value lies between the minimum and the maximum of the simulated values |
| ValueAtRisk.LossBounds | src/quant_finance_toolkit/risk/var.py:102-108 | the loss lies in [S - max(values), S - min(values)] |
| ValueAtRisk.LossBelowStart | src/quant_finance_toolkit/risk/var.py:97-108 | from S > 0 the loss is below S |
| ValueAtRisk.PercentilePositive | src/quant_finance_toolkit/risk/var.py:102-105 | the percentile of positive values is positive |
| ValueAtRisk.LossMonotoneInConfidence | src/quant_finance_toolkit/risk/var.py:105-108 | on the same draws, a higher confidence level never gives a smaller loss |
| Options.RowMax | src/quant_finance_toolkit/pricing/options.py:140 | np.amax of a row is one of its two entries and at least both |
| Options.Payoffs | src/quant_finance_toolkit/pricing/options.py:140 | each payoff is max(0, column entry): it is non-negative, at least its column entry, and equal to 0 or to that entry |
| Options.Estimate | src/quant_finance_toolkit/pricing/options.py:140-147 | the averaged, discounted estimate is missing exactly when there are no iterations |
| Options.BufferEstimate | src/quant_finance_toolkit/pricing/options.py:125-147 | filling the zero buffer's column 1, then summing the row maxima, dividing and discounting, gives the estimate |
| Options.CallOptionPrice | src/quant_finance_toolkit/pricing/options.py:117-147 | call_option_price is the estimate over the call column |
| Options.PutOptionPrice | src/quant_finance_toolkit/pricing/options.py:149-179 | put_option_price is the estimate over the put column |
| Options.CallPrice | src/quant_finance_toolkit/pricing/options.py:117-147 | the Monte Carlo call price is defined exactly when there is at least one iteration |
| Options.PutPrice | src/quant_finance_toolkit/pricing/options.py:149-179 | the Monte Carlo put price is defined exactly when there is at least one iteration |
| Options.TerminalPricePositive | src/quant_finance_toolkit/pricing/options.py:131-134 | from S0 > 0, every terminal price is positive |
| Options.EstimateNonNegative | src/quant_finance_toolkit/pricing/options.py:140-145 | an estimate is never negative |
| Options.PricesNonNegative | src/quant_finance_toolkit/pricing/options.py:125-179 | call and put prices exist and are >= 0 for any draws and at least one iteration |
| Options.EstimateAtMost | src/quant_finance_toolkit/pricing/options.py:140-145 | payoffs at most b give an estimate at most b * exp(-rf T) |
| Options.PutAtMostDiscountedStrike | src/quant_finance_toolkit/pricing/options.py:163-177 | with S0 > 0 and E >= 0, the put price is at most E * exp(-rf T) |
| Options.PayoffParity | src/quant_finance_toolkit/pricing/options.py:137-172 | summed call payoffs minus summed put payoffs equal the summed call column |
| Options.EstimateParity | src/quant_finance_toolkit/pricing/options.py:137-177 | call estimate minus put estimate = (mean terminal price - E) * exp(-rf T) |
| Options.PutCallParity | src/quant_finance_toolkit/pricing/options.py:117-179 | on the same draws, call price - put price = (mean of S_i - E) * exp(-rf T) |
| Options.CallEstimateNonIncreasing | src/quant_finance_toolkit/pricing/options.py:137-145 | on the same prices, a higher strike never raises the call estimate |
| Options.CallNonIncreasingInStrike | src/quant_finance_toolkit/pricing/options.py:131-147 | on the same draws, a higher strike never raises the call price |
| Options.CallWorthlessOutOfTheMoney | src/quant_finance_toolkit/pricing/options.py:137-147 | when no terminal price exceeds E, the call price is 0 |
| Markowitz.LogReturns | src/quant_finance_toolkit/portfolio/markowitz.py:26-27 | a price series of length L gives L - 1 log returns |
| Markowitz.CalculateReturns | src/quant_finance_toolkit/portfolio/markowitz.py:26-27 | calculate_returns drops one row and keeps one column per asset |
| Markowitz.ReturnsColumn | src/quant_finance_toolkit/portfolio/markowitz.py:26-27 | each asset's return column is log(p[i+1] / p[i]) over its price column |
| Markowitz.LogReturnsTelescope | src/quant_finance_toolkit/portfolio/markowitz.py:26-27 | the log returns of a series add up to log(last) - log(first) |
| Markowitz.ReturnsTelescope | src/quant_finance_toolkit/portfolio/markowitz.py:26-27 | each asset's return column sums to its log price change over the whole table |
| Markowitz.NormaliseSumsToOne | src/quant_finance_toolkit/portfolio/markowitz.py:70 | normalised weights sum to 1 |
| Markowitz.NormaliseBounds | src/quant_finance_toolkit/portfolio/markowitz.py:69-70 | non-negative draws with a positive sum give weights in [0, 1] |
| Markowitz.NormaliseInPlace | src/quant_finance_toolkit/portfolio/markowitz.py:70 | `weights /= np.sum(weights)` leaves the normalised draws in the array |
| Markowitz.Statistics | src/quant_finance_toolkit/portfolio/markowitz.py:132-138 | the Sharpe ratio is missing exactly when the volatility is 0; otherwise Sharpe * volatility = return |
| Markowitz.PortfolioReturnLinear | src/quant_finance_toolkit/portfolio/markowitz.py:132 | the annualised return is linear in the weights |
| Markowitz.PortfolioReturn | src/quant_finance_toolkit/portfolio/markowitz.py:132 | when every asset has the same mean return m, the annual portfolio return is 252 * m * sum(w) |
| Markowitz.PortfolioVolatility | src/quant_finance_toolkit/portfolio/markowitz.py:133-135 | for a non-negative annual variance, the volatility is non-negative and its square is that variance |
| Markowitz.PortfolioReturnBounds | src/quant_finance_toolkit/portfolio/markowitz.py:72-74 | with long-only weights summing to 1, the return lies between 252 * min(mean) and 252 * max(mean) |
| Markowitz.QuadraticFormScale | src/quant_finance_toolkit/portfolio/markowitz.py:133-135 | w'(kM)w = k * w'Mw |
| Markowitz.VarianceAnnualised | src/quant_finance_toolkit/portfolio/markowitz.py:133-135 | the annualised variance is 252 times the daily variance w'Cw |
| Markowitz.SingleAssetPortfolio | src/quant_finance_toolkit/portfolio/markowitz.py:132-135 | an all-in-one-asset portfolio has return 252 * mean_k and variance 252 * C_kk |
| Markowitz.GeneratedPortfolios | src/quant_finance_toolkit/portfolio/markowitz.py:63-88 | weights, means and risks are three arrays with one entry per portfolio |
| Markowitz.GeneratedEntry | src/quant_finance_toolkit/portfolio/markowitz.py:68-82 | entry j holds the normalised draw row j, its annualised return and its volatility |
| Markowitz.GeneratedWeightsNormalised | src/quant_finance_toolkit/portfolio/markowitz.py:69-71 | every generated weight vector has one weight per asset, sums to 1 and lies in [0, 1] |
| Markowitz.StatisticsMatchGenerated | src/quant_finance_toolkit/portfolio/markowitz.py:72-82 | `statistics` on a generated weight vector reproduces that portfolio's mean and risk |
| Markowitz.GeneratedReturnBounds | src/quant_finance_toolkit/portfolio/markowitz.py:72-74 | every generated mean lies within 252 times the range of the asset means |
| Markowitz.GeneratePortfolios | src/quant_finance_toolkit/portfolio/markowitz.py:46-88 | the loop normalising in place and appending to three lists produces the generated portfolios |
| Markowitz.GeneratePortfoliosScript | 04_markowitzModel.py:57-75 | NUM_PORTFOLIOS = 10000 portfolios over the six stocks, as three aligned arrays of length 10000 |
| CryptoRisk.CryptoVarAnalysis | src/quant_finance_toolkit/crypto/risk.py:71-107 | the report fails only when the requested Monte Carlo simulation fails, its analytical VaR is >= 0, both Monte Carlo keys are present iff Monte Carlo was requested, and the difference is analytical - Monte Carlo |
| CryptoRisk.AnalysisFigures | src/quant_finance_toolkit/crypto/risk.py:73-91 | for a long position at c > 0.5 with non-negative drift, abs changes nothing, and the annualised volatility exceeds the daily one |
| CryptoRisk.AnalysisMonteCarloBounds | src/quant_finance_toolkit/crypto/risk.py:94-105 | the Monte Carlo figure lies between the position minus the largest and minus the smallest simulated value |
| CryptoRisk.Validate | src/quant_finance_toolkit/crypto/risk.py:157-160 | a length mismatch is reported iff the lengths differ; otherwise "not normalised" is reported iff abs(sum - 1) > 1e-6 |
| CryptoRisk.IndividualVar | src/quant_finance_toolkit/crypto/risk.py:177-184 | each ticker's VaR is reported as a non-negative loss |
| CryptoRisk.PortfolioVarFigure | src/quant_finance_toolkit/crypto/risk.py:194-209 | the portfolio VaR is a non-negative loss |
| CryptoRisk.PortfolioVarReport | src/quant_finance_toolkit/crypto/risk.py:157-216 | the report fails exactly when validation fails, with that error |
| CryptoRisk.CryptoPortfolioVar | src/quant_finance_toolkit/crypto/risk.py:157-216 | validation, then the loop filling individual_vars, then the portfolio figures, give the report |
| CryptoRisk.IndividualVarsKeys | src/quant_finance_toolkit/crypto/risk.py:172-184 | individual_vars has a key for exactly the tickers |
| CryptoRisk.IndividualVarsLastWins | src/quant_finance_toolkit/crypto/risk.py:173-184 | a repeated ticker keeps the VaR of its last occurrence |
| CryptoRisk.IndividualVarsNonNegative | src/quant_finance_toolkit/crypto/risk.py:184 | every individual_vars entry is >= 0 |
| CryptoRisk.IndividualVarsCount | src/quant_finance_toolkit/crypto/risk.py:172-184 | with distinct tickers, individual_vars has exactly one entry per ticker |
| CryptoRisk.ReportFigures | src/quant_finance_toolkit/crypto/risk.py:184-216 | in an accepted report every VaR is >= 0 and the keys are the tickers |
| CryptoRisk.PositionsSum | src/quant_finance_toolkit/crypto/risk.py:159-169 | accepted weights split the position into parts whose total is within 1e-6 * abs(position) of it |
| CryptoRisk.DailyMeanCancels | src/quant_finance_toolkit/crypto/risk.py:188-194 | the 365 factors cancel: the daily portfolio mean is sum(mean_i * w_i) |
| CryptoRisk.PortfolioMean | src/quant_finance_toolkit/crypto/risk.py:188 | when every ticker has the same daily mean m, the annual portfolio mean is m * sum(weights) * 365 |
| CryptoRisk.PortfolioVolatility | src/quant_finance_toolkit/crypto/risk.py:189-191 | for a non-negative annualised quadratic form w' (365 C) w, the volatility is non-negative and its square is that form |
| CryptoRisk.DailyVolatilityCancels | src/quant_finance_toolkit/crypto/risk.py:189-195 | the sqrt(365) factors cancel: the daily portfolio volatility is sqrt(w'Cw) |
| CryptoRisk.SingleTickerMean | src/quant_finance_toolkit/crypto/risk.py:188-194 | one ticker at weight 1 has the ticker's daily mean |
| CryptoRisk.SingleTickerVolatility | src/quant_finance_toolkit/crypto/risk.py:189-195 | one ticker at weight 1, with covariance vol^2, has the ticker's daily volatility |
| CryptoRisk.SingleTickerAgreement | src/quant_finance_toolkit/crypto/risk.py:172-209 | a one-ticker portfolio's individual VaR and portfolio VaR both equal crypto_var_analysis's analytical VaR |

## Left out

- Downloads (yfinance), `__main__` blocks, printing, plotting, and the Streamlit and interactive front ends: I/O and presentation only.
- Random number generation: every draw is an input sequence of standard normal values. Convergence of any estimator is statistical and is not stated.
- `exp`, `sqrt`, `log`, `norm.ppf`: these are parameters constrained only by the facts in `Elementary`. Floating-point rounding is not modelled; every value is an exact `real`.
- The Black-Scholes closed forms, `optimize_portfolio` (scipy SLSQP), CAPM and `crypto/portfolio.py`: they compose library code that cannot be seen here.
- pandas reductions: `returns.mean()`, `returns.std()` and `returns.cov()` are inputs (`mean`, `cov`, `ReturnStatistics`), not computed from the returns table.
- `returns.corr()`: the correlation matrix of the crypto report is left out, and `PortfolioVar` has no field for it.
- Markowitz.CalculateReturns: requires positive prices. The model has no NaN, so `dropna` is modelled only as dropping the first row.
- Markowitz.GeneratePortfolios: requires draws that are not all zero (`ValidDraws`). An all-zero draw from `np.random.random` would give NaN weights in the source.
- Markowitz.Statistics: at zero volatility the Sharpe ratio is `None`. numpy would give inf or NaN with a warning.
- CryptoRisk.PortfolioVarReport: requires `sqrt(365) != 0`, which every square root satisfies. The precondition replaces an `IsSqrt` assumption.
- Stochastic.SimulateGbm: requires N >= 1. With N = 0, `T / N` raises ZeroDivisionError, which is not modelled as an error value.
- Vasicek.VasicekRates: requires N >= 1. With N = 0, `T / float(N)` raises ZeroDivisionError.
- Vasicek.MonteCarloBondPrice: requires num_points >= 1, for the same reason. With no simulations the price is `None`; the source takes a NaN mean.
- Options.Estimate: zero iterations give `None`. In the source, numpy divides 0.0 by 0 and yields NaN with a RuntimeWarning; the model has no NaN.
- ValueAtRisk.Simulation: zero iterations give `Err(NoIterations)`, where numpy fails on an empty array. A confidence level outside [0, 1] gives `Err(PercentileOutOfRange)`, where numpy raises ValueError.
- ValueAtRisk.Sort: specified by its result (sorted, and a permutation), not by numpy's algorithm.
- PresentValue.PresentDiscreteValue: requires 1 + r != 0 when n >= 1. With r = -1 the source raises ZeroDivisionError, which is not modelled as an error value. The number of periods n is a `nat`, while Python also accepts a negative integer (`x / (1 + r) ** -2` computes a value); negative periods are not modelled.
- Bonds.ZeroCouponPrice: requires 1 + r != 0 when the maturity is at least 1, for the stored rate r (the constructor's percentage divided by 100); with r = -1 the source raises ZeroDivisionError. In addition the maturity is a `nat`, while Python also accepts a negative maturity and discounts with a negative exponent.
- Bonds.CouponBondPrice: requires 1 + r != 0 when the maturity is at least 1, for the stored rate r; with r = -1 the source raises ZeroDivisionError. In addition the maturity is a `nat`, while Python also accepts a negative maturity, for which `range(1, maturity + 1)` is empty and only the discounted principal remains.
- Bonds.ZeroCouponExample: the documented float 924.5562130177715 is stated as the bound 924.556 < price < 924.557 on the exact value 1000 / 1.0816.
- `show_statistics`, `show_portfolios` and the other `show_*`/`print_*` helpers: printing and plotting only.

## Findings

| source | as written | input that shows it | evidently intended | confidence | as-written member | corrected member |
|---|---|---|---|---|---|---|
| src/quant_finance_toolkit/models/stochastic.py:69-82 | the doctest promises `s[0] == 100`. The time grid is `linspace(0, T, N)`, with spacing T/(N-1) instead of dt = T/N, and `W = cumsum(z) * sqrt(dt)` already contains the first draw at index 0 | `simulate_gbm(100, T=1, N=100)` with sigma = 0.05 and any first draw z[0] != 0: S[0] = 100 * exp(0.05 * z[0] * 0.1) != 100 | N + 1 points on `linspace(0, T, N + 1)`, with W[0] = 0 so that S[0] = s0 and the step is dt | not executed | Stochastic.GbmFirstPriceMoves | Stochastic.GbmFromStartFacts |
| 06_wienerProcess.py:10 | increments are drawn from `normal(1, sqrt(dt))`, giving the walk a drift of 1 per step | every standard draw 0 (each increment at its mean): w[i] = i | increments from `normal(0, sqrt(dt))`, as in the package, so that w[i] = 0 | not executed | Stochastic.WienerDriftFinding | Stochastic.WienerProcess |
| src/quant_finance_toolkit/risk/var.py:35-37 | the doctest claims `value_at_risk_n(1000000, 0.99, 0.001, 0.02, n=1) < 0` | that call: ppf(0.01) < 0, so the result is 1000000 * (0.001 - ppf(0.01) * 0.02) > 0 (about 47,500) | a positive loss, as the formula at line 39 computes and as the Monte Carlo class documents at lines 63-66 | not executed | ValueAtRisk.ValueAtRiskDoctest | ValueAtRisk.ValueAtRiskPositive |
