# Verified model of the research, risk and execution kernels

This project models the deterministic kernels of a paper-trading and research system and proves
what they promise. Every kernel is one module:

- **Backtesting, BacktestLaws, RoundTrips, Baselines** – the costed walk over prices and targets, its
  closed multiplicative form, the account as a product of round trips, and the baseline strategies
  that feed it.
- **Regimes, RegimeBlocks** – volatility labels, the attribution of one backtest to regimes, and what a
  block says about its bars.
- **Calibration** – confidence bins, Brier score and expected calibration error.
- **Lineage** – the ancestor walk with its cycle report and the descendant walk by generations.
- **Correlations, QuadraticForms, Allocator, Ensemble** – measured correlations, risk-parity
  weights scaled to a risk budget, and what becomes of names and orders on the way.
- **Vpin** – volume buckets and flow toxicity.
- **LeastSquares, Impact, Capacity** – square-root impact fitted from fills and inverted into a
  capacity.
- **Windows** – the rolling event window per symbol.
- **PaperAutonomy, CampaignLimits, CampaignService, SplitStore, CampaignTraces** – one paper campaign
  day by day, what its stay limits measure, the persisted campaign with concurrent runs and operator cancels, the same over a repository that
  judges and writes a status in two steps, and runs that lose a status.
- **RiskGate, EdgeEstimates, RiskRuns, PriceStops, ConcurrentRisk, LossOverrun, Execution** – vetoes,
  sizing, runs of approved trades, stops given as a price, positions open together and how far their
  losses can run, and the order that is finally submitted.
- **Passports, DeathSystem** – evidence verdicts, the passport ledger, and demotion down to death.
- **Scaling** – the gradual ramp of live exposure.

`Wrappers`, `RealMath`, `Grouping`, `Ordering` and `StableSorting` hold what several kernels share:
sums and inner products with Cauchy-Schwarz, grouping by label, sorted keys, stable sorting.

Numbers that are floats in the program are `real` here, so every law is stated over exact
arithmetic. A square root is a function parameter `sqrt` that is exact on non-negative inputs
(`RealMath.IsSqrt`). An operation that raises returns `Err` or `None`. Objects that update fields are
classes whose ghost fields or invariants tie them to a whole-history specification; loops stay
loops and are proved against a specification function or predicate whose properties are proved
beside them.

## Where the code departs from what is said about it

These are proved as exact conditions or concrete inputs, not repaired:

- Volatility labels look ahead through the flat-series guard: `Regimes.CausalExactly`.
- `cycle_ids` lists every id walked, and a broken chain is flagged only directly above the start:
  `Lineage.CycleIdsOvershoot`, `Lineage.BreakHigherUpUnreported`.
- The expected return pairs sorted weights with unsorted strategies: `Allocator.ReportedReturnExactly`.
- A measured matrix is in id order, the ensemble's profiles in registry order:
  `Ensemble.LinesUpExactly`.
- Reported exposure can pass 100 percent: `Baselines.ExposureAboveHundred`. A simulation divides by
  zero on a vanished account: `BacktestLaws.DivisionByZeroExactly`. Trade returns leave the opening fee
  out, so that a counted win can lower the account: `RoundTrips.CountedWinLosesExactly`.
- The impact coefficient is fitted with an intercept but documented and used without one:
  `Impact.BestCoefficientExactly`; flat slippage scores a perfect fit: `Impact.FlatResponseScoresPerfect`.
- Capacity divides by volatility, which may be zero, and refuses an edge whose budget only equals the
  half-spread, or is below it under a negative coefficient, although sizes within the budget may
  exist: `Capacity.EstimateCapacity`, `Capacity.RefusalLosesExactly`.
- A reduction to size zero leaves the whole order in place: `Execution.SubmittedWithinApprovalExactly`.
- Loss budgets bound one bracketed trade at a time: positions open together, and any long enough run,
  can trip a loss breaker by bracketed losses alone, and a stop given as a price is charged at another
  figure: `ConcurrentRisk.StopsTogetherTripExactly`, `ConcurrentRisk.AnyRunTripsExactly`,
  `PriceStops.BoundedExactly`.
- Missing evidence is judged before failing folds, not after: `Passports.VerdictExactly`.
- The candidate rung is a fixed point of a retired campaign, more evidence can soften a verdict, and
  a canary verdict erases itself: `DeathSystem.PaperCampaignKillsExactly`,
  `DeathSystem.CampaignSoftensExactly`, `DeathSystem.CanaryCampaignCountsOnce`.
- A campaign whose run dies after its first stored day can never finish:
  `CampaignService.Campaign.FinishableExactly`.
- A terminal campaign status is judged and written in two steps by the repository, so that a cancelled
  record can be completed and a completed one cancelled or reopened: `CampaignTraces.CancelIsLost`,
  `CampaignTraces.CompletionIsLost`, `CampaignTraces.CompletionIsReopened`,
  `SplitStore.CancelledKeptExactly`, `SplitStore.FinishedKeptExactly`.
- The edge of an estimate measures a loss as a gain of the same size: `EdgeEstimates.EdgeAgreesExactly`.

## Model

| member | source | states |
|---|---|---|
| Backtesting.Simulate | backend/application/research/baseline_evaluation.py:260-356 | Equity at every bar is start * (1-rate)^fills * product of (1 + target * change); the end charges 2 fills per round trip; final equity plus costs paid is start plus summed PnL; each trade return and the win count belong to the round trips; exposure counts the bars with a position; the run fails exactly when a position opens on an account of zero |
| Backtesting.TradeBar | backend/application/research/baseline_evaluation.py:293-342 | One bar keeps the running account equal to the closed form, through opening, closing, flipping and holding |
| Backtesting.CloseTrade | backend/application/research/baseline_evaluation.py:312-322 | Closing charges one cost, books the return of the run since its opening, and counts it as a win exactly when it is positive |
| Backtesting.CloseOut | backend/application/research/baseline_evaluation.py:344-356 | The position still open at the end is closed, and the totals are those of all round trips |
| BacktestLaws.RunsAreMaximal | backend/application/research/baseline_evaluation.py:268-273 | The round trips are the maximal runs of one non-zero target, disjoint and in order |
| BacktestLaws.RunsOpenAtRunStarts | backend/application/research/baseline_evaluation.py:303-311 | A round trip opens at exactly the bars where a run starts |
| BacktestLaws.FactorZero | backend/application/research/baseline_evaluation.py:297-301 | A bar's growth factor vanishes, or turns negative, only for a short held through an exact, or a larger, doubling |
| BacktestLaws.DivisionByZeroExactly | backend/application/research/baseline_evaluation.py:317 | The block return divides by zero exactly when some run starts after the account vanished: the rate is one, or a short was held through an exact doubling before |
| BacktestLaws.DivisionByZeroOccurs | backend/application/research/baseline_evaluation.py:317 | A short through a doubling and a long after it, at cost rate zero, are accepted inputs on which the simulation fails |
| BacktestLaws.AlwaysLongIsBuyAndHold | backend/application/research/baseline_evaluation.py:358-368 | All-long targets end with exactly the buy-and-hold reference |
| RoundTrips.FinalFromTrips | backend/application/research/baseline_evaluation.py:293-356 | The final equity is the start times, for every round trip, one more fee and its reported return |
| RoundTrips.CountedWinLosesExactly | backend/application/research/baseline_evaluation.py:312-322 | A counted win lowers the account exactly when its reported return does not pay the opening fee |
| RoundTrips.WinningTripLoses | backend/application/research/baseline_evaluation.py:312-356 | A simulation whose only trade is counted as a win and that ends below its start |
| BacktestLaws.HigherCostsLowerEquity | backend/application/research/baseline_evaluation.py:269-271 | Raising the cost rate lowers final equity exactly when the uncosted growth is positive, and changes nothing without a trade |
| BacktestLaws.GrowthPositive | backend/application/research/baseline_evaluation.py:297-301 | Growth is positive when no short is held through a doubling |
| BacktestLaws.EquityAgrees | backend/application/research/baseline_evaluation.py:272-273 | Simulations that agree on prices and targets up to a bar have the same fills, growth and equity there |
| BacktestLaws.CurvesAgree | backend/application/research/baseline_evaluation.py:342-355 | Their curves agree too, except at a series' own last bar, where the closing cost is charged |
| Baselines.CrossoverTargets | backend/application/research/baseline_evaluation.py:141-155 | The loop computes the crossover rule at every bar, 0 before the slow window is full |
| Baselines.MomentumTargets | backend/application/research/baseline_evaluation.py:176-188 | The loop computes the momentum rule at every bar, 0 inside the lookback |
| Baselines.CrossoverDirection | backend/application/research/baseline_evaluation.py:141-155 | A crossover waits for its slow window, and is then long exactly while the fast average is above the slow one and short exactly while it is below |
| Baselines.MomentumDirection | backend/application/research/baseline_evaluation.py:176-188 | Momentum is long exactly after a rise over the lookback and short exactly after a fall |
| Baselines.TargetsArePrefixStable | backend/application/research/baseline_evaluation.py:141-188 | The targets of a prefix are the prefix of the targets, for every strategy |
| Baselines.NoLookAhead | backend/application/research/baseline_evaluation.py:268-273 | For every baseline strategy, price series that agree on n bars give equal targets and equal equity on them, except for the closing cost at a series' own end |
| Baselines.CrossoverComparesRecentWithOlder | backend/application/research/baseline_evaluation.py:141-155 | Comparing the overlapping averages is comparing the recent prices with the disjoint older ones |
| Baselines.MaxDrawdownPct | backend/application/research/baseline_evaluation.py:408-418 | The result is attained by some bar's fall from its running peak and exceeded by none |
| Baselines.DrawdownIsWorstFall | backend/application/research/baseline_evaluation.py:408-418 | On a curve that is never negative, the fall from the running peak is the worst fall from any earlier bar, and at most one |
| Baselines.Evaluate | backend/application/research/baseline_evaluation.py:207-256 | Inputs are refused in the fixed order of checks, the simulation's failure is passed on, and otherwise the report describes the simulation |
| Baselines.Score | backend/application/research/baseline_evaluation.py:226-256 | Every reported metric follows from the finished simulation: returns, reference, drawdown, win rate, costs and exposure in percent |
| Baselines.TotalReturnIsFinal | backend/application/research/baseline_evaluation.py:207-256 | The reported total return is the final equity over the start, less one, in percent |
| Baselines.ExposureAboveHundred | backend/application/research/baseline_evaluation.py:207-256 | The reported exposure passes 100 percent exactly when no bar is flat |
| Regimes.Labels | backend/application/research/regime_evaluation.py:88-108 | Prices are validated from two bars on, and every bar gets the label of its trailing window, or warm-up, or the flat-series label |
| Regimes.LabelBar | backend/application/research/regime_evaluation.py:98-107 | Comparing the root of the trailing variance with the threshold gives the label defined without a root |
| Regimes.ReturnsReadBack | backend/application/research/regime_evaluation.py:98-107 | From the window judged at a bar the prices before it are rebuilt, newest return last |
| Regimes.FlatWindowIsCalm | backend/application/research/regime_evaluation.py:93-95 | A flat stretch is low-volatility without the guard |
| Regimes.CausalExactly | backend/application/research/regime_evaluation.py:88-108 | Two series with a common prefix get the same labels on it exactly when only warm-up bars are involved, or both whole series are flat, or neither is |
| Regimes.LabelLooksAhead | backend/application/research/regime_evaluation.py:93-95 | Two accepted series with the same three first prices are labelled differently at the third |
| Regimes.BarDeltas | backend/application/research/regime_evaluation.py:181-206 | Each bar's delta is the change of equity over the start, the market move, and whether a position was targeted |
| Regimes.DeltasReadBack | backend/application/research/regime_evaluation.py:181-206 | From the deltas the price series and the change of every bar's equity are recovered: the market move is that of the bar itself |
| Regimes.DeltasTelescope | backend/application/research/regime_evaluation.py:181-206 | The deltas up to a bar add up to the return of the run up to that bar |
| Regimes.ExposureCounted | backend/application/research/regime_evaluation.py:181-206 | The exposed deltas number what the simulation counts as exposure |
| Regimes.GroupByRegime | backend/application/research/regime_evaluation.py:208-216 | Every label owns exactly its bars, in bar order |
| Regimes.Bucket | backend/application/research/regime_evaluation.py:208-243 | There is one block per label, in ascending order, with the bars, return, market return and exposure of its own bars |
| RegimeBlocks.BlockInBars | backend/application/research/regime_evaluation.py:208-243 | Counted bar by bar, a block holds the bars of its label, those with a position targeted, the share that left the account higher, and the sum of the market's moves |
| RegimeBlocks.WarmupLast | backend/application/research/regime_evaluation.py:213-214 | Labels ascend, each once, and the warm-up label comes after all others |
| Ordering.FirstDifferenceDecides | backend/application/research/regime_evaluation.py:213-214 | Two labels compare by their first differing character |
| Ordering.PrefixFirst | backend/application/research/regime_evaluation.py:213-214 | A label comes before its extensions |
| Regimes.BlocksReconcile | backend/application/research/regime_evaluation.py:208-243 | Over the blocks, bars, returns and exposure add up to those of all bars |
| Regimes.EvaluateByRegime | backend/application/research/regime_evaluation.py:147-179 | The blocks are exactly those of the run's per-bar deltas, one for each label that occurs and in reporting order; their returns add up to the reported net return, their exposures to the run's exposure count, and their bars to all bars |
| Calibration.BinIndex | backend/application/research/signal_calibration.py:87-94 | The bin's interval contains the confidence, with 1.0 in the last bin |
| Calibration.FillBins | backend/application/research/signal_calibration.py:82-94 | Every sample is in the bin of its confidence, in order, and in no other |
| Calibration.Validate | backend/application/research/signal_calibration.py:38-73 | The first check that fails decides the error, parameters before pairs and confidences before outcomes |
| Calibration.CollectBins | backend/application/research/signal_calibration.py:96-115 | The exercised bins are listed by increasing index with the count and the two means of their samples |
| Calibration.ScoreBounds | backend/application/research/signal_calibration.py:117-122 | For every stream and bin count: distance of the mean confidence from the hit rate <= ECE <= 1, and ECE squared <= Brier <= 1 |
| Calibration.PerfectlyCalibrated | backend/application/research/signal_calibration.py:117-122 | The error vanishes exactly when every exercised bin keeps its promise |
| Calibration.EvaluateCalibration | backend/application/research/signal_calibration.py:52-148 | Inputs are refused in order, too few samples are insufficient, and otherwise the bins partition the samples, the scores obey the bounds, and the status follows the tolerance |
| Lineage.WalkAncestors | backend/application/research/experiment_lineage_service.py:70-93 | The walk lists exactly the registered ancestors, nearest first and once each; a cycle is reported exactly when the chain never ends, and the reported ids then contain the whole loop and equal it exactly when the first parent is on it |
| Lineage.ChildrenIndex | backend/application/research/experiment_lineage_service.py:95-101 | Every parent id maps to its children in listing order |
| Lineage.WalkDescendants | backend/application/research/experiment_lineage_service.py:103-126 | The walk lists exactly the records that reach the root, once each, by non-decreasing distance, siblings in listing order, on every finite graph including cycles |
| Lineage.TakeGeneration | backend/application/research/experiment_lineage_service.py:112-124 | A generation is the unvisited part of the frontier without repetition |
| Lineage.LineageOf | backend/application/research/experiment_lineage_service.py:31-57 | Unknown ids are refused; otherwise both walks, and the dangling flag as a broken chain with no ancestor |
| Lineage.WalksAreDual | backend/application/research/experiment_lineage_service.py:59-68 | x is among the ancestors of y exactly when y is among the descendants of x |
| Lineage.DanglingIsDirect | backend/application/research/experiment_lineage_service.py:47-48 | The dangling test on the parent is a broken chain without any ancestor |
| Lineage.LoopPartReturns | backend/application/research/experiment_lineage_service.py:80-91 | Ids walked from the repeated one on lie on the loop |
| Lineage.TailNeverReturns | backend/application/research/experiment_lineage_service.py:80-91 | Ids walked before the repeated one do not |
| Lineage.CycleIdsOvershoot | backend/application/research/experiment_lineage_service.py:84-86 | A concrete registry whose cycle report names an id off the loop |
| Lineage.BreakHigherUpUnreported | backend/application/research/experiment_lineage_service.py:47-48 | A concrete registry with a broken chain that is not flagged |
| Correlations.EstimatePair | backend/application/research/portfolio_correlations.py:106-149 | The state is decided by length and constancy, and the value is the Pearson correlation, within [-1, 1] |
| Correlations.Moments | backend/application/research/portfolio_correlations.py:116-126 | One pass accumulates the covariance and both variances about the means |
| Correlations.QuotientIsCorrelation | backend/application/research/portfolio_correlations.py:127-142 | By Cauchy-Schwarz the quotient lies in [-1, 1], so the clamp never acts |
| Correlations.CorrelationSymmetric | backend/application/research/portfolio_correlations.py:62-71 | The correlation of a pair does not depend on its order |
| Correlations.CorrelationUnique | backend/application/research/portfolio_correlations.py:106-149 | At most one number is the correlation of two series |
| Correlations.ValidateSeries | backend/application/research/portfolio_correlations.py:79-103 | Series are accepted exactly when all have one length of at least two, and the error is that of the first series |
| Ordering.SortKeys | backend/application/research/portfolio_correlations.py:55 | The keys come out in ascending order, each once |
| Ordering.AscendingUnique | backend/application/research/portfolio_correlations.py:55 | There is only one ascending order of a set of ids |
| Correlations.FillMatrix | backend/application/research/portfolio_correlations.py:58-71 | The nested loops fill a symmetric matrix with unit diagonal with the pairwise correlations, and list the pairs row by row, each with the state, value and count of its two series |
| Correlations.PairNamesExactly | backend/application/research/portfolio_correlations.py:60-67 | The pairs listed row by row are every two ids, the earlier one first, and nothing else |
| Correlations.CorrelationsFromReturns | backend/application/research/portfolio_correlations.py:37-76 | Aligned series give the matrix of their correlations in ascending id order and exactly the pairs above its diagonal with their estimates; anything else is an error |
| QuadraticForms.MeasuredVarianceNonnegative | backend/application/research/portfolio_correlations.py:37-76 | A measured matrix gives no negative variance for any selection of series, any weights and any number of series, constant series included |
| QuadraticForms.GramNonnegative | backend/application/research/strategy_allocator.py:177-186 | A matrix of inner products weighs every vector non-negatively |
| QuadraticForms.DirectionsMeasure | backend/application/research/portfolio_correlations.py:106-149 | Every measured correlation is the inner product of two unit directions |
| QuadraticForms.QuadOfCovariance | backend/application/research/strategy_allocator.py:163-174 | The variance under the covariance matrix is the correlations weighed with the volatility-scaled weights |
| QuadraticForms.QuadScale | backend/application/research/strategy_allocator.py:189-201 | Scaling the weights scales the variance by the square |
| Allocator.CovarianceMatrix | backend/application/research/strategy_allocator.py:163-174 | Every entry is the product of both volatilities and the correlation |
| Allocator.Validate | backend/application/research/strategy_allocator.py:125-156 | The checks accept exactly a positive budget, at least one strategy, unique names, positive volatilities, fits in [0, 1] and a symmetric matrix of the right size with unit diagonal and entries in [-1, 1] |
| Allocator.RiskParityWeights | backend/application/research/strategy_allocator.py:177-186 | Fit over volatility, normalised to unit variance when its variance is positive, and equal weights otherwise |
| Allocator.AllocateAndBound | backend/application/research/strategy_allocator.py:189-212 | Weights are scaled by the budget and listed heaviest first with ties in place, and the volatility is the root of their variance |
| Allocator.AllocateStrategies | backend/application/research/strategy_allocator.py:65-156 | Inputs are accepted exactly as validated, a closed gate allocates nothing, and otherwise the eligible strategies get weights whose variance is exactly the squared budget whenever the shape variance is positive, for any number of strategies |
| Allocator.MeasuredShapeVariance | backend/application/research/strategy_allocator.py:177-186 | With measured correlations the shape variance is never negative, so equal weights occur only when it is zero |
| Allocator.MeasuredMatrixAccepted | backend/application/research/strategy_allocator.py:145-156 | A measured matrix always passes validation |
| Allocator.ReportedReturnExactly | backend/application/research/strategy_allocator.py:109-112 | For every allocation, the reported expected return is right whatever the returns are exactly when the shape carries no risk or the strategies are listed by falling fit over volatility |
| Allocator.ReportedReturnMispairs | backend/application/research/strategy_allocator.py:65-112 | Two accepted, fully correlated strategies under a budget of 3: the report says 20 where the allocation earns 10 |
| Ensemble.LinesUpExactly | backend/application/research/ensemble_allocator.py:126-150 | The measured matrix belongs to the profiles as listed, whatever the data, exactly with two strategies or an ascending registry |
| Vpin.VpinTracker.constructor | backend/application/risk/vpin.py:103-109 | A new tracker has recorded nothing |
| Vpin.VpinTracker.Record | backend/application/risk/vpin.py:111-118 | The fields stay what the whole recorded stream amounts to |
| Vpin.VpinTracker.RollBucket | backend/application/risk/vpin.py:120-141 | The loop of proportional takes is one step in closed form: all completed buckets at once, each with the imbalance of the volume at hand, and the rest in unchanged proportion |
| Vpin.RollStep | backend/application/risk/vpin.py:128-141 | One iteration takes a full bucket in proportion, with the imbalance of the volume at hand, and keeps both shares |
| Vpin.PushLastN | backend/application/risk/vpin.py:105-106 | A bounded queue holds the last entries of everything ever pushed |
| Vpin.AbsorbOpen | backend/application/risk/vpin.py:120-141 | One flow closes exactly floor((buy + sell) / volume) buckets, loses no volume, and leaves both sides non-negative and the bucket not full |
| Vpin.RunConserves | backend/application/risk/vpin.py:111-141 | All absolute flow is the closed buckets times their volume plus the residual, so the number of buckets depends on total volume alone |
| Vpin.RunInUnit | backend/application/risk/vpin.py:133-135 | Every imbalance ever recorded lies in [0, 1] |
| Vpin.ImbalancesCoverNetFlow | backend/application/risk/vpin.py:120-141 | The net flow of the closed buckets is at most the bucket volume times the summed imbalances |
| Vpin.VpinTracker.State | backend/application/risk/vpin.py:143-173 | The state is determined by the recorded stream: recent mean, threshold, ratio and toxicity |
| Vpin.ThresholdWindow | backend/application/risk/vpin.py:143-173 | The threshold is the mean of the latest imbalances, as many as the given reference size or else the larger of sixteen and three histories, or the floor where that is higher or nothing is recorded |
| Vpin.StateSound | backend/application/risk/vpin.py:143-173 | The estimate lies in [0, 1], buckets count the total volume up to the history size, and toxic means a ratio of at least one, or no ratio because floor and baseline are zero |
| LeastSquares.SlopeIsLeastSquares | backend/application/execution/market_impact.py:143-149 | A number is the fitted slope exactly when it minimises the scatter about the regression line |
| LeastSquares.BestForLawExactly | backend/application/execution/market_impact.py:83-86 | That slope is the best coefficient of the law without intercept exactly when the line passes through the origin |
| LeastSquares.QualityDecomposes | backend/application/execution/market_impact.py:151-161 | The reported quality is the explained scatter less the cost of the missing intercept, clamped at zero |
| LeastSquares.PerfectFitExactly | backend/application/execution/market_impact.py:151-161 | The quality lies in [0, 1] and is one exactly for a flat response or an exact law |
| Impact.SquareRootImpactCalibrator.Observe | backend/application/execution/market_impact.py:116-118 | One fill is appended to its symbol and no other changes |
| Impact.SquareRootImpactCalibrator.Calibrate | backend/application/execution/market_impact.py:124-163 | There is no calibration exactly with too few fills or a constant explanatory term, and otherwise the regression slope with its quality |
| Impact.Quality | backend/application/execution/market_impact.py:151-161 | The means of squares give the quality defined on their sums, one for a flat response |
| Impact.SquareRootImpactCalibrator.EstimateImpact | backend/application/execution/market_impact.py:165-185 | Non-positive sizes are refused, and the estimate is the calibrated cost, never negative |
| Impact.CalibrationUnique | backend/application/execution/market_impact.py:124-163 | The fills determine the calibration |
| Impact.BookFollowsLaw | backend/application/research/synthetic_book.py:76-89 | A noise-free fill slips by the half-spread plus the book's law |
| Impact.TermsVaryExactly | backend/application/research/synthetic_book.py:76-89 | Fills of one book can be calibrated from exactly when two sizes differ and the book has volatility |
| Impact.CalibrationRecoversLaw | backend/application/execution/market_impact.py:137-163 | Noise-free fills recover the book's coefficient with quality one |
| Impact.TwoFillsRecover | backend/application/execution/market_impact.py:137-163 | Fed with two fills of a book, the calibrator reports the book's own coefficient with a perfect score exactly when the fills differ in size and the book moves |
| Impact.BestCoefficientExactly | backend/application/execution/market_impact.py:83-86 | The coefficient is the best one for the documented law exactly when the mean excess slippage is to the mean term as their joint scatter is to the scatter of the terms |
| Impact.FitMissesLaw | backend/application/execution/market_impact.py:124-163 | Two fills for which the calibrator reports coefficient 1, with ten times the squared error of coefficient 1.6 |
| Impact.FlatResponseScoresPerfect | backend/application/execution/market_impact.py:151-153 | Fills that all slip alike give coefficient zero with quality one |
| Capacity.Resolve | backend/application/research/capacity_model.py:183-193 | An explicit calibration wins over the calibrator's current one |
| Capacity.EstimateCapacity | backend/application/research/capacity_model.py:84-152 | The participation is the largest inside the window whose impact stays within the allowed share of the edge, reaching it when uncapped; an edge whose share does not exceed the half-spread is refused; a positive coefficient at volatility zero fails |
| Capacity.CostsTheShare | backend/application/research/capacity_model.py:109-152 | An edge is executable exactly when it is positive and its allowed share exceeds the half-spread; the impact then keeps within that share, and is the share itself below the window |
| Capacity.DivisionByZeroOccurs | backend/application/research/capacity_model.py:130-132 | A market without volatility under a positive coefficient makes the estimate fail |
| Capacity.SolvedIsLargest | backend/application/research/capacity_model.py:130-132 | The squared ratio, capped, is that largest participation |
| Capacity.RefusalLosesExactly | backend/application/research/capacity_model.py:110-124 | A refusal hides a size within the budget exactly when the full window costs no more than the budget |
| Capacity.RefusalLosesSize | backend/application/research/capacity_model.py:110-124 | A refused edge with a negative coefficient whose full window costs half the budget |
| Capacity.RefusalAtBoundary | backend/application/research/capacity_model.py:110-124 | A refused edge with coefficient zero for which every size in the window costs exactly the budget |
| Capacity.CapacityIsTrueOfBook | backend/application/research/capacity_model.py:109-152 | From noise-free fills to capacity: every order up to the estimate slips at most the allowed share of the edge in the book, and every larger one in the window slips more |
| Windows.InMemoryWindowManager.constructor | backend/application/window_manager_impl.py:33-36 | A new manager has no events |
| Windows.InMemoryWindowManager.Add | backend/application/window_manager_impl.py:38-58 | Without a symbol nothing changes; otherwise the stored window stays the whole history's window |
| Windows.WindowStep | backend/application/window_manager_impl.py:50-58 | Sorting and pruning the stored window plus one event is filtering the sorted full history, for every duration |
| Windows.Advance | backend/application/window_manager_impl.py:50-58 | Appending, sorting and pruning turns the window of a history into the window of the longer history |
| Windows.Prune | backend/application/window_manager_impl.py:55-58 | Popping on the left of a sorted window keeps exactly the events from the cutoff on |
| Windows.InMemoryWindowManager.GetSnapshot | backend/application/window_manager_impl.py:60-69 | Unknown symbols and empty windows are refused, and a snapshot spans the window up to the newest event |
| Windows.InMemoryWindowManager.Clear | backend/application/window_manager_impl.py:71-74 | Clearing forgets one symbol's history and nothing else |
| Windows.WindowContents | backend/application/window_manager_impl.py:24-31 | A window holds exactly the events within the duration of the newest, in time order, ties in order of arrival |
| Windows.ArrivalOrderForgotten | backend/application/window_manager_impl.py:52-53 | Histories that interleave differently but keep the order within each timestamp give the same window |
| StableSorting.SortSorts | backend/application/window_manager_impl.py:53 | Sorting orders the elements and keeps each as often as it occurs |
| StableSorting.SortIsStable | backend/application/window_manager_impl.py:53 | Elements the order does not separate keep their relative order |
| PaperAutonomy.RunCampaign | backend/application/research/paper_autonomy.py:73-191 | The campaign runs exactly up to the first day whose prefix breaches a limit, or the whole window; drawdown, Sharpe ratio, evidence, verdict and day records are those of these days |
| PaperAutonomy.TallyBreach | backend/application/research/promotion_engine.py:115-161 | The running totals breach exactly when the days so far do: failed orders, some fall from a peak, or the shortfall |
| CampaignLimits.BreachedExactly | backend/application/research/promotion_engine.py:115-161 | Days breach the limits exactly when failed orders pass their share, some day lies too far below an earlier high, or the summed shortfall passes the allowed basis points |
| CampaignLimits.GoodDaysStay | backend/application/research/paper_autonomy.py:193-215 | Days that meet their expectation without failed orders or a fall beyond the limit never breach limits that are not negative |
| CampaignLimits.RetiredForShortfall | backend/application/research/paper_autonomy.py:193-215 | With the other limits kept, a campaign is retired exactly when summed expectation less summed return, in basis points, passes its limit |
| CampaignLimits.ShortfallRetires | backend/application/research/paper_autonomy.py:73-191 | Run for one day: one percent where three were expected retires the campaign, three where one was expected does not |
| PaperAutonomy.SharpeSign | backend/application/research/paper_autonomy.py:251-264 | The ratio is zero for equal returns and otherwise has the sign of the mean |
| PaperAutonomy.SharpeExactly | backend/application/research/paper_autonomy.py:251-264 | The squared ratio is that of mean to sample deviation, squared, times 252 |
| CampaignLimits.DayGrows | backend/application/research/paper_autonomy.py:110-113 | The account starts at one and each day adds its return |
| PaperAutonomy.GatesAreCumulative | backend/application/research/promotion_engine.py:85-113 | Each gate is the one before and its own demand, and a demotion closes every gate above paper under every configuration |
| CampaignService.Campaign.FinalRecordIsComplete | backend/application/research/paper_campaign_service.py:138-225 | In every interleaving of any number of runs and cancels, a completed or retired record has stored exactly days 1 to days_run, once each, ending at the first breach or the full target |
| CampaignService.Campaign.CancelIsHonoured | backend/application/research/paper_campaign_service.py:118-134 | A cancelled record never changes again, no stored day is lost, and at most one more day is stored |
| CampaignService.Campaign.CancelStops | backend/application/research/paper_campaign_service.py:118-134 | From every reachable open record a cancel leads to a cancelled record, which no continuation finishes and at most one more day joins |
| CampaignService.Campaign.CancelEndsCalls | backend/application/research/paper_campaign_service.py:161-205 | A call that reads or sets a cancelled record ends there and changes nothing, except that a day already begun goes on; a finished record ends every call that enters, starts or sets a status |
| CampaignService.Campaign.FinishedIsFinal | backend/application/interfaces/autonomy_store.py:66-84 | A completed or retired record never changes and its days never grow |
| CampaignService.Campaign.StepKeeps | backend/application/research/paper_campaign_service.py:162-217 | Every step of every call keeps days in order, one owner of all stored days, and verdicts only at the end |
| CampaignService.Campaign.OnlyTheOwnerStores | backend/application/interfaces/autonomy_store.py:89-96 | The call that stores a new day stored all days before it, and no other call stored any |
| CampaignService.Campaign.InterruptedNeverFinishes | backend/application/research/paper_campaign_service.py:172-187 | When the call that stored the days dies before the verdict, no later run finishes the campaign or adds a day |
| CampaignService.Campaign.FinishableExactly | backend/application/research/paper_campaign_service.py:138-225 | From every reachable open record some continuation finishes the campaign exactly when no day is stored yet or the call that stored the days is still going |
| CampaignTraces.DeathStrandsCampaign | backend/application/research/paper_campaign_service.py:172-217 | A trace in which the process dies between the last stored day and the verdict: the record stays RUNNING with all days stored, and nothing finishes it |
| SplitStore.UndividedIsAtomic | backend/infrastructure/sqlite/autonomy_repository.py:104-152 | A status judged and written with nothing in between is the one step of the interface |
| SplitStore.UndividedCancelIsAtomic | backend/infrastructure/sqlite/autonomy_repository.py:104-152 | A cancel judged and written with nothing in between is the one step of the interface |
| SplitStore.FinalRecordIsComplete | backend/infrastructure/sqlite/autonomy_repository.py:104-152 | With judging and writing apart, a completed or retired record still has stored exactly days 1 to days_run of a whole campaign, in every interleaving |
| SplitStore.FinishedDaysStay | backend/infrastructure/sqlite/autonomy_repository.py:104-169 | Whatever is written over a finished record later, its days never change |
| CampaignTraces.CancelIsLost | backend/infrastructure/sqlite/autonomy_repository.py:104-152 | A trace of one run and one cancel in which the record is CANCELLED and then COMPLETED |
| CampaignTraces.CompletionIsLost | backend/infrastructure/sqlite/autonomy_repository.py:104-152 | A trace of one run and one cancel in which the record is COMPLETED and then CANCELLED |
| CampaignTraces.CompletionIsReopened | backend/infrastructure/sqlite/autonomy_repository.py:104-152 | A trace of two runs in which the record is COMPLETED and then RUNNING |
| SplitStore.CancelledKeptExactly | backend/infrastructure/sqlite/autonomy_repository.py:104-152 | A cancelled record survives every continuation exactly when no call has judged a write |
| SplitStore.FinishedKeptExactly | backend/infrastructure/sqlite/autonomy_repository.py:104-152 | A completed or retired record survives every continuation exactly when no cancel and no start has judged a write |
| SplitStore.QuietCancelIsHonoured | backend/application/research/paper_campaign_service.py:118-134 | From a cancelled record with no judged write the record never changes again and at most one more day is stored |
| RiskGate.Proposal.Primary | backend/domain/decision/proposal.py:291-296 | The primary action is the first listed of lowest order, and none exactly for no actions |
| RiskGate.CapsAreLimits | backend/application/risk/circuit_breaker_risk_gate.py:410-480 | A size is below all caps exactly when it keeps every limit |
| RiskGate.Capped | backend/application/risk/circuit_breaker_risk_gate.py:482-498 | The least cap, held within [0, 1], is the largest fitting size, and a smaller one than requested is a reduction |
| RiskGate.Size | backend/application/risk/circuit_breaker_risk_gate.py:391-498 | Exhausted limits reject; otherwise the approved size is the largest up to the request that keeps exposure, position, trade, symbol, portfolio, loss-budget and Kelly limits, and it is a reduction exactly when smaller |
| RiskGate.KellyCap | backend/application/risk/circuit_breaker_risk_gate.py:558-576 | The cap applies exactly with enough trades, edge and a positive fraction, and lies between zero and its configured maximum |
| RiskGate.KellyIsStationary | backend/application/risk/circuit_breaker_risk_gate.py:122-139 | The unclamped fraction is the only zero of the derivative of expected log growth, which is positive below it and negative above |
| RiskGate.KellyPositiveExactly | backend/application/risk/circuit_breaker_risk_gate.py:122-139 | The fraction is positive exactly when the expected return is |
| RiskGate.KellyMagnitude | backend/application/risk/circuit_breaker_risk_gate.py:122-139 | The fraction times the average win is the expected return of a trade, cut off at zero and at a whole win; it is zero on fewer than twenty trades or without wins or losses |
| EdgeEstimates.EdgeAgreesExactly | backend/application/risk/circuit_breaker_risk_gate.py:103-120 | The computed edge is expected return over standard deviation exactly with too few trades, without losses, at expectation zero, or when neither variance is positive |
| EdgeEstimates.ProfitOverstated | backend/application/risk/circuit_breaker_risk_gate.py:103-120 | With losses on record and a profit to expect, the computed edge is above the documented one |
| EdgeEstimates.SlimEdgePasses | backend/application/risk/circuit_breaker_risk_gate.py:558-576 | An estimate whose computed edge passes the default threshold while the documented edge does not |
| RiskGate.CircuitBreakerRiskGate.constructor | backend/application/risk/circuit_breaker_risk_gate.py:160-173 | A new gate has no state, and its calibrator needs at least one fill |
| RiskGate.CircuitBreakerRiskGate.SetReconciliationState | backend/application/risk/circuit_breaker_risk_gate.py:256-266 | A symbol enters or leaves the mismatches, and nothing else changes |
| RiskGate.CircuitBreakerRiskGate.SetMarketStats | backend/application/risk/circuit_breaker_risk_gate.py:197-210 | Invalid stats are refused without a change |
| RiskGate.CircuitBreakerRiskGate.UpdateEdgeEstimate | backend/application/risk/circuit_breaker_risk_gate.py:578-580 | The estimate of one symbol is replaced |
| RiskGate.CircuitBreakerRiskGate.RecordImpactFill | backend/application/risk/circuit_breaker_risk_gate.py:221-246 | A fill reaches the calibrator under the registered stats, and is refused without stats or with invalid values |
| RiskGate.CircuitBreakerRiskGate.RecordToxicityFlow | backend/application/risk/circuit_breaker_risk_gate.py:248-254 | A flow is appended to its symbol's tracker, created on demand, and no other tracker changes |
| RiskGate.CircuitBreakerRiskGate.IsToxic | backend/application/risk/circuit_breaker_risk_gate.py:334-342 | The veto holds exactly with enough closed buckets whose recent imbalance reaches its threshold |
| RiskGate.CircuitBreakerRiskGate.ImpactVeto | backend/application/risk/circuit_breaker_risk_gate.py:500-556 | The veto holds exactly when a calibrated cost exceeds the configured share of the reward |
| RiskGate.CircuitBreakerRiskGate.Evaluate | backend/application/risk/circuit_breaker_risk_gate.py:277-498 | Safety actions are always approved; a risk-increasing one is rejected exactly when a veto, the bracket rule, a breaker or an exhausted limit applies, and otherwise gets the largest size whose loss at the plan's own stop distance keeps the trade, symbol, portfolio and budget limits |
| RiskGate.ToxicHasRatio | backend/application/risk/circuit_breaker_risk_gate.py:334-352 | With the default tracker a toxic book always has a ratio of at least one to report |
| RiskRuns.BudgetsHoldForever | backend/application/risk/circuit_breaker_risk_gate.py:427-452 | Over every run of approved fills and closes, no symbol and not the portfolio ever carries more risk than its budget |
| RiskRuns.OpenIsBookedLessReleased | backend/application/risk/circuit_breaker_risk_gate.py:427-452 | The open risk of a symbol, and that of the portfolio, is what the fills booked less what the closes gave back |
| RiskRuns.ClosingUndoes | backend/application/risk/circuit_breaker_risk_gate.py:427-452 | A permitted fill can be closed for all it risks, which restores the open risk of every symbol |
| RiskRuns.DecisionIsPermitted | backend/application/risk/circuit_breaker_risk_gate.py:277-498 | A decision of the gate on a proposal whose context reports the open risk is rejected exactly when the gate blocks it, and otherwise is an approval and such a fill |
| RiskRuns.LosingStreakNeverTrips | backend/application/risk/circuit_breaker_risk_gate.py:454-475 | Bracketed losses one after another never trip a loss breaker when less than the whole budget is staked |
| RiskRuns.StreakAddsUp | backend/application/risk/circuit_breaker_risk_gate.py:454-475 | Over a streak each of the four loss measures grows by all losses together |
| RiskRuns.ConcurrentLossesTrip | backend/application/risk/circuit_breaker_risk_gate.py:454-475 | With the default limits, two approved positions open at once trip the daily breaker |
| ConcurrentRisk.TradingBounded | backend/application/risk/circuit_breaker_risk_gate.py:427-498 | Over every run of approved openings and bracketed closings the open positions keep the portfolio and exposure limits |
| ConcurrentRisk.SymbolLimitKept | backend/application/risk/circuit_breaker_risk_gate.py:427-438 | Over every run of approved trades and closes, the positions open in one symbol together risk no more than the symbol limit |
| ConcurrentRisk.SymbolsAddUp | backend/application/risk/circuit_breaker_risk_gate.py:427-451 | The risks reported per symbol add up to the portfolio's |
| ConcurrentRisk.StopsTogetherTripExactly | backend/application/risk/circuit_breaker_risk_gate.py:454-475 | Positions opened under one loss context and then all stopped out never trip a breaker exactly when the portfolio limit, or what the exposure limit loses at the farthest stop, is below the least remaining loss budget, or a cap per trade is zero |
| ConcurrentRisk.OneAtATimeTripsExactly | backend/application/risk/circuit_breaker_risk_gate.py:454-475 | With one position open at a time, bracketed losses never trip a breaker exactly when less than the whole budget may be staked or nothing can be lost |
| ConcurrentRisk.AnyRunTripsExactly | backend/application/risk/circuit_breaker_risk_gate.py:382-475 | Over all runs of approved trades and bracketed losses, no breaker trips exactly when some limit is zero, so that nothing can be lost |
| LossOverrun.OverrunBounded | backend/application/risk/circuit_breaker_risk_gate.py:382-475 | In every run, what was lost and what is still at risk stay within the least remaining budget at the start plus what can be open at one time |
| LossOverrun.OverrunExactly | backend/application/risk/circuit_breaker_risk_gate.py:382-475 | Over all runs the realised losses stay within a limit exactly when it covers that sum, or nothing can be lost: no smaller bound holds |
| PriceStops.BoundedExactly | backend/application/risk/circuit_breaker_risk_gate.py:391-498 | Whatever the context, every size approved for a stop given as a price loses at most the trade limit at its real distance exactly when the largest size of an idle account does, under all caps of the gate |
| PriceStops.BoundedHereExactly | backend/application/risk/circuit_breaker_risk_gate.py:391-498 | In one context that bound holds for all approved sizes exactly when it holds for the largest size the caps leave room for |
| PriceStops.DistanceDecides | backend/application/risk/circuit_breaker_risk_gate.py:391-411 | Plans with the same stops get the same decision whatever their risk figure, when the stop has a distance |
| PriceStops.FarStopSize | backend/application/risk/circuit_breaker_risk_gate.py:391-498 | Under the default limits the whole equity with a stop a tenth away is reduced to a tenth, although the plan's risk figure is a hundredth |
| PriceStops.OverrunsTradeLimit | backend/application/risk/circuit_breaker_risk_gate.py:277-498 | Under the default limits the gate lets a fifth of the equity through for a stop fifteen percent away, which costs three percent where a trade may risk two |
| PriceStops.DefaultsBoundFivePercent | backend/application/risk/circuit_breaker_risk_gate.py:391-498 | Under the default limits and charge, a stop five percent away stays within the trade limit |
| Execution.HeldSide | backend/application/execution/execution_core.py:302-336 | The side is that of the first position in the symbol with a known side |
| Execution.SideOf | backend/application/execution/execution_core.py:262-277 | Entries name their side, additions follow the held side and exits oppose it, with buying and selling as fallbacks |
| Execution.OrderMovesPosition | backend/application/execution/execution_core.py:302-336 | With a side held, an exit or a scale-out moves the signed position of the symbol towards zero and a scale-in away from it |
| Execution.BuildOrderRequest | backend/application/execution/execution_core.py:238-300 | There is no order exactly without an actionable primary action, a positive mark or positive equity; otherwise side and quantity follow the action |
| Execution.ApplyRiskReduction | backend/application/execution/execution_core.py:338-384 | Only the quantity changes and never grows; the order is worth at most the approved share, or unchanged when the approval cannot be applied |
| Execution.ExecutionCore.ProcessProposal | backend/application/execution/execution_core.py:138-195 | Each refusal occurs exactly under its condition in the order of checks, and a submitted order is the built one cut to the gate's reduction |
| Execution.SubmittedWithinApprovalExactly | backend/application/execution/execution_core.py:157-174 | A submitted risk-increasing order is worth at most the approved share of equity exactly when no applicable limit is zero |
| Execution.FullOrderAtZeroLimit | backend/application/execution/execution_core.py:157-174 | Under an accepted configuration without room for any position the gate reduces an entry to zero, and the order for its full size is submitted |
| Execution.ZeroExactly | backend/application/risk/circuit_breaker_risk_gate.py:482-498 | The approved size is zero exactly at a zero limit |
| Passports.VerdictExactly | backend/domain/research/passport.py:241-312 | Promotion needs every gate; the verdict departs from the documented order exactly for failing folds without a deflated Sharpe ratio |
| Passports.EvidenceEngine.IssuePassport | backend/application/research/evidence_engine.py:57-120 | An id is issued once, as a candidate or dead on arrival, with an empty ledger |
| Passports.EvidenceEngine.Transition | backend/application/research/evidence_engine.py:122-156 | Only a living passport moves; one event is appended and only the status changes |
| Passports.EvidenceEngine.RerecordEvidence | backend/application/research/evidence_engine.py:158-210 | A living passport gets new evidence and verdict, and dies exactly on rejection |
| Passports.EvidenceEngine.RecordPaperCampaign | backend/application/research/evidence_engine.py:212-250 | A living passport's paper section is replaced and its status kept |
| Passports.EvidenceEngine.RecordRollback | backend/application/research/evidence_engine.py:252-292 | Every passport, dead ones included, accepts a rollback record, which replaces the whole live section |
| Passports.EvidenceEngine.RecordCanary | backend/application/research/evidence_engine.py:294-332 | A living passport's whole live section is replaced and its status kept |
| Passports.EvidenceEngine.RecordCalibration | backend/application/research/evidence_engine.py:334-368 | A living passport's whole live section is replaced and its status kept |
| Passports.EvidenceEngine.Write | backend/application/research/evidence_engine.py:139-156 | Appending an allowed event keeps the chain of statuses, the snapshot's agreement with it, and the finality of death for every passport |
| Passports.RunKeeps | backend/application/research/evidence_engine.py:57-402 | Over every run of engine calls, each ledger stays a chain of allowed events that its snapshot agrees with, and no recorded event is lost |
| Passports.RetiredForever | backend/application/research/evidence_engine.py:388-402 | Over every run a retired passport stays retired, and all that is recorded on it later are rollback records |
| Passports.DiesExactly | backend/application/research/evidence_engine.py:122-210 | A living passport is dead after a run exactly when some call of it moved the passport to RETIRED or recorded evidence that is rejected |
| Passports.EvidenceEngine.PerformAll | backend/application/research/evidence_engine.py:57-368 | Performing a list of calls leaves the store where that run leads, with no ledger shortened and the dead still dead |
| DeathSystem.Evaluate | backend/application/research/death_system.py:58-135 | The verdict is the harshest of what the trigger and the recorded campaigns call for |
| DeathSystem.EdgeCandidates | backend/application/research/death_system.py:97-109 | A fired trigger degrades to the named environment, or retires when none is named |
| DeathSystem.CampaignCandidates | backend/application/research/death_system.py:111-121 | A retired campaign demotes two rungs, retires at the bottom, and names the same rung just above it |
| DeathSystem.Harshest | backend/domain/research/death_system.py:55-68 | The decision is the first candidate whose action no other exceeds in severity, and to stay without candidates |
| DeathSystem.Apply | backend/application/research/death_system.py:137-168 | Staying records nothing; any other verdict is one transition and one rollback record, and is refused for unknown or dead passports |
| DeathSystem.RecordNamesTheRung | backend/application/research/death_system.py:173-212 | A verdict moves the passport to the rung it names, or to death when it retires or names none, and the rollback record names that same rung |
| DeathSystem.RunRounds | backend/application/research/death_system.py:58-168 | Evaluating and applying once per firing flag leaves the snapshot where the rounds lead, extends the record, and changes nothing else |
| DeathSystem.NeverUp | backend/application/research/death_system.py:84-135 | No round moves a passport up, and a dead one does not change |
| DeathSystem.DecayDescends | backend/application/research/edge_monitor.py:186-238 | Decay alone descends exactly one rung per firing in any sequence of rounds, and kills after as many firings as there were rungs, at most five |
| DeathSystem.PaperCampaignRounds | backend/application/research/death_system.py:111-121 | A retired paper campaign takes two rungs per round, or holds the second rung forever |
| DeathSystem.PaperCampaignKillsExactly | backend/application/research/death_system.py:111-121 | It kills exactly the passports whose path avoids the second rung, within three rounds |
| DeathSystem.CampaignSoftensExactly | backend/domain/research/death_system.py:19-23 | Adding a retired campaign to a fired trigger softens the outcome exactly on the second rung |
| DeathSystem.CanaryCampaignCountsOnce | backend/application/research/death_system.py:213-230 | A retired canary campaign demotes once and is then erased |
| Scaling.Run | backend/application/research/gradual_scaling.py:81-192 | The program climbs through clean periods with the closed-form exposure, and ends at the first breach, judged first, the first period at the ceiling, or the bound |
| Scaling.Climb | backend/application/research/gradual_scaling.py:156-183 | One clean period below the ceiling is one step of the closed form |
| Scaling.Streak | backend/application/research/gradual_scaling.py:136-160 | The streak since the last step is due exactly every hold-th clean period |
| Scaling.BreachIsALimitBroken | backend/application/research/promotion_engine.py:115-161 | A period ends the ramp exactly when its failed orders, its drawdown or its underperformance passes the limit of its own |
| Scaling.CeilingPeriodExactly | backend/application/research/gradual_scaling.py:137-154 | The ceiling is found exactly from period hold * ceil((max - floor) / step) + 1 on, never without a positive step, and at once from a floor at or above it |
| Scaling.NeverAboveCeilingExactly | backend/application/research/gradual_scaling.py:157-159 | No tier or result exceeds the ceiling under any monitor exactly when the floor does not |
| Scaling.EndExactly | backend/application/research/gradual_scaling.py:108-154 | Which end occurs is decided by the first breach and the first period at the ceiling |

## Left out

- Rounding to six digits and floating-point error: every result is the unrounded exact value.
- Square roots and the volatility, Sharpe and per-bar statistics of the backtest report that need them: the square root is a parameter, and those report fields are not part of the model.
- Non-finite inputs and the checks against them; every number here is a real.
- Reason strings, log lines, dictionaries for reports, timestamps and identifiers that only label results.
- Baselines.Evaluate: the volatility and Sharpe fields of the report are not part of the model.
- Baselines.Score: the volatility and Sharpe fields of the report are not part of the model.
- Regimes.Bucket: the volatility and Sharpe fields of a block are not part of the model.
- `compare_strategies`, the protocol classes and the remaining allocation result fields: they only wrap what is modelled.
- The order of `cycle_ids`, which the program sorts, and the sorted presentation of other sets.
- Capacity.EstimateCapacity: the impact curve is not modelled, because its log-spaced points need a real exponent.
- Allocator.AllocateStrategies: all validation errors are one outcome, because the program distinguishes them only by message.
- Impact.BookFollowsLaw: the synthetic book's random noise is not modelled; its fills are the noise-free ones.
- RiskGate.CircuitBreakerRiskGate.constructor: the program range-checks only settings of type float, so that an integer outside [0, 1] is accepted; the settings here are reals, all in range.
- RiskGate.CircuitBreakerRiskGate.Evaluate: the clock, the reason texts and the runtime replacement of the configuration are not modelled.
- Execution.ExecutionCore.ProcessProposal: the supervisor and the prop-rule engine are inputs, and the gateways, slippage warnings and fill feedback after submission are not modelled.
- RiskRuns.LosingStreakNeverTrips: losses are shares of the same equity; the change of equity itself by a loss is not modelled.
- ConcurrentRisk.AnyRunTripsExactly: the context of every proposal reports the open positions exactly, losses are shares of the same equity, no stop is farther than a given reach, and there are as many symbols as needed.
- LossOverrun.OverrunExactly: under the same assumptions as the runs above; a close that costs more than its bracket, by a gap or slippage, is not modelled.
- CampaignService.Campaign.FinalRecordIsComplete: the store's operations are atomic steps as its interface promises, and the day function returns the outcome of the day it was asked for.
- CampaignService.Campaign.FinishableExactly: the continuation may take days of any result; a day function that never returns is not modelled.
- SplitStore.FinalRecordIsComplete: of the SQLite repository the separate read and write of the status are modelled; each of its other accesses is one step.
- CampaignService.Campaign.OnlyTheOwnerStores: a stored day is keyed by campaign and day, as the unique key of the SQLite table is; the candidate id, which the interface names too, is not part of the key.
- Passports.EvidenceEngine.Write: appending the event and replacing the snapshot are one step; a failure between the two store calls is not modelled.
- PaperAutonomy.RunCampaign: breach reasons and their order are not modelled, only whether a limit is breached.
- Windows.InMemoryWindowManager.Add: the lock is not modelled; calls are one after another.
- The drift detector behind the edge monitor, purged cross-validation and the overfitting statistics: their results are inputs.
- Network fetchers, pollers, the web application, the command line, language-model reasoners and third-party optimisers.
