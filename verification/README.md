# A model, with proofs, of the trading research and live-trading core

This project models the parts of the trading repository whose promises no finite set of examples can
settle, and proves those promises for every input.

- **Capital-gating arithmetic.** The Sharpe, skewness and kurtosis estimators, the Deflated Sharpe
  Ratio with its effective-K and variance sweeps, the cost pad, profit factor and drawdown, the tier
  cascade, the retrospective that combines them, and the per-regime screen (`Moments.dfy`,
  `DeflatedSharpe.dfy`, `StrictDeflation.dfy`, `RationalReturns.dfy`, `SharpeOrder.dfy`,
  `ReturnMetrics.dfy`, `CostModel.dfy`, `Classifier.dfy`, `EffectiveK.dfy`, `Retrospective.dfy`,
  `RetrospectiveReport.dfy`, `RegimeTagging.dfy`, `RegimeCoverage.dfy`).
- **Liquidation collector and store.** The collector is a class driven by an arbitrary script of
  frames, silences, disconnects, stop requests and cancellation; the store is an append-only map from
  trade date to fragments (`Liquidations.dfy`, `LiquidationReads.dfy`,
  `LiquidationCollection.dfy`).
- **Live tiers.** A tier's bookkeeping and its save and load (`LiveState.dfy`), the poll as a function
  of arbitrary bars, signals, fills, kill-switch reads and paper verdicts with theorems over all runs
  (`LiveTrading.dfy`), what a poll does to each tier (`LivePolls.dfy`), what its risk guards block
  (`LiveGuards.dfy`), which state a restart finds when writes and reads fail (`LivePersistence.dfy`), and
  the loop that updates the tiers in place, proved to be that function (`LiveTraderLoop.dfy`).
- **Point-in-time features.** The store and its knowability gate, the five channels and their own
  accessors, and the two leakage audits (`Series.dfy`, `FeatureStore.dfy`, `Channels.dfy`, `Audit.dfy`).
- **Rank panel, funding history, biographies** (`XsRank.dfy`, `FundingRates.dfy`, `Biography.dfy`).

Money, prices and returns are `real`; instants are integer milliseconds. The square root, the normal
distribution function and its inverse are fields of a `Numerics` value; theorems that need them assume
`Ideal()`: the root squares back, the distribution function is strictly increasing with values in
(0, 1) and 1/2 at 0, and the quantile inverts it. No other assumption stands behind a theorem than
what its own `requires` says. Where the source changes things step by step the model is a method or a
class, proved equal to a function about which the theorems are stated. `Sorting.dfy`,
`RealArithmetic.dfy` and `Wrappers.dfy` hold shared tools. Inductions are written out: automatic induction
is switched off wherever the verifier would apply it.

Where the code and what is written about it part ways, the model follows the code:

- The variance guard's documentation says that its term cannot go negative on real data, which is so
  (`DeflatedSharpe.VarianceTermBound`). The code also raises when the term is zero: over the ideal reals
  that is reachable (`GuardFiresExactly`, `GuardReachable`), on fractions it is not
  (`RationalReturns.GuardSilentOnFractions`).
- Padding costs is meant to make the conservative case the worse one. It can raise the Sharpe ratio
  (`Retrospective.PaddedSharpeIff` and `PadsRaiseReportedIff` say exactly when), can lower the drawdown
  of a series that is wiped out (`ReturnMetrics.DrawdownMonotoneExactly` says which), and even an equal
  pad can lower the p-value (`Retrospective.EqualPadsSoftenIff`, `SharpeOrder.UniformPadCanSoften`).
- `parse_force_order` promises to return None for any malformed message, but some raise out of the
  session (`Liquidations.RaisesExactly` says which), an infinite trade time among them
  (`InfiniteTradeTimeRaises`).
- The collector promises that no buffered event is lost, but a batch with one trade time that has no
  calendar date is lost whole (`LiquidationCollection.NothingLostIff`, and `NeighbourLossExample`), and
  it can end `run`: `NeverCrashesIff` says exactly when it cannot.
- `read_window` raises for a window within a day or two of either end of the calendar.
- An exit is meant to be blocked by the kill switch alone; a database error whose message contains the
  words "kill_switch" blocks it too, and nothing else does (`LiveGuards.StopExitBlockedIff`).
- The rank and ETF accessors enforce 0 and 1 day where their specs declare 1 hour and 2 days
  (`Channels.RankAndFlowAccessorsCanLead`).
- The store never falls back to the previous closed bar, so a gap-free hourly series is refused at
  every instant inside its coverage (`Channels.GapFreeHourlyAlwaysRejected`).
- The loss halt lasts as long as the process (`LiveTrading.HaltIsAbsorbing`). A restart adds up rounded
  records: it keeps a given halt exactly as `LiveGuards.HaltSurvivesIff` says, and every halt with the
  same total and number of trades exactly as `HaltSurvivesAllTradesIff` says.
- State is stored so that restarts make no ghost positions, but a stale row is preferred to a newer
  backup file: `LivePersistence.RestartFindsLastIff` says exactly when the last state is found, and
  `ClosedPositionReturns` shows a position that comes back.

## Model

| member | source | states |
|---|---|---|
| `Moments.PearsonPowerSums` | research/validation/deflated_sharpe.py:258-308 | For every non-constant series, n*S4*S2 >= n*S3^2 + S2^3 for the centred power sums: Pearson's inequality, by summing the squares of a quadratic |
| `Moments.PearsonMoments` | research/validation/deflated_sharpe.py:258-308 | The same inequality for the central moments the two estimators divide |
| `Moments.ThreePointKurtosis` | research/validation/deflated_sharpe.py:283-308 | Three returns always have m4 = 1.5*m2^2, so the n < 4 default of 3.0 still lies above the bound |
| `Moments.SkewnessSquared` | research/validation/deflated_sharpe.py:258-280 | The squared skewness estimate is m3^2/m2^3 whatever root the square root picks |
| `Moments.KurtosisExactly` | research/validation/deflated_sharpe.py:258-308 | The kurtosis estimate times the squared second moment is the fourth moment; short and constant series get kurtosis 3 and skewness 0 |
| `SharpeOrder.SharpeSquared` | research/validation/deflated_sharpe.py:213-255 | The Sharpe ratio in full: its square, with the sign of the mean, is n - 1 times the squared mean over the sum of squared deviations, and zero for a degenerate series |
| `Moments.KurtosisDominatesSkewness` | research/validation/deflated_sharpe.py:47-57 | For every list of returns of any length, defaults included: raw kurtosis >= 1 + skewness^2 |
| `DeflatedSharpe.VarianceTermBound` | research/validation/deflated_sharpe.py:47-57 | The Sharpe-estimator variance term of any list of returns, at any Sharpe, is at least (1 - skew*SR/2)^2 >= 0 |
| `DeflatedSharpe.GuardFiresExactly` | research/validation/deflated_sharpe.py:351-365 | The variance guard raises on the moments of a list of returns if and only if skew*SR = 2 and the kurtosis sits exactly on its bound |
| `DeflatedSharpe.GuardReachable` | research/validation/deflated_sharpe.py:351-365 | A fact about the ideal reals: four irrational returns a, a, a, a+1 with a = (sqrt 3)/2 - 1/4 make the term exactly 0, where the source raises and the p-value falls back to 1 |
| `RationalReturns.NoRationalBoundary` | research/validation/deflated_sharpe.py:47-57 | No returns that are integers over a common denominator satisfy skew*SR = 2: that would make n(n - 1) the square of a fraction, refuted by descent |
| `RationalReturns.GuardSilentOnFractions` | research/validation/deflated_sharpe.py:47-57 | So on such returns, as every float series is, the variance term is strictly positive and the guard never raises |
| `RationalReturns.FractionsAreComputable` | scripts/retrospective_dsr.py:263-295 | And `_dsr_p_value` falls back to 1 on them exactly for fewer than two trades |
| `DeflatedSharpe.PsrIsTheTestStatistic` | research/validation/deflated_sharpe.py:351-370 | The ratio is the distribution function at a statistic z with z^2 * variance term = (SR - benchmark)^2 * (n - 1) and the sign of the excess Sharpe |
| `DeflatedSharpe.BenchmarkBetweenQuantiles` | research/validation/deflated_sharpe.py:404-417 | The benchmark lies the Euler-Mascheroni fraction of the way from the 1 - 1/K quantile to the 1 - 1/(K e) quantile |
| `DeflatedSharpe.ExpectedMaxSharpeMonotone` | research/validation/deflated_sharpe.py:404-417 | The luckiest of K zero-edge strategies: defined, non-negative, and nondecreasing in K and in the Sharpe variance |
| `DeflatedSharpe.BenchmarkAntitone` | research/validation/deflated_sharpe.py:351-370 | A higher benchmark never raises the probabilistic Sharpe ratio |
| `DeflatedSharpe.PValueMonotone` | scripts/retrospective_dsr.py:263-295 | For fixed returns the DSR p-value lies in (0, 1] and is nondecreasing in K and in the Sharpe variance, through every fallback branch |
| `DeflatedSharpe.PValueBelowHalf` | scripts/retrospective_dsr.py:263-295 | A p-value under 0.5 means exactly: at least two trades, a positive variance term and a Sharpe above the expected maximum of the trials |
| `StrictDeflation.PValueIsTheTail` | scripts/retrospective_dsr.py:263-295 | The p-value of a series with two returns and a positive variance term is the upper tail at its own test statistic, for its own number of returns and the benchmark of the trials |
| `StrictDeflation.UncomputableExactly` | research/validation/deflated_sharpe.py:311-473 | Every error of the deflated ratio and when it is the one raised: no trials, a negative variance of Sharpe ratios, fewer than two returns, a variance term of zero, in this order; the p-value falls back to 1 exactly on any of them |
| `StrictDeflation.BenchmarkRisesIff` | research/validation/deflated_sharpe.py:404-417 | With no fewer trials and no less variance, the benchmark is strictly higher exactly if there is variance, there are two trials, and one of the two rose |
| `StrictDeflation.PValueRisesIff` | scripts/retrospective_dsr.py:263-295 | And so is the p-value, for returns that can be deflated |
| `SharpeOrder.PsrRisesIff` | research/validation/deflated_sharpe.py:311-370 | At fixed moments and n, exactly when a higher observed Sharpe gives a higher probabilistic ratio, and so a lower p-value: always across the benchmark, above it if a chord of the variance term is positive, below it if it is negative; and that it gives a lower ratio exactly in the opposite cases |
| `ReturnMetrics.ProfitFactorMonotone` | scripts/retrospective_dsr.py:217-233 | Pointwise lower returns never raise the unclamped profit factor, its infinite and zero cases included |
| `ReturnMetrics.WinsAndLosses` | scripts/retrospective_dsr.py:217-233 | Wins and losses add up to the sum of the returns, and apart to the sum of their absolute values |
| `ReturnMetrics.ProfitFactorAtLeastIff` | scripts/retrospective_dsr.py:217-233 | The profit factor reaches a positive threshold exactly if there are wins and they are at least that multiple of the losses; it is infinite exactly for wins without losses |
| `ReturnMetrics.MaxDrawdownPctFromReturns` | scripts/retrospective_dsr.py:236-260 | The single pass with equity, peak and worst drawdown as running variables computes the drawdown function whose meaning the next rows state |
| `ReturnMetrics.CurveTracksPeak` | scripts/retrospective_dsr.py:248-260 | The running equity is the compounded growth, and the running peak is its maximum so far, attained, and at least the starting 1 |
| `ReturnMetrics.DrawdownIsWorstPeakLoss` | scripts/retrospective_dsr.py:236-260 | For every series: the reported drawdown is the largest loss from a running peak to a later trade, and it is attained |
| `ReturnMetrics.DrawdownIsWorstLoss` | scripts/retrospective_dsr.py:236-260 | For every series the drawdown is the equity loss between some pair i <= j, and no pair over which the growth is not negative shows a larger one; so when no trade loses more than everything it is the largest |
| `ReturnMetrics.DrawdownIsWorstLossIff` | scripts/retrospective_dsr.py:236-260 | For every series, one scan with the least and greatest growth so far finds the largest loss over all pairs, and the drawdown is that loss if and only if it equals the scan's; where it does not, it is smaller and the loss is above 100% |
| `ReturnMetrics.DrawdownMonotone` | scripts/retrospective_dsr.py:236-260 | Pointwise lower returns, none below -100%, never reduce the drawdown |
| `ReturnMetrics.DrawdownMonotoneExactly` | scripts/retrospective_dsr.py:236-260 | Exactly which series have a drawdown no smaller than that of every series above them: those with no return below -100%, except perhaps the last trade's, and that one from an equity peak |
| `ReturnMetrics.WipeoutBreaksDrawdown` | scripts/retrospective_dsr.py:236-260 | Concrete series past a wipe-out: lower returns with a smaller drawdown, and a pairwise loss above the reported drawdown |
| `CostModel.ChargesTheLargerCost` | research/backtest/cost_model.py:256-295 | Costs are never counted twice: in total a trade is charged the larger of the booked cost and the conservative round trip, and never gains |
| `CostModel.ChargedPerLeg` | research/backtest/cost_model.py:244-256 | In money, each leg is charged on its own notional, and the booked percentage is the recorded commissions and slippage, each once |
| `CostModel.CorruptIff` | scripts/validation_report.py:276-306 | A force-close is corrupt exactly if its exit lies between 0.5 and 3 and its positive entry is more than ten times away from it |
| `CostModel.ComponentsComeFrom` | research/backtest/cost_model.py:226-256 | A symbol's measured spread and slippage are taken as they are; otherwise its own estimate, or the fallback, times the pad; and a round trip at one price pays the spread, two fees and two slippages |
| `CostModel.OnlyEstimatesArePadded` | research/backtest/cost_model.py:226-254 | The pad does not touch a symbol whose components are measured, and doubles exactly the estimated ones otherwise |
| `Classifier.ClassifyMonotone` | research/promotion/classifier.py:86-114 | Worse evidence in any argument never earns a less severe tier |
| `Classifier.ResolveMonotone` | research/promotion/classifier.py:117-143 | Neither does the resolution: more severe operating points never resolve to a less severe tier |
| `Classifier.OnlyConservativeDeploys` | research/promotion/classifier.py:117-143 | The softening never makes a strategy deployable, and applies exactly to a deployable base with a conservative Tier D |
| `Classifier.DeployableExactly` | research/promotion/classifier.py:86-114 | Through the cascade, deployable means exactly the Tier B bounds, Tier A exactly its own, and Tier D exactly its own conditions on at least 10 trades |
| `EffectiveK.SweepBounds` | research/validation/effective_k.py:135-146 | The gating K is the larger of 2000 and the point estimate, and bounds every K of the sweep |
| `EffectiveK.SweepsHold` | research/validation/effective_k.py:135-146 | The K sweep holds exactly 115, 500, 2000 and the point estimate, ascending and each once; the variance sweep exactly half, once and twice the point, floored at 0.01, likewise ascending and each once |
| `EffectiveK.GatingDominates` | research/validation/effective_k.py:135-146 | For every estimate: point estimate and all swept K are at most the gating K, which is at least 2000 |
| `EffectiveK.EstimatePortfolioK` | research/validation/effective_k.py:69-132 | Whatever the raw counts, the estimate is well formed: a point of at least 1 and the sweep and gating K built from it |
| `EffectiveK.PointEstimateIsTheLargestCount` | research/validation/effective_k.py:100-114 | The point estimate is at least one, the combinations and the rounded hypothesis-symbol pairs, and is one of them |
| `EffectiveK.RegimeScalingRaisesK` | research/validation/effective_k.py:171-224 | Counting regime buckets as trials lowers neither the point estimate nor the gating K |
| `EffectiveK.RegimeTrialsMultiply` | research/validation/effective_k.py:171-224 | The scaled point estimate is the base times the number of buckets, at least one, and the gating K follows from it |
| `EffectiveK.VarianceIsPairwise` | research/validation/effective_k.py:149-168 | The point estimate is the average over ordered pairs of strategies of half their squared distance, floored: the unbiased sample variance, with no mean taken |
| `EffectiveK.VarianceSweepBounds` | research/validation/effective_k.py:227-241 | Every swept variance, and the point itself, is at most the gating variance; none is below the floor |
| `Retrospective.AnalyzeStrategy` | scripts/retrospective_dsr.py:361-499 | The analysis with its loops gives every operating point, sweep cell and verdict of the specification the next rows reason about |
| `RetrospectiveReport.OperatingPoints` | scripts/retrospective_dsr.py:373-409 | The base point uses recorded returns at the point estimates, the conservative one padded returns at the gating K and the highest variance; each reports its own p-value, tier, drawdown and profit factor |
| `RetrospectiveReport.TierAtExactly` | scripts/retrospective_dsr.py:398-405 | What each verdict says of a series at an operating point: no verdict exactly below 10 trades, retirement exactly from a p-value of 0.5 or a drawdown of 10 on, Tier A and deployable exactly by their bounds |
| `RetrospectiveReport.KSweepIsSwept` | scripts/retrospective_dsr.py:411-416 | One cell for each swept K, labelled with it and computed at it, and the larger K has the strictly larger p-value whenever the padded series can be deflated |
| `RetrospectiveReport.VarianceSweepIsSwept` | scripts/retrospective_dsr.py:418-426 | The same of the variance cells, at the gating K |
| `RetrospectiveReport.FragileIff` | scripts/retrospective_dsr.py:408-430 | A verdict is fragile exactly if the two operating points differ in tier or two swept values of K give the padded series different tiers |
| `RetrospectiveReport.CountsAddUp` | scripts/retrospective_dsr.py:361-371 | Every trade is analysed or quarantined, quarantined exactly if it is a corrupt force-close, and the counts say so |
| `Retrospective.PoolIsChronological` | scripts/retrospective_dsr.py:361-366 | The pool holds every trade that is not a corrupt force-close, as often as it occurs, ordered by exit then entry time |
| `Retrospective.TierMonotone` | scripts/retrospective_dsr.py:398-425 | At fixed returns, more trials and more variance never earn a less severe tier |
| `Retrospective.GateDominatesSweeps` | scripts/retrospective_dsr.py:392-424 | The conservative operating point has the largest p-value and the most severe tier of all cells of the K sweep and the variance sweep |
| `Retrospective.PaddingNeverHelps` | scripts/retrospective_dsr.py:371-388 | The padded series never has a better profit factor; nor a smaller drawdown, for every padded series in the class of `DrawdownMonotoneExactly` |
| `SharpeOrder.UniformPadSoftensIff` | scripts/retrospective_dsr.py:263-295 | Exactly when an equal pad lowers the p-value of a series, for the same K and variance: if only the padded Sharpe has a positive variance term, or both do and the chord has the wrong sign for their side of the benchmark; skewness, kurtosis and dispersion do not change |
| `SharpeOrder.UniformPadCanSoften` | scripts/retrospective_dsr.py:263-295 | It happens: 0.25% off each of the returns 1, 1, 1, 2 lowers the p-value for a single trial |
| `Retrospective.EqualPadsSoftenIff` | scripts/retrospective_dsr.py:392-396 | The same condition for the recorded and padded series of a pool whose trades carry equal pads |
| `Retrospective.ConservativeIsNoSofter` | scripts/retrospective_dsr.py:398-405 | The conservative tier is at least as severe as the base tier whenever the padded series is in the class of `DrawdownMonotoneExactly`, scores no higher and does not lower the p-value at the base operating point |
| `Retrospective.EqualPadsNeverSoften` | scripts/retrospective_dsr.py:398-405 | So for equal pads away from the cliff guard, unless they soften the p-value in the way of `EqualPadsSoftenIff` |
| `Retrospective.PaddingCanRaiseSharpe` | scripts/retrospective_dsr.py:381-388 | The Sharpe ratio is the exception: padding one of two trades by 0.8% raises it |
| `SharpeOrder.SharpeAtMostIff` | research/validation/deflated_sharpe.py:213-255 | The exact order of the Sharpe ratios of any two series of the same length, degenerate ones and losing ones included, as a comparison of squared means and dispersions with no root |
| `SharpeOrder.PaddedStatistics` | scripts/retrospective_dsr.py:371-381 | A pad lowers the mean by the mean pad, and changes the dispersion by the pads' own less twice their covariance with the returns |
| `SharpeOrder.PadsRaiseIff` | scripts/retrospective_dsr.py:371-388 | With positive means away from the cliff guard, pads raise the Sharpe ratio exactly if that narrowing outweighs what they take off the mean |
| `SharpeOrder.WiderNeverHigher` | research/validation/deflated_sharpe.py:213-255 | A lower mean with no less dispersion never scores higher than a regular series that did not lose |
| `SharpeOrder.UniformPadIff` | scripts/retrospective_dsr.py:371-388 | The same pad on every trade fails to raise it exactly if the pad is not negative, away from the cliff guard |
| `SharpeOrder.PadLiftsOffTheCliff` | research/validation/deflated_sharpe.py:233-252 | At the cliff guard it does: a flat series of high level scores 0, and a uniform pad lifts it |
| `Retrospective.PaddedSharpeIff` | scripts/retrospective_dsr.py:371-388 | For every pool of trades, exactly when the padded Sharpe ratio is no higher than the recorded one |
| `Retrospective.PadsRaiseReportedIff` | scripts/retrospective_dsr.py:371-388 | With positive means away from the cliff guard, padding raises the reported Sharpe ratio if and only if twice the covariance of pads and returns, less the pads' dispersion, outweighs the mean pad |
| `Retrospective.EqualPadsNeverRaise` | scripts/retrospective_dsr.py:371-388 | Equal pads never raise it, away from the cliff guard |
| `Retrospective.DeployableClearsEveryCell` | scripts/retrospective_dsr.py:392-424 | A deployable final tier certifies: at least 20 trades, every swept p-value under the deployment bound, and a Sharpe above the luckiest of gating-K zero-edge strategies |
| `Retrospective.RegimeScalingNeverSoftens` | scripts/regime_dsr.py:541-554 | For the same trades, multiplying K by the number of regime buckets never softens the final tier |
| `RegimeTagging.BuildRegimeTimeline` | research/backtest/regime_tagging.py:122-147 | The timeline is sorted and holds exactly the bars given, whatever order they came in |
| `RegimeTagging.TagIsLatestKnown` | research/backtest/regime_tagging.py:150-178 | Sorting the bars and bisecting finds the latest bar at or before the entry (the last one read, on equal timestamps), unknown when there is none |
| `RegimeTagging.TagsAreCausal` | research/backtest/regime_tagging.py:150-178 | Two bar histories that agree up to the entry give it the same tag, whatever bars either has later |
| `RegimeTagging.TagTrades` | research/backtest/regime_tagging.py:181-207 | Every trade is kept, in order, with the tag of its entry; an unparseable entry time is tagged unknown |
| `RegimeTagging.TaggedExactly` | research/backtest/regime_tagging.py:45-99 | A tag keeps its trade, carries the label of the latest bar known at a parsed entry time and none otherwise, and is in the bull, bear or chop bucket exactly by the named labels |
| `RegimeTagging.BucketsByLabel` | research/backtest/regime_tagging.py:210-249 | Each bucket is, in order, the trades with its two named labels; no bucket means exactly transitional or unknown; each fine bucket is the trades of its label |
| `RegimeTagging.BucketByCoarse` | research/backtest/regime_tagging.py:210-228 | Each key maps to exactly its trades in order, empty buckets are absent, keys are in first-seen order |
| `RegimeTagging.BucketBySubRegime` | research/backtest/regime_tagging.py:231-249 | The same for the fine regimes, the two undefined ones excluded |
| `RegimeTagging.CoarseIsUnionOfFine` | research/backtest/regime_tagging.py:210-249 | Each coarse bucket holds exactly the trades of its two fine regimes, repeats included |
| `RegimeTagging.EveryTradeIsInOneBucket` | research/backtest/regime_tagging.py:210-228 | The three buckets and the trades of undefined regime make up all trades, as multisets |
| `RegimeCoverage.ComputeRegimeCoverage` | scripts/regime_dsr.py:530-629 | Pooled analysis, per-bucket analyses, coarse and fine cells, with K multiplied by the number of buckets traded |
| `RegimeCoverage.EveryBucketHasItsCell` | scripts/regime_dsr.py:530-629 | Every bucket and every defined regime with a trade has exactly one cell and no other has any; each cell is the analysis of its own trades with the scaled K; and the pooled analysis is that of all trades with the base K |
| `RegimeCoverage.BucketCountedOnce` | scripts/regime_dsr.py:545-611 | The trades analysed in a coarse cell are exactly as many as those of the fine cells that refine it, after quarantine |
| `RegimeCoverage.CellsAccountForThePool` | scripts/regime_dsr.py:530-588 | The pooled trade count is the sum of the coarse cells' counts plus the kept trades of undefined regime |
| `RegimeCoverage.SearchingRegimesCosts` | scripts/regime_dsr.py:539-588 | No cell is softer than its trades would be without the search over regimes; a deployable cell has 20 trades and a Sharpe above the luckiest of base-K times buckets trials, and, for a bucket minimum of at most 20, gates exactly if it is coarse |
| `Liquidations.RaisesExactly` | research/data/liquidation_collector.py:172-180 | Exactly which frames raise out of `on_message`: undecodable text; a JSON list or string without both envelope words; an envelope around a non-object; and a liquidation message whose first number that does not convert, in the order of the source, overflows |
| `Liquidations.AcceptsExactly` | research/data/liquidations.py:140-191 | Exactly which frames carry an event: a liquidation message with symbol and side, whose numbers all convert, with price and quantity not at most zero and a side that is SELL or BUY in any case |
| `Liquidations.OtherMessagesAreRejected` | research/data/liquidations.py:159-160 | A message that is not a liquidation is no event and raises nothing, whatever it holds |
| `Liquidations.SideExactly` | research/data/liquidations.py:132-137 | Which texts are a sell and which a buy: the words in any case, and the long s, whose upper case is S |
| `Liquidations.AveragePriceExactly` | research/data/liquidations.py:169-172 | The average fill price by what the message holds: zero where it is missing, null, false, zero or empty, itself where it is a number or reads as one, and otherwise an error |
| `Liquidations.TooLargeIff` | research/data/liquidations.py:165-172 | An integer overflows as a float exactly from 2^1024 - 2^970 on, on either side of zero |
| `Liquidations.TruncatedTowardZero` | research/data/liquidations.py:165-166 | A decimal time is cut toward zero |
| `Liquidations.ContainsIff` | research/data/liquidations.py:156-158 | On a JSON string the envelope words are looked for anywhere in the text |
| `Liquidations.InfiniteTradeTimeRaises` | research/data/liquidations.py:162-191 | A liquidation message whose trade time is an infinite number raises, whatever else it holds |
| `Liquidations.ParsedEventIsSound` | research/data/liquidations.py:140-191 | A parsed event has a price and quantity that are not at most zero (infinite and NaN ones pass), their product as notional, a sell meaning a liquidated long, and the average fill price when that is positive |
| `LiquidationReads.NotionalExactly` | research/data/liquidations.py:182-191 | The notional of an accepted event is the positive product of finite sizes, NaN exactly if one of them is, and otherwise infinite |
| `Liquidations.ParseInvertsMessage` | research/data/liquidations.py:140-191 | The exchange message of an event, filled or not, enveloped or not, parses back to the event if and only if the event is sound |
| `Liquidations.LiquidationStore.WriteBatch` | research/data/liquidations.py:248-311 | Raises, having written nothing, exactly if some trade time has no calendar date; otherwise appends to each trade date exactly its rows of the batch, in order, and alters no fragment |
| `Liquidations.GroupByTradeDate` | research/data/liquidations.py:289-292 | Each event lands in the group of its own trade date, in order; a trade time outside the calendar raises |
| `Liquidations.LiquidationStore.ReadWindow` | research/data/liquidations.py:313-357 | Refuses a reversed window and one whose padded dates leave the calendar; otherwise scans the fragments in file-name order and returns the events of the specification in the next rows |
| `Liquidations.WindowIsExact` | research/data/liquidations.py:313-357 | The keys read are exactly the stored keys inside the window, each once, in (time, symbol) order; the day before and the day after are scanned too and lose nothing |
| `LiquidationReads.LastStoredIsRead` | research/data/liquidations.py:323-357 | A key stored more than once is returned as its last row: the last one in the fragment with the greatest file name that has it, in the directory of its day; events come in order of trade time, then symbol |
| `Liquidations.RefusedWindows` | research/data/liquidations.py:313-357 | Which windows are refused, in instants: a reversed one, and one within a day of the first or two days of the last instant of the calendar |
| `Liquidations.CalendarInDays` | research/data/liquidations.py:114-116 | Which trade times have a date: those of the days from year 1 to year 9999 |
| `Liquidations.ReadIgnoresFragments` | research/data/liquidations.py:313-357 | The keys read depend on which rows each day holds alone, not on fragments or their names |
| `Liquidations.BatchesStoreKeys` | research/data/liquidations.py:268-311 | After any list of batches the stored keys are those stored before and those of the batches whose trade times all have a date |
| `Liquidations.BatchingIsInvisible` | research/data/liquidations.py:268-357 | For any two lists of batches that hold the same dated events, in any split, order, repetition and naming, every window reads the same keys |
| `Liquidations.EarlierNowIsAFilter` | research/data/liquidations.py:360-399 | Whenever a read at a later `now` succeeds so does one at an earlier `now`, with exactly its keys up to the earlier one |
| `Liquidations.NowWindowIsExact` | research/data/liquidations.py:360-399 | A read up to `now` gives exactly the stored keys of the window that are not later than `now` |
| `LiquidationCollection.LiquidationCollector.constructor` | research/data/liquidation_collector.py:86-141 | A new collector satisfies the invariant: dedup set and deque agree, counters and conservation hold |
| `LiquidationCollection.LiquidationCollector.Remember` | research/data/liquidation_collector.py:181-190 | The deque becomes its last dedup-memory keys including the new one, and the set keeps exactly its elements |
| `LiquidationCollection.LiquidationCollector.OnMessage` | research/data/liquidation_collector.py:162-196 | A frame is accepted exactly if it parses and its key is not in the window, and raises exactly as `RaisesExactly` says; one counter moves, and the invariant holds (set = deque = last min(received, memory) accepted keys; frames = received + duplicates + malformed + raised; accepted = flushed batches + buffer) |
| `LiquidationCollection.AcceptedIff` | research/data/liquidation_collector.py:162-196 | The dedup memory, exactly: a well-formed frame is accepted if and only if its key is not one of the last dedup-memory accepted keys, and no other frame changes what is accepted |
| `LiquidationCollection.LiquidationCollector.Flush` | research/data/liquidation_collector.py:198-212 | Empties the buffer and hands it over as one batch; it raises, with the batch lost, exactly if a trade time in it has no date |
| `LiquidationCollection.LiquidationCollector.Consume` | research/data/liquidation_collector.py:214-229 | One session, for every script of deliveries: it answers deliveries one step at a time up to the first that ends it, by stop, drop, cancellation, a raising frame or a refused batch |
| `LiquidationCollection.LiquidationCollector.Run` | research/data/liquidation_collector.py:231-272 | For every script, from any buffer, stopped or not: deliveries answered, batches, pauses and outcome (returned, cancelled, or crashed by a refused batch) are those of the step-by-step specification, and the buffer ends empty |
| `LiquidationCollection.PausesEscalate` | research/data/liquidation_collector.py:246-269 | Pauses start at the initial backoff, return to it after a long-lived session, grow otherwise, and never exceed the maximum |
| `LiquidationCollection.LoopHeadIsBelowLimit` | research/data/liquidation_collector.py:220-229 | At every loop head of a run that started so, the buffer is empty or below the flush limit |
| `LiquidationCollection.NothingCarriedAcross` | research/data/liquidation_collector.py:258-260 | No event is buffered across a reconnect |
| `LiquidationCollection.SilenceSaves` | research/data/liquidation_collector.py:214-229 | Over every script: after a silence every accepted event is in the batches of that moment, no later event joins one of them, and if what was buffered is dated nothing later removes it, refused batches and crashes included |
| `LiquidationCollection.SilencedIsReadable` | research/data/liquidation_collector.py:198-229 | So a read finds an event that was followed by a silence, whatever came after |
| `LiquidationCollection.StreamFillsBatches` | research/data/liquidation_collector.py:226-229 | While frames stream in, every batch has exactly the size of the flush limit, or one event if the limit is lower |
| `LiquidationCollection.RunsUntilAsked` | research/data/liquidation_collector.py:231-272 | Over dated frames, until a delivery asks for its end a run answers every delivery and reconnects after every disconnect |
| `LiquidationCollection.EndsWhenAsked` | research/data/liquidation_collector.py:231-272 | The first delivery that cancels, stops, or is disturbed in its pause ends the run, with the outcome it asks for |
| `LiquidationCollection.LastFlushDecides` | research/data/liquidation_collector.py:261-272 | A run that nothing ended hands over what is buffered as one last batch, and crashes exactly if that is refused; one stopped beforehand receives nothing and returns |
| `LiquidationCollection.OnlyBadTimesCrash` | research/data/liquidation_collector.py:231-272 | Over every script: all accepted events end up in the batches, and a run crashes only if its last batch holds a trade time without a date |
| `LiquidationCollection.NeverCrashesIff` | research/data/liquidation_collector.py:214-272 | For any set of frames: no script over them crashes a new collector if and only if the flush limit is at most one event or every well-formed frame among them has a trade time with a date |
| `LiquidationCollection.DatedNeighbourIsLost` | research/data/liquidation_collector.py:198-229 | With batches of two, an event whose trade time has no date takes the well-dated one delivered before it with it |
| `LiquidationCollection.NeighbourLossExample` | research/data/liquidation_collector.py:198-229 | Two whole messages at which that happens, one traded at the epoch and one after the year 9999 |
| `LiquidationCollection.ReadBackIsExact` | research/data/liquidation_collector.py:162-272 | At any moment a window read returns exactly the keys stored before plus those of the batches without an undatable trade time, each once and sorted, for any dedup memory |
| `LiquidationCollection.NothingLostIff` | research/data/liquidation_collector.py:162-272 | With the buffer empty, reads give exactly the earlier keys and those of all well-formed frames if and only if every such frame had a trade time with a date |
| `LiveState.CloseKeeps` | scripts/run_live_trading.py:1174-1258 | Closing a trade keeps the trade count equal to the history length and the running total within n * 0.00005 of the recorded PnLs |
| `LiveState.ProfitableIff` | scripts/run_live_trading.py:1193-1207 | A close nets a profit exactly if it clears both commissions, on either side |
| `LiveState.ClosingCostsCommissions` | scripts/run_live_trading.py:877-909 | Closing at the current price takes the two commissions off the marked equity and nothing else |
| `LiveState.RecordHoldsTheTrade` | scripts/run_live_trading.py:1193-1240 | A record holds the terms of its trade exactly, its net PnL to four places, and its rounded amounts add up |
| `LiveState.RecordedReturn` | scripts/run_live_trading.py:1193-1240 | The recorded return is the net PnL in percent of the stake, to four places, and zero without a stake |
| `LiveState.ExitExactly` | scripts/run_live_trading.py:1024-1108 | A bar triggers the stop exactly if some price within it reaches the stop, and otherwise the target exactly if some price reaches that, on either side |
| `LiveState.ExitIsWorstCase` | scripts/run_live_trading.py:1061-1108 | When a bar touches both stop and target, the stop is taken and its level is the worse of the two |
| `LiveState.RestartRestores` | scripts/run_live_trading.py:743-860 | Save then load restores the position and history exactly and the running total up to n * 0.00005 |
| `LiveState.RestartKeepsChecks` | scripts/run_live_trading.py:877-909 | A restart leaves the stop and target check unchanged and the equity within the same drift |
| `LiveState.BooksDriftBounded` | scripts/run_live_trading.py:1193-1256 | For every sequence of opens, closes and restarts: total trades = history length = closes, and the running total is within n * 0.00005 of the exact sum of net PnLs |
| `LiveTrading.ActivationKeeps` | scripts/run_live_trading.py:1806-1903 | The activation loop changes a tier only by activating an inactive one with its stored state |
| `LiveTrading.ActivatedExactly` | scripts/run_live_trading.py:1806-1885 | At its turn an inactive tier is activated, with its stored state, exactly if regime, equity threshold, paper record and both rails allow it |
| `LivePolls.ActiveEquityOfOne` | scripts/run_live_trading.py:1809-1812 | An active tier contributes its capital and realized PnL to the portfolio equity, an inactive one nothing |
| `LivePolls.ActiveEquityAdds` | scripts/run_live_trading.py:1809-1812 | And the contributions add up |
| `LivePolls.ActivationReaches` | scripts/run_live_trading.py:1814-1903 | Every tier gets its turn of the activation loop, whatever became of earlier ones: it is activated exactly if the conditions hold among the tiers of its turn |
| `LivePolls.ProcessingReaches` | scripts/run_live_trading.py:1928-1950 | Every active tier is polled, among the tiers of its turn, exactly if no earlier active tier raised; otherwise it is left as it was |
| `LivePolls.PollReaches` | scripts/run_live_trading.py:1756-1950 | Both over a whole poll |
| `LivePolls.RegimeErrorSkipsPoll` | scripts/run_live_trading.py:1759-1767 | A poll whose regime lookup raises changes nothing |
| `LivePolls.RunSplits` | scripts/run_live_trading.py:1756-1950 | A run does its polls in order, each from where the last one ended |
| `LivePolls.RaisesIff` | scripts/run_live_trading.py:1266-1528 | A tier's poll raises exactly if the bars cannot be fetched, the signal cannot be computed, or an approved entry is to be sized at a price of zero |
| `LivePolls.StopExitExactly` | scripts/run_live_trading.py:1309-1367 | A position is closed by a stop or target exactly if one triggers, the kill switch does not block it and the order fills; a failed order changes nothing |
| `LivePolls.SignalExitExactly` | scripts/run_live_trading.py:1394-1440 | The same of a close signal |
| `LivePolls.OpensExactly` | scripts/run_live_trading.py:1443-1512 | A flat tier opens exactly if direction, regime, cap, guards and size allow it and the order fills; otherwise it is left as it was |
| `LivePolls.ExitIsBookedInPoll` | scripts/run_live_trading.py:1309-1367 | Over a whole poll, a triggered, filled, unblocked exit of any active tier is booked, unless an earlier tier's market or signal fails |
| `LivePolls.HaltLimits` | scripts/run_live_trading.py:985-1016 | The guards in money: halted exactly at a loss of the daily fraction of the capital or an equity down by the drawdown fraction; a flat tier is also frozen below 20 of equity |
| `LivePolls.ApprovedExactly` | scripts/run_live_trading.py:945-1016 | An order is approved exactly if the kill switch is read and off, the losses are within the daily fraction, and the equity marked at the current price is within the drawdown fraction |
| `LiveTrading.RunRespectsRails` | scripts/run_live_trading.py:495-542 | Over every run, the active count and committed capital never rise above the larger of their starting value and the rail |
| `LiveTrading.RailsHoldExactly` | scripts/run_live_trading.py:530-542 | After startup both rails hold in every reachable state if and only if tier 1 is blocked or fits the rails alone |
| `LiveTrading.SameDirectionCapped` | scripts/run_live_trading.py:459-466 | Over every run, positions open or stored in a direction never exceed the larger of the starting exposure and the cap plus the positions stored in inactive tiers |
| `LiveTrading.NoRestoredPositionsNoExcess` | scripts/run_live_trading.py:1454-1512 | Started with no stored position in a direction, a run never holds more of it than the decorrelation cap |
| `LiveTrading.HaltIsAbsorbing` | scripts/run_live_trading.py:985-1016 | A flat tier past its loss or drawdown limit is left unchanged by every later poll, whatever the bars, signals and fills |
| `LiveTrading.FlatTierCanOpenIff` | scripts/run_live_trading.py:1443-1512 | A flat active tier can open a position if and only if it is not halted and a direction has room under the cap |
| `LiveGuards.StopExitBlockedIff` | scripts/run_live_trading.py:1312-1350 | A triggered stop or target whose order fills leaves the position open if and only if the kill switch is on or a database error names it; losses never block it |
| `LiveGuards.SignalExitBlockedIff` | scripts/run_live_trading.py:1394-1420 | The same of a close signal |
| `LiveGuards.HaltedTierExits` | scripts/run_live_trading.py:1266-1528 | Over a whole poll, a triggered exit of any tier is booked unless so blocked, and a tier past its limit opens nothing in its place |
| `LiveGuards.HaltSurvivesIff` | scripts/run_live_trading.py:743-782 | A halt survives a restart if and only if the recorded trades, added up, still break a limit |
| `LiveGuards.BooksAreBooked` | scripts/run_live_trading.py:743-860 | After any opens, closes and restarts, the total is what the last restart restored plus the net PnLs since, and each of those is recorded rounded to four places |
| `LiveGuards.EveryNetHasAPrice` | scripts/run_live_trading.py:1193-1207 | Any net PnL above the loss of the whole stake is that of some positive fill price of a long position, so the next row's other trades can happen |
| `LiveGuards.HaltSurvivesAllTradesIff` | scripts/run_live_trading.py:743-782 | Known only the total, what the last restart restored and the number of trades since: whatever those trades were, the halt survives if and only if the most that their rounded records can add up to still breaks a limit (daily loss, drawdown or minimum order) |
| `LiveGuards.HaltSurvivesWithMargin` | scripts/run_live_trading.py:743-782 | It survives whenever the total breaks a limit with 0.00005 per recorded trade to spare |
| `LiveGuards.RestartCanLiftHalt` | scripts/run_live_trading.py:743-782 | A restart can lift it, shown on a loss exactly at the limit |
| `LivePersistence.RestartFindsLastIff` | scripts/run_live_trading.py:707-870 | Over any saves whose two writes can fail: whatever the states were, a restart finds the last one, up to the rounding of the total, if and only if the store that it reads (the row if the database answers and one was ever written, else the file) was written by the last save |
| `LivePersistence.ClosedPositionReturns` | scripts/run_live_trading.py:743-870 | If the row of a close could not be written, a restart brings the closed position back, although the backup file holds the close |
| `LivePersistence.BackupKeepsTotal` | scripts/run_live_trading.py:786-805 | A restart from the backup file alone restores the state with its running total, without rounding |
| `LiveTrading.QuantityFillsTheSlice` | scripts/run_live_trading.py:912-937 | An order spends at most its fraction of equity and falls short of it by less than a millionth of a unit |
| `LiveTrading.OpenedPositionIsTheOrder` | scripts/run_live_trading.py:1443-1512 | A position opened by a signal has its side, stop, target and fill price, costs at most the fraction of equity at the current price, and needed regime, guards and cap to agree |
| `LiveTrading.RunIsCrashSafe` | scripts/run_live_trading.py:1266-1528 | At every point of every run the stored row of an active tier restores its position, and its total up to the rounding bound |
| `LiveTrading.StartupIsCrashSafe` | scripts/run_live_trading.py:1649-1708 | So does every run from a startup over rows that were sound |
| `LiveTraderLoop.LiveTrader.Start` | scripts/run_live_trading.py:1649-1708 | Startup in place: tier 1 is loaded, and active unless the promotion gate blocks it; no other tier changes |
| `LiveTraderLoop.LiveTrader.RecordClosedTrade` | scripts/run_live_trading.py:1174-1258 | Books the closed trade on its own tier and returns its net PnL |
| `LiveTrading.SavedIsSafe` | scripts/run_live_trading.py:813-860 | A tier saved in a sound state can be restarted from its row: the same position, history and count, and the total up to the rounding bound |
| `LiveTraderLoop.LiveTrader.ActivateTiers` | scripts/run_live_trading.py:1806-1903 | The in-place activation loop is the activation the rails are proved about, with the equity summed once before it |
| `LiveTraderLoop.LiveTrader.EnforceStops` | scripts/run_live_trading.py:1309-1367 | Stop and target enforcement in place, guarded only by the kill switch |
| `LiveTraderLoop.LiveTrader.PollTier` | scripts/run_live_trading.py:1266-1528 | One tier's poll in place, with every early return and exception, is the step the theorems are proved about |
| `LiveTraderLoop.LiveTrader.PollOnce` | scripts/run_live_trading.py:1756-1950 | One poll over all tiers in place is the step that runs are made of |
| `Series.BisectSplits` | research/features/channels.py:47-63 | The bisection point has everything at most the query before it and everything later after it |
| `Series.LaterElementsIgnored` | research/features/channels.py:47-63 | Appending later timestamps does not move the bisection point |
| `FeatureStore.PointInTimeFeatureStore.Register` | research/features/store.py:164-188 | Refuses a taken name and changes nothing; otherwise adds exactly the one feature, last in order |
| `FeatureStore.PointInTimeFeatureStore.AsOf` | research/features/store.py:190-282 | Unknown names, leaks in strict mode and resolved values in the order the source checks them |
| `FeatureStore.ResolvedExactly` | research/features/store.py:228-280 | A feature has a value exactly if its resolver answered with something knowable by the instant, and then that value; the observation's instants are reported either way |
| `FeatureStore.ErrorsNameTheFirst` | research/features/store.py:206-257 | An unregistered name fails the query and the first one is reported; otherwise a lenient query never fails and a strict one reports the first name that leaks |
| `FeatureStore.PointInTimeFeatureStore.BuildMatrix` | research/features/store.py:284-329 | A row for each timestamp, or the first failure |
| `FeatureStore.MatrixFailsFirst` | research/features/store.py:284-329 | A matrix is built exactly if the query succeeds at every instant; otherwise it fails as the first failing query does |
| `FeatureStore.NothingFromTheFuture` | research/features/store.py:228-280 | A successful query names exactly the requested features, and each holds exactly what was knowable at the instant: its resolver's answer or nothing |
| `FeatureStore.StrictRaisesIffLeak` | research/features/store.py:243-257 | Strict mode fails if and only if some requested feature leaks at the instant; otherwise it answers as lenient mode does |
| `FeatureStore.MatrixIsPointInTime` | research/features/store.py:284-329 | Every cell of a matrix holds exactly what was knowable at its own row's timestamp |
| `Channels.FundingAgrees` | research/features/channels.py:130-146 | The funding channel never leaks and the store's value is the accessor's, at every instant |
| `Channels.AccessorsWait` | research/data/coinbase_prices.py:75-97 | What each of the five accessors answers: the latest element that is old enough by its own delay, and nothing exactly if there is none |
| `Channels.EtfFlowAgrees` | research/features/channels.py:149-167 | Rejected exactly if the latest day at or before the instant began less than two days before it; a value is given exactly if there is such a day and it is not rejected, and is the accessor's flow |
| `Channels.CoinbaseCloseAgrees` | research/data/coinbase_prices.py:75-97 | Rejected exactly if the latest bar opened less than an hour before; a value is given exactly if there is one and it is not rejected, and is the accessor's close |
| `Channels.BtcThrustAgrees` | research/data/btc_reference.py:57-81 | The same for the thrust, given exactly if in addition the bar is no warm-up gap |
| `Channels.XsRankAgrees` | research/data/xs_rank.py:63-83 | The same for rank membership |
| `Channels.AccessorKnowableIff` | research/features/channels.py:47-63 | An accessor that enforces a shorter delay than declared returns something knowable if and only if the declared delay would have picked the same element |
| `Channels.RankAndFlowAccessorsCanLead` | research/data/etf_flows.py:93-122 | Two accessors do enforce less: concrete instants where rank and flow accessors answer and the store refuses |
| `Channels.AcceptedInsideCoverageIff` | research/features/store.py:243-257 | The store accepts some instant inside a series' coverage if and only if two neighbouring bars are further apart than the delay |
| `Channels.GapFreeHourlyAlwaysRejected` | research/features/channels.py:170-188 | On a gap-free hourly series the store refuses every instant inside coverage, where the accessor falls back to the last closed bar |
| `Audit.AuditKnowability` | research/features/audit.py:93-148 | One finding for each leaking instant, with its lead time |
| `Audit.AuditFutureInvariance` | research/features/audit.py:151-206 | One finding for each instant at which dropping later observations changes the answer |
| `Audit.FindingsExactly` | research/features/audit.py:93-148 | One finding for every leaking instant, repeated ones included, in order, with the time until the answer became knowable |
| `Audit.InvarianceFindingsExactly` | research/features/audit.py:151-206 | One finding for every instant at which the later records change the answer |
| `Audit.UpToKeeps` | research/features/audit.py:181-206 | The records left in at an instant are those up to it |
| `Audit.WorstOf` | research/features/audit.py:77-81 | The worst leak is the largest recorded one, or zero |
| `Audit.CleanIffStoreNeverRaises` | research/features/audit.py:121-148 | The knowability audit is clean if and only if a strict store query raises at none of the instants |
| `Audit.LeakBounded` | research/features/spec.py:101-123 | A resolver that only looks back leaks by more than zero and at most interval plus publication lag |
| `Audit.WorstLeakBounded` | research/features/audit.py:77-81 | So does its worst leak |
| `Audit.LatestPassesInvariance` | research/features/audit.py:181-206 | Any latest-at-or-before resolver has no invariance finding on any sorted dataset |
| `Audit.LatestLeaksBounded` | research/features/audit.py:77-148 | What knowability can find in such a resolver over sorted data: leads of more than zero and at most interval plus publication lag |
| `Audit.LatestCanLeak` | research/features/audit.py:121-148 | Yet it leaks one unit before its bar becomes knowable, for every interval spec |
| `Audit.CountPassesKnowability` | research/features/audit.py:93-148 | A resolver that counts the whole dataset, answering once its oldest record is knowable, is clean under knowability for every spec |
| `Audit.CountFailsInvariance` | research/features/audit.py:151-206 | And for every spec it is caught by the invariance audit, so neither audit implies the other |
| `XsRank.ComputePanel` | research/data/xs_rank.py:100-157 | Every symbol gets a flag for every common timestamp, true exactly where the specification ranks it among the top |
| `XsRank.TopCountRoundsUp` | research/data/xs_rank.py:124-126 | The top count is the least whole number that is at least one and at least the fraction of the universe |
| `XsRank.LeadersExactly` | research/data/xs_rank.py:117-140 | The first top-count of the stable descending sort are exactly the candidates with fewer than top-count others above them |
| `XsRank.MemberCount` | research/data/xs_rank.py:117-140 | After warm-up exactly min(top count, symbols with a positive prior close) are members |
| `XsRank.MembersRankHighest` | research/data/xs_rank.py:117-140 | A member's trailing return is at least that of any rankable non-member, ties going to the earlier name |
| `XsRank.RankIsCausal` | research/data/xs_rank.py:100-157 | Universes that agree up to a time have the same grid and memberships up to it, whatever follows |
| `FundingRates.FetchFundingHistory` | research/data/funding_rates.py:122-211 | For any server that pages an ascending history by two or more prints, the loop terminates and returns exactly every print of the window, ascending |
| `FundingRates.KeepInWindow` | research/data/funding_rates.py:175-180 | Of any page exactly the prints inside the window are kept, in order |
| `FundingRates.FundingCache.LoadOrFetch` | research/data/funding_rates.py:251-289 | A cache that covers the request is answered as it is; otherwise the request is fetched exactly, fails exactly if it is reversed, and replaces the cache if caching is on; every answer and the cache hold exactly the history of their coverage |
| `FundingRates.CacheAgreesWithFetch` | research/data/funding_rates.py:101-107 | A covering cache gives the fresh series' rate wherever that has one, and they differ if and only if the fresh one has none and the cache has an earlier print |
| `Biography.StrategyBiography.WriteBiography` | scripts/retrospective_dsr.py:676-729 | A run already recorded changes nothing; otherwise it is appended and the classification history grows only on a change |
| `Biography.WrittenExactly` | scripts/retrospective_dsr.py:703-729 | What a new run adds: itself to the validations and, exactly if the tier changed and no change is recorded for it, one classification and one log line naming the old tier |
| `Biography.ReplayIsCoherent` | scripts/retrospective_dsr.py:703-729 | From an empty history, after any list of runs: consecutive classifications differ, the last is the current one, each change belongs to a recorded run and to a decision-log line naming what it replaced |
| `Biography.HistoryIsFirstOfEach` | research/biographies/schema.py:405-417 | The validation history is the first run of each identifier, in order |
| `Biography.ReplayIgnoresRepeats` | research/biographies/schema.py:405-443 | Replaying runs with repeated identifiers gives the same biography as without the repeats |

## Left out

- Floating point: rounding error, and the coefficients of the quantile approximation; the model computes over exact reals with an ideal root, distribution function and quantile. Infinite and NaN values are modelled where frames carry them, not in returns and prices elsewhere. Every literal `NaN` decodes to one shared object, so two deliveries of it are duplicates and a row read back carries that object. Strings such as "nan" make objects of their own, which the model keeps apart through the store; the source collapses rows written from them to one key on reading back.
- The 999.99 sentinel for an infinite profit factor: tiers are classified on the unclamped value, as in the source, and only the report is clamped.
- HTTP, websocket transport, SQL, Telegram, YAML, JSON and Markdown rendering, logging, argument parsing.
- Retrospective.GateDominatesSweeps: requires a non-negative variance point, as do the other gate theorems; the pipeline floors the point at 0.01, and a negative one makes the source raise.
- Retrospective.PaddingNeverHelps: says nothing of the p-value and tier: `Retrospective.EqualPadsSoftenIff` has the exact condition for the p-value under equal pads, `Retrospective.ConservativeIsNoSofter` a sufficient one for the tier; pads that differ between trades change skewness and kurtosis as well, and have no closed condition here.
- Retrospective.AnalyzeStrategy: leaves out the per-symbol breakdown, hard-floor status, cost diagnostics, notes and reasoning strings, which no verdict reads.
- Regime labels: the classifier that labels the daily bars and the check that its labels are causal are outside the model; any labels are allowed.
- LiquidationCollection.LiquidationCollector.Flush: disk errors; the only write that fails in the model is one the store refuses because of a trade time.
- LiquidationCollection.LiquidationCollector.Run: a script that ends stands for cancellation; two collectors writing one store at the same time are not modelled.
- Row files: the round trip of an event through a stored row; two fragments are taken to have different names.
- LiveState.RestartRestores: is about a row that was written and read; failed writes and reads, and the backup file, are in `LivePersistence`. The alert flags kept in the state are not modelled.
- LiveTrading.RunIsCrashSafe: every save of the run writes its row; `LivePersistence.RestartFindsLastIff` says what a failed write costs.
- LiveTraderLoop.LiveTrader.PollOnce: tiers are values in a `seq` field, each with the row of its own session (session identifiers are distinct), so the aliasing of Python objects is not captured.
- Regime match, paper degradation and promotion verdicts of a tier are inputs of the poll, as are exchange fills; the exit time in a trade record is not recorded.
- Instants finer than a millisecond and the refusal of naive datetimes.
- FundingRates.FetchFundingHistory: the page limit is any number from 2 up (the source uses 1000), over a history that does not change during the fetch; retries and rate limiting are left out.
- FundingRates.FundingCache.LoadOrFetch: one symbol's cache; the history is immutable, so a cache that claims to cover a future end is not modelled as growing stale.
- `compute_thrust`, `window_flows`, `fetch_candles`, the Farside table parser and the other caches: thin, or dependent on the server.
- Signal generators, sweep and backtest scripts, the engine, post-mortems, the frontend, migrations and API authentication.
