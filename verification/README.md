# Verified kernels of a crypto market-risk daemon

A Dafny model of the numerical and protocol kernels of the daemon, with proofs about every input, every run or
every reachable state. The kernels are: bounded Bayesian changepoint detection; isotonic, Platt and beta probability
calibration with their support algebra, selection and error metrics; log-first ingestion with crash recovery; the
integer capacity planner; the lexer that polices generated bindings; and stratified base rates.

`dafny verify dfyconfig.toml` checks the whole project.

## How to read it

| files | kernel |
|---|---|
| `RealSums`, `Results`, `Sorting`, `Vectors` | shared arithmetic, failures, a stable sort, dot products |
| `Nig`, `Histories`, `Recurrence`, `Bocpd` | conjugate state, brute-force histories, the run-length recurrence, the detector object |
| `Pav`, `PavOptimality`, `PavTies`, `PavNecessity`, `Isotonic`, `IsotonicOptimality` | pooling adjacent violators, when it is optimal, the isotonic calibrator and its optimality in arrival order |
| `Kish`, `Clusters`, `Support` | effective sample size, sums by episode cluster, summaries and their recombination |
| `Logistic`, `LogisticFit`, `LineSearch`, `Curve` | the convex objective, projected descent, when its line search succeeds, monotone calibration of horizon curves |
| `Selection`, `Tallies`, `Metrics`, `AdaptiveError` | choosing a calibrator, expected and adaptive calibration error |
| `Ingestion`, `Runtime`, `Lifecycle`, `Readiness` | the ingestion engine, log replay, the daemon as a transition system, when readiness means completeness |
| `Checked`, `Capacity`, `CapacityFits`, `Admission`, `Downgrade`, `CapacityStartup` | checked arithmetic, the estimate, when it overflows, admission, downgrades, start-up |
| `Lexer`, `LexerRoundTrip`, `ClientPolicy` | the token cursor, print/lex round trip, the client-module policy |
| `BaseRate` | the five count tables and the fallback that reads them |

Conventions:

- Floating-point numbers are `real`. The theorems are about exact arithmetic; infinities, not-a-number values and
  rounding do not occur. Compensated summation is written out and its compensation stays zero.
- The detector carries probabilities where the program carries their logarithms, so a log-sum-exp is a sum and the
  normalisation test compares with 1. The predictive density and the least representable probability are parameters.
- `sigmoid` and `softplus` are parameters. Where a proof needs more, it assumes that `sigmoid` is the slope of a convex
  `softplus`, for curves also that it rises strictly within (0, 1), and for the line search that `softplus` exceeds its
  tangent by at most an eighth of the squared step.
- The order book and the venue decoder are an arbitrary deterministic step function. An append to the log can succeed,
  be lost, or reach the log and still report failure. Evidence hashes are left out of values and comparisons.
- The final check before a run reports ready is the code's: a published, healthy snapshot of the expected source and
  instrument at sequence 102 with the expected prices. Each name stands for a name with its generation, and the two
  prices are configuration.
- The consumer looks at the watch, then at the queue, then waits. The watch may stir between any two of these, whether
  it was set to true, sent again as false, or dropped.
- A library sort is a stable insertion sort; a `BTreeMap` is a `map`, read in any order.

## What came out of it

- Pooling is not always the least-squares fit. A row that repeats the last logit joins a block that may already reach
  below it. Pooling is optimal under every weighting exactly when the sorted logits and outcomes show no late rise: a
  negative then a positive at one logit, above a positive whose logit some negative reaches. Distinct logits, or
  positives before negatives inside each tie, never show one. For one fixed weighting the exact condition is that no
  pooled block has a low prefix. Sorting neither makes nor removes a late rise, so rows can be judged in arrival
  order. `IsotonicOptimality.LATE_RISE` is a valid eight-row set that fails.
- A record the engine refuses is in the log before it is refused, so every later start fails in the same way.
- If the cancellation watch stirs without being set, the producer may stop early, and a run can report ready on a proper
  prefix of the fixture. This can happen exactly when some proper prefix already replays to an engine that passes the
  final check. If the watch is only ever set to true, a ready run has logged the whole fixture, and the producer never
  fails on a closed queue.
- Per-horizon leakage checks do not suffice for joint selection: the recombination check refuses the pool exactly when
  some horizon's fit rows share an entity episode with some horizon's selector rows.
- The client-module policy misses a declaration exactly when its `mod` was consumed as an operand of an earlier one,
  as in `mod mod a_client ;`. A raw `r#mod` counts as such a token. It misses nothing when no two `mod` tokens are
  within two of each other.
- The base-rate fit checks the known-at time before the origin time. Since an observation is never known before its
  origin, the origin check can never be the one that fails.
- The line search cannot run dry when some allowed halving, times a curvature bound read off the rows and the penalty, is
  at most 1.9998.
- The changepoint probability is 1 exactly while no more values than the window have been seen, or always when the
  window equals the run-length bound.
- In a calibrated curve the order check can only fail at a dip of the raw scores that the tolerance let pass.

## Model

| member | source | states |
|---|---|---|
| `NormalInverseGamma.Updated` | crates/changepoint/src/nig.rs:75-89 | the conjugate step keeps all parameters admissible |
| `NormalInverseGamma.EnergyStep` | crates/changepoint/src/nig.rs:75-89 | one step adds exactly the squared observation to 2 beta + kappa mu^2, and never lowers beta |
| `NormalInverseGamma.BatchClosedForm` | crates/changepoint/src/nig.rs:75-89 | updating one value at a time equals the closed batch posterior |
| `NormalInverseGamma.BatchOrderIndependent` | crates/changepoint/src/nig.rs:75-89 | the posterior depends only on the multiset of observations |
| `Histories.AllHistoriesExact` | crates/changepoint/src/bocpd.rs:257-309 | the brute-force list holds exactly the grow-or-restart histories whose run never exceeds the bound |
| `Histories.AllHistoriesDistinct` | crates/changepoint/src/bocpd.rs:257-309 | the brute-force list repeats no history |
| `Histories.GrowMass` | crates/changepoint/src/bocpd.rs:264-288 | the history mass at run length r + 1 is the mass at r times survival and density |
| `Histories.ResetMass` | crates/changepoint/src/bocpd.rs:264-288 | the history mass at run length 0 gathers one restart term from every run length |
| `Histories.TotalIsSumOfMasses` | crates/changepoint/src/bocpd.rs:289-309 | splitting all histories by final run length loses no mass |
| `Recurrence.JointIsMass` | crates/changepoint/src/bocpd.rs:257-288 | each joint entry, scaled by past evidence, is the brute-force mass of the longer histories |
| `Recurrence.PosteriorStep` | crates/changepoint/src/bocpd.rs:289-309 | normalising after every step equals normalising the history sum once |
| `Recurrence.StatisticsStep` | crates/changepoint/src/bocpd.rs:311-319 | the statistic at run length r stays the prior updated on exactly the last r values |
| `Recurrence.AdvanceDescribes` | crates/changepoint/src/bocpd.rs:235-341 | a successful step keeps posterior and statistics equal to their brute-force meaning |
| `Recurrence.EvidenceSplit` | crates/changepoint/src/bocpd.rs:264-309 | restart, kept growth and truncated growth account for the whole predicted mass |
| `Recurrence.TruncationIdentity` | crates/changepoint/src/bocpd.rs:289-309 | reset probability times one minus the discarded tail is exactly the hazard, and nothing is discarded before the bound |
| `Recurrence.AdvanceFailsExactly` | crates/changepoint/src/bocpd.rs:289-309 | the step reports a numerical failure exactly when some kept run has no density, an underflow exactly when the densities exist and a normalised probability or the discarded tail falls below the floor, and succeeds otherwise |
| `Recurrence.RunRefinesHistories` | crates/changepoint/src/bocpd.rs:235-341 | over any successful run the posterior is the normalised sum over all bounded histories, sums to 1 and has length min(n, bound) + 1 |
| `Bocpd.ChangepointCertainEarly` | crates/changepoint/src/bocpd.rs:364-375 | the changepoint probability is a probability, and is 1 exactly while at most the window has been seen or when the window equals the run-length bound |
| `Bocpd.ExpectedRunLengthBounds` | crates/changepoint/src/bocpd.rs:364-404 | the expected run length lies between 0 and the longest run kept |
| `Bocpd.Detector.constructor` | crates/changepoint/src/bocpd.rs:198-221 | a fresh detector holds the prior and certainty of run length 0 |
| `Bocpd.Detector.Update` | crates/changepoint/src/bocpd.rs:235-341 | succeeds exactly for a causal successor that fits the counter and does not underflow; each failure has the error of the first check that fails and changes nothing |
| `Bocpd.Detector.UpdateStatistics` | crates/changepoint/src/bocpd.rs:311-319 | the shifting loop yields the batch statistics of every kept run |
| `Bocpd.Detector.Reset` | crates/changepoint/src/bocpd.rs:343-362 | forgets everything but the reset count, and fails only when that count is full |
| `Bocpd.Detector.CurrentOutput` | crates/changepoint/src/bocpd.rs:364-404 | in every reachable state the output satisfies the normalisation, truncation, window and run-length laws |
| `Pav.PoolOrders` | crates/calibration/src/isotonic.rs:40-70 | block means never fall, ties included |
| `PavOptimality.PrefixesMakeOptimal` | crates/calibration/src/isotonic.rs:40-70 | without low prefixes the block means beat every other nondecreasing function by the distance between the two |
| `PavOptimality.LowPrefixBeaten` | crates/calibration/src/isotonic.rs:40-70 | a low prefix yields a strictly better nondecreasing function |
| `PavOptimality.OptimalIffPrefixesAbove` | crates/calibration/src/isotonic.rs:40-70 | ordered block means are the weighted least-squares fit exactly when no block hides a low prefix |
| `PavTies.MergeKeepsPrefixes` | crates/calibration/src/isotonic.rs:56-70 | every merge keeps each block prefix at or above the block mean |
| `PavTies.PoolKeepsPrefixes` | crates/calibration/src/isotonic.rs:42-70 | without a late rise no step of the stack algorithm hides a low prefix |
| `PavTies.UsualInputsHaveNoLateRise` | crates/calibration/src/isotonic.rs:44-48 | distinct logits, or positives first inside every tie, exclude a late rise |
| `PavTies.PoolingOptimal` | crates/calibration/src/isotonic.rs:40-70 | without a late rise pooling is the least-squares fit |
| `PavTies.PoolingOptimalIff` | crates/calibration/src/isotonic.rs:40-70 | for given weights, pooling is optimal exactly when no pooled block hides a low prefix |
| `PavNecessity.CutsOnlyDisappear` | crates/calibration/src/isotonic.rs:42-70 | a block border, once merged away, never comes back |
| `PavNecessity.LateRiseExposed` | crates/calibration/src/isotonic.rs:44-48 | any late rise can be weighted so that pooling is beaten |
| `PavNecessity.OptimalUnderAllWeightsIff` | crates/calibration/src/isotonic.rs:40-70 | pooling is optimal under every weighting exactly when there is no late rise |
| `Isotonic.Pool` | crates/calibration/src/isotonic.rs:42-70 | the nested stack loop computes the specified pooling with its totals |
| `Isotonic.PoolingConserves` | crates/calibration/src/isotonic.rs:42-70 | total and positive weight are conserved, whatever the ties |
| `Isotonic.PoolingShape` | crates/calibration/src/isotonic.rs:42-70 | upper logits rise strictly, means never fall and stay in [0, 1] |
| `Isotonic.SortOrders` | crates/calibration/src/isotonic.rs:38-40 | rows come out in logit order and tied rows keep their order |
| `Isotonic.FitValidates` | crates/calibration/src/isotonic.rs:71-95 | every fit of a valid set passes its own validation |
| `Isotonic.Fit` | crates/calibration/src/isotonic.rs:27-95 | succeeds exactly on valid sets, with the specified calibrator; too few or too many rows and a bad weight have their own errors, and the fit never fails its own validation |
| `Isotonic.CalibrateMonotone` | crates/calibration/src/isotonic.rs:103-116 | the lookup is nondecreasing in the logit |
| `Isotonic.LookupFindsBlock` | crates/calibration/src/isotonic.rs:103-116 | looking up a training logit lands in the block its row was pooled into |
| `Isotonic.FitReproducesPooling` | crates/calibration/src/isotonic.rs:71-116 | on its own rows the calibrator returns the pooled mean pulled off the boundary |
| `IsotonicOptimality.NoLateRiseInAnyOrder` | crates/calibration/src/isotonic.rs:38-40 | the stable sort neither makes nor removes a late rise |
| `IsotonicOptimality.FitIsLeastSquares` | crates/calibration/src/isotonic.rs:27-116 | for a valid set in any order without a late rise, the calibrator returns on every row the least-squares level pulled off the boundary |
| `IsotonicOptimality.FitOptimalUnderAllWeightsIff` | crates/calibration/src/isotonic.rs:38-70 | sorting then pooling is optimal under every weighting exactly when the rows as they arrive show no late rise |
| `IsotonicOptimality.LateRiseNotOptimal` | crates/calibration/src/isotonic.rs:44-48 | a valid eight-row set with ties whose fit is not the least-squares one |
| `Kish.CauchySchwarz` | crates/calibration/src/lib.rs:524-560 | the squared sum of weights is at most their number times the sum of squares |
| `Kish.EffectiveBounds` | crates/calibration/src/lib.rs:524-560 | the effective size lies between 1 and the number of weights |
| `Kish.EffectiveSampleSize` | crates/calibration/src/lib.rs:524-560 | the scaled computation succeeds exactly on nonempty positive weights and returns the effective size |
| `Kish.CompensatedAdd` | crates/calibration/src/lib.rs:569-574 | exactly, compensated addition is addition |
| `Clusters.GatherPermutation` | crates/calibration/src/contract.rs:809-827 | totals and cluster sums do not depend on row order |
| `Clusters.GatherConcat` | crates/calibration/src/contract.rs:809-827 | totals of rows that share no cluster add up field by field |
| `Clusters.ClustersConserve` | crates/calibration/src/contract.rs:815-826 | grouping by cluster conserves total weight |
| `Support.FromRows` | crates/calibration/src/contract.rs:809-863 | a summary is built exactly for nonempty rows of positive weight, whatever order the cluster map is read in |
| `Support.ScaledSumOfSquares` | crates/calibration/src/contract.rs:1842-1871 | returns the largest weight and the sum of squares scaled by it, exactly for nonempty positive weights |
| `Support.CompensatedTotal` | crates/calibration/src/contract.rs:1834-1840 | sums nonnegative weights and refuses a negative one |
| `Support.ListClusters` | crates/calibration/src/contract.rs:822-826 | reading the cluster map in any order lists the same weights |
| `Support.SumByCluster` | crates/calibration/src/contract.rs:815-821 | the map loop sums rows by entity and episode |
| `Support.ScaledBounds` | crates/calibration/src/contract.rs:872-918 | scaled totals lie between 1 and the number of weights |
| `Support.KishFromSummaries` | crates/calibration/src/contract.rs:1896-1919 | the summaries alone recover the effective size exactly |
| `Support.SummaryValidates` | crates/calibration/src/contract.rs:872-918 | every summary passes its own check, with effective size between 1 and the number of clusters |
| `Support.SummaryPermutation` | crates/calibration/src/contract.rs:809-863 | a summary does not depend on row order |
| `Support.CombineConcat` | crates/calibration/src/contract.rs:1873-1894 | combining two scaled sums of squares gives that of both lists together |
| `Support.DisjointRecombines` | crates/calibration/src/contract.rs:1099-1188 | disjoint fit and selector rows recombine to the summary of their union |
| `Support.RecombinesIffDisjoint` | crates/calibration/src/contract.rs:1099-1188 | the recombination check accepts the pooled rows, in any order, exactly when fit and selector share no entity episode |
| `Support.JointRecombinesIff` | crates/calibration/src/contract.rs:1476-1518 | pooling horizons passes exactly when every fit set is apart from every selector set |
| `Logistic.ObjectiveTangent` | crates/calibration/src/platt.rs:231-305 | the computed gradient is a subgradient of the computed objective |
| `Logistic.NormZeroIffStationary` | crates/calibration/src/platt.rs:262-280 | the projected norm vanishes exactly at first-order points of the monotone cone |
| `Logistic.StepDescends` | crates/calibration/src/platt.rs:198-216 | a projected step never points uphill, and strictly downhill unless the projected norm is zero |
| `Logistic.StoppingPointNearOptimal` | crates/calibration/src/platt.rs:171-229 | within tolerance, no feasible rival is better by more than tolerance times its reach |
| `LogisticFit.LogisticObjective` | crates/calibration/src/platt.rs:282-305 | the loops evaluate the weighted loss plus ridge, and refuse a total weight that is not positive |
| `LogisticFit.LogisticGradient` | crates/calibration/src/platt.rs:231-260 | the loops evaluate the gradient, penalising all but the intercept |
| `LogisticFit.SufficesImproves` | crates/calibration/src/platt.rs:198-218 | a step that meets the sufficient-decrease test strictly lowers the objective |
| `LogisticFit.Backtrack` | crates/calibration/src/platt.rs:195-224 | the line search returns the first halving that meets the sufficient-decrease test, if any is allowed, within the evaluation budget |
| `LogisticFit.FitLogistic` | crates/calibration/src/platt.rs:171-229 | returns the first iterate that meets the tolerance and gives up only when none does in time; it keeps the prefix nonnegative, never raises the objective and uses at most 1 + iterations x steps evaluations; the other errors occur exactly as configured |
| `LogisticFit.CounterFits` | crates/calibration/src/lib.rs:398-424 | the evaluation counter cannot overflow under a valid configuration |
| `LogisticFit.FitNearOptimal` | crates/calibration/src/platt.rs:171-229 | whatever the descent returns is near-optimal against every feasible rival |
| `LineSearch.DotCauchySchwarz` | crates/calibration/src/platt.rs:231-305 | the squared dot product of two vectors is at most the product of their squared lengths |
| `LineSearch.ObjectiveSmooth` | crates/calibration/src/platt.rs:231-305 | the objective exceeds its tangent by at most half a curvature bound times the squared step |
| `LineSearch.StepAgainstGradient` | crates/calibration/src/platt.rs:198-206 | the squared length of a projected step is at most the step size times the slope it descends |
| `LineSearch.ShortStepSuffices` | crates/calibration/src/platt.rs:195-224 | a step times the curvature bound of at most 1.9998 always meets the sufficient-decrease test |
| `LineSearch.IteratesExist` | crates/calibration/src/platt.rs:171-229 | when some allowed halving is that short, every iterate exists and stays feasible, so the descent can only end by tolerance or by the iteration limit |
| `Curve.MethodMonotone` | crates/calibration/src/beta.rs:72-85 | valid Platt, beta and isotonic maps are all nondecreasing into (0, 1) |
| `Curve.CalibrateCurve` | crates/calibration/src/contract.rs:1557-1590 | the loop accepts exactly the curves that line up, rise raw and calibrated up to the tolerance, and whose every score its artifact accepts; a curve whose only fault is a score its artifact refuses is reported as incompatible, and without such a score that error never occurs |
| `Curve.RisingRawIsEnough` | crates/calibration/src/contract.rs:1557-1590 | if raw scores never fall the calibrated check never fires |
| `Curve.DipsDecide` | crates/calibration/src/contract.rs:1570-1585 | the calibrated check is decided at raw dips alone |
| `Selection.Assess` | crates/calibration/src/contract.rs:1331-1388 | every kind gets its standing, and the eligible ones are ranked by score then kind |
| `Selection.Choose` | crates/calibration/src/contract.rs:1328-1418 | a candidate is chosen exactly when some kind fits, scores and refits, and three candidates are reported |
| `Selection.SelectRows` | crates/calibration/src/contract.rs:1312-1441 | insufficient support, no eligible candidate, invalid weights and leaked episodes are each reported exactly when they are the first thing wrong; otherwise the best candidate that refits is returned with three reports |
| `Selection.ChosenUnique` | crates/calibration/src/contract.rs:1383-1418 | the choice is determined: at most one kind qualifies |
| `Selection.ChosenIsBestReported` | crates/calibration/src/contract.rs:1397-1418 | the chosen kind beats every candidate still eligible, and every better one was demoted for its failed refit |
| `Tallies.GapSplits` | crates/calibration/src/select.rs:256-262 | splitting a group never shrinks the total gap |
| `Tallies.ShareIs` | crates/calibration/src/select.rs:256-262 | a group's share of the error is its gap over the total weight, empty groups included |
| `Metrics.BinIndex` | crates/calibration/src/select.rs:390-402 | every score falls in a bin whose bounds contain it |
| `Metrics.ReliabilityBins` | crates/calibration/src/select.rs:390-430 | scattering into arrays gives each bin the totals of exactly its rows |
| `Metrics.BinsConserve` | crates/calibration/src/select.rs:390-430 | the bins partition rows, weight, probability and events |
| `Metrics.BinSound` | crates/calibration/src/select.rs:404-430 | a bin's mean lies within its bounds and its effective size within its count |
| `Metrics.ExpectedErrorSandwich` | crates/calibration/src/select.rs:256-262 | the expected error lies between the gap of the overall means and the weighted absolute error |
| `AdaptiveError.Adaptive` | crates/calibration/src/select.rs:432-468 | the nested loops compute the grouped error of the sorted rows |
| `AdaptiveError.FindGroup` | crates/calibration/src/select.rs:439-451 | the inner loops find the end of the next group |
| `AdaptiveError.GroupShape` | crates/calibration/src/select.rs:437-466 | groups cover the rows in order and all but the last carry the target weight |
| `AdaptiveError.GroupsSeparate` | crates/calibration/src/select.rs:442-447 | equal scores are never split across groups |
| `AdaptiveError.GroupsAtMostBins` | crates/calibration/src/select.rs:432-468 | there are at most as many groups as bins |
| `AdaptiveError.AdaptiveSandwich` | crates/calibration/src/select.rs:432-468 | the adaptive error obeys the same two bounds |
| `Ingestion.IngestionEngine.AppendAndSync` | apps/cryptoriskd/src/runtime.rs:313-343 | an append consumes a sequence number exactly when acknowledged, and may reach the log even when it is not |
| `Ingestion.IngestionEngine.ProcessNew` | apps/cryptoriskd/src/runtime.rs:173-186 | a record is durable before it is processed; a failed append touches neither book nor publication |
| `Ingestion.DegradedStep` | apps/cryptoriskd/src/runtime.rs:188-297 | a degraded engine stays silent unless the record applies a snapshot |
| `Ingestion.DegradedUntilSnapshot` | apps/cryptoriskd/src/runtime.rs:188-297 | over any run without an applied snapshot a degraded engine publishes nothing and stays degraded |
| `Ingestion.BookIgnoresHealth` | apps/cryptoriskd/src/runtime.rs:188-283 | health and publication never feed back into the book |
| `Ingestion.ProcessedPublication` | apps/cryptoriskd/src/runtime.rs:240-283 | whatever is published anew was read from the book built by logged records |
| `Runtime.Replay` | apps/cryptoriskd/src/runtime.rs:499-539 | replay accepts exactly the well-numbered logs whose payloads are a prefix of the fixture |
| `Lifecycle.EpochNumbering` | apps/cryptoriskd/src/runtime.rs:499-539 | an accepted log numbers epochs 1, 2, ... without gaps and records 1, 2, ... inside each |
| `Lifecycle.ActionKeeps` | apps/cryptoriskd/src/runtime.rs:499-618 | every action, from start to crash, keeps the system invariant |
| `Lifecycle.AlwaysSafe` | apps/cryptoriskd/src/runtime.rs:499-618 | the invariant holds after every list of actions |
| `Lifecycle.LogAlwaysReplays` | apps/cryptoriskd/src/runtime.rs:499-582 | over any starts, partial runs and crashes the log stays a fixture prefix that replay accepts |
| `Lifecycle.RunningMatchesUninterrupted` | apps/cryptoriskd/src/runtime.rs:540-618 | between records a live engine is in the state of a run that never crashed |
| `Lifecycle.ReadyMatchesUninterrupted` | apps/cryptoriskd/src/runtime.rs:588-627 | a ready run holds the replay of the fixture prefix it logged and passed the final check; undisturbed, that prefix is the whole fixture |
| `Lifecycle.RefusedRecordStopsEveryStart` | apps/cryptoriskd/src/runtime.rs:173-186 | once a refused record is logged every start fails with its error, and no ready run ever logged it |
| `Lifecycle.LoopEndsDrained` | apps/cryptoriskd/src/runtime.rs:588-618 | whenever the consumer loop ends, everything the queue accepted is appended once and in order |
| `Lifecycle.SetWatchNeverFails` | apps/cryptoriskd/src/runtime.rs:690-718 | if the watch is only ever set to true, the producer never fails on a closed queue |
| `Lifecycle.SetWatchReadyIsComplete` | apps/cryptoriskd/src/runtime.rs:588-627 | if the watch is only ever set to true, a ready run has logged the whole fixture |
| `Lifecycle.MovesBurnFuel` | apps/cryptoriskd/src/runtime.rs:588-618 | every move of the daemon shrinks a bound that nothing outside can raise, so no run goes on forever |
| `Lifecycle.NoDeadlock` | apps/cryptoriskd/src/runtime.rs:588-718 | with any queue room a live run always has a move of its own |
| `Readiness.PrefixReportsReady` | apps/cryptoriskd/src/runtime.rs:588-627 | any fixture prefix that replays to an engine passing the final check can be reported ready with only that prefix logged |
| `Readiness.ReadyMeansCompleteIff` | apps/cryptoriskd/src/runtime.rs:588-627 | every ready run has logged the whole fixture exactly when no proper prefix already passes the final check |
| `Readiness.LengthenedFixtureCutsShort` | apps/cryptoriskd/src/runtime.rs:786-803 | lengthening a fixture that ends ready lets a run stop at its old end |
| `Checked.PpmExact` | crates/capacity/src/estimate.rs:297-302 | parts-per-million scaling rounds up and stays positive |
| `Checked.HeadroomExact` | crates/capacity/src/estimate.rs:304-306 | a headroom ratio never overstates capacity |
| `Checked.RatioCeilExact` | crates/capacity/src/estimate.rs:308-310 | a demand ratio never understates demand |
| `Checked.BudgetExact` | crates/capacity/src/estimate.rs:319-321 | a budget never exceeds what the reserve leaves |
| `Checked.HeadroomAntitone` | crates/capacity/src/estimate.rs:304-306 | less demand leaves at least as much headroom and overflows no earlier |
| `Capacity.FlowPositive` | crates/capacity/src/estimate.rs:57-120 | every rate of a valid workload is positive, so nothing divides by zero |
| `CapacityFits.CalculateFitsIff` | crates/capacity/src/estimate.rs:57-290 | the estimate of a valid input exists exactly when a list of exact integer products and sums of its fields stays within 64 bits |
| `Capacity.CalculateExact` | crates/capacity/src/estimate.rs:57-290 | when it exists each decisive figure equals its unbounded-integer specification |
| `Admission.CollectReasons` | crates/capacity/src/admission.rs:89-136 | the insertions collect exactly the reasons that apply |
| `Admission.NoReasonsMeansRoom` | crates/capacity/src/admission.rs:89-136 | an input without reasons satisfies the exact headroom, CPU, memory and retention inequalities over its own fields: rounding is on the safe side |
| `Downgrade.ShrinkingIsSafe` | crates/capacity/src/estimate.rs:57-290 | shrinking a valid workload pointwise introduces neither an overflow nor a reason |
| `Downgrade.EstimateShrinks` | crates/capacity/src/estimate.rs:57-290 | every decisive figure of a smaller workload is at least as good |
| `Downgrade.BaselineChangesOnlyMemoryAndRetention` | crates/capacity/src/admission.rs:138-170 | dropping tiers B and C can only remove memory and retention reasons |
| `Downgrade.DowngradeSound` | crates/capacity/src/admission.rs:138-170 | a downgrade never fails after an estimate, its proposal is never rejected, and no proposal means rejection even then |
| `Downgrade.AdmitFailsOnlyOnOverflow` | crates/capacity/src/admission.rs:70-87 | admission of a valid input fails exactly on overflow and asks for evidence exactly without reasons |
| `CapacityStartup.TierGrows` | apps/cryptoriskd/src/capacity_startup.rs:118-160 | more venues never lower a tier total |
| `CapacityStartup.EnforceFoundationCapacity` | apps/cryptoriskd/src/capacity_startup.rs:118-203 | the six accumulators give the specified verdict, overflow included |
| `CapacityStartup.MoreVenuesNeverHelp` | apps/cryptoriskd/src/capacity_startup.rs:118-203 | adding a venue never turns a rejected start into an accepted one or drops a reason |
| `Lexer.RustTokens.NextOne` | build-support/generated_binding_policy.rs:39-83 | the cursor yields the next token, always advances and never leaves the text |
| `Lexer.RustTokens.ReadToken` | build-support/generated_binding_policy.rs:58-83 | reads the identifier or byte at the cursor and moves past it |
| `Lexer.IdentifierEnd` | build-support/generated_binding_policy.rs:86-94 | stops at the first byte that cannot continue a word |
| `Lexer.LiteralEnd` | build-support/generated_binding_policy.rs:96-119 | finds the end of every literal form, or none |
| `Lexer.RawStringEnd` | build-support/generated_binding_policy.rs:121-142 | finds the closer with as many hashes as the opener |
| `Lexer.QuotedStringEnd` | build-support/generated_binding_policy.rs:144-154 | finds the first unescaped quote or the end |
| `Lexer.CharLiteralEnd` | build-support/generated_binding_policy.rs:156-167 | finds the end of a character literal, and none for a lifetime |
| `Lexer.EscapedCharEnd` | build-support/generated_binding_policy.rs:169-182 | measures each escape form |
| `Lexer.SkipNestedBlockComment` | build-support/generated_binding_policy.rs:184-198 | skips to the closer that matches the opener |
| `LexerRoundTrip.BodySkips` | build-support/generated_binding_policy.rs:184-198 | a well-nested comment body is consumed with its closer at any depth |
| `LexerRoundTrip.RawTextSkips` | build-support/generated_binding_policy.rs:121-142 | raw text that hides no closer ends at the real one |
| `LexerRoundTrip.CharacterSkips` | build-support/generated_binding_policy.rs:156-182 | every printed character literal is consumed whole |
| `LexerRoundTrip.TriviaVanishes` | build-support/generated_binding_policy.rs:39-57 | whitespace, comments and literals are invisible to the token stream |
| `LexerRoundTrip.WordIsNoLiteral` | build-support/generated_binding_policy.rs:96-119 | no plain or raw identifier is taken for a literal |
| `LexerRoundTrip.PrintLexes` | build-support/generated_binding_policy.rs:39-83 | printing any items with any trivia between them lexes back to exactly those items |
| `LexerRoundTrip.LeadingTriviaLexes` | build-support/generated_binding_policy.rs:39-83 | leading trivia changes nothing |
| `ClientPolicy.GrpcClientModule` | build-support/generated_binding_policy.rs:4-21 | the loop over the cursor computes the scan over all tokens |
| `ClientPolicy.FindsFirstUneaten` | build-support/generated_binding_policy.rs:4-21 | the policy reports the first client module whose `mod` was not consumed before, and nothing else |
| `ClientPolicy.MissesIffAllEaten` | build-support/generated_binding_policy.rs:4-21 | nothing is reported exactly when every declaration was consumed |
| `ClientPolicy.CompleteOnModsApart` | build-support/generated_binding_policy.rs:4-21 | with `mod` tokens apart the policy is complete |
| `ClientPolicy.PolicyIgnoresTrivia` | build-support/generated_binding_policy.rs:4-83 | over printed text, comments and literals neither fake nor hide a declaration |
| `ClientPolicy.AdjacentModsHide` | build-support/generated_binding_policy.rs:4-21 | on the text `mod mod a_client ; ` nothing is reported although the module is declared |
| `BaseRate.HourCalendar` | crates/baselines/src/base_rate.rs:752-760 | the epoch falls in hour 72, each later hour is the next one modulo 168, and weeks repeat |
| `BaseRate.TableExact` | crates/baselines/src/base_rate.rs:329-386 | each table holds exactly the counts of the observations it files, and only slices that have one |
| `BaseRate.Fit` | crates/baselines/src/base_rate.rs:297-402 | the loop fills the five tables or reports the first offence in id order |
| `BaseRate.FitOrderIndependent` | crates/baselines/src/base_rate.rs:297-402 | result and error depend only on the multiset of observations |
| `BaseRate.OriginNeverOffends` | crates/baselines/src/base_rate.rs:335-344 | the origin check never decides |
| `BaseRate.HoursMakeSeries` | crates/baselines/src/base_rate.rs:354-368 | the 168 hours of a series sum to its unconditional counts, outcome by outcome |
| `BaseRate.HoursMakeRegime` | crates/baselines/src/base_rate.rs:369-386 | the 168 hours of a regime sum to the regime |
| `BaseRate.SlicesNest` | crates/baselines/src/base_rate.rs:354-386 | narrower slices never count more than wider ones |
| `BaseRate.FallbackIsFirstSupported` | crates/baselines/src/base_rate.rs:426-504 | an estimate is the first requested stratum with support, and its level counts those skipped |
| `BaseRate.EstimateCounts` | crates/baselines/src/base_rate.rs:426-504 | on a fitted model an estimate reads exactly the observations of the slice it names |

## Left out

- Floating-point rounding, underflow of intermediate values and the error of compensated summation: exact reals throughout.
- Evidence hashes, serialisation, JSON and TOML parsing, signing: values carry no hashes and no check compares them.
- Detector feature families, lineage identifiers and entropy output: they do not feed the recurrence.
- Order-book and log-segment internals, file handling, rotation and compression: the book is an arbitrary step, the log a list.
- Metrics keys, tracing, gRPC serving and shutdown of the servers: no bearing on the log or the published state.
- Platt and beta feature construction, the rank-deficient intercept and the feature scale diagnostic: only the shared descent is modelled.
- Wilson interval, log loss, Brier score and calibration regression: closed formulas or a second descent of the same kind.
- Beta-Binomial quantiles and the rolling estimate: library numerics, and a two-way version of the same fallback.
- Which field failed capacity validation, and schema versions: validation is one predicate.
- Clocks, randomness and process signals: parameters or actions of the transition system.
- Selection.SelectRows: fitting, scoring and refitting are parameters, so nothing is said about the numbers they return; configuration checks and the construction of the row sets come before it.
- Isotonic.Fit: does not model the period, time-order and reconstructed-probability checks of a set, which come before the sort and read fields the fit does not use.
- Curve.CalibrateCurve: whether an artifact accepts a score is a parameter; it compares identities and times.
- BaseRate.HourCalendar: times before the epoch are not modelled, since observation and query checks refuse them first.
- LogisticFit.FitLogistic: no convergence rate is proved; a run may end at the iteration limit.
- Lexer: text is a sequence of byte-sized characters, and a character literal trusts the length its first byte announces.
- Metrics.ReliabilityBins: needs at least one bin, as the caller checks a count between 2 and 100 first.
