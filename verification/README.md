# Verified models of the spy_der engines

The deterministic engines under the SPY trading system, modelled in Dafny: the option candidate
engine, split conformal calibration, the paper execution ledger, and the time-series kernels behind
features, labels, path forecasts and ensembles. Verify with `dafny verify dfyconfig.toml`.

Prices, probabilities and money are exact reals; hashes and ids are opaque; a raised exception is an
error value beside the state it leaves behind; a NaN or `None` result is an option. Objects that
update their fields (the account book, the simulator, the calibrator, the standardizer) are classes
whose methods are proved against functions of the old state; loops over lists are methods with
invariants; the main theorems are about those functions.

- `Payoff`, `Dominance`, `PointwiseDominance`: finitely many samples of a piecewise-linear payoff
  bound it at every spot; pruning keeps exactly the maximal candidates, in any input order unless quotes
  tie; comparing on a grid is comparing at every spot, up to a stated limit.
- `Geometry`, `GeometryLaws`, `GeometryLoss`: the enumeration is exactly the structures of quoted legs with the
  strikes of their family in place, and the generic loss proof of each is the closed form of its family.
- `Conformal`, `QuantileLaws`: the finite-sample coverage count through the interpolated quantile.
- `Orders`, `Accounts`, `Simulator`, `ExecutionRuns`, `CashLaws`, `ExecutionOutcomes`: an order and ledger
  protocol, with cash conservation in the orders' own totals, progress and blocking over every run.
- `Indicators`, `FirstPassage`, `PathEvents`, `SessionSpans`, `Bootstrap`, `PathSimulation`,
  `SessionConcentration`, `SessionLabels`, `Resample`, `Normalization`, `Ensemble`: bounds and
  symmetries of the kernels, vectorised loops refining scalar definitions, bucket algebra, two-run
  equivariance, and weight capping.
- `IndicatorLaws`, `RegressionLaws`, `PassageLaws`, `PathLaws`, `BootstrapLaws`, `LabelLaws`, `ResampleLaws`,
  `ScoreLaws`, `EnsembleLaws`: what each kernel's number means in prices, bars and weights, said without
  the recurrence or scan that computes it.
- `RealSeqs`, `Multiplicity`, `Blocks`, `Options`: sorting, extrema and sums; occurrence counts; block
  arithmetic; optional values.

## What the proofs show about the code

- Stage 2 of pruning, documented as removing the costlier of two identical payoffs
  (`src/spy_der/candidates/dominance.py:42`), never compares two different costs: the payoff hash
  digests the entry credit, so the comparison always ties and the lower id wins
  (`Dominance.SamePayoffStageNeverComparesCost`).
- Grid dominance is pointwise dominance only up to the top strike plus 50. Beyond it the net call
  quantities decide (`PointwiseDominance.TailIsDecidedByNetCalls`). Pruning is therefore not always
  idempotent: a second pass removes a survivor exactly when one with fewer net calls overtakes it on the
  smaller grid (`PointwiseDominance.IdempotentExactly`, `PointwiseDominance.TopStrikeMatters`); with equal
  net calls it never does.
- Break-evens beyond the far probe are missed exactly under the condition of
  `Payoff.BreakevensAllFoundExactly`; a deep premium is enough (`Payoff.ProbeMissesBreakeven`).
- A candidate id hashes snapshot, version and geometry (`src/spy_der/contracts/candidates.py:147-154`), so
  two quotes of one geometry share it. Stage 1 depends on the input order exactly when two different
  quotes tie for the best of a geometry (`Dominance.QuotesIgnoreOrderExactly`); without such a tie the
  result is the same in any order, and with one it can differ (`Dominance.TiesFollowTheListing`).
- `enforce_max_weight` does not always enforce the maximum. A protected component, one whose raw weight
  is tiny, is never capped even if it dwarfs the others; and when the free or the remaining mass is at
  most epsilon, the final normalization lifts the capped weight above the cap again. The exact condition
  is `Ensemble.CapHoldsExactly`, inputs are in `Ensemble.CapEscapes`. The pass loop always leaves on the
  first pass.
- A quote that comes without an intent rebuilds one with the default buy side, so a resting sell order
  is then booked as a buy (`ExecutionRuns.QuoteEffect`, `ExecutionRuns.SellBookedAsBuy`).
- A submission whose account cannot be opened raises after the order is recorded, and leaves it in
  CREATED for good (`ExecutionRuns.LeftInCreatedExactly`, `ExecutionRuns.CreatedForever`); the default
  account of an intent is such a one (`ExecutionRuns.UnnamedAccountStaysCreated`). Cash moves before the
  status check, which is harmless in every reachable state (`ExecutionRuns.FillNeverStrands`).
- The session concentration of simulated paths is described as that of first blocks, but counts the
  first n_paths draws; the two values agree for every draw stream only under the condition of
  `SessionConcentration.ConcentrationCountsFirstBlocks`. The Gaussian fallback for a library without
  eligible blocks is taken even when the fallback is disabled
  (`PathSimulation.FallbackTakenThoughDisabled`).
- ADX counts the bars before its directional index exists as zeros, so it starts too low: in an unbroken rise it
  is 100 * (1 - ((p - 1) / p)^(n - p)) instead of 100 (`IndicatorLaws.RisingBarsTrend`).
- Resampling in two stages equals resampling at once for all ordered bars exactly when the fine timeframe
  is one minute, daily, or divides the 570 minutes before the open (`Resample.ComposesForAllBarsExactly`);
  an hourly stage, for one, dates a bar at 00:10 a day early (`Resample.EarlyBarChangesDate`). For any
  timeframe it holds for bars whose fine bucket starts on their date (`Resample.ResamplingComposes`).

## Model

| member | source | states |
|---|---|---|
| Payoff.ComputeTerminalPayoff | src/spy_der/candidates/payoff.py:28-38 | The accumulating loop computes credit plus the signed intrinsic value of every leg. |
| Payoff.LinearFrom | src/spy_der/candidates/payoff.py:22-38 | Between two spots with no strike strictly inside, the payoff of any leg list is a straight line. |
| Payoff.TailLine | src/spy_der/candidates/payoff.py:70-71 | Past every strike the payoff is a line whose slope is the net call quantity. |
| Payoff.BuildEvaluationSpots | src/spy_der/candidates/payoff.py:74-87 | The list-building loops produce the sorted, duplicate-free spots: 0, the strikes, one far probe and the midpoints. |
| Payoff.SpotsSpan | src/spy_der/candidates/payoff.py:74-87 | For positive strikes the evaluation spots run strictly increasing from 0 to the far probe, which lies above every strike. |
| Payoff.SampledMinimum | src/spy_der/candidates/payoff.py:137-141 | With net calls not short, the least sampled payoff bounds the payoff at every real spot >= 0 from below. |
| Payoff.SampledMaximum | src/spy_der/candidates/payoff.py:147-154 | With net calls flat, the greatest sampled payoff bounds every spot from above. |
| Payoff.UnboundedExactly | src/spy_der/candidates/payoff.py:123-135 | The proof is refused exactly when no finite lower bound exists. |
| Payoff.MaximumLossIsExact | src/spy_der/candidates/payoff.py:137-145 | For every leg list and credit that is not refused: no spot loses more than the maximum loss; it is attained as soon as any spot loses money; otherwise it is the debit paid, or 0. |
| Payoff.CapitalRequiredIsExact | src/spy_der/candidates/payoff.py:156-170 | For every leg list and credit that is not refused: no spot loses more than the capital required, it is at least the debit paid, and no smaller non-negative amount does both. |
| Payoff.EvaluationSpotsExactly | src/spy_der/candidates/payoff.py:74-87 | The payoff is sampled at 0, at the strikes, halfway between adjacent strikes, and at ten spans of the strikes (each span at least 1) above the highest, 1000 without legs, and nowhere else. |
| Payoff.ProofRecords | src/spy_der/candidates/payoff.py:123-180 | A refused proof reports nothing but its reason; any other records the spots, the payoff at each of them, the break-evens found there, and the hash of spots and payoffs with the credit. |
| Payoff.DebitFloorExactly | src/spy_der/candidates/payoff.py:137-145 | The debit floor is reported exactly when no spot loses money and no credit came in. |
| Payoff.MaximumProfitIsExact | src/spy_der/candidates/payoff.py:147-154 | Among bounded proofs the maximum profit is None exactly when no upper bound exists; otherwise it bounds every spot and is attained as soon as any spot makes money. |
| Payoff.Breakevens | src/spy_der/candidates/payoff.py:90-109 | The two loops collect exactly the sampled zeros and the interpolated zero of every sign change. |
| Payoff.BreakevensSound | src/spy_der/candidates/payoff.py:90-109 | Every reported break-even is a spot up to the far probe at which the payoff is exactly zero. |
| Payoff.BreakevensComplete | src/spy_der/candidates/payoff.py:90-109 | Every zero up to the far probe is reported or lies in a flat zero segment whose ends are reported. |
| Payoff.BreakevenPastProbe | src/spy_der/candidates/payoff.py:78-83 | A zero exists beyond the far probe if and only if the payoff at the probe is still negative with net calls long, or is zero with net calls flat. |
| Payoff.BreakevensAllFoundExactly | src/spy_der/candidates/payoff.py:74-109 | Every zero at any spot >= 0 is reported, or inside a reported flat segment, if and only if the payoff at the probe is >= 0 with net calls long, or not zero with net calls flat. |
| Payoff.ProbeMissesBreakeven | src/spy_der/candidates/payoff.py:78-83 | One call at 100 bought for 50 breaks even at 150, while the probe stands at 110 and nothing is reported. |
| Payoff.HashDeterminesPayoff | src/spy_der/candidates/payoff.py:172-176 | Two proofs with equal payoff hashes have equal entry credit and the same payoff at every spot, tail included. |
| Dominance.MaximalAbove | src/spy_der/candidates/dominance.py:84-98 | In a finite set under a strict order every element is maximal or beaten by a maximal one. |
| Dominance.KeepBest | src/spy_der/candidates/dominance.py:49-61 | For any input, the insertion-ordered keep-best dictionary returns, one per key, the first listed of the candidates nothing of the same key beats. |
| Dominance.FirstBestIsMaximal | src/spy_der/candidates/dominance.py:49-61 | When no two different best candidates of a key tie, the first best are exactly the unbeaten ones, in whatever order they are listed. |
| Dominance.QuotesIgnoreOrderExactly | src/spy_der/candidates/dominance.py:48-61 | What stage 1 keeps is the same for every permutation of the input if and only if no two different quotes of one geometry tie for the best, on quality and on id. |
| Dominance.TiesFollowTheListing | src/spy_der/candidates/dominance.py:35-100 | Two different quotes of one geometry that tie on id and quality: whichever is listed first is the whole pruned result. |
| Dominance.KeepBestQuotes | src/spy_der/candidates/dominance.py:48-61 | For any input, stage 1 keeps per geometry the first of the best quotes; no listed quote of a kept geometry has a higher quality, or the same quality and a lower id; the ids it leaves are distinct, and it keeps exactly the unbeaten quotes when no two tie for the best. |
| Dominance.KeepBestCredits | src/spy_der/candidates/dominance.py:69-82 | Stage 2 keeps, per payoff hash, one candidate, the one with the best credit, lower id on ties: no listed candidate of that payoff has a higher credit, or the same credit and a lower id. |
| Dominance.SharedSpots | src/spy_der/candidates/dominance.py:63-67 | The shared grid is 0, every strike in the universe, and the top strike plus 50. |
| Dominance.VectorsDecide | src/spy_der/candidates/dominance.py:17-32 | The vector comparison decides weak dominance on the whole grid with strict dominance somewhere on it. |
| Dominance.DominatesIsStrictOrder | src/spy_der/candidates/dominance.py:84-96 | Entry credit at least as good together with strict grid dominance is irreflexive and transitive. |
| Dominance.MarkDominatedBy | src/spy_der/candidates/dominance.py:90-96 | One pass of the inner loop marks only dominated candidates, and leaves none that this candidate dominates unmarked. |
| Dominance.MarkedAreExactlyDominated | src/spy_der/candidates/dominance.py:84-96 | After the double loop, which skips marked candidates on both sides, a candidate is marked if and only if something in the universe dominates it. |
| Dominance.MarkDominated | src/spy_der/candidates/dominance.py:84-96 | The double loop ends with exactly the candidates marked that are not maximal. |
| Dominance.DropDominated | src/spy_der/candidates/dominance.py:84-98 | Stage 3 leaves exactly the maximal elements. |
| Dominance.ApplyDeterministicDominance | src/spy_der/candidates/dominance.py:35-100 | For candidates whose equal ids mean equal geometry: the result is sorted by id and is what stages 2 and 3 leave, maximal in maximal, of the first best quotes; every survivor has the best quality of its geometry among all inputs, and every input is represented; it depends on the set alone when no two quotes of a geometry tie for the best. Nothing for no input. |
| Dominance.ListingUnique | src/spy_der/candidates/dominance.py:98-100 | A set of candidates with distinct ids has a single id-sorted listing. |
| Dominance.PruningIsOrderIndependent | src/spy_der/candidates/dominance.py:48-100 | When no two different quotes of one geometry tie for the best, as with distinct ids, any two outputs for inputs that are permutations of each other are the identical sequence. |
| PointwiseDominance.SurvivorsIncomparableAtEverySpot | src/spy_der/candidates/dominance.py:84-98 | A survivor that is no worse than another at every spot up to the top strike plus 50, at equal-or-better credit, pays exactly the same there. |
| Dominance.EveryInputIsRepresented | src/spy_der/candidates/dominance.py:48-98 | Every input has a surviving representative: some listed quote of its geometry is no worse in quality, some listed candidate of that payoff no worse in credit, and the survivor has no worse a credit than that one and pays no less at any point of the shared grid. |
| Dominance.SamePayoffStageNeverComparesCost | src/spy_der/candidates/dominance.py:69-81 | For candidates carrying their own proof hash, two candidates that meet in stage 2 have the same credit and the same payoff everywhere, so the cost comparison always ties and the id decides. |
| PointwiseDominance.ChordAbove | src/spy_der/candidates/dominance.py:24-32 | Of two chords over one interval the one above at both ends is above throughout. |
| PointwiseDominance.GridDominanceIsPointwise | src/spy_der/candidates/dominance.py:17-32 | Grid dominance holds if and only if the credit is at least as good and the payoff is no lower at every real spot from 0 to top strike + 50, and higher at one of them. |
| PointwiseDominance.TailIsDecidedByNetCalls | src/spy_der/candidates/dominance.py:63-67 | A candidate that is not below another on the grid is not below it at any spot whatever, if and only if it holds at least as many net calls. |
| PointwiseDominance.IdempotentExactly | src/spy_der/candidates/dominance.py:48-100 | Pruning a pruned universe changes nothing if and only if no survivor dominates another on the smaller grid while holding fewer net calls. |
| PointwiseDominance.OnlyShorterTailsOvertake | src/spy_der/candidates/dominance.py:63-96 | A survivor can dominate another on the smaller grid only if it holds strictly fewer net calls. |
| PointwiseDominance.EqualNetCallsIdempotent | src/spy_der/candidates/dominance.py:48-100 | Pruning is idempotent for every universe whose candidates hold the same net calls, a condition known before the call. |
| PointwiseDominance.PruningIsIdempotent | src/spy_der/candidates/dominance.py:48-100 | It is idempotent also whenever some survivor still holds the top strike. |
| PointwiseDominance.SampleMids | src/spy_der/candidates/payoff.py:41-54 | The credits of the three candidates of the counterexample come from non-negative mid prices. |
| PointwiseDominance.TopStrikeMatters | src/spy_der/candidates/dominance.py:63-67 | A put spread sold for 0.3 and two calls, all with bounded proofs: pruning them is not idempotent, because the spread overtakes a call on the smaller grid, and that call pays more at spot 656. |
| Geometry.IndexChain | src/spy_der/candidates/geometry.py:42-54 | The single expiration if there is one, the last quote listed for each type and strike, and the sorted distinct strikes. |
| Geometry.StrikesWithin | src/spy_der/candidates/geometry.py:69-100 | Exactly the strikes whose relative distance out of the money lies in the configured range, for shorts and for longs. |
| Geometry.CreditVerticals | src/spy_der/candidates/geometry.py:132-146 | The nested loops emit exactly the legal bull put and bear call credit spreads of the chain. |
| Geometry.DebitVerticals | src/spy_der/candidates/geometry.py:148-162 | Exactly the legal call and put debit spreads. |
| Geometry.Singles | src/spy_der/candidates/geometry.py:164-172 | Exactly the legal long calls and long puts. |
| Geometry.Condors | src/spy_der/candidates/geometry.py:174-199 | Exactly the legal iron condors, skew limit and all four quotes included. |
| Geometry.AtTheMoney | src/spy_der/candidates/geometry.py:201-243 | Exactly the legal iron butterflies, broken wings and straddles around the first strike nearest spot. |
| Geometry.Strangles | src/spy_der/candidates/geometry.py:245-260 | Exactly the legal long strangles: both sides out of the money at similar distance. |
| Geometry.Backspreads | src/spy_der/candidates/geometry.py:262-280 | Exactly the legal call and put backspreads. |
| Geometry.EnumerateGeometries | src/spy_der/candidates/geometry.py:109-280 | A geometry is enumerated if and only if it is legal for the chain, spot and configuration; none when spot <= 0, or there is no single expiration or no strike. |
| GeometryLoss.LossFromFloor | src/spy_der/candidates/payoff.py:137-145 | A structure that can lose at most x on its legs, and does so at some spot, has maximum loss max(x - credit, 0). |
| GeometryLoss.WingsLoss | src/spy_der/candidates/geometry.py:174-217 | For shorts kp, kc and wings at distance width > 0 the generic proof is width plus the clamped overlap of the shorts, less the credit. |
| GeometryLoss.LegalLossIsClosedForm | src/spy_der/candidates/geometry.py:132-280 | For positive widths, and any credit, the generic loss proof of every enumerated geometry of every family equals the closed form of its family. |
| GeometryLoss.CondorLossIsWidth | src/spy_der/candidates/geometry.py:174-199 | With short_min_otm >= 0 and positive widths the short strikes never cross, and the maximum loss of a condor is exactly max(width - credit, 0). |
| GeometryLoss.LegalNeverUnbounded | src/spy_der/candidates/geometry.py:132-280 | Every enumerated geometry, whatever the widths, has net call quantity >= 0, so its loss proof is never unbounded. |
| GeometryLaws.MarketExactly | src/spy_der/candidates/geometry.py:42-54 | Anything is enumerated only for a positive spot and at least one quote, all of one expiration; the market then holds the last quote listed per kind and strike, and the listed strikes in order. |
| GeometryLaws.LegalIsTextbook | src/spy_der/candidates/geometry.py:109-280 | A geometry is enumerated if and only if its legs are last quotes of the chain, in the kinds and quantities of an allowed family, with the strikes of that family in place: ranges, configured and equal widths, balance, similarity, nearest strike. |
| GeometryLaws.OtmRange | src/spy_der/candidates/geometry.py:69-100 | A sold strike is a listed one whose distance out of the money lies between the configured parts of the spot, a bought one likewise with its own parts. |
| GeometryLaws.CondorIs | src/spy_der/candidates/geometry.py:174-199 | The skew test of a condor holds exactly when the distances of its shorts from the spot differ by at most the configured part of it. |
| GeometryLaws.StrangleIs | src/spy_der/candidates/geometry.py:245-260 | The distance tests of a strangle hold exactly when its call lies above and its put below the spot, at distances that differ by less than half the call distance. |
| GeometryLaws.NearestPrefersLower | src/spy_der/candidates/geometry.py:201-203 | Between two equally near strikes the at-the-money one is the lower. |
| Conformal.SplitConformalCalibrator.Fit | src/spy_der/forecasting/conformal.py:60-94 | Length mismatch raises and changes nothing; an empty fit sets correction 0, keeps the earlier support and adds a flag to the diagnostics; otherwise correction, support, sessions and diagnostics are those of the scores. |
| Conformal.SplitConformalCalibrator.Apply | src/spy_der/forecasting/conformal.py:96-127 | Raises exactly before a fit; otherwise widens by the correction, multiplied when the OOD score reaches its threshold. |
| Conformal.IndexByRank | src/spy_der/forecasting/conformal.py:79-83 | The virtual index (n - 1) * level of the linear quantile lies in [k - 1, k) for rank 0 < k < n, at 0 below and at n - 1 above. |
| Conformal.QuantileBrackets | src/spy_der/forecasting/conformal.py:79-83 | The interpolated quantile lies between the sorted scores of ranks k and k + 1, or at the extreme one. |
| QuantileLaws.WholeIndex | src/spy_der/forecasting/conformal.py:79-83 | At a whole virtual index the quantile is the sorted value. |
| QuantileLaws.QuantileMovesInProportion | src/spy_der/forecasting/conformal.py:79-83 | Between two whole indices the quantile moves by the change of index times the gap of the two sorted values. |
| QuantileLaws.QuantileMirrors | src/spy_der/forecasting/conformal.py:79-83 | The quantile of the negated values at 1 - level is minus the quantile at level. |
| QuantileLaws.CorrectionIsWeighted | src/spy_der/forecasting/conformal.py:72-83 | For a rank k strictly between 0 and n the correction is k / n of the k-th sorted score plus the rest of the next one. |
| QuantileLaws.ExactlyRankBelow | src/spy_der/forecasting/conformal.py:72-83 | When those two scores differ, exactly k scores lie below the correction and none at it. |
| Conformal.CorrectionCounts | src/spy_der/forecasting/conformal.py:72-83 | The correction reaches at least min(n, ceil((n + 1)c)) scores, in particular at least (n + 1)c of them or all, and when that rank is below n at most that many, fewer than (n + 1)c + 1, lie strictly below it. |
| Conformal.ReachedMeansCovered | src/spy_der/forecasting/conformal.py:105-113 | A point whose score the correction reaches is covered without the ends being exchanged; for a well-ordered base interval it is covered only then. |
| Conformal.CalibrationCoverage | src/spy_der/forecasting/conformal.py:60-113 | Apply after fit covers at least (n + 1)c of the calibration points, or all of them. |
| Conformal.CalibrationFraction | src/spy_der/forecasting/conformal.py:60-113 | For coverage c up to 1 it covers at least the fraction c of the calibration points. |
| Conformal.OodOnlyWidens | src/spy_der/forecasting/conformal.py:105-113 | For a multiplier >= 1 the OOD interval contains the plain one whenever the base interval is well ordered. |
| Conformal.WidenedIsOrdered | src/spy_der/forecasting/conformal.py:105-113 | The ends of the interval are the moved ends, in order: exchanged exactly when they have crossed. |
| Orders.TerminalExactlyWhenStuck | src/spy_der/execution/state_machine.py:9-86 | The terminal predicate holds exactly of the statuses whose successor set is empty. |
| Orders.QuantizeWithinHalfTick | src/spy_der/execution/simulator.py:188 | Rounding the average fill price moves it by at most half a tick. |
| Orders.QuantizeTiesToEven | src/spy_der/execution/simulator.py:188 | A value exactly between two ticks goes to the even one. |
| Accounts.IsolatedAccountBook.Ensure | src/spy_der/execution/accounts.py:30-40 | Opens a missing isolated account at starting cash, refuses an unknown id or a negative balance, changes nothing else. |
| Accounts.IsolatedAccountBook.Block | src/spy_der/execution/accounts.py:45-60 | Sets the block and its reason on one account. |
| Accounts.IsolatedAccountBook.ApplyFill | src/spy_der/execution/accounts.py:62-83 | A blocked account or a negative balance refuses; otherwise cash moves by quantity * price plus fees and one ledger entry is booked. |
| Accounts.IsolatedAccountBook.RegisterPosition | src/spy_der/execution/accounts.py:85-102 | Adds a position id once. |
| Accounts.IsolatedAccountBook.RealizePnl | src/spy_der/execution/accounts.py:104-123 | Moves cash and daily P&L by the amount, or refuses a negative balance. |
| Accounts.IsolatedAccountBook.ClosePosition | src/spy_der/execution/accounts.py:125-147 | The filter loop drops every occurrence of the position; cash moves as for realized P&L. |
| Accounts.BookingKeeps | src/spy_der/execution/accounts.py:62-147 | Updating one account and booking the same amount keeps cash = starting cash + booked entries for every account, with trade count and daily P&L. |
| Accounts.AppliedKeeps | src/spy_der/execution/accounts.py:62-83 | A fill keeps the book conserved and touches no other account. |
| Accounts.RealizedKeeps | src/spy_der/execution/accounts.py:104-147 | Realizing and closing keep the book conserved and touch no other account. |
| Simulator.PaperExecutionSimulator.Submit | src/spy_der/execution/simulator.py:35-81 | Records the order first, then rejects, expires, or acknowledges and tries a fill at the limit; the whole new state and error are fixed. |
| Simulator.PaperExecutionSimulator.OnQuote | src/spy_der/execution/simulator.py:83-106 | Terminal orders are left alone; expiry before any fill attempt; a missing intent is rebuilt as a buy. |
| Simulator.PaperExecutionSimulator.Cancel | src/spy_der/execution/simulator.py:108-118 | Two transitions, or an error that leaves the order as it was. |
| Simulator.PaperExecutionSimulator.MaybeFill | src/spy_der/execution/simulator.py:129-212 | Limit check, roll against probability, partial quantity, fee, cash movement, then the status check, in that order, with all error exits. |
| Simulator.PaperExecutionSimulator.Transition | src/spy_der/execution/simulator.py:214-243 | Same status is a no-op; an unlisted transition raises and changes nothing. |
| Simulator.Discrepancies | src/spy_der/execution/reconciliation.py:25-45 | A discrepancy is reported if and only if it is warranted, each with its own condition. |
| Simulator.ReconciledExactly | src/spy_der/execution/reconciliation.py:25-47 | No discrepancy is warranted exactly when orders, open positions and the expected ledger all agree. |
| Simulator.ReconcileAccount | src/spy_der/execution/reconciliation.py:24-55 | Matches exactly when the account reconciles; on a mismatch the account is blocked, otherwise nothing but its opening changes. |
| ExecutionRuns.FillNeverStrands | src/spy_der/execution/simulator.py:180-194 | In every reachable state a fill whose cash has moved is never refused by the later transition check. |
| ExecutionRuns.SubmitEffect | src/spy_der/execution/simulator.py:35-81 | A submission with a fresh id keeps the invariant, changes no other order or account, and books at most one fill, on the side of the intent. |
| ExecutionRuns.QuoteEffect | src/spy_der/execution/simulator.py:83-106 | A quote keeps the invariant, changes no other order or account, and books at most one fill; a quote without an intent always books a buy. |
| ExecutionRuns.CancelEffect | src/spy_der/execution/simulator.py:108-118 | A cancellation books nothing and keeps the fills of the order. |
| ExecutionRuns.StepKeeps | src/spy_der/execution/simulator.py:35-212 | Every step, raising or not, keeps the invariant, books at most one entry on at most one account, nothing when it raises, and appends exactly the booked fill to exactly its order. |
| ExecutionRuns.StepProgress | src/spy_der/execution/state_machine.py:9-86 | A step leaves an order as it was or strictly decreases (remaining contracts, status rank); terminal orders never move. |
| ExecutionRuns.CreatedIsStuck | src/spy_der/execution/simulator.py:51-53 | An order left in CREATED by a submission that raised is moved by no later step, and no quote for it moves cash. |
| ExecutionRuns.LeftInCreatedExactly | src/spy_der/execution/simulator.py:51-53 | In every reachable state a submission with a fresh id is left in CREATED if and only if its account cannot be opened: no isolated account, or negative starting cash. |
| ExecutionRuns.CreatedForever | src/spy_der/execution/simulator.py:51-53 | Such an order is unchanged at every later point of every run. |
| ExecutionRuns.UnnamedAccountStaysCreated | src/spy_der/execution/simulator.py:51-53 | An intent that keeps the default empty account raises and leaves its order in CREATED. |
| ExecutionRuns.RunSound | src/spy_der/execution/simulator.py:35-243 | The invariant holds at every point of every run with fresh ids that starts in a sound world. |
| ExecutionRuns.RunConservesCash | src/spy_der/execution/accounts.py:62-147 | Over every run cash = starting cash - buy fills + sell fills + realized P&L and is >= 0 for every account; the fills booked for an order are its fills; filled = sum of fills <= requested, fees = sum of fees, FILLED iff filled = requested. |
| CashLaws.SplittingCostsTheSame | src/spy_der/execution/accounts.py:62-83 | Splitting a fill into two of the same price, contracts and fees adding up, costs the same. |
| CashLaws.RunCashIsOutlays | src/spy_der/execution/accounts.py:62-147 | Over every run, for every account: cash is the starting cash, less quantity times price plus fees of every fill booked as a buy, plus the same of every fill booked as a sell, plus realized P&L. |
| CashLaws.RunOrderMovesItsTotals | src/spy_der/execution/simulator.py:129-212 | Over every run: what the entries booked for an order filled on one side moved is its total notional plus its fees, out for a buy and in for a sell. |
| CashLaws.FillTerms | src/spy_der/execution/simulator.py:129-178 | A booked fill has the quoted price, which is no worse than the limit; it takes no more than remains, at the intent fee a contract or the configured one if that is zero, on the account of the order. |
| CashLaws.FillHappensExactly | src/spy_der/execution/simulator.py:129-178 | A try books a fill if and only if contracts remain, the quote is within the limit, the roll within the probability, and the account is open, not blocked and can pay for the contracts. |
| CashLaws.AverageWithinPrices | src/spy_der/execution/simulator.py:186-190 | In every reachable state the average fill price lies within the prices paid, up to half a tick. |
| ExecutionOutcomes.StatusesMoveForward | src/spy_der/execution/state_machine.py:9-86 | Statuses only move forward, except back and forth between a partial fill and a pending cancel; every live status can end in an error, and nothing leads back to CREATED. |
| ExecutionOutcomes.WhereFillsAreAllowed | src/spy_der/execution/state_machine.py:9-86 | Which statuses allow a partial fill, a full fill, a cancel request and an expiry. |
| ExecutionOutcomes.SubmitOutcome | src/spy_der/execution/simulator.py:35-81 | A fresh submission to an account that can be opened is rejected exactly when the account is blocked and the configuration says so, otherwise expired exactly when past its deadline, otherwise filled as far as the one fill booked, or acknowledged. |
| ExecutionOutcomes.QuoteOutcome | src/spy_der/execution/simulator.py:83-106 | A resting order expires exactly when the quote brings an intent past its deadline, gains contracts exactly when a fill is booked, is filled exactly when nothing remains, and otherwise stays as it was. |
| ExecutionOutcomes.UnaccompaniedQuoteFillsExactly | src/spy_der/execution/simulator.py:95-106 | A quote without an intent fills a resting order exactly when it is at or below the limit, the roll is at most 1, and the account is not blocked and can pay the price and 0.65 a contract. |
| ExecutionOutcomes.CancelOutcome | src/spy_der/execution/simulator.py:108-118 | A resting order is canceled, keeping its fills, with no cash moved; a terminal one stays as it was. |
| ExecutionOutcomes.AccountOpensExactly | src/spy_der/execution/accounts.py:30-40 | An account can be used exactly if its name is one of the six isolated ones or a challenger, and it is open already or the starting cash is not negative; a new one holds just the starting cash, and no other changes. |
| ExecutionOutcomes.RealizedExactly | src/spy_der/execution/accounts.py:104-147 | A profit or loss is booked, with its event, exactly if the account can be used and the balance stays non-negative. |
| ExecutionOutcomes.StepMovesOnePosition | src/spy_der/execution/accounts.py:85-147 | A step changes the open positions of at most one account, by the one position it registers or closes. |
| ExecutionOutcomes.RunPositionsDistinct | src/spy_der/execution/accounts.py:85-147 | Over every run, no account ever lists a position twice. |
| ExecutionRuns.OrderPersists | src/spy_der/execution/simulator.py:51 | An order once recorded stays recorded for the rest of the run. |
| ExecutionRuns.ChangesBounded | src/spy_der/execution/state_machine.py:9-86 | An order changes at most requested + 1 times, however long the run. |
| ExecutionRuns.MismatchBlocks | src/spy_der/execution/reconciliation.py:24-49 | In any run, reconciling an account that can be opened against orders, positions and a ledger that do not all agree blocks it for the rest of the run, with no further fill; one that agrees leaves the block as it was. |
| ExecutionRuns.BlockedForever | src/spy_der/execution/accounts.py:64-65 | Once an account is blocked, no later step of any run lifts the block or books a fill on it. |
| ExecutionRuns.SellBookedAsBuy | src/spy_der/execution/simulator.py:95-103 | A two-step run from the empty world: a sell order rests after a roll that does not fill, and a quote without an intent then fills it as a buy, so the account pays 2.65. |
| Indicators.WilderRma | src/spy_der/features/indicators.py:131-139 | The recurrence loop fills exactly the specified average, undefined before `period` samples and for period < 1. |
| Indicators.RmaLinear | src/spy_der/features/indicators.py:131-139 | The Wilder average of a linear combination is the linear combination of the averages. |
| Indicators.RmaMonotone | src/spy_der/features/indicators.py:131-139 | Pointwise smaller series have smaller averages. |
| IndicatorLaws.RmaResponds | src/spy_der/features/indicators.py:131-139 | Changing one value by d moves every later average by d / period times ((period - 1) / period) to the number of bars since, the seed counting as one. |
| IndicatorLaws.TrueRangeIsSpan | src/spy_der/features/indicators.py:154-163 | On valid bars the true range is the span of the bar together with the previous close. |
| Indicators.MoveWithinRange | src/spy_der/features/indicators.py:154-191 | On bars with low <= close <= high, the two directional movements together never exceed the true range. |
| Indicators.DiBounds | src/spy_der/features/indicators.py:193-196 | +DI and -DI are defined together and non-negative at every bar, and on valid bars they sum to at most 100. |
| Indicators.AdxDiBounds | src/spy_der/features/indicators.py:178-199 | ADX exists exactly with 2 * period closes and lies in [0, 100]; the DI bounds hold for the returned values. |
| IndicatorLaws.RisingBarsTrend | src/spy_der/features/indicators.py:178-199 | In an unbroken rise of valid bars -DI is 0, +DI is positive, and ADX is exactly 100 * (1 - ((period - 1) / period)^(n - period)). |
| IndicatorLaws.DxMeasuresImbalance | src/spy_der/features/indicators.py:193-198 | The directional index lies in [0, 100], is 0 exactly for equal DI and 100 exactly when only one is 0, and depends on their proportion alone. |
| IndicatorLaws.MirroredBarsExchange | src/spy_der/features/indicators.py:178-199 | Turning the bars upside down exchanges the two DI and keeps ADX. |
| Indicators.RsiBounds | src/spy_der/features/indicators.py:202-217 | RSI exists exactly with period + 1 closes and lies in [0, 100]. |
| Indicators.RsiMirror | src/spy_der/features/indicators.py:202-217 | The RSI of c - close is 100 minus the RSI of close, flat and loss-free series included. |
| IndicatorLaws.RisingScoresHundred | src/spy_der/features/indicators.py:202-217 | A series that never falls, and rises somewhere in the averaged stretch, has RSI 100. |
| IndicatorLaws.FallingScoresZero | src/spy_der/features/indicators.py:202-217 | A series that never rises, and falls there, has RSI 0. |
| IndicatorLaws.FlatScoresFifty | src/spy_der/features/indicators.py:202-217 | A flat series has RSI 50. |
| IndicatorLaws.RaisingTheLastClose | src/spy_der/features/indicators.py:202-217 | Raising the last close never lowers RSI. |
| Indicators.CauchySchwarz | src/spy_der/features/indicators.py:250-262 | (a . b)^2 <= (a . a)(b . b) for the sums the regression uses. |
| Indicators.RSquaredBounds | src/spy_der/features/indicators.py:250-262 | R-squared lies in [0, 1] on every window where it is defined. |
| Indicators.RSquaredInvariant | src/spy_der/features/indicators.py:250-262 | A price map a * x + b with a != 0 changes neither R-squared nor where it is defined. |
| RegressionLaws.RSquaredIsExplained | src/spy_der/features/indicators.py:250-262 | The line through the means with the least-squares slope leaves exactly 1 minus R-squared of the variation of the closes. |
| RegressionLaws.NoLineFitsBetter | src/spy_der/features/indicators.py:250-262 | No line at all, whatever its slope and intercept, leaves less than that. |
| RegressionLaws.RSquaredDefinedExactly | src/spy_der/features/indicators.py:252-260 | R-squared is defined exactly for at least two bars in the window and closes there that are not all equal. |
| RegressionLaws.LinesScoreOne | src/spy_der/features/indicators.py:250-262 | Prices on a sloping line have R-squared 1. |
| FirstPassage.ScanFirstPassage | src/spy_der/evaluation/labels.py:63-106 | The early-return scan over the shortest of its three inputs reports the event, conservative event, ambiguity flag and time of the first hit. |
| FirstPassage.EventOfFirstHit | src/spy_der/evaluation/labels.py:73-100 | The event is the one at the first hit and stays decided for every longer scan. |
| PassageLaws.EventOfDecidingBar | src/spy_der/evaluation/labels.py:63-106 | The event is that of the first bar that reaches the target or the stop: from below by its high, from above by its low. |
| PassageLaws.NoDecidingBar | src/spy_der/evaluation/labels.py:63-106 | There is no event exactly when no bar reaches either. |
| PassageLaws.DownsideMirrorsUpside | src/spy_der/evaluation/labels.py:63-106 | A downside passage is the upside passage of the bars turned upside down. |
| PassageLaws.ConservativeIsAdverse | src/spy_der/evaluation/labels.py:80-100 | The conservative event is never ambiguous and calls an ambiguous bar a stop. |
| FirstPassage.RangeSurvival | src/spy_der/evaluation/labels.py:109-119 | 1 exactly when every bar stays strictly inside the range. |
| FirstPassage.SurvivalIsUntouched | src/spy_der/evaluation/labels.py:109-119 | With the upper level as call wall and the lower as put wall, surviving, touching neither and reaching neither first coincide. |
| PathEvents.DecidedStays | src/spy_der/forecasting/path_model.py:173-197 | Once a path has hit a barrier no later step changes its event. |
| PathEvents.ScoreBarriers | src/spy_der/forecasting/path_model.py:173-197 | The masked loop over all paths computes, path by path, the scalar first passage of its step highs and lows, and counts the ambiguous paths. |
| PathEvents.ScoreWalls | src/spy_der/forecasting/path_model.py:206-225 | The wall loop computes the touch masks and which wall came first, for walls present or absent. |
| PathEvents.ScoreFlip | src/spy_der/forecasting/path_model.py:227-235 | A path crosses the gamma flip exactly when some step price is on the other side of it than spot, or off it when spot is on it. |
| PathEvents.ScoreRange | src/spy_der/forecasting/path_model.py:237-243 | Surviving is having every step price range strictly inside the levels. |
| PathEvents.ScorePathEvents | src/spy_der/forecasting/path_model.py:154-271 | Every frequency is the share of paths with the scalar event, undefined where its level is not given; fewer than one step is an error. |
| PathEvents.EventsPartition | src/spy_der/forecasting/path_model.py:198-206 | Target first, stop first and neither partition the paths: their shares sum to 1. |
| PathEvents.BarriersAgreeWithWalls | src/spy_der/forecasting/path_model.py:173-243 | With call wall >= spot as target and put wall as stop, the barrier loop agrees with the wall loop, and range survival is touching neither wall. |
| PathLaws.WhichComesFirst | src/spy_der/forecasting/path_model.py:173-197 | The conservative event is the target exactly when it is touched at some step and the stop not up to it, the stop exactly when it is touched and the target not before, neither exactly when nothing is; it is ambiguous exactly for a tie. |
| PathLaws.BarrierShares | src/spy_der/forecasting/path_model.py:173-206 | The barrier frequencies and the ambiguity rate are the shares of the paths with that event, the target taken on the side of the spot it lies on. |
| PathLaws.ScoreCountsPaths | src/spy_der/forecasting/path_model.py:154-271 | Every reported frequency is the share of the paths on which the event happens in prices: which of two levels is touched first, a wall reached by any price, the flip crossed after the start, the range never left; undefined exactly for an absent level or no path. |
| SessionSpans.InferSessionSpans | src/spy_der/forecasting/path_model.py:73-85 | The spans tile the library end to end and each is a maximal run of one session. |
| SessionSpans.EligibleStarts | src/spy_der/forecasting/path_model.py:318-323 | A start is listed if and only if its whole block lies in one session, and each once, in ascending order. |
| SessionSpans.EligibleExactlyWithinSession | src/spy_der/forecasting/path_model.py:73-85 | A block fits some span if and only if it stays in one session of the id sequence. |
| Bootstrap.FillPath | src/spy_der/forecasting/path_model.py:380-394 | Step t of the path multiplies the price by the growth of residual draw(t / block) + t mod block, and ceil(steps / block) draws are recorded. |
| Bootstrap.BlocksReplaySessions | src/spy_der/forecasting/path_model.py:383-394 | Two steps filled from one block replay residuals of one session at the same distance apart. |
| BootstrapLaws.PriceIsSpotGrown | src/spy_der/forecasting/path_model.py:383-394 | With an exponential growth the price after t steps is the spot grown by t times the drift plus the local scale times the sum of the residuals drawn. |
| BootstrapLaws.SourceIsOfItsBlock | src/spy_der/forecasting/path_model.py:383-394 | Step j of block b of a path replays the j-th residual after the start drawn for that block and path. |
| BootstrapLaws.BlocksCover | src/spy_der/forecasting/path_model.py:380-394 | The blocks drawn for a path cover its steps, and no fewer would. |
| PathSimulation.SimulatePaths | src/spy_der/forecasting/path_model.py:355-404 | A library too small or empty falls back to Gaussian paths, or raises if that is disabled; one without a one-session block falls back in either case; otherwise every path is filled from drawn blocks, and concentration and support are those of the first n_paths draws. |
| PathSimulation.FallbackTakenThoughDisabled | src/spy_der/forecasting/path_model.py:371-375 | Two residuals of two sessions and blocks of two: the Gaussian fallback is taken with the fallback disabled. |
| SessionConcentration.ConcentrationCountsFirstBlocks | src/spy_der/forecasting/path_model.py:396-403 | The concentration reported equals that of the first blocks of all paths for every draw stream, if and only if a path takes at most one block, or there is at most one path, or all eligible starts lie in one session. |
| SessionConcentration.OtherBlocksDilute | src/spy_der/forecasting/path_model.py:396-403 | Otherwise there are draws for which the first blocks are all of one session while the value reported is below 1. |
| SessionConcentration.ConcentrationDiffers | src/spy_der/forecasting/path_model.py:396-403 | A library of two sessions, two paths of two blocks: the first blocks give 1, the code gives 1/2. |
| SessionConcentration.ConcentrationIsTopShare | src/spy_der/forecasting/path_model.py:397-403 | The concentration is the share of the session drawn most often, 1 exactly for at most one session; the support is the number of sessions. |
| SessionLabels.LabelHorizons | src/spy_der/evaluation/labels.py:183-257 | The loop over horizons fills every label of every horizon, missing where the horizon is undefined. |
| SessionLabels.WallFirstPassage | src/spy_der/evaluation/labels.py:271-321 | The three wall times and the first-wall flags, missing where a wall is not given. |
| SessionLabels.LabelsAreForwardOnly | src/spy_der/evaluation/labels.py:160-268 | Changing prices of bars at or before the observation changes no label at any horizon, no wall event and no wall time. |
| SessionLabels.WindowsNest | src/spy_der/evaluation/labels.py:145-161 | Among defined horizons the window of a longer one extends that of a shorter one. |
| LabelLaws.HorizonEndExactly | src/spy_der/evaluation/labels.py:145-158 | A timed horizon ends exactly at the first bar not before the observation plus its minutes, provided that bar is late by at most one base bar; otherwise it has no end. |
| LabelLaws.CloseIsLastBar | src/spy_der/evaluation/labels.py:145-158 | The close horizon ends at the last bar if that lies after the observation. |
| LabelLaws.WindowHolds | src/spy_der/evaluation/labels.py:160-215 | The window holds exactly the bars after the observation up to the end of the horizon. |
| LabelLaws.LevelLabelsExactly | src/spy_der/evaluation/labels.py:233-257 | Every level label is missing exactly when the level or the horizon is, and else tells whether a bar of the horizon reached the wall, held the flip, closed on the other side of it, or none reached either wall. |
| LabelLaws.WindowWhenHorizonEnds | src/spy_der/evaluation/labels.py:184-187 | The labels of a horizon are defined exactly when it has an end. |
| LabelLaws.WallFlagsExactly | src/spy_der/evaluation/labels.py:291-320 | With both walls given the flags tell which is reached first by a bar after the observation, missing and ambiguous exactly when one bar reaches both first; without both walls all are missing. |
| LabelLaws.LevelTimesExactly | src/spy_der/evaluation/labels.py:271-321 | The time to a wall or the flip is that of the first bar after the observation that reaches it, missing exactly without one or without the level. |
| LabelLaws.ForwardReturnIsTheEndBars | src/spy_der/evaluation/labels.py:186-188 | The forward return is the log return of the bar that ends the horizon over the spot, and its sign decides the up label. |
| LabelLaws.DirectionNeedsEveryThreshold | src/spy_der/evaluation/labels.py:41-60 | Direction is 1 exactly above, and -1 exactly below minus, every one of the three thresholds. |
| LabelLaws.ExcursionsBound | src/spy_der/evaluation/labels.py:213-220 | The excursions are attained by bars of the window and bound the return of every one of them, for increasing logarithms. |
| LabelLaws.VarianceOfHorizon | src/spy_der/evaluation/labels.py:223-226 | The variance label of a horizon is that of the spot and then the closes of its bars. |
| LabelLaws.VarianceAddsUp | src/spy_der/evaluation/labels.py:224-226 | Realized variance over consecutive stretches adds up. |
| SessionLabels.HorizonsAreMonotone | src/spy_der/evaluation/labels.py:233-251 | Touching either wall, touching the gamma flip and crossing it grow with the horizon, for whichever levels are given; a missing level gives no label at either horizon. |
| SessionLabels.SurvivalIsAntitone | src/spy_der/evaluation/labels.py:253-257 | With both walls, range survival falls with the horizon, and is 1 iff neither wall is touched. |
| SessionLabels.WallEventMatchesTimes | src/spy_der/evaluation/labels.py:291-320 | A wall is first iff its time exists and precedes any time of the other; ambiguous iff both exist and are equal; neither iff none exists. |
| Resample.Group | src/spy_der/features/resample.py:111-113 | The dictionary of lists holds, in order of first appearance, each bucket with exactly its bars in input order. |
| Resample.ResampleBars | src/spy_der/features/resample.py:99-129 | Grouping, aggregation and the stable sort; one minute or less returns the input. |
| Resample.EachBarInOneBucket | src/spy_der/features/resample.py:111-113 | Every bar occurs in the bucket of its key as often as in the input, and in no other. |
| ResampleLaws.BucketIsTheStretchAround | src/spy_der/features/resample.py:83-96 | An intraday bucket starts at s exactly when s is at most one length before the bar and a whole number of lengths from 09:30 of its date; a daily one is the date. |
| ResampleLaws.SharedBucketExactly | src/spy_der/features/resample.py:70-81 | Two bars share an intraday bucket exactly when they are of one date and no boundary lies between them. |
| ResampleLaws.MembersConcatenate | src/spy_der/features/resample.py:111-113 | Buckets collect their bars in input order, however the input is cut. |
| ResampleLaws.BarSpansItsBars | src/spy_der/features/resample.py:115-125 | A bucket opens with its first bar, closes with its last, and its high and low bound all its bars and are attained. |
| ResampleLaws.SortIsStable | src/spy_der/features/resample.py:126-129 | The sort returns the same bars in time order, bars of one time in their given order. |
| ResampleLaws.ResampledIsOrderedBars | src/spy_der/features/resample.py:99-129 | Beyond one minute the output of any input is in time order and holds exactly the aggregates of its buckets. |
| Resample.ResamplingConserves | src/spy_der/features/resample.py:115-129 | For any input, total volume and the overall high and low are conserved. |
| Resample.StartInBucket | src/spy_der/features/resample.py:83-96 | A bucket start that is on its bar's date lies in its own bucket, and in the same coarser bucket as every bar of it. |
| Resample.StartIdentifiesBucket | src/spy_der/features/resample.py:70-96 | Two bars whose buckets start on their own date share a bucket exactly when the starts are equal. |
| Resample.ResampledIsStreamed | src/spy_der/features/resample.py:99-129 | On ordered bars whose buckets start on their own date, grouping and sorting equal a one-pass streaming aggregation. |
| Resample.GroupingComposes | src/spy_der/features/resample.py:111-125 | Grouping the fine groups is grouping the bars: same buckets in the same order of first appearance, same aggregates. |
| Resample.ResamplingComposes | src/spy_der/features/resample.py:70-129 | For ordered bars whose fine buckets start on their own date, resampling by m and then by k * m equals resampling by k * m, timestamps and the daily case included. |
| Resample.ComposesForAllBarsExactly | src/spy_der/features/resample.py:70-129 | For any m, k >= 1: resampling by m and then by k * m equals resampling by k * m for all ordered bars if and only if m is 1, or daily, or divides the 570 minutes from midnight to the open. |
| Resample.WhereBucketsStay | src/spy_der/features/resample.py:75-96 | A bucket starts on the date of its bar if and only if it is daily or the minute of day is at least 570 mod m; so it does for every bar from the session open on. |
| Resample.EarlyBarChangesDate | src/spy_der/features/resample.py:92-96 | A bar at 00:10, resampled to hours and then to days, is dated a day earlier than when resampled to days. |
| Normalization.RobustStandardizer.Score | src/spy_der/features/normalization.py:40-56 | Scores against the recorded history, then records the value in the bounded window of its key only. |
| Normalization.ScoreAll | src/spy_der/features/normalization.py:40-56 | A whole run through the object returns the specified score of every observation. |
| ScoreLaws.ScoreCountsDeviations | src/spy_der/features/normalization.py:49-56 | A score times 1.4826 times the median absolute deviation is the distance from the median, positive exactly above it; 0 for a vanishing deviation. |
| ScoreLaws.MedianHalves | src/spy_der/features/normalization.py:86-93 | The median has the lower half at or below it and the upper half at or above it, midway between the two middle values of an even number. |
| ScoreLaws.HalfWithinDeviation | src/spy_der/features/normalization.py:51 | At least half of the history lies within the median absolute deviation of the median. |
| ScoreLaws.ScoredAgainstLastValues | src/spy_der/features/normalization.py:40-56 | Over every run an observation scores exactly when enough earlier values of its key are in the window, and then against just those. |
| Normalization.SortMapped | src/spy_der/features/normalization.py:49 | Sorting a mapped list is mapping the sorted list, reversed for a decreasing map. |
| Normalization.MedianEquivariant | src/spy_der/features/normalization.py:86-93 | The median of a * v + b is a * median + b, for either sign of a. |
| Normalization.MadEquivariant | src/spy_der/features/normalization.py:51 | The median absolute deviation scales by |a|. |
| Normalization.AfterMapped | src/spy_der/features/normalization.py:46-54 | After mapped runs every key stores the mapped window. |
| Normalization.RunEquivariant | src/spy_der/features/normalization.py:40-56 | Two runs that differ by v -> a * v + b (a != 0) have the same None pattern, and scores multiplied by the sign of a. |
| Ensemble.Enforce | src/spy_der/forecasting/ensemble.py:67-109 | The assignments and branches compute the specified weights, clipping, empty input and vanishing total included. |
| Ensemble.Cap | src/spy_der/forecasting/ensemble.py:86-107 | The capping pass: over, free and protected components, and the uniform branch. |
| Ensemble.CappedIsDistribution | src/spy_der/forecasting/ensemble.py:67-109 | For every cap above epsilon the output is non-negative and sums to 1. |
| Ensemble.Redistributed | src/spy_der/forecasting/ensemble.py:86-101 | Redistribution gives every component at most the cap, leaves protected ones alone, and keeps the sum 1. |
| Ensemble.CapHoldsExactly | src/spy_der/forecasting/ensemble.py:67-109 | For every non-empty input and cap of at least one half: all outputs are at most the cap if and only if the uniform weight is (vanishing total), or every normalized weight is, protected ones included (no unprotected one over the cap), or free mass and remaining mass both exceed epsilon. |
| Ensemble.NoneOver | src/spy_der/forecasting/ensemble.py:86-89 | With no unprotected component over the cap the output is the normalized weights. |
| Ensemble.CapWithOneOver | src/spy_der/forecasting/ensemble.py:86-109 | With a component over the cap, the cap holds exactly when free and remaining mass exceed epsilon, and protected weights then keep their normalized value. |
| Ensemble.CapEscapes | src/spy_der/forecasting/ensemble.py:76-109 | With the default parameters the weights [1.0] and [1e-4, 1e-6] come out as [1] and [100/101, 1/101], above the cap of 0.6. |
| EnsembleLaws.CappedWeightsExactly | src/spy_der/forecasting/ensemble.py:67-109 | With a component over a cap of at least one half, every output weight: redistributed, the one over gets the cap, protected ones keep their normalized weight and the rest share what is left in proportion; otherwise all keep their proportion to the cap. |
| EnsembleLaws.WithinTolerance | src/spy_der/forecasting/ensemble.py:86-89 | If no component but the protected ones exceeds the cap by more than epsilon, the weights are just normalized. |
| EnsembleLaws.NegativeCountsAsZero | src/spy_der/forecasting/ensemble.py:75 | A negative weight counts as zero, the others as they are. |
| Ensemble.BlendWithinRange | src/spy_der/forecasting/ensemble.py:112-128 | Blending under a distribution of weights stays within the range of the positively weighted predictions. |
| Ensemble.CappedBlendWithinRange | src/spy_der/forecasting/ensemble.py:67-128 | Blending under capped weights, whatever the raw weights, stays within the range of the predictions. |
| EnsembleLaws.BlendResponds | src/spy_der/forecasting/ensemble.py:112-128 | Moving one prediction moves the blend by its weight times the move. |
| Ensemble.DisagreementZeroIffAgreed | src/spy_der/forecasting/ensemble.py:131-152 | Disagreement around the blend is >= 0, and 0 exactly when all positively weighted predictions agree. |
| EnsembleLaws.DisagreementIsVariance | src/spy_der/forecasting/ensemble.py:131-152 | Disagreement around the blend is the weighted mean of the squared predictions less the squared blend. |

## Left out

- Rounding: Decimal precision and floating point are exact reals, except the rounding of the average fill price; NaN and infinity appear only as missing values.
- Hashes and identifiers: content hashes are opaque arguments or injective digests, candidate ids are numbers instead of strings.
- Dominance.ApplyDeterministicDominance: assumes that equal ids mean equal geometry, which holds within one snapshot because the id hashes the geometry.
- Geometry.EnumerateGeometries: states which geometries come out, not how often one that several widths give is listed, nor the final sort by family and leg key.
- Chain quotes with a strike of zero or less, which the leg constructor refuses, are not part of the chains considered.
- Payoff.Breakevens: returns a set; the order and deduplication by string keys are not modelled.
- Payoff.BreakevensComplete: stops at the far probe, as the code does; what lies beyond is `Payoff.BreakevensAllFoundExactly`.
- PointwiseDominance.PruningIsIdempotent: is one sufficient condition; the exact one is `PointwiseDominance.IdempotentExactly`.
- Entry credit from quoted mids and the reason strings of a payoff proof.
- Conformal.CalibrationCoverage: speaks of the calibration points; coverage of a new exchangeable point is a statement about probability and is not modelled. The per-forecast wrapper `attach` is not part of this model.
- Random rolls, clocks and fill ids of the simulator: a roll is any real number, a time any integer, and no fill id is kept. Restoring saved orders is left out.
- ExecutionRuns.RunSound: needs fresh order ids, because a submission overwrites an order of the same id.
- Simulator.Discrepancies: a set of discrepancies; the order and the text of the messages are not modelled.
- Indicators with plain single-formula bodies (EMA slope, channels, rolling ranks) are left out; `Indicators.AdxDiBounds` takes periods of at least 1.
- Direction strings of the first passage are a flag, so the error for an unknown direction is left out.
- PathEvents.ScorePathEvents: leaves out terminal mean and deviation and the mean excursions.
- PathSimulation.SimulatePaths: the drawn block length is an argument of at least 1 (a length of 0 would never fill a path), and the session spans are always the inferred ones; the Gaussian paths themselves, the seed and the residual standardization are left out.
- SessionLabels.LabelHorizons: the logarithm is an arbitrary function; realized volatility (a square root), the absolute and high-low returns, the down excursions and largest move (all derived from labels modelled) and the remaining realized move are left out.
- Resample.ResamplingComposes: is the part for bars whose fine bucket starts on their date (`Resample.WhereBucketsStay` says which); the timeframes for which that is no restriction are those of `Resample.ComposesForAllBarsExactly`; local time is a date and a minute, without seconds, time zones or clock changes.
- Persistence of the robust standardizer to disk.
- Ensemble.Enforce: components are numbered instead of named, and the pass loop is written without a loop because it never takes a second pass.
- Ensemble.BlendWithinRange: scalar predictions only; dictionary-valued ones and `combine` with its exponential weights are left out.
- Everything around the engines: language-model calls, providers, command line, dashboards, reports, forecasting services, exit management and guards.
