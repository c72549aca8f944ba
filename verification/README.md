# Verification model of the trading platform

A Dafny model of the platform's self-contained algorithms and state machines, with proofs about whole
runs. `dafny verify dfyconfig.toml` checks everything.

| modules | what they model |
|---|---|
| `LotSizing` | the broker adapter's quantities: lot lattice, BingX and Bybit normalisers, margin step-down loop |
| `ProtectionAmend`, `AmendAccounting`, `AmendTerms`, `AmendHonesty` | its protection amendments: cancel, replace and compensate as a saga against a venue whose requests may fail; where every order ends up; on what terms orders are sent and when all succeeds; when a reported `restored` can be believed |
| `ProtectionGovernor` | stop and target recommendations for live positions, and their ratchet over whole runs |
| `GreedyScan`, `MeanReversion`, `Microstructure` | the two back-test simulators on a common skip-ahead walk |
| `Bars`, `BarBuilder`, `TimeframeEngine`, `DataPipeline` | trades to minute bars to derived timeframes |
| `ReactionSpeed`, `AsofJoin`, `EdgeMap`, `CellMaturity`, `ReactionCampaign` | the evidence pipeline: event detection, hinted scans, as-of joins, the evidence ladder, the campaign launcher |
| `ExecutionOptimizer` | the pre-trade guard and order management of one quote |
| `CircuitBreaker` | provider breakers and the retry loop |
| `Correlation`, `MarketRegime`, `MemoryRetrieval` | Pearson and cosine bounds, regime labels, blended similarity |
| `AgentLearning` | running statistics and maximum drawdown |
| `Grid`, `Basics` | decimal rounding, ties to even, and arithmetic on a grid; shared definitions |

Where the source loops over changing variables the model is a method, proved against a specification
function or predicate; the properties are lemmas about that specification. Classes stand for the classes and
module-level state of the source. Money, prices and times with fractions are exact reals; `round` is kept where
a result depends on it.

## Assumptions

- A venue request either fails without effect or succeeds once; which of the two is arbitrary, request by
  request. A successful placement may come back without an order id, as the adapter allows for.
- `LotSizing.Aligned` is the grid assumption of the lattice results: the contract's step is a positive multiple
  of its precision unit, which is no finer than the eight decimals orders are written with.
- The reaction log is append-only between launcher runs, and a run that launches reaches its state write.
- Settings do not change during a run of several steps, except where a lemma lets them.

## Where the code and its description part

- The opening trade of a bar is applied twice: a bar's volume exceeds the traded volume by its opening size, and
  its count by one (`BarBuilder.BarTotals`).
- The pipeline resets bars on gaps of over a second, and the second bar of a minute then overwrites the first in
  the engine's buffer: trades in time order lose volume exactly when a pause inside a minute is followed by a
  further cut (`DataPipeline.OrderedTradesConserveVolume`, `DataPipeline.PauseLosesVolume`).
- A derived bar that closes is always marked complete. For bars that never go back the mark is true exactly if
  every minute of the window was fed (`TimeframeEngine.FlagIsTrueIff`, and at each close in any order
  `TimeframeEngine.FlagAtClose`; `TimeframeEngine.PartialWindowClosesAsComplete` is a window where it is not).
- The microstructure simulator's length guard asks for one bucket more than its loop needs
  (`Microstructure.GuardCostsATrade`).
- The margin step-down does not always get smaller: with a step of at most half the precision unit it can
  resubmit the same quantity for ever (`LotSizing.StopsExactly`, `LotSizing.StepDownCanStall`).
- The Bybit quantity is rounded once more at the end, to a precision that need not match its step. The result is
  the lot it should be exactly if the lot is on the precision grid: a rounded one may miss the minimum, exceed the
  request, or be nothing at all (`LotSizing.BybitReturnsTheLotIff`, `LotSizing.BybitRoundingHarmlessIff`,
  `LotSizing.BybitRoundsBelowMinimum`, `LotSizing.BybitRoundsUpToCap`).
- A rollback that reports `restored` has put the old orders back exactly if the records it rebuilt them from are
  true (`AmendHonesty.RestoredIsHonestIff`). Records read back from open orders are not for limit orders, nor for
  orders of another quantity than the amendment's (`AmendHonesty.OpenOrderRecordIsFaithful`,
  `AmendHonesty.RestoredWithAnotherOrder`).
- A trigger that rounds to zero breaks the governor's ratchet, and only such a trigger does: the leg is lost by the
  next reading, or a short's stop is replaced by a higher one (`ProtectionGovernor.EveryRunTightensIff`,
  `ProtectionGovernor.ShortStopAtZeroIsRaised`).
- A replaced order may be replaced for ever at tiny prices, where rounding its price counts as a move
  (`ExecutionOptimizer.ReplacementSettlesIff`, `ExecutionOptimizer.TinyPricesNeverSettle`).
- Reaction classes are drawn on times rounded to a tenth of a millisecond, so FAST ends at 99.95 ms and SLOW
  starts at 999.95 ms, not at 100 and 1000 (`ReactionSpeed.ClassBorders`).
- The edge map and the launcher may attach different rows to the same instant (`AsofJoin.LauncherAgreement`,
  `AsofJoin.SameInstantDiffers`).
- A crossed quote counts its spread by magnitude for volatility and as zero elsewhere, so raising a negative
  spread can unlock a trade (`ExecutionOptimizer.RaisingSpreadIsSafeIff`).
- The launcher's remembered key list is not what keeps a reaction from being launched twice: the last launch's
  own record is, for any history size (`ReactionCampaign.LaunchGuardsItself`).
- Retries do not look at the breaker they may have opened (`CircuitBreaker.Breakers.RunWithResilience`), so an
  outage that begins with no failure on record can cost the threshold rounded up to whole requests of
  `retries + 1` calls each, and never more within one reset time
  (`CircuitBreaker.OutageBudget`, `CircuitBreaker.BudgetIsSpent`).

## Model

| member | source | states |
|---|---|---|
| LotSizing.StepBounds | apps/broker_adapter/main.py:908-919 | step floor and ceil give the last multiple at or below and the first at or above, each within the 1e-12 tolerance |
| LotSizing.BingxMinimumIs | apps/broker_adapter/main.py:929-963 | what reaches the BingX minimum: the contract's least quantity and one step, worth its least notional where there is a price to measure it at |
| LotSizing.BingxWithoutStep | apps/broker_adapter/main.py:929-977 | nothing for nothing; without a step the request is lifted to the minimum and rounded to the nearest unit |
| LotSizing.BingxResolveIsNearest | apps/broker_adapter/main.py:929-963 | for any step and minimum, the resolved quantity is the unique nearest multiple at or above the lattice minimum, ties down, tolerances included |
| LotSizing.BingxNormalizeIsNearest | apps/broker_adapter/main.py:929-977 | on an aligned contract the quantity actually sent is that nearest lot, measured against the minimum the submit loop enforces |
| LotSizing.BybitResolveIsTheLot | apps/broker_adapter/main.py:492-511 | before the final rounding the adapter has the one Bybit lot: the last multiple within the request if that reaches the minimum, else the first to reach minimum and notional; and where that exceeds the cap, and only there, the last multiple within the cap |
| LotSizing.BybitLotBounds | apps/broker_adapter/main.py:492-511 | such a lot is on the lattice, within the cap, and keeps minimum, request and notional up to the tolerance, unless every lot the request calls for exceeds the cap |
| LotSizing.BybitMinimumIs | apps/broker_adapter/main.py:492-507 | what reaches the Bybit minimum, and what a request below it is lifted to, in terms of quantities and notionals |
| LotSizing.BybitReturnsTheLotIff | apps/broker_adapter/main.py:492-512 | call by call, the quantity returned is the Bybit lot exactly when the lot is on the precision grid |
| LotSizing.BybitNormalizeBounds | apps/broker_adapter/main.py:492-512 | so it always is where the step is a multiple of the precision unit |
| LotSizing.BybitRoundingKeepsIff | apps/broker_adapter/main.py:492-512 | call by call, the final rounding leaves the lot alone exactly when it is on the precision grid |
| LotSizing.BybitRoundingHarmlessIff | apps/broker_adapter/main.py:446-512 | every request gets its lot exactly when the step is a multiple of the precision unit or, where no two lots fit between minimum and cap, when the cap's lot and the lifted one are on the precision grid |
| LotSizing.BybitRoundsBelowMinimum | apps/broker_adapter/main.py:446-512 | a specification for which nothing at all is returned |
| LotSizing.BybitRoundsUpToCap | apps/broker_adapter/main.py:446-512 | a request that is its own lot and is raised to the cap, which does not bind |
| LotSizing.BybitWithoutStep | apps/broker_adapter/main.py:492-512 | without a step: lifted to the minimum, held to the cap, rounded to the nearest unit, bounds on the grid kept |
| LotSizing.BybitTextIsExact | apps/broker_adapter/main.py:681-787 | the text that is sent says exactly the quantity returned |
| LotSizing.SubmitOrder | apps/broker_adapter/main.py:1010-1058 | terminates whenever the venue relents or the step-downs come to an end; attempts and fallbacks extend the caller's lists by exactly one chain of step-downs, with one attempt more than fallbacks; stops exactly on acceptance, another error, or when no further step is allowed |
| LotSizing.StepsDownExactly | apps/broker_adapter/main.py:1040-1046 | when a smaller order may be tried: only for a size the adapter chose itself, while the minimum and one step are left |
| LotSizing.StopsExactly | apps/broker_adapter/main.py:1018-1058 | against a venue that never relents the precondition is exact: it holds if and only if some quantity in the chain of step-downs cannot be stepped down from, for any step, precision and starting quantity |
| LotSizing.StepDownProgress | apps/broker_adapter/main.py:1040-1058 | from a quantity already rounded, the next one is smaller exactly when the step as sent exceeds half the grain (or equals it at an odd multiple), for every precision |
| LotSizing.StepDownCanStall | apps/broker_adapter/main.py:1040-1058 | a contract on which the loop repeats the same quantity |
| LotSizing.AlignedAdvances | apps/broker_adapter/main.py:1040-1058 | on aligned contracts the loop always advances, so the termination assumption is met |
| LotSizing.TrailStaysOnLattice | apps/broker_adapter/main.py:1018-1058 | every try is one whole lot below the one before and never below the minimum |
| LotSizing.SubmittedLotsAreAdmissible | apps/broker_adapter/main.py:929-1058 | normalise then submit: whatever was asked and whatever the venue answers, only admissible lots reach the venue |
| ProtectionAmend.CancelOld | apps/broker_adapter/main.py:1612-1632 | the loop is the first pass, request by request, whatever the fates |
| AmendAccounting.CancelPassAccounts | apps/broker_adapter/main.py:1612-1632 | it cancels a prefix of the identified legs, stopping at the first refusal, and the book loses exactly their orders |
| ProtectionAmend.PlaceNew | apps/broker_adapter/main.py:1634-1667 | the loop is the second pass, request by request |
| AmendAccounting.PlacePassAccounts | apps/broker_adapter/main.py:1634-1667 | it places a prefix of the requested legs, stopping at the first failure, each as one live order in a slot of its own |
| ProtectionAmend.UndoCreated | apps/broker_adapter/main.py:1673-1688 | the loop is the undoing pass, with one error for each replacement it does not withdraw |
| AmendAccounting.UndoPassAccounts | apps/broker_adapter/main.py:1673-1688 | each replacement is off the book or stuck on it, in order, and no other slot is touched |
| ProtectionAmend.RecreateOne | apps/broker_adapter/main.py:1691-1721 | a leg whose order cannot be built is not sent; otherwise it is placed or lost |
| ProtectionAmend.RecreateCancelled | apps/broker_adapter/main.py:1690-1721 | the loop is the recreating pass, with one error naming each lost leg |
| AmendAccounting.RecreatePassAccounts | apps/broker_adapter/main.py:1690-1721 | every recreated leg put the order its record builds on the book, and older slots are untouched |
| AmendAccounting.RecreatePassSplits | apps/broker_adapter/main.py:1690-1721 | each cancelled leg is recreated or lost, in order |
| ProtectionAmend.Rollback | apps/broker_adapter/main.py:1668-1743 | compensation is the undoing pass and then the recreating pass, `restored` meaning no error |
| ProtectionAmend.Amend | apps/broker_adapter/main.py:1611-1762 | the saga equals its specification for every book and every pattern of failing requests |
| AmendAccounting.AmendRunAccounts | apps/broker_adapter/main.py:1605-1762 | success leaves one live order per requested leg, no identified old leg and state armed; after a failure the live orders are those of before, less the cancelled ones, plus one for each stuck replacement and each recreated leg, and the errors are exactly one per stuck replacement and one naming each lost leg |
| AmendAccounting.ErrorsAreTheDifference | apps/broker_adapter/main.py:1605-1762 | with faithful records the errors are the whole difference between the book before and after |
| AmendTerms.BuiltOrderCarries | apps/broker_adapter/main.py:1523-1564 | an order is built exactly for a leg with the prices it needs and a quantity left; it has the leg's name, limit flag and working type, the trigger as stop price, the limit price (for a limit leg only), each within half a unit of the leg's own and equal to it on the grids, and the nearest lot as quantity |
| AmendTerms.ReplacementHasTerms | apps/broker_adapter/main.py:1605-1762 | after a success the live orders are those of before, less the known old ones, plus one on the terms of each requested leg |
| AmendTerms.RollbackHasTerms | apps/broker_adapter/main.py:1668-1743 | after a failure, those of before, less the cancelled ones, plus one on the terms of each stuck replacement and each recreated record |
| AmendTerms.SucceedsIff | apps/broker_adapter/main.py:1605-1762 | an amendment succeeds if and only if every old order it knows is live and named once, every requested leg can be built, and every request it takes goes through |
| AmendHonesty.AmendLiveOrder | apps/broker_adapter/main.py:1582-1762 | nothing is sent for a non-positive quantity; otherwise exactly when it succeeds, on what terms every order is sent, and where every order ends up; with true records `restored` means the live orders are those of before |
| AmendHonesty.RestoredMeansBack | apps/broker_adapter/main.py:1668-1743 | with no error left, every replacement was undone and every leg recreated, and the live orders are those of before exactly when the records rebuild the cancelled orders |
| AmendHonesty.RestoredIsHonestIff | apps/broker_adapter/main.py:1605-1743 | from the book and the records before the call: `restored` can be believed, whatever is requested and however requests fare, if and only if the records are true |
| AmendAccounting.FaithfulRebuildsOriginals | apps/broker_adapter/main.py:1567-1580 | records that rebuild order by order rebuild the whole multiset |
| AmendHonesty.SnapshotIsFaithful | apps/broker_adapter/main.py:1491-1520 | the adapter's own snapshot of a leg on the eight-decimal grid rebuilds the same order |
| AmendHonesty.OpenOrderRecordIsFaithful | apps/control_plane/main.py:12876-12886 | field by field, for any stored order: its open-order record rebuilds it exactly if it is a market order with no listed price, a stop price on the text grid, a known working type and the quantity the amendment would place |
| AmendHonesty.OpenOrdersAreHonestIff | apps/control_plane/main.py:5728-5770 | for a position whose protection was read back from its open orders, be it a stop, a target or both, `restored` can be believed exactly when each leg that would be rebuilt is recoverable |
| AmendHonesty.RestoredWithAnotherOrder | apps/broker_adapter/main.py:1605-1743 | an amendment that reports `restored` and leaves a stop for two lots where there was one for one |
| ProtectionGovernor.BuildGovernor | apps/control_plane/protection_runtime.py:224-330 | the staged pass computes the case table of recommendations |
| ProtectionGovernor.WithoutStop | apps/control_plane/protection_runtime.py:250-262 | stale data is left alone; with live data and no stop, force-close if and only if the rounded loss reaches the limit and at least a basis point, and arm a stop if and only if it does not |
| ProtectionGovernor.ProfitIsNeverClosed | apps/control_plane/protection_runtime.py:250-262 | a position at or beyond its entry is never force-closed |
| ProtectionGovernor.WithStop | apps/control_plane/protection_runtime.py:263-322 | with live data and a stop: breakeven before trailing before take-profit, each if and only if it is due in terms of side, prices, profit, stop and policy |
| ProtectionGovernor.SuggestsExactly | apps/control_plane/protection_runtime.py:263-330 | what is suggested: the entry, the trailing price or the target at twice the risk where that is the action, and every other leg as read |
| ProtectionGovernor.NormalizedLegOnGrid | apps/control_plane/protection_runtime.py:55-78 | a normalised leg carries a trigger on the 1e-10 grid |
| ProtectionGovernor.RecommendationIsSafe | apps/control_plane/protection_runtime.py:148-330 | no active leg is dropped; a new stop is positive, between entry and mark for a long and at or above the mark for a short; a short's stop rises exactly when it had rounded to zero; a take-profit lies strictly beyond entry and stop |
| ProtectionGovernor.StepTightens | apps/control_plane/protection_runtime.py:224-330 | one applied recommendation only tightens, and reading it back changes nothing |
| ProtectionGovernor.RunTightens | apps/control_plane/protection_runtime.py:224-330 | over any run of marks, entries and policies, protection at a later moment is never looser than at an earlier one |
| ProtectionGovernor.EveryRunTightensIff | apps/control_plane/protection_runtime.py:55-330 | all runs from a protection tighten if and only if none of its triggers rounds to zero |
| ProtectionGovernor.ShortStopAtZeroIsRaised | apps/control_plane/protection_runtime.py:55-78 | the input on which the ratchet fails for a short |
| ProtectionGovernor.LegSurvivesRereading | apps/control_plane/protection_runtime.py:55-78 | normalising twice loses a leg exactly when its trigger rounds to zero |
| GreedyScan.GreedyIsTheScan | scripts/alpha_lab_mean_reversion.py:163-253 | skip-ahead with cooldown makes the one greedy selection among what the bars offer |
| GreedyScan.ScanExtends | scripts/alpha_lab_mean_reversion.py:163-253 | with more bars the walk makes the same fills first and adds only later signals |
| MeanReversion.RollingSma | scripts/alpha_lab_mean_reversion.py:153-160 | the incremental average equals the direct window mean at every bar |
| MeanReversion.FindExit | scripts/alpha_lab_mean_reversion.py:196-222 | the exit scan finds the first hit, or the last bar it may look at |
| MeanReversion.FirstExitIsFirstHit | scripts/alpha_lab_mean_reversion.py:200-222 | stop wins ties, no earlier bar hit either level, otherwise the exit is the horizon bar |
| MeanReversion.Evaluate | scripts/alpha_lab_mean_reversion.py:169-251 | one loop turn makes the bar's offer or passes |
| MeanReversion.OfferExtends | scripts/alpha_lab_mean_reversion.py:165-222 | inside the bound an offer does not depend on later bars, and the clamp to the last bar never binds |
| MeanReversion.OffersExactly | scripts/alpha_lab_mean_reversion.py:163-190 | a bar offers a trade if and only if it is inside the bounds, its average is positive, its close is at or beyond the band on either side, and the next open is off the average |
| MeanReversion.AverageIsBounded | scripts/alpha_lab_mean_reversion.py:153-160 | the average lies between any bounds on the window's closes |
| MeanReversion.Simulate | scripts/alpha_lab_mean_reversion.py:135-254 | the loop terminates and returns the specified walk |
| MeanReversion.SimulationIsCausal | scripts/alpha_lab_mean_reversion.py:135-254 | no look-ahead: appending candles keeps every trade already made, in order |
| MeanReversion.SimulationStructure | scripts/alpha_lab_mean_reversion.py:162-254 | the fills are the one greedy selection; every fill is long exactly after a close at or below the band under the average and short after one at or above it, enters at the next open, leaves at the first bar that reaches stop or target, and is paid the rise or fall less fees; consecutive trades keep their distance |
| Microstructure.CheckGaps | scripts/alpha_lab_microstructure.py:176-182 | the gap scan accepts exactly the contiguous windows |
| Microstructure.SumWindow | scripts/alpha_lab_microstructure.py:186-187 | the windowed flows are the sums over the window |
| Microstructure.Evaluate | scripts/alpha_lab_microstructure.py:174-247 | one loop turn makes the bucket's offer or passes |
| Microstructure.OffersExactly | scripts/alpha_lab_microstructure.py:174-216 | a bucket offers a trade if and only if it is inside the bounds, no pause falls into window or holding period, and the window has the volume and a one-sided enough flow |
| Microstructure.BuysAreBounded | scripts/alpha_lab_microstructure.py:186-188 | the window's sums lie between any bounds on the buckets' flows |
| Microstructure.Simulate | scripts/alpha_lab_microstructure.py:147-250 | the loop terminates and returns the specified walk behind its length guard |
| Microstructure.SimulationIsCausal | scripts/alpha_lab_microstructure.py:147-250 | no look-ahead over whole runs, the guard's one length included |
| Microstructure.GuardCostsATrade | scripts/alpha_lab_microstructure.py:162-170 | the guard changes the result exactly at one length, when the only admissible bucket offers a trade |
| Microstructure.SimulationStructure | scripts/alpha_lab_microstructure.py:162-250 | spacing of the fills, and of every fill: long exactly for buying beyond the threshold and short for selling, entry and exit at the right buckets' prices, no pause on the way, profit of the right sign and size, and the outcome class |
| BarBuilder.BarTotals | data_bar_builder/BarBuilder.ts:106-147 | exact volume, count, sides, open, close, labels and last arrival of a segment's bar: the opening size is counted twice and cancels out of the imbalance, and the update books sides the other way round |
| BarBuilder.BarTurnover | data_bar_builder/BarBuilder.ts:106-147 | the quote volume is the money traded, the opening trade's counted twice |
| BarBuilder.BarExtremes | data_bar_builder/BarBuilder.ts:106-147 | high and low are attained and bound every trade |
| BarBuilder.BarIsSane | data_bar_builder/BarBuilder.ts:106-159 | any trades with positive price and size make a bar with low at most open and close, both at most high, flows adding to the volume, and traded value between low and high times volume |
| BarBuilder.FeedAllSegments | data_bar_builder/BarBuilder.ts:30-59 | the trade stream is cut into segments at a new minute or a gap, losing and repeating nothing |
| BarBuilder.VolumeConserved | data_bar_builder/BarBuilder.ts:30-59 | bar volumes sum to the traded sizes plus the opening sizes |
| BarBuilder.BarBuilder.OnTrade | data_bar_builder/BarBuilder.ts:30-59 | the new open bar, the events emitted, and the buffer entry overwritten, for every trade |
| BarBuilder.BarBuilder.FinalizePreviousBar | data_bar_builder/BarBuilder.ts:149-159 | closes the current bar once, or does nothing when there is none |
| TimeframeEngine.ComputeAggregatedBar | timeframe_engine/TimeframeEngine.ts:162-221 | gathers the window's buffered bars and reduces them; the placeholder when there are none |
| TimeframeEngine.AggregateShowsWindow | timeframe_engine/TimeframeEngine.ts:162-221 | from the buffer alone: the open of the earliest buffered minute, close, sequence number and arrival of the latest, the highest high and lowest low, each attained, and the sums of all five totals; all zero and incomplete without any minute |
| TimeframeEngine.CurrentShowsWindow | timeframe_engine/TimeframeEngine.ts:75-160 | after every base bar, in any order, the bar on show is that of its window |
| TimeframeEngine.CoherentTimeframes | timeframe_engine/TimeframeEngine.ts:162-221 | a coarse bar is the fold of the non-empty finer bars inside it, and is complete exactly when all finer ones are |
| TimeframeEngine.StepConserves | timeframe_engine/TimeframeEngine.ts:75-160 | closed plus current volume grows by exactly the new bar's volume if and only if its minute is fresh for the window it lands in |
| TimeframeEngine.RunInOrder | timeframe_engine/TimeframeEngine.ts:75-160 | fed in minute order, every close carries the aggregate of every base bar ever fed for its window, and total volume is conserved |
| TimeframeEngine.ClosesShowWindows | timeframe_engine/TimeframeEngine.ts:75-221 | over a whole run of bars that never go back, every closed bar shows its window as all bars ever fed make it |
| TimeframeEngine.RunIsOfLastBars | timeframe_engine/TimeframeEngine.ts:75-160 | a run only sees the last bar of each stretch of one minute, whatever the order |
| TimeframeEngine.RunNeverBack | timeframe_engine/TimeframeEngine.ts:75-160 | for bars that never go back: the exact total, which is everything fed if and only if no minute repeats |
| TimeframeEngine.FlagAtClose | timeframe_engine/TimeframeEngine.ts:135-160 | bars in any order: a closing bar is always marked complete, and was complete before that exactly if every minute of its window had been fed |
| TimeframeEngine.FlagIsTrueIff | timeframe_engine/TimeframeEngine.ts:135-221 | over a whole run of bars that never go back: each closed bar is its window's aggregate but for the mark, which is true exactly if every minute of the window was fed |
| TimeframeEngine.PartialWindowClosesAsComplete | timeframe_engine/TimeframeEngine.ts:141-148 | a five-minute window marked complete after one bar |
| TimeframeEngine.ClosesAreLogged | timeframe_engine/TimeframeEngine.ts:135-160 | subscribers see exactly the closes of the run |
| TimeframeEngine.RunIsSane | timeframe_engine/TimeframeEngine.ts:135-221 | fed sane minute bars in any order, only sane bars are ever shown, and never the placeholder |
| TimeframeEngine.TimeframeEngine.OnBase1mBar | timeframe_engine/TimeframeEngine.ts:75-83 | one base bar updates every timeframe to its specified state and event log |
| TimeframeEngine.TimeframeEngine.AggregateToTimeframe | timeframe_engine/TimeframeEngine.ts:135-160 | close, open or update of one timeframe, touching no other |
| DataPipeline.DataPipeline.OnTrade | data_bus/DataPipeline.ts:125-132 | the bars the builder closes are the base bars the engine is fed, trade by trade |
| DataPipeline.PipelineBarsAreSane | data_bus/DataPipeline.ts:125-132 | for any trades with positive price and size, every bar any timeframe emits is sane |
| DataPipeline.OrderedTradesTotal | data_bus/DataPipeline.ts:40-132 | for trades in time order, with or without gap resets, every timeframe's bars carry exactly the last closed segment of each minute, once each |
| DataPipeline.OrderedTradesConserveVolume | data_bus/DataPipeline.ts:40-132 | that is everything that closed, up to the doubled opening sizes, if and only if no pause inside a minute is followed by a further cut |
| DataPipeline.PausesShareMinutes | data_bar_builder/BarBuilder.ts:30-59 | neighbouring segments share a minute exactly because of pauses inside it |
| DataPipeline.NoResetLosesNothing | data_bar_builder/BarBuilder.ts:30-59 | without gap resets no feed in time order loses volume: it is all in the timeframe's bars and the open bar, up to the doubled opening sizes |
| DataPipeline.PauseLosesVolume | data_bus/DataPipeline.ts:40-47 | two trades two seconds apart lose volume in every timeframe as the pipeline is configured |
| ReactionSpeed.DetectEvents | scripts/reaction_speed_engine.py:144-162 | the moves of five basis points or more that fire, five seconds apart, such that every other one falls within five seconds of one that did; each reported up exactly if its price exceeds its predecessor's, with the change in basis points |
| ReactionSpeed.DetectedEventsApart | scripts/reaction_speed_engine.py:144-162 | any two events, not only neighbours, are a full cooldown apart |
| ReactionSpeed.DetectionIsUnique | scripts/reaction_speed_engine.py:144-162 | spacing and explanation pin the scan down: a trade list has one right list of events |
| ReactionSpeed.MeasureReaction | scripts/reaction_speed_engine.py:165-212 | the reaction is the earliest trade of the ten seconds after the event that goes furthest the event's way, with its delay and size, or none exactly when no trade continues the move |
| ReactionSpeed.MeasurementIsUnique | scripts/reaction_speed_engine.py:165-212 | an event has one right measurement |
| ReactionSpeed.MeasureAll | scripts/reaction_speed_engine.py:264-289 | threading the index hint gives every event its right measurement |
| ReactionSpeed.DetectAndMeasure | scripts/reaction_speed_engine.py:261-289 | the run over one trade list: every detected event with its own right measurement, skipped ones aside |
| ReactionSpeed.MeasureFromScratch | scripts/reaction_speed_engine.py:165-212 | a scan from the first trade returns what the threaded scan returned |
| ReactionSpeed.ClassBorders | scripts/reaction_speed_engine.py:215-220 | the class borders as coded, to the microsecond |
| AsofJoin.IndexByKey | scripts/edge_map_engine.py:73-89 | one stably sorted series per key, over exactly the usable rows |
| AsofJoin.BisectRight | scripts/edge_map_engine.py:103-112 | the binary search splits a sorted series at the target |
| AsofJoin.AsofLookup | scripts/edge_map_engine.py:92-118 | the last entry at or before the target, if within the lookback |
| AsofJoin.LookupFindsLatest | scripts/edge_map_engine.py:73-118 | in terms of the log: the latest candidate row, the last written among equally late ones |
| AsofJoin.AsofIsLatest | scripts/edge_map_engine.py:92-118 | the join attaches the last written of the latest rows of that venue and instrument not after the target, if within the lookback, and nothing otherwise |
| AsofJoin.LauncherScan | scripts/reaction_gated_campaign10.py:208-233 | raises exactly on an addressed row whose time does not parse, else the specified scan |
| AsofJoin.ScanFindsFirstLatest | scripts/reaction_gated_campaign10.py:208-233 | the latest candidate row, the first written among equally late ones, if fresh |
| AsofJoin.LauncherAgreement | scripts/edge_map_engine.py:92-118 | lookup and launcher agree on whether and when; on the row exactly if the first and last row of that instant are equal |
| AsofJoin.SameInstantDiffers | scripts/reaction_gated_campaign10.py:208-233 | a two-row log on which they attach different classes |
| EdgeMap.JoinRow | scripts/edge_map_engine.py:164-196 | one outcome: skipped, or joined with both lookups |
| EdgeMap.JoinOneExactly | scripts/edge_map_engine.py:164-196 | an outcome is joined if and only if it has venue, instrument, readable time and profit; then with the latest reaction and the latest regime within five minutes, each from its own stream |
| EdgeMap.JoinAllExactly | scripts/edge_map_engine.py:164-196 | the joined rows are the joins of exactly the joinable outcomes, in their order |
| EdgeMap.BucketHolds | scripts/edge_map_engine.py:186-204 | a bucket holds exactly the rows with its reaction class and its regime, missing labels counting as UNKNOWN |
| EdgeMap.BuildEdgeMap | scripts/edge_map_engine.py:164-205 | joined rows, match counters, and one bucket per label pair holding exactly its rows |
| EdgeMap.LabelledBucketsAreComplete | scripts/edge_map_engine.py:199-204 | a bucket with two known labels holds exactly the complete rows with those labels |
| CellMaturity.BuildCells | scripts/reaction_regime_cell_maturity.py:319-402 | the cells in order of appearance with their samples and distinct events, and the number of complete rows |
| CellMaturity.SamplesSumToComplete | scripts/reaction_regime_cell_maturity.py:353-392 | cell samples sum to the outcomes with both labels |
| CellMaturity.TablesAgree | scripts/reaction_regime_cell_maturity.py:341-392 | on the same input the edge map and the evidence table hold the same samples for every known label pair, and a pair has samples exactly if the table has a row for it |
| CellMaturity.CoherentMatureGroups | scripts/reaction_regime_cell_maturity.py:165-183 | exactly the groups of two or more mature cells of one regime and direction |
| CellMaturity.ClassifyEvidence | scripts/reaction_regime_cell_maturity.py:287-316 | the state as a function of the cells |
| CellMaturity.FilterKeeps | scripts/reaction_regime_cell_maturity.py:319-352 | the prefix filter keeps an outcome if and only if its id starts with one of the prefixes, or there are none |
| CellMaturity.SumPnlIsBounded | scripts/reaction_regime_cell_maturity.py:341-402 | the sum behind a mean lies between any bounds on its rows' profits |
| CellMaturity.RankIs | scripts/reaction_regime_cell_maturity.py:287-316 | the rank of the state depends only on whether some cell has the events for it |
| CellMaturity.EvidenceIsMonotone | scripts/reaction_regime_cell_maturity.py:287-405 | adding outcomes anywhere in the log never lowers the rank, from the raw log to the state |
| CellMaturity.StructuralNeedsTwoCells | scripts/reaction_regime_cell_maturity.py:165-183 | STRUCTURAL if and only if two different cells have the events asked for, the same regime, and rounded mean profits of the same sign |
| CellMaturity.GatesOffer | scripts/reaction_regime_cell_maturity.py:186-284 | while exploratory the gate lists every cell; while emerging exactly the replicated ones and never none; with evidence exactly the immature ones that share a regime with a mature one; when structural exactly the mature ones, never none |
| ReactionCampaign.LatestReaction | scripts/reaction_gated_campaign10.py:160-180 | raises exactly on an unreadable relevant row, else the first of the latest rows |
| ReactionCampaign.LatestAdvances | scripts/reaction_gated_campaign10.py:160-180 | as the log grows the latest row moves forward or stays the very same row |
| ReactionCampaign.RememberCampaign | scripts/reaction_gated_campaign10.py:123-142 | key list in any order of the set, a new key last, cut to size; history extended and cut |
| ReactionCampaign.LaunchCampaign | scripts/reaction_gated_campaign10.py:274-325 | the orders go to the reaction's venue, buying and selling in turn from its direction; successes are exactly those answered 200, filled and by that venue, failures the others, each in order |
| ReactionCampaign.RunOnce | scripts/reaction_gated_campaign10.py:348-420 | every exit of a run in its order, what is launched, and the state written |
| ReactionCampaign.LaunchesExactly | scripts/reaction_gated_campaign10.py:348-390 | a run launches if and only if no success forbids it, both logs can be read, and the latest reaction is recent enough, of a wanted class, not held back, and in a wanted regime |
| ReactionCampaign.EveryLaunchIsRight | scripts/reaction_gated_campaign10.py:348-420 | over whole traces every launch is of the first of the latest reactions, at most the maximal age old, of a wanted class, not held back by the state, with the first of the latest regime rows not after it and within the age, and a success if and only if enough orders were filled at its venue |
| ReactionCampaign.NothingElseHoldsUp | scripts/reaction_gated_campaign10.py:348-420 | and a reaction that meets all of this is launched |
| ReactionCampaign.LaunchGuardsItself | scripts/reaction_gated_campaign10.py:348-420 | after a launch no run that still sees that reaction launches it again, without help from the key list |
| ReactionCampaign.LaunchesAdvance | scripts/reaction_gated_campaign10.py:348-420 | over any sequence of runs, from any state and for any history size, launched reactions are strictly later and later: at most one launch each |
| ReactionCampaign.LostRowsRelaunch | scripts/reaction_gated_campaign10.py:114-142 | the append-only assumption is needed: with a history of one and a log that loses a row, a reaction is launched twice |
| ReactionCampaign.SuccessIsFinal | scripts/reaction_gated_campaign10.py:348-352 | with multiple campaigns disallowed nothing happens after a success |
| ReactionCampaign.HistoryIsRecentSuccesses | scripts/reaction_gated_campaign10.py:123-142 | the stored history is exactly the most recent successes, oldest first |
| ReactionCampaign.RememberedWereLaunched | scripts/reaction_gated_campaign10.py:114-142 | every remembered key was launched successfully, the newest always is remembered, and the list keeps its size |
| ExecutionOptimizer.QueueAheadUsd | apps/execution_router/optimizer_v3.py:46-62 | the weighted notional of the first three well-formed rows, discounted for priority |
| ExecutionOptimizer.SlippageGuard | apps/execution_router/optimizer_v3.py:148-189 | lists exactly the reasons that apply and allows when there are none |
| ExecutionOptimizer.BlocksExactly | apps/execution_router/optimizer_v3.py:148-189 | each reason applies exactly beyond its own limit, and a trade is allowed exactly when none does |
| ExecutionOptimizer.Decide | apps/execution_router/optimizer_v3.py:275-316 | queue, prediction, guard and order management together give the specified decision and plan |
| ExecutionOptimizer.ManageExactly | apps/execution_router/optimizer_v3.py:212-273 | when an order is cancelled, replaced and kept, and what is sent then; the target price is the best bid for a passive buy, the best ask for a passive sell, and just beyond the other side otherwise |
| ExecutionOptimizer.PressureBySide | apps/execution_router/optimizer_v3.py:73-131 | buying pressure favours a buyer's fill as much as it counts against a seller's |
| ExecutionOptimizer.DepthSupports | apps/execution_router/optimizer_v3.py:106-131 | depth supports the fill in proportion, up to four times the order |
| ExecutionOptimizer.FlowIs | apps/execution_router/optimizer_v3.py:34-70 | the incoming flow: reported, else the tape's acceleration at the reference price, else none |
| ExecutionOptimizer.OwnQueueOnly | apps/execution_router/optimizer_v3.py:46-70 | each side queues behind its own book |
| ExecutionOptimizer.FlowMakesTheEdge | tests/test_execution_optimizer_v3.py:34-40 | flow that outpaces the queue gives an edge above 0.7, and more than a trickle does |
| ExecutionOptimizer.StrongReadings | tests/test_execution_optimizer_v3.py:9-32 | edge, fill, volatility, depth cover, expected slippage and risk of the tests' strong quote, to six decimals |
| ExecutionOptimizer.ThinReadings | tests/test_execution_optimizer_v3.py:42-58 | the same of the tests' thin quote |
| ExecutionOptimizer.ExampleDecisions | tests/test_execution_optimizer_v3.py:42-90 | the strong quote moves a passive market buy to the best bid and keeps a limit order near it; the thin one is blocked for every reason but volatility and cancelled |
| ExecutionOptimizer.ReasonsPersist | apps/execution_router/optimizer_v3.py:73-189 | every blocking reason still stands when latency, age, spread or order size rises or depth falls |
| ExecutionOptimizer.WorseNeverUnlocks | apps/execution_router/optimizer_v3.py:73-316 | worse quotes never turn a blocked trade into an allowed one |
| ExecutionOptimizer.WorseIsRiskier | apps/execution_router/optimizer_v3.py:134-189 | nor lower the risk score or the expected slippage |
| ExecutionOptimizer.RaisingSpreadIsSafeIff | apps/execution_router/optimizer_v3.py:89-189 | for which pairs of spreads, crossed quotes included, raising one to the other can never unlock: exactly these |
| ExecutionOptimizer.PositiveSpreadsAreOrdered | apps/execution_router/optimizer_v3.py:89-131 | raising a non-negative spread always qualifies |
| ExecutionOptimizer.VolatilityCut | apps/execution_router/optimizer_v3.py:89-165 | where rounding puts the volatility cut |
| ExecutionOptimizer.CancelIsBlocked | apps/execution_router/optimizer_v3.py:212-239 | cancel exactly when the guard blocks, if the minimum fill is at least the cancel level; otherwise which allowed quotes are cancelled too |
| ExecutionOptimizer.ReplacementSettlesIff | apps/execution_router/optimizer_v3.py:212-333 | an order that was just replaced is kept when asked again exactly if the fill is good enough and the price it carries is not itself seen as moved |
| ExecutionOptimizer.PassiveJoinSettles | apps/execution_router/optimizer_v3.py:212-333 | so a queue join settles for target prices of at least 0.00005 |
| ExecutionOptimizer.TinyPricesNeverSettle | apps/execution_router/optimizer_v3.py:212-333 | a price so small that its own rounding counts as a move |
| CircuitBreaker.FailuresAreTheLastEvents | apps/ai_orchestrator/main.py:1444-1454 | the count is the length of the run of failures that ends the history |
| CircuitBreaker.Breakers.IsCircuitOpen | apps/ai_orchestrator/main.py:1439-1441 | open exactly when the failures since the last success reach the threshold and the last one is within the reset time |
| CircuitBreaker.Breakers.RecordFailure | apps/ai_orchestrator/main.py:1444-1448 | one provider's history grows by a failure, no other changes, and the state still reflects it |
| CircuitBreaker.Breakers.RecordSuccess | apps/ai_orchestrator/main.py:1451-1454 | likewise for a success |
| CircuitBreaker.Breakers.RunWithResilience | apps/ai_orchestrator/main.py:1555-1573 | entered while open no call is made; otherwise calls go on to the first reply or the last retry, and exactly those are recorded |
| CircuitBreaker.NextFailureOpens | apps/ai_orchestrator/main.py:1444-1448 | the failure that reaches the threshold opens, and after expiry the first one reopens at once, until its own reset time |
| CircuitBreaker.OutageBudget | apps/ai_orchestrator/main.py:1555-1573 | over any sequence of requests within one reset period of an outage, each one let in makes `retries + 1` calls, and at most the missing failures divided by that and rounded up are let in, or one when the threshold was already reached |
| CircuitBreaker.BudgetIsSpent | apps/ai_orchestrator/main.py:1555-1573 | the budget is attained: from any history with the breaker not open, a burst of requests is let in one by one until it is used up, and no further |
| CircuitBreaker.ThreeCallsOpenIt | apps/ai_orchestrator/main.py:1439-1448 | with threshold 3 and 2 retries that is one request of three calls |
| Correlation.CauchySchwarz | scripts/regime_engine.py:141-152 | the Gram determinant is never negative and vanishes exactly for multiples |
| Correlation.PearsonIsBounded | scripts/regime_engine.py:141-152 | the correlation lies in [-1, 1] and is 1 exactly when both series vary and one deviates as a positive multiple of the other |
| Correlation.CosineIsBounded | apps/embeddings_service/main.py:73-82 | the cosine of the common prefix lies in [-1, 1] and is 1 exactly for the same direction |
| MarketRegime.DirectionRatioIsBounded | scripts/regime_engine.py:257-258 | the ratio lies in [0, 1] and is 1 exactly when some return moves and none moves against it |
| MarketRegime.GapRatioIsBounded | scripts/regime_engine.py:259-266 | the gap ratio lies in [0, 1) for a window that holds bars |
| MarketRegime.GapRatioIs | scripts/regime_engine.py:259-266 | for a window that runs forward, the part of its slots without a bar, one slot per whole timeframe and one more |
| MarketRegime.LabelsExactly | scripts/regime_engine.py:155-172 | which label is given, for every reading |
| MarketRegime.ConfidencesExactly | scripts/regime_engine.py:155-172 | the reading reported with each label, held to 1 and rounded |
| MarketRegime.ConfidenceByRegime | scripts/regime_engine.py:155-172 | every confidence, rounded, is at most 1 and at least its label's floor |
| MemoryRetrieval.Weights | apps/embeddings_service/main.py:147-160 | non-negative shares of 1 in the requested proportions, defaults when nothing positive is asked for |
| MemoryRetrieval.WeightsArePortions | apps/embeddings_service/main.py:147-160 | any two weights are in the proportion of what is wanted |
| MemoryRetrieval.WantedIs | apps/embeddings_service/main.py:147-160 | what each part asks for, with the defaults |
| MemoryRetrieval.FeatureDistanceScore | apps/embeddings_service/main.py:124-137 | the two loops compute the specified score |
| MemoryRetrieval.FeatureScoreIsBounded | apps/embeddings_service/main.py:124-137 | the score lies in [0, 1] and is 1 exactly when something is shared and all of it is equal |
| MemoryRetrieval.FeatureScoreIsMean | apps/embeddings_service/main.py:124-137 | one less the mean distance, never below 0, and one half with nothing shared |
| MemoryRetrieval.RegimeMatchesIff | apps/embeddings_service/main.py:430-455 | a regime matches only one that is asked for, and the same |
| MemoryRetrieval.SimilarityIsBounded | apps/embeddings_service/main.py:430-455 | with the weights of any request the similarity lies between minus the vector weight and 1, reaching 1 exactly when every weighted part is perfect |
| AgentLearning.LearningState.UpdateLearning | apps/ai_orchestrator/agents_framework.py:208-261 | every field equals its definition over all outcomes so far |
| AgentLearning.SummaryStep | apps/ai_orchestrator/agents_framework.py:247-256 | the running update of a regime's counts and mean gives those of the longer list, exactly |
| AgentLearning.RegimesAddUp | apps/ai_orchestrator/agents_framework.py:236-256 | regime totals and wins add up to the agent's |
| AgentLearning.Adjustment | apps/ai_orchestrator/agents_framework.py:257-261 | the adjustment stays in [-1, 1] |
| AgentLearning.AdjustmentStep | apps/ai_orchestrator/agents_framework.py:257-261 | a tenth up after a win rate above 60, a tenth down below 45, as far as the ends allow, otherwise unchanged |
| AgentLearning.PercentIs | apps/ai_orchestrator/agents_framework.py:216-256 | rates are percentages of the whole |
| AgentLearning.MaxDrawdown | scripts/alpha_engine_report.py:28-36 | the deepest fall of the equity from any point, the start included, to any later one |
| AgentLearning.GainsNeverFall | scripts/alpha_engine_report.py:28-36 | without a loss there is no drawdown |
| Grid.RoundToNearest | apps/broker_adapter/main.py:902-905 | rounding lands on the grid within half a unit |
| Grid.RoundToKeepsBound | apps/control_plane/protection_runtime.py:40-43 | a bound on the grid survives rounding |

## Left out

- HTTP, SQL, files, clocks, JSON and signing: venue replies, rows, parsed times and clock readings are inputs.
- Floating-point error: arithmetic is over exact reals, and non-finite numbers do not occur. The mean-reversion
  average would drift in floating point.
- Symbol and label normalisation, type checks and defaults for missing fields: records are typed and complete.
  Upper-casing of labels is a parameter of the launcher's settings.
- Market effects on the venue between requests (partial fills, triggered orders) and lost replies: not modelled.
- Order notional adjustment, leverage, attached protection and price normalisation of the broker adapter.
- BarBuilder queries, replay and `fillGaps`; TimeframeEngine queries; errors thrown by subscribers.
- DataBus dispatch, caches and the persistence layer.
- The reaction's size in basis points, its rounding, and the reporting fields beside it.
- The order of cells and gate entries in the reports (they are sorted for display), per-cell statistics other than
  the mean behind the direction, and the `min_count` filter of the edge map.
- The reaction log's own production by the launcher (`refresh_reactions`) and what a campaign's
  orders carry besides side and venue.
- A launcher run that fails between launching and writing its state.
- MeanReversion.Simulate: horizons below -1 are excluded, because there the source's walk never advances, and so
  are zero opening prices, on which the source raises a division error.
- Microstructure.Simulate: a negative horizon is excluded, because the source then reads past the data.
- AmendHonesty.AmendLiveOrder: the query that follows a placement is folded into its answer; how the venue lists
  an order's price is part of the stored order.
- LotSizing.SubmitOrder: it requires that the venue relents or the step-downs come to an end, since otherwise the
  source's loop does not (`StopsExactly` shows that the requirement is exact).
- CircuitBreaker.Breakers.RunWithResilience: requests to one provider do not interleave; the record and check
  methods keep the history for any interleaving.
- MarketRegime.ConfidenceByRegime: returns, logarithms and the standard deviation are inputs.
- MemoryRetrieval.SimilarityIsBounded: the recency weight, an exponential, is an input in [0, 1]; sorting and
  cutting the ranked list is not modelled.
- AgentLearning.LearningState.UpdateLearning: the regime key is a plain string, and the ratios the source declares
  but never updates are absent.
- Agents' scoring rules, model routing, cycle gating, dashboards, observers and deployment files.
