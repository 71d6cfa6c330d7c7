# Verification of the grid core

This project models the parts of the trading system that decide money or durability, and proves what they keep over whole runs. Prices and amounts are exact reals; levels, times and counters are integers.

- `GridLadder`, `GridLedger`, `GridPath`, `GridRun`, `GridSimulator`, `GridMeaning`, `Drawdown`, `WalkForward`: the grid backtest. `GridSimulator.OpenGrid` is the simulator itself, with its mutable dictionary of lots and its running totals; every method is proved equal to a step of the functional run in `GridRun`, and the theorems are about that run. `GridMeaning` says what each piece of it means in prices and amounts. `WalkForward` trains, purges and tests window after window with that simulator.
- `ReplayCore`, `ReplayRuns`, `ReplayStats`: re-judging a recorded gate chain under one changed threshold, and the claim, lease, batch, crash and resume protocol around it.
- `BotPolicy`, `BotRuns`, `BotExits`: the decision of one supervision pass, and runs of manage passes and radar re-centers over arbitrary prices.
- `PaperLadder`: levels with a fill buffer, completed pairs between sparse observations, the mark of the inventory, funding between polls.
- `CloseIntents`: the grid table under concurrent close writers, the durable re-deploy intent and crashes between create and mark.
- `Storm`: the pruned trigger map against the full trigger history.

Where a promise of the code or its comments turned out not to hold on every input, the model keeps the code, gives a concrete input or run that breaks the promise, and states the exact condition under which it holds:

- A crash between create and mark can yield a second child: the request fingerprint covers the parameters as well as the idempotency key, so a retry with a moved mesh is a new request once the first child has left the symbol (`CloseIntents.SecondChildAfterCrash`; exactly when in `AttemptAddsExactly`). The comments at `grid_lifecycle_policy.go:567-570` and `1326-1327` say it cannot happen.
- A closed row can become active again and put a second grid on the symbol: by the answer to a create that arrives after the row was written off (`CloseIntents.LateAnswerDoubles`), although the comment at `grid/lifecycle.go:292-296` says terminal states refuse that write; by the control-plane stop of a bot that failed at the exchange (`StopOfFailedDoubles`); and by the remote state that the supervision loop takes over after the cancel of the same visit found the bot gone (`ReopenedDoubles`). Exactly when: `UpdateKeepsOneActiveExactly`.
- A terminal row is not final by itself: one that a cancel closed as already gone is rewritten or reopened later in the same visit, since the statements of a visit carry no condition on the status. Terminal rows are frozen exactly otherwise (`CloseIntents.TerminalIsFrozenExactly`), and bots that closed on a break always (`BrokenIsFrozen`).
- The replay lease is not refreshed between the last batch and the final write, so short batches alone do not keep a run to one worker (`ReplayRuns.SlowFinalizationIsShared`; exactly when in `SharedExactly`). A batch that outlasts the lease is inserted twice, since nothing but the earlier selection prevents it (`SlowBatchDuplicates`, `InsertDuplicatesExactly`); the comment at `replay_engine.go:46-48` says there are no duplicates.
- A replayed answer is the certain one for a newly passing gate exactly on harmless prefixes (`ReplayCore.ReplayIsCertainAnswer`, `HarmfulPrefixMisleads`).
- A re-center loses the distance of an anti-hunt stop that is no longer above zero (`BotRuns.LongStopCanBeLeftBehind`, `DistanceKeptExactly`); a shift keeps the stop above zero exactly at prices beyond half the range and the distance (`ShiftKeepsAliveExactly`, `LongStopStaysAlive`).
- A freshly trailed stop is hit by the very price it was trailed to exactly when rounding undoes the distance, for whole ticks below 34 (`BotPolicy.CheapTrailIsHitAtOnce`, `TrailedStopTriggersExactly`); a clamped stop survives rounding exactly when the bound is far enough from zero (`BotPolicy.CheapStopIsOnTheBound`, `DeployedStopIsOutsideExactly`).
- Three symbols inside the storm window mean a storm except at the one instant when the latest trigger is exactly five minutes old (`Storm.CrowdedButCalm`, `CrowdedWindowIsStormy`).
- Observing a move at a price on the way reorders the profits that a falling short grid reports. They keep their order exactly when the profits of the two legs read the same either way round (`GridPath.SplitProfitsExactly`); when no two lots close with the same profit, as with full lots, exactly when one leg closes nothing (`SplitOrderExactly`, `ObservationReordersTrades`), and otherwise equal profits can hide the order (`EqualProfitsHideTheOrder`).

Assumptions that appear as preconditions: the average-cost results need a positive entry price on a directional grid; the walk-forward needs a positive test window, since with a test window of zero or less its loop never advances; results about finished replay runs need batches within a lease. One worker goroutine runs supervision passes and emergency sweeps one after the other; a pass works on the bots with a remote id that it listed as running or leaving, and visits each once, in the order cancel, remote state, management. A create that fails answers before the adoption reconciler gives its row a remote id.

## Model

| member | source | states |
|---|---|---|
| `GridLadder.CrossingsExactly` | quant-worker/engine/backtest.py:293-299 | the integer range of levels that a move visits is exactly the set of interior levels k with min < p_k <= max |
| `GridLadder.HalfFillOnlyAtHigh` | quant-worker/engine/backtest.py:300-308 | a half fill happens exactly at the touch of the candle high on the way up, so only a short grid ever opens half a lot |
| `GridLedger.FillKeepsExact` | quant-worker/engine/backtest.py:288-379 | every move keeps position, quote, cash, fees and pair counts exact sums over resting lots and closed trades; every pair earns one step on its own size |
| `GridLedger.AverageCostIsExact` | quant-worker/engine/backtest.py:441-450 | the mark against the average entry equals the lot-by-lot mark, for long, short and neutral |
| `GridLedger.NeutralBudget` | quant-worker/engine/backtest.py:228-230 | a neutral grid never commits more than all its levels but one |
| `GridPath.LevelIsTwoStateMachine` | quant-worker/engine/backtest.py:310-379 | after any path, a level holds a lot exactly when its latest crossing was an opening one |
| `GridPath.LevelsCommute` | quant-worker/engine/backtest.py:296-379 | fills at two levels do not interfere, up to the order of the listed trades |
| `GridPath.SplitMove` | quant-worker/engine/backtest.py:288-379 | observing a move at any price on the way changes neither lots nor ledgers nor the set of trades; except on a falling short grid not even their order |
| `GridPath.RefinedPath` | quant-worker/engine/backtest.py:288-379 | a whole path, each move observed any number of times on its way, leaves the same lots, ledgers and set of trades; on a long or neutral grid the same list |
| `GridPath.SplitProfitsExactly` | quant-worker/engine/backtest.py:310-342 | on a falling short grid the reported profits keep their order exactly when those of the two legs commute |
| `GridPath.SplitOrderExactly` | quant-worker/engine/backtest.py:310-342 | if no two resting lots close with the same profit, that is exactly when one of the two legs closes nothing |
| `GridPath.FullLotsAreDistinguishable` | quant-worker/engine/backtest.py:331-342 | lots of full size close with less profit the higher they rest, with any maker fee above minus one |
| `GridPath.ObservationReordersTrades` | quant-worker/engine/backtest.py:310-342 | two full lots, one on either side of the point of observation, whose reported profits change places |
| `GridPath.EqualProfitsHideTheOrder` | quant-worker/engine/backtest.py:310-342 | a half lot and a full one that close with the same profit, so that both orders report the same list |
| `GridRun.EveryRunConserves` | quant-worker/engine/backtest.py:208-465 | on every accepted run that divides: position, quote, profit, fees, funding, pairs and lots are exact sums and the lots follow the path, up to the one booking that ended the run |
| `GridRun.EveryStopIsExact` | quant-worker/engine/backtest.py:397-430 | after a stop: the closed pairs, each worth one step, then at most one exit; their gross equals profit + fees + funding; every lot opened is in a pair or rested on the path just before; from a positive entry price the run ends flat |
| `GridRun.EveryRunHolds` | quant-worker/engine/backtest.py:383-422 | while a run lasts, the lots are those the whole price path so far calls for |
| `GridRun.StopExitIsLotByLot` | quant-worker/engine/backtest.py:397-417 | leaving at the average entry earns what leaving lot by lot would have earned |
| `GridRun.NeutralRunBudget` | quant-worker/engine/backtest.py:228-230 | over every neutral run quote spent stays at or below notional * (levels-1) / levels |
| `GridRun.CurveIsNonNegative` | quant-worker/engine/backtest.py:424-465 | the equity curve starts at the investment and is never negative |
| `GridRun.MarginCoversHoldings` | quant-worker/engine/backtest.py:452-457 | with every level bought and every opening fee paid the margin still covers the market value held |
| `GridRun.NeverLiquidated` | quant-worker/engine/backtest.py:452-463 | no candles with positive prices liquidate an unlevered neutral grid without funding whose step covers its fees, rebates included |
| `Drawdown.MaxDrawdown` | quant-worker/engine/backtest.py:469-474 | the one-pass running-peak figure bounds the fall of every ordered pair, is attained, and is at most 1 |
| `Drawdown.HigherPeakFallsFurther` | quant-worker/engine/backtest.py:472-474 | falling to one value from a higher peak is falling further, and never by more than everything |
| `GridSimulator.OpenGrid.constructor` | quant-worker/engine/backtest.py:223-283 | the opening state, with half of the notional opened at once on a directional grid |
| `GridSimulator.OpenGrid.OpenAt` | quant-worker/engine/backtest.py:310-322 | opening a lot changes dictionary and ledgers as the specified book |
| `GridSimulator.OpenGrid.CloseAt` | quant-worker/engine/backtest.py:361-379 | closing takes the one lot of the level, deletes the emptied queue and settles it |
| `GridSimulator.OpenGrid.FillBetween` | quant-worker/engine/backtest.py:288-379 | the level loop equals the specified fill of the move |
| `GridSimulator.OpenGrid.StopPosition` | quant-worker/engine/backtest.py:397-417 | the stop exit clears the position and books it at slipped price and taker fee |
| `GridSimulator.OpenGrid.WalkCandle` | quant-worker/engine/backtest.py:383-422 | the four points of a candle in path order, cut short by a stop |
| `GridSimulator.OpenGrid.CloseBar` | quant-worker/engine/backtest.py:424-465 | funding, liquidation check and next equity point |
| `GridSimulator.Simulate` | quant-worker/engine/backtest.py:208-492 | rejects invalid parameters exactly when the source does; otherwise reports the specified run with its worst fall |
| `GridMeaning.CandleIsWalkedThrough` | quant-worker/engine/backtest.py:202-206 | every candle without a stop is four chained moves from the last price: open, high before low exactly when it closes below its open, close |
| `GridMeaning.FallingCandle` | quant-worker/engine/backtest.py:202-206 | a falling candle 100-106-94-96 on levels 95, 100 and 105: three lots, no pair |
| `GridMeaning.RisingCandle` | quant-worker/engine/backtest.py:202-206 | its rising mirror closing at 104: two pairs, one lot |
| `GridMeaning.OpenedLotExactly` | quant-worker/engine/backtest.py:300-322 | a crossed free level gets a lot at its price for a full share, or half a share on a short grid that only touches the high there |
| `GridMeaning.EntryExactly` | quant-worker/engine/backtest.py:231-233 | the entry is the open inside the range, else one step inside the bound that was passed |
| `GridMeaning.OpeningExactly` | quant-worker/engine/backtest.py:251-262 | a directional grid opens half of its leveraged notional at taker cost, a neutral one starts flat |
| `GridMeaning.CandleStopsExactly` | quant-worker/engine/backtest.py:264-279 | a candle stops exactly when one of its four prices is past the absolute stop, or else the one at a distance from the bound; the exit is at the first such price on the way |
| `GridMeaning.StopBooksTheMark` | quant-worker/engine/backtest.py:397-417 | the exit books the mark at the stop point less slippage on the whole position and taker fee |
| `GridMeaning.FundingExactly` | quant-worker/engine/backtest.py:432-439 | the signed market value times rate and share of eight hours: longs pay, shorts receive |
| `GridMeaning.LiquidatesExactly` | quant-worker/engine/backtest.py:452-457 | the exact inequality on cost, margin and 99 or 101 per cent of the market value |
| `GridMeaning.BarExactly` | quant-worker/engine/backtest.py:432-465 | the close of a bar: funding, liquidation, else one more point of the curve |
| `WalkForward.SortedIsSorted` | quant-worker/engine/backtest.py:499-499 | sorting orders the closes and keeps them all |
| `WalkForward.DerivedFromCloses` | quant-worker/engine/backtest.py:494-510 | both bounds are closes of the training window; on each side at most a tenth of the closes lies beyond the bound and at least a tenth at it or beyond; 6 to 500 levels |
| `WalkForward.LevelsAreMost` | quant-worker/engine/backtest.py:507-509 | one level more would not clear the floor, unless there are 500 |
| `WalkForward.StepClearsFloorExactly` | quant-worker/engine/backtest.py:507-509 | the derived step clears the fee floor exactly when the range is at least six floors wide |
| `WalkForward.FortyCandlesAlwaysFit` | quant-worker/engine/backtest.py:545-548 | with forty candles or more the shrunken windows fit at least once |
| `WalkForward.FittingWindows` | quant-worker/engine/backtest.py:553-592 | the windows that fit are exactly the first floor((N - train - purge) / test) windows |
| `WalkForward.WindowsTile` | quant-worker/engine/backtest.py:556-557 | test windows tile without gap or overlap, start purge bars after training, and leave less than one window over |
| `WalkForward.TryFold` | quant-worker/engine/backtest.py:556-572 | a window folds exactly when its grid can be derived, and then reports the simulation of that grid over its test candles |
| `WalkForward.WalkForwardFolds` | quant-worker/engine/backtest.py:513-593 | the loop ends with exactly the folds of all fitting windows, in order |
| `WalkForward.FoldIsSimulation` | quant-worker/engine/backtest.py:556-572 | a reported fold is the neutral, unlevered simulation of exactly the candles of its label, on the grid of the training candles one purge before them |
| `WalkForward.FoldReadsOnly` | quant-worker/engine/backtest.py:556-557 | nothing but the training candles and the candles of its label decides a fold, whatever the purge candles are |
| `WalkForward.NoPeeking` | quant-worker/engine/backtest.py:556-558 | the derived grid does not change when candles from the end of training on do; nor the fold with candles after its test |
| `WalkForward.NeverPeeks` | quant-worker/engine/backtest.py:553-593 | over a walk, candles after the training windows cannot decide which windows are kept |
| `WalkForward.ShortTrainingKeepsNothing` | quant-worker/engine/backtest.py:497-498 | training windows shorter than thirty candles never make a fold |
| `WalkForward.ShrunkTrainingFoldsExactly` | quant-worker/engine/backtest.py:545-548 | shrunken windows can fold exactly when the training has thirty candles and the total leaves three times thirty beside purge and test |
| `WalkForward.EnoughCandlesFold` | quant-worker/engine/backtest.py:545-548 | from 127 candles on no shrinking takes the training below thirty |
| `WalkForward.DefaultWindowsFoldExactly` | quant-worker/engine/backtest.py:513-555 | the default windows can fold exactly from 127 candles on |
| `WalkForward.ShrunkDefaults` | quant-worker/engine/backtest.py:545-548 | the default windows shrunk to 40, 127 and 200 candles |
| `WalkForward.CandidateIsOutOfSample` | quant-worker/engine/backtest.py:602-604 | with forty candles or more the candidate is judged only on candles after the first training window and purge |
| `WalkForward.WideFoldsAreNeverLiquidated` | quant-worker/engine/backtest.py:494-572 | a fold on a range of at least six floors, without funding, never ends in liquidation |
| `ReplayCore.ReplayTrace` | backend/internal/autogrid/replay_engine.go:174-275 | the walk over the trace equals the declarative judgement of the first entry of the gate |
| `ReplayCore.Validate` | backend/internal/autogrid/replay_engine.go:174-275 | validation refuses exactly the empty recording and one with a threshold decision that its own numbers contradict |
| `ReplayCore.WalkRemainder` | backend/internal/autogrid/replay_engine.go:228-275 | the outcome after an unblocked gate depends only on which verdicts occur in the remainder |
| `ReplayCore.FactsExactly` | backend/internal/autogrid/replay_engine.go:285-317 | when a gate can be re-judged, which threshold and value count, and what is named as missing |
| `ReplayCore.RefusesExactly` | backend/internal/autogrid/replay_engine.go:174-275 | which recordings an override cannot be replayed on, with the cause, and the outcome when the verdict stays or turns to reject |
| `ReplayCore.CertainExactly` | backend/internal/autogrid/replay_engine.go:228-275 | an outcome is the same in every completion exactly when some gate rejected or every gate was evaluated |
| `ReplayCore.ReplayIsCertainAnswer` | backend/internal/autogrid/replay_engine.go:174-275 | when the verdict flips, the replay answers exactly the certain outcome: always if it now rejects, else exactly on harmless prefixes |
| `ReplayCore.HarmfulPrefixMisleads` | backend/internal/autogrid/replay_engine.go:228-275 | a deferring gate before a lifted rejection: the replay allows where the chain would still defer |
| `ReplayCore.ShortCircuitIsHarmless` | backend/internal/autogrid/replay_engine.go:228-275 | a recording with only passes and exemptions before the gate is harmless |
| `ReplayCore.OwnThresholdReproduces` | backend/internal/autogrid/replay_engine.go:285-326 | a recording that validates is reproduced under its own threshold |
| `ReplayCore.LooserIsNoWorseExactly` | backend/internal/autogrid/replay_engine.go:228-275 | loosening a threshold never worsens the replayed outcome, exactly unless a rejecting recording ended better than the gates after it allow |
| `ReplayCore.LooserIsNoWorse` | backend/internal/autogrid/replay_engine.go:321-326 | monotone in the threshold on every recording whose rejecting gate denied the chain |
| `ReplayRuns.EffectDecomposes` | backend/internal/autogrid/replay_engine.go:724-797 | the profit difference is missed profits plus prevented losses |
| `ReplayStats.StatsExactly` | backend/internal/autogrid/replay_engine.go:724-797 | counts are sizes of sets of items; difference, missed profits and prevented losses are sums over the first item of each case, of all results, of gains and of losses |
| `ReplayStats.CausesExactly` | backend/internal/autogrid/replay_engine.go:752-760 | each cause is listed with the number of items it kept from being replayed |
| `ReplayStats.OneWayEffect` | backend/internal/autogrid/replay_engine.go:748-750 | a run that only admits more has missed profits and no prevented losses; one that only refuses more, the reverse |
| `ReplayStats.MissedFive` | backend/internal/autogrid/replay_engine.go:748-750 | one lifted refusal with a result of five |
| `ReplayStats.ItemExactly` | backend/internal/autogrid/replay_engine.go:593-640 | verdict, cause and result of an item; a result only when the admission turned round |
| `ReplayStats.FinishedStatsExactly` | backend/internal/autogrid/replay_engine.go:724-816 | every finished punctual run carries these statistics of its whole window |
| `ReplayRuns.OpportunitiesCountOnce` | backend/internal/autogrid/replay_engine.go:724-797 | an opportunity counts at most once, an item that could not be replayed never |
| `ReplayRuns.ValidationHasNoEffect` | backend/internal/autogrid/replay_engine.go:593-640 | a run without override has no changed item and an empty effect |
| `ReplayRuns.PendingIsSuffix` | backend/internal/autogrid/replay_engine.go:528-541 | decisions without an item are exactly those after the last item |
| `ReplayRuns.AppendBatch` | backend/internal/autogrid/replay_engine.go:528-575 | a batch extends the items in decision order; an empty or short batch means the window is finished |
| `ReplayRuns.StepKeeps` | backend/internal/autogrid/replay_engine.go:443-586 | every step of any worker, crash, failure or cancellation that leaves batches in time keeps the protocol invariant, one writer per run included |
| `ReplayRuns.FinishedRunsAreComplete` | backend/internal/autogrid/replay_engine.go:509-586 | whatever the interleaving, with batches in time, a finished run has one item per decision, in order, and the statistics of the full list |
| `ReplayRuns.SlowBatchDuplicates` | backend/internal/autogrid/replay_engine.go:528-570 | a concrete run in which a batch outlasts the lease and its item is inserted twice |
| `ReplayRuns.InsertDuplicatesExactly` | backend/internal/autogrid/replay_engine.go:702-720 | an insert keeps items free of duplicates exactly when no decision of the batch has an item yet |
| `ReplayRuns.PromptWorkersAreAlone` | backend/internal/autogrid/replay_engine.go:515-527 | if finalization also ends within a lease, no two live workers hold one run |
| `ReplayRuns.SharedExactly` | backend/internal/autogrid/replay_engine.go:443-479 | a step makes two live workers hold one run exactly when it claims a due run that another worker is still finalizing |
| `ReplayRuns.WritersSharedExactly` | backend/internal/autogrid/replay_engine.go:443-479 | without any assumption on time, a step lets two workers write one run exactly when it claims a due run that another is still writing |
| `ReplayRuns.SlowFinalizationIsShared` | backend/internal/autogrid/replay_engine.go:577-586 | a concrete run in which a slow finalization is overtaken by a second worker |
| `ReplayRuns.RunRow.Claim` | backend/internal/autogrid/replay_engine.go:443-479 | takes exactly queued runs and running ones whose lease is over |
| `ReplayRuns.RunRow.RefreshLease` | backend/internal/autogrid/replay_engine.go:515-527 | extends the lease of a running run, whoever holds it |
| `ReplayRuns.RunRow.ComputeItems` | backend/internal/autogrid/replay_engine.go:593-640 | one item per decision of the batch, in order |
| `ReplayRuns.RunRow.Process` | backend/internal/autogrid/replay_engine.go:509-586 | from wherever an earlier worker stopped, the batch loop ends with the same items and statistics as one uninterrupted pass |
| `BotPolicy.ShiftsRecenter` | backend/internal/autogrid/manage.go:271-412 | every shift follows a break of the buffered range with an adjustment left, and re-centers the range on the price |
| `BotExits.EndsExactly` | backend/internal/autogrid/manage.go:81-398 | when a reading closes a bot, trails its stop or shifts its range, in prices and amounts |
| `BotExits.PriceRulesExactly` | backend/internal/autogrid/manage.go:84-121 | target, card stop and upper stop in their order; a stop closes as a profit exactly when there is one |
| `BotExits.ProfitRulesExactly` | backend/internal/autogrid/manage.go:123-285 | target profit, exhausted flow, stale bot, break-even, a fifth given back, maximal loss, dead thesis and range, each in its place |
| `BotExits.ReadingEndsExactly` | backend/internal/autogrid/worker.go:6235-6250 | an accepted reading ends the bot exactly when its decision does |
| `BotExits.RunningNeverPassedItsStop` | backend/internal/autogrid/manage.go:98-113 | over every run, a running bot has never seen an accepted reading at or past the card stop it carried then |
| `BotExits.StopClosesLong` | backend/internal/autogrid/manage.go:98-113 | a long bot three in the red at 94 with its stop at 95 is stopped |
| `BotExits.RadarShiftsExactly` | backend/internal/autogrid/radar_actions.go:346-356 | which bands shift, with which budget |
| `BotPolicy.AntiHuntExactly` | backend/internal/autogrid/mesh.go:270-295 | how far beyond the bound the deploy-time stop lies |
| `BotPolicy.CenteredIsQuiet` | backend/internal/autogrid/manage.go:81-398 | a range centered on the price asks for no shift, no range-break close and no structural close |
| `BotPolicy.ClampedStopIsOutside` | backend/internal/autogrid/mesh.go:270-318 | a clamped anti-hunt stop lies outside every range of positive prices |
| `BotPolicy.DeployedStopIsOutsideExactly` | backend/internal/autogrid/grid_lifecycle_policy.go:1113-1120 | after rounding before and after the clamp, the stop is outside exactly under a condition on the bound in ticks |
| `BotPolicy.CheapStopIsOnTheBound` | backend/internal/autogrid/grid_lifecycle_policy.go:1113-1120 | bounds of ten and twenty ticks whose clamped stops round back onto them |
| `BotPolicy.TrailedStopTriggersExactly` | backend/internal/autogrid/manage.go:158-186 | at any price, a freshly trailed stop is hit by that price exactly when rounding undoes the distance |
| `BotPolicy.WholeTicksTriggerExactly` | backend/internal/autogrid/manage.go:158-186 | at prices of whole ticks that is exactly below 34 ticks |
| `BotPolicy.CheapTrailIsHitAtOnce` | backend/internal/autogrid/manage.go:158-186 | a long bot at 20 ticks whose new stop is the price itself |
| `BotRuns.EveryRunKeepsGeometry` | backend/internal/autogrid/radar_actions.go:321-356 | over any interleaving the width never changes, a stop that is still live has kept its distance, and there are at most maxAdjustments + 1 shifts |
| `BotRuns.LongStopStaysAlive` | backend/internal/autogrid/radar_actions.go:321-335 | while prices exceed half the range plus the distance, the stop of a long or neutral bot stays above zero and keeps its distance |
| `BotRuns.ShiftKeepsAliveExactly` | backend/internal/autogrid/radar_actions.go:321-335 | one shift keeps such a stop above zero exactly when its price does |
| `BotRuns.StopStaysOutside` | backend/internal/autogrid/radar_actions.go:330-335 | a live stop that starts outside the range stays outside for ever |
| `BotRuns.DistanceKeptExactly` | backend/internal/autogrid/worker.go:6389-6400 | a shift keeps the distance of the stop exactly when the stop is above zero or the range does not move |
| `BotRuns.ShortStopStaysAlive` | backend/internal/autogrid/worker.go:6389-6400 | the stop of a short bot never falls to zero |
| `BotRuns.LongStopCanBeLeftBehind` | backend/internal/autogrid/worker.go:6395-6396 | two concrete shifts that leave the stop of a long bot behind |
| `BotRuns.QuietAfterShift` | backend/internal/autogrid/manage.go:81-398 | right after any shift the same price asks for no shift, range-break close or structural close, whatever the rest of the reading |
| `BotRuns.TrailsGainTicks` | backend/internal/autogrid/manage.go:158-186 | every stored trailing stop is on the tick grid and at least one tick tighter than the one before |
| `BotRuns.ShortTrailingTerminates` | backend/internal/autogrid/manage.go:158-186 | a short stop is trailed at most once per tick between it and zero |
| `BotRuns.LongTrailingTerminates` | backend/internal/autogrid/manage.go:158-186 | a long stop is trailed at most once per tick up to 98.5% of the highest price plus half a tick of the coarsest rounding |
| `BotRuns.NeutralNeverTrails` | backend/internal/autogrid/manage.go:158-186 | a neutral bot never trails |
| `BotRuns.AdvanceIsStoredExactly` | backend/internal/autogrid/worker.go:6444-6447 | an advance is asked for again by the same reading exactly when it rounds to zero or less |
| `PaperLadder.LevelBoundary` | backend/internal/autogrid/manage.go:673-686 | the level of a price is given by the boundaries at or below it |
| `PaperLadder.BufferedIsBetween` | backend/internal/autogrid/manage.go:534-552 | with levels wider than the buffer, the buffered level lies between the previous and the raw level |
| `PaperLadder.BoundaryKissingBooksNothing` | backend/internal/autogrid/manage.go:526-552 | a path of any length that hugs one boundary never moves the level |
| `PaperLadder.KissingSettlesAtOnce` | backend/internal/autogrid/manage.go:534-552 | from any level, the first price hugging a boundary settles the level beside it |
| `PaperLadder.LoadsMinusPairs` | backend/internal/autogrid/manage.go:623-643 | over any run, crossings that load inventory minus pairs equal the change in depth from the midpoint |
| `PaperLadder.SparserBooksNoMore` | backend/internal/autogrid/manage.go:623-643 | dropping observations from a run never books more pairs |
| `PaperLadder.DetourExactly` | backend/internal/autogrid/manage.go:623-643 | an observation adds exactly half its detour in pairs, and nothing on the way |
| `PaperLadder.NoPairsExactly` | backend/internal/autogrid/manage.go:623-643 | a run books nothing exactly when none of its steps approaches or crosses the midpoint |
| `PaperLadder.OneWayBooksNothing` | backend/internal/autogrid/manage.go:554-566 | a one-way traverse on either side of the midpoint books nothing and only loads inventory |
| `PaperLadder.BufferBooksNoMore` | backend/internal/autogrid/manage.go:526-552 | on any price path with levels wider than the buffer, the buffered levels book at most the pairs of the raw levels |
| `PaperLadder.InventoryNeverWins` | backend/internal/autogrid/manage.go:646-669 | the inventory mark is never a profit, and the notional never exceeds half of the leveraged investment |
| `PaperLadder.InventoryExactly` | backend/internal/autogrid/manage.go:646-669 | inside the range the notional is the filled part of the ladder and the entry lies halfway between price and middle |
| `PaperLadder.PairProfitExactly` | backend/internal/autogrid/manage.go:612-644 | each level by which the price came back earns the level width over the middle less two legs of fees on one share |
| `PaperLadder.FundingIgnoresPolling` | backend/internal/autogrid/manage.go:700-726 | with constant exposure, polls at any times in any order add up to exposure times rate per boundary passed by the latest one; the anchor trails it by less than eight hours |
| `CloseIntents.TerminalIsFrozenExactly` | backend/internal/autogrid/worker.go:4158-4165 | no writer changes a terminal row exactly unless the cancel of a visit that has not yet read the remote state found the bot gone |
| `CloseIntents.BrokenIsFrozen` | backend/internal/autogrid/grid_lifecycle_policy.go:685-690 | no writer changes the row of a bot that closed on a break |
| `CloseIntents.EveryRunIsGood` | backend/internal/autogrid/worker.go:4797-5375 | over any interleaving of writers, visits and crashes: running implies no baseline, fingerprints are unique, every child has a terminal parent closed on a break |
| `CloseIntents.OneFirstWriter` | backend/internal/autogrid/close_intent.go:32-42 | at most one first-writer call succeeds per bot, none after any other close |
| `CloseIntents.BaselineIsFinal` | backend/internal/autogrid/close_intent.go:11-42 | the first recorded baseline is never changed |
| `CloseIntents.ReasonIsFirst` | backend/internal/autogrid/close_intent.go:11-42 | the reason is that of the first closer, and is only overwritten when a cancel finds the bot gone |
| `CloseIntents.StopsReach` | backend/internal/autogrid/service.go:2037-2065 | which bots each kind of stop reaches |
| `CloseIntents.QueueReaches` | backend/internal/autogrid/grid_lifecycle_policy.go:548-557 | an intent is stored exactly on a bot on its way out |
| `CloseIntents.ClosedStaysClosed` | backend/internal/autogrid/worker.go:4735-4743 | a terminal row that no visit can reopen keeps everything but the mark, its break price included |
| `CloseIntents.AttemptAddsExactly` | backend/internal/grid/lifecycle.go:163-232 | an attempt adds a child exactly when the intent is due and admitted, the symbol is free and no child had the same parameters |
| `CloseIntents.AttemptInsertsExactly` | backend/internal/autogrid/grid_lifecycle_policy.go:674-767 | an attempt inserts a grid exactly for a bot that ended on a break within two hours, with an unmarked intent under two hours old, the switch on, a positive break price, an admitted offer, a free symbol and a new mesh |
| `CloseIntents.PassConsumesExactly` | backend/internal/autogrid/grid_lifecycle_policy.go:728-767 | every intent taken up is marked; one that fails the switch, the age or the price is marked and nothing else happens |
| `CloseIntents.ChildNeedsTerminalParent` | backend/internal/autogrid/grid_lifecycle_policy.go:674-690 | no child is created before its parent is terminal |
| `CloseIntents.DisownedStaysChildless` | backend/internal/autogrid/grid_lifecycle_policy.go:685-690 | a bot that left running for another reason than a break, or for none as the control plane stops it, never gets a child |
| `CloseIntents.EndingsAreNoBreaks` | backend/internal/autogrid/worker.go:8659-8675 | no ending that the exchange reports counts as a break |
| `CloseIntents.NoCrashOneChild` | backend/internal/autogrid/grid_lifecycle_policy.go:567-580 | without a crash between create and mark each closed bot yields at most one child |
| `CloseIntents.SameMeshOneChild` | backend/internal/grid/lifecycle.go:361-375 | with crashes anywhere, attempts with the same parameters yield at most one child |
| `CloseIntents.SecondChildAfterCrash` | backend/internal/grid/lifecycle.go:361-375 | a concrete run with a crash and a moved mesh that yields two children |
| `CloseIntents.UpdateKeepsOneActiveExactly` | backend/internal/autogrid/worker.go:5289-5295 | a writer keeps one active grid per account and symbol exactly unless it revives a row on a symbol taken meanwhile: a late create answer, a control-plane stop of a failed bot, or a remote state read after a cancel found the bot gone |
| `CloseIntents.OneActivePerSymbol` | backend/internal/grid/lifecycle.go:163-179 | while no row is revived, every run has at most one active grid per account and symbol |
| `CloseIntents.LateAnswerDoubles` | backend/internal/grid/lifecycle.go:275-297 | a concrete run with two active grids on one symbol |
| `CloseIntents.StopOfFailedDoubles` | backend/internal/controlplane/service.go:707-735 | a concrete run in which a control-plane stop revives a failed bot beside a new grid |
| `CloseIntents.ReopenedDoubles` | backend/internal/autogrid/worker.go:5289-5295 | a concrete visit that reopens a stopped row beside a new grid |
| `CloseIntents.GridTable.RecordCloseIntent` | backend/internal/autogrid/close_intent.go:11-23 | the guarded update on any row, and whether it affected one; on a supervised row it is the step of the model |
| `CloseIntents.GridTable.RecordCloseIntentFirstWriter` | backend/internal/autogrid/close_intent.go:32-42 | flips only a running row and stamps the baseline |
| `CloseIntents.GridTable.QueueRealRedeploy` | backend/internal/autogrid/grid_lifecycle_policy.go:548-566 | writes the intent only on a closing row |
| `CloseIntents.GridTable.CreateGridBot` | backend/internal/grid/lifecycle.go:163-232 | refuses a busy symbol, replays a known fingerprint, else inserts |
| `CloseIntents.GridTable.ProcessRedeployIntents` | backend/internal/autogrid/grid_lifecycle_policy.go:674-767 | one pass equals one attempt and one mark per due intent, in order, although verdicts were taken at its start; every new row belongs to an executable, admitted intent |
| `Storm.StormNeedsDistinctSymbols` | backend/internal/autogrid/protection.go:494-514 | a storm means three distinct symbols within window plus duration |
| `Storm.CrowdedWindowIsStormy` | backend/internal/autogrid/protection.go:494-520 | with three symbols in the window a storm is on exactly while the latest trigger is younger than the duration |
| `Storm.CrowdedButCalm` | backend/internal/autogrid/protection.go:516-520 | three triggers at one time, read exactly one duration later: a full window and no storm |
| `Storm.FewSymbolsNeverStorm` | backend/internal/autogrid/protection.go:510-512 | one or two symbols never raise a storm, however often they trigger |
| `Storm.PrunedMapAgrees` | backend/internal/autogrid/protection.go:501-509 | deleting what left the window keeps the map equal to the window of the full history |
| `Storm.MapCountsWindow` | backend/internal/autogrid/protection.go:526-533 | at any later time the map still holds exactly the symbols of the window |
| `Storm.Detector.NoteTrigger` | backend/internal/autogrid/protection.go:494-513 | one trigger, with deletion during the loop, keeps map and deadline consistent with the history |
| `Storm.Detector.OnSharpMove` | backend/internal/autogrid/realtime_trigger.go:77-79 | only symbols of the fleet reach the detector, all symbols while the fleet is unknown |
| `Storm.Detector.SetFleetStormSymbols` | backend/internal/autogrid/protection.go:466-476 | replaces the fleet by the non-empty names, and touches nothing else |
| `Storm.Detector.StormActive` | backend/internal/autogrid/protection.go:516-520 | active exactly when some past trigger within the duration saw three distinct symbols in its own window |
| `Storm.Detector.StormState` | backend/internal/autogrid/protection.go:523-535 | the count from the pruned map is the number of distinct symbols in the window over the full history |

## Left out

- Float and decimal rounding of reported figures: prices and amounts are exact reals. Rounding is modelled where it decides something: the trailing stop, the deploy stop and the break price in the idempotency key. A trade is kept as gross and fee instead of a rounded profit.
- SQL, HTTP, the exchange client, messages and logs: a table is a map with atomic updates, an exchange answer is an arbitrary input. Failed statements are statements that do not happen.
- Strings for directions, regimes and gates are datatypes or exact strings: trimming, case folding and number parsing are not part of this model. The outcomes ALLOW, WAIT and REJECT of a chain are called `ALLOW`, `DEFER` and `DENY`.
- Performance statistics (Sharpe, autocorrelation, confidence intervals), regime detection and the summary report of the walk-forward: figures with no invariant behind them.
- A directional grid whose entry price is zero: the source divides by zero there; `GridSimulator.Simulate` reports `DivisionByZero`.
- Which due replay run a worker takes first: any due run may be claimed. Cancellation is not terminal: the final write of a replay run is unconditional.
- Market gates in front of a shift or a re-deploy (wick shield, order-flow freeze, exchange refusals, account caps, kill switch): one `accepted` or `admitted` flag. The manual margin and tranche lanes and the LIQ_PROXIMITY override are not part of this model.
- Settlement of exit fees on paper shifts: it mixes two fee rates.
- Resurrection of orphans, and the flip of a break close to a cascade short: an orphan keeps its old markers, and a retry may flip after a create.
- A failed create that overwrites the status of a row which the adoption reconciler has already given a remote id: `CreateFailed` is modelled for rows without one. The ninety-second wait before an operator may close an unsent submission is a matter of when the event happens.
- The order and the choice of the five intents in one pass: the pass works on any five due intents.
