# Verification of the trading backend's core algorithms

This project models the algorithmic core of the trading backend in Dafny and proves properties of it. Code that the
backend writes as loops and as objects updated in place is modelled as methods and classes; each of them is proved
equal to a specification function, and the theorems are lemmas about those functions, for all inputs, all runs or all
reachable states.

`dafny verify dfyconfig.toml` checks everything. Prices, balances and scores are exact reals. Python's `round` is
modelled digit for digit as round-half-to-even on a decimal grid (`PyRound.dfy`). Every lemma switches off automatic
induction, so that a proof is what its body says and recursion in it is the only induction.

## What is modelled

**The backtest simulator** (`BacktestModels`, `BacktestHelpers`, `BacktestEngine`, `BacktestRun`). One candle is four
phases: advance the context-timeframe pointers, check the exit of the open position, ask the strategy or hold the last
signal, open a position. The strategy is an arbitrary deterministic function of its own state and the view the engine
shows it. `BacktestRun.Run` is the source's loop over the object `OpenPosition`; it is proved equal to
`BacktestEngine.Final`. On top of that:

* `ExitRule`: what the exit check means in terms of the prices a candle traded at.
* `Openings`: when a run opens a position, at what price, and how large.
* `TradeRecords`: the trade, the balance and the rest of the position after each exit, field by field.
* `StrategyCalls`: what a strategy is shown, and what becomes of its answer.
* `ContextWindows`: the pointers show the windows the naive loader would compute.
* `Causality`: what is recorded up to candle k depends on no later candle.
* `Lifecycle`: volumes, scale-outs and stops of every position of a run.
* `Ledger`, `OffGridRun`: balance, trade list and equity curve agree, with a bound on the accumulated rounding, and when
  the balance can be recomputed from the trades.
* `StopOut`, `StopOutRuns`: the largest loss of a risk-sized position at its initial stop, over whole runs.
* `LlmBudget`: how often an LLM strategy is called.
* `Mirror`, `UnmirroredRun`: negating all prices and flipping directions mirrors whole runs exactly when the
  minimum-stop-distance guard is neutral at every candle.
* `Drawdown`, `BacktestMetrics`: the running-peak loops, streaks, and the drawdown of a simulated run.

**The signal score** (`SignalScore`, `SignalScoreProofs`, `SignalScoreStrategy`): EMA, RSI, ATR and the weighted score,
invariant under positive affine price changes, bounded by 10, and mirror symmetric exactly outside trending flat markets.
`ScoreFeatures` says what each feature means in terms of the bars, `ScoreLaws` what each is worth and what a score of 10
takes, and `RisingHistory` computes the score of one history.

**The warm MT5 session** (`Mt5Session`, `Mt5Lifetimes`, `Mt5Bridge`): session reuse, swap, pins, invalidation, the idle reaper and the
lock, as a protocol over atomic steps with the account the terminal is really logged in to as an extra, unread variable.

**The optimization sweep** (`ParamGrid`, `SweepResults`, `SweepPool`, `OptimizationRun`): the grid, the bounded worker
pool under every schedule, failures, periodic saves, cancellation and resume.

**The scheduler's group registry** (`JobIds`, `GroupRegistry`, `GroupUndo`, `GroupStartup`, `SchedulerRegistry`): the
account lists and the job table through startup, add, remove and remove-all.

**The trust gate** (`TrustGate`, `TrustGateProofs`, `TrustCounts`), **history sync** (`HistorySync`, `HistorySyncProofs`,
`HistoryService`) and **swing pivots** (`SwingDetector`).

## Where the code and its description differ

The model follows the code. These are the places where a stated or expected property fails, with the theorem that says
exactly when it holds.

* `max_llm_calls` is not a cap on calls. Over all run lengths a cap m lets through no call at all for m = 1, m calls up
  to m = 50, and 2m - 50 beyond, and each of these is reached; so the cap holds for every length exactly when m is at
  most 50 (`LlmBudget.CallBudget`, `BudgetIsReached`, `CapHoldsForEveryLengthIff`). For one length `CapHoldsIff` gives
  the condition; 199 candles with a cap of 100 give 150 calls (`CapOfHundredIsExceeded`).
* The engine shows 20 context candles when the strategy names no count, the loader 10; the windows agree only while at
  most ten candles are visible (`ContextWindows.DefaultCountsDiffer`, `ElevenCandlesDiffer`).
* The guard on the minimum stop distance measures 0.1 % of the signed fill price, so openings at negative prices are
  never refused by it; it is the only rule of the engine that is not mirror symmetric. An opening, and a whole run, is
  mirrored exactly when the guard is neutral (`Mirror.OpeningMirrorsIff`, `RunsMirrorIff`); a BUY refused whose mirrored
  SELL is accepted breaks it (`Mirror.RefusedBuyAcceptedSell`, `UnmirroredRun.OnlyTheImageTrades`).
* A stop is booked at the stop less the spread even when the candle gapped further, or closed further in close-price
  mode; that price was attainable only if some traded price came within the spread of the stop
  (`ExitRule.FillsAreAttainable`, `GapThroughTheStop`).
* The trade closed at the end of the data shows a rounded exit price but is booked at the raw close. The final balance
  can be recomputed from the returned trades exactly when no position was left open, or it was empty, or the last close
  is on the five-digit grid (`Ledger.BalanceFromTradesIff`, `OffGridRun.OffGridCloseIsLost`).
* RSI reads 100 when no close moves, which favours buyers in a flat market: the score is mirror symmetric exactly when
  there are too few bars, or the closes moved, or there is no trend (`SignalScoreProofs.ScoreMirrors`,
  `FlatMarketFavoursBuyers`, `StepIsNotMirrored`).
* Resuming skips every combination whose parameters were saved, so a grid with repeated values loses rows: every partial
  result can be resumed to the full sweep exactly when no combination that yields a row is repeated
  (`SweepResults.EveryResumeCompletesIff`, `ResumeIsUninterruptedIff`, `RepeatedValuesLoseRows`).
* Startup does not deduplicate the accounts of a group, adding a binding does; they agree exactly when no account is
  listed twice under one key (`GroupStartup.StartupIsAddingOneByOne`, `RepeatedSymbolDiffers`).
* The Wilson bound is said to pull towards 0.5 as the sample shrinks. At an equal positive win rate it strictly falls,
  and whether the smaller sample is then nearer to 0.5 is decided by the counts through a polynomial condition without
  roots (`TrustGateProofs.WilsonFallsWithSample`, `PulledTowardsHalfIff`). It always is when the smaller sample still
  beats even odds and never when the larger one does not; in between both happen (`BetweenTheCorollaries`). Three wins in
  four are farther from 0.5 than six in eight (`PulledAwayFromHalf`).
* A position that is imported without its opening deal keeps what the sync made up: entry price 0.0, direction SELL and
  the clock of that sync. Syncing again later agrees with one late sync exactly when nothing was made up
  (`HistorySyncProofs.SyncInTwoSteps`, `LateOpeningIsLost`, `MissingOpeningKeepsTheFirstClock`).

## Model

| member | source | states |
|---|---|---|
| BacktestHelpers.CheckExit | backend/services/backtest_engine/_helpers.py:64-152 | the exit check over the position object takes the decision the direction-free rule `Decide` gives, in both execution modes, and moves only the level index |
| ExitRule.NearestReachedLevelIsTaken | backend/services/backtest_engine/_helpers.py:85-150 | a position is kept if and only if no traded price reached a level; if both were reached the stop wins on closes, and inside a candle the level nearer the open; a scale-out happens if and only if the target taken is not the last |
| ExitRule.FillsAreAttainable | backend/services/backtest_engine/_helpers.py:77-78 | target fills are prices the candle reached; a stop fill is one if and only if the candle did not gap through the stop by more than the spread |
| ExitRule.GapThroughTheStop | backend/services/backtest_engine/_helpers.py:77-78 | a buyer stopped at 100 by a candle that never traded above 91 is booked at 100 less the spread |
| BacktestRun.AdvancePointer | backend/services/backtest_engine/_engine.py:89-91 | one pointer loop ends at the first candle after the trigger and goes round once for each candle it passes |
| BacktestRun.AdvancePointers | backend/services/backtest_engine/_engine.py:86-91 | the nested loops advance every timeframe's pointer, and report the rounds of each inner loop |
| BacktestRun.ContextWindows | backend/services/backtest_engine/_engine.py:186-198 | the window loop builds the view's context windows: the primary timeframe and empty timeframes are left out |
| BacktestRun.ApplyExit | backend/services/backtest_engine/_engine.py:100-162 | scale-out and close update object, balance, trades and equity as the exit phase of the specification does |
| BacktestRun.ApplySignal | backend/services/backtest_engine/_engine.py:164-279 | sampling, the strategy call and the opening guards leave the state the signal phase of the specification gives |
| BacktestRun.DoCandle | backend/services/backtest_engine/_engine.py:84-279 | one iteration of the candle loop is one specification step |
| BacktestRun.Run | backend/services/backtest_engine/_engine.py:52-309 | the whole loop returns the trades and the equity curve of the specification run, for any strategy, candles and contexts; over the run each timeframe's pointer loop goes round at most once per candle of that timeframe |
| Openings.OpensIff | backend/services/backtest_engine/_engine.py:207-279 | an opening is made if and only if the signal is filled at some price and stop, price and target are in order with the stop at least 0.1 % of the price away; a market order is filled at the next open, plus the candle's spread for a buyer and less it for a seller, a pending order at its own entry |
| Openings.RunOpensIff | backend/services/backtest_engine/_engine.py:164-279 | a flat run opens at candle i if and only if i is at least 49 and the signal it holds is filled so |
| Openings.OpenedOnTerms | backend/services/backtest_engine/_engine.py:253-279 | every position of a run has the signal's direction, rounded stop and target, levels, the candle's time, and the rounded price it was filled at |
| Openings.MarketOrdersPayTheSpread | backend/services/backtest_engine/_helpers.py:155-172 | a position opened on a BUY is entered at the rounded next open plus the spread, on a SELL at the rounded next open less it; with a spread that is not negative never better than the rounded open |
| Openings.MarkedAtTheOpen | backend/services/backtest_engine/_helpers.py:155-172 | marked at the open it was filled at, such a position has lost the spread on its size, up to 0.000005 price units |
| Openings.PendingOrdersFillAtTheirEntry | backend/services/backtest_engine/_helpers.py:155-172 | a position opened on a pending order is entered at the signal's rounded entry |
| Openings.SizedToTheRisk | backend/services/position_sizing.py:40-48 | a risk-sized position between the lot limits risks the configured share of the balance within half a lot step, both ways; at the lower limit the share buys at most 0.015 lots, at the upper at least 99.995 |
| StrategyCalls.StrategySeesTheLastFifty | backend/services/backtest_engine/_engine.py:164-205 | whenever the run asks, the strategy is shown candle i, the fifty candles that end with it and its contexts, and its new state and answer are adopted; otherwise both stay |
| TradeRecords.CandleExits | backend/services/backtest_engine/_engine.py:100-162 | what a candle does to an open position, field by field: nothing if no level was reached, else one trade with its price, time, volume, profit and reason, the balance and equity after it, and, on a scale-out, the rest with its stop at the entry, unless that is below 0.001 lots |
| TradeRecords.EndOfDataRecord | backend/services/backtest_engine/_engine.py:286-309 | a position still open after the last candle becomes one trade at the rounded last close, booked at the close itself |
| ContextWindows.PointerCountsVisible | backend/services/backtest_engine/_engine.py:80-91 | on sorted lists, at every candle of every run each pointer equals the number of context candles with time at most the trigger |
| ContextWindows.SliceAgreement | backend/services/mtf_backtest_loader.py:83-88 | engine slice and loader slice agree if and only if the count is at least 1, or is negative and drops every visible candle from the loader's slice too |
| ContextWindows.EngineWindowsAreLoaderWindows | backend/services/backtest_engine/_engine.py:186-198 | every window a strategy is shown is the loader's filtered window for the count the engine uses, which is 20 for a timeframe without one, and exactly the timeframes with an empty one are missing |
| ContextWindows.DefaultCountsDiffer | backend/services/mtf_backtest_loader.py:83 | with default counts the two windows agree if and only if at most ten candles are visible |
| ContextWindows.ElevenCandlesDiffer | backend/services/mtf_backtest_loader.py:83 | of eleven visible candles the engine shows all, the loader the last ten |
| ContextWindows.TotalMovesBounded | backend/services/backtest_engine/_engine.py:80-91 | over a run the rounds of a timeframe's pointer loop add up to its final pointer, at most the length of the context list, sorted or not |
| Causality.RecordsAreCausal | backend/services/backtest_engine/_engine.py:84-279 | two runs that agree on the candles up to k and on context candles up to k's time hold the same trades, equity, balance, strategy state and held signal after k, and the same position too unless a market order is filled at the open of candle k + 1 |
| Causality.RecordsOnlyGrow | backend/services/backtest_engine/_engine.py:103-162 | recorded trades and equity points are never rewritten |
| Causality.FinalResultsShareThePast | backend/services/backtest_engine/_engine.py:84-309 | the results returned by both runs begin with the same records |
| LlmBudget.SamplingLooksAtTheLength | backend/services/backtest_engine/_engine.py:67-69 | for sampled strategies the list length does matter: two runs equal up to candle 50 differ when the sampling step does |
| Lifecycle.RunIsGrouped | backend/services/backtest_engine/_engine.py:100-279 | at every point of every run, for any close ratio and volume, the trades fall into positions; each scale-out closes the ratio of what is left, at its level's price, with the stop moved to the entry; all but an open position are finished |
| Lifecycle.EveryPositionFinishes | backend/services/backtest_engine/_engine.py:286-309 | when any run ends every position is finished |
| Lifecycle.RunsConserveVolume | backend/services/backtest_engine/_engine.py:100-162 | for a ratio of at most 1, the volumes recorded for each returned position of opening volume V >= 0 add up to V or to more than V - 0.001; every position has at most one trade per level |
| Lifecycle.ScaleOutsBounded | backend/services/backtest_engine/_helpers.py:88-106 | at most one scale-out per level but the last |
| Lifecycle.StopNeverLoosens | backend/services/backtest_engine/_engine.py:130-135 | the stop of a position is its opening stop or its entry price and never moves away from profit |
| Ledger.RunBalances | backend/services/backtest_engine/_engine.py:103-162 | at every step the balance is the initial balance plus the unrounded gross minus commission of every trade, and the equity curve matches the trade list entry by entry |
| Ledger.FinalBalances | backend/services/backtest_engine/_engine.py:286-309 | the same for the returned result, including the close at the end of the data |
| Ledger.ReturnedEquityDrift | backend/services/backtest_engine/_engine.py:122-128 | `equity_after` of trade k is within (k + 2) * 0.00005 of the initial balance plus the rounded profits up to k |
| Ledger.EndOfDataGap | backend/services/backtest_engine/_engine.py:289-304 | the end-of-data trade gives back its booked amount only up to 0.000005 price units |
| Ledger.EndOfDataExactIff | backend/services/backtest_engine/_engine.py:289-304 | it gives it back exactly if and only if the close is on the five-digit grid or the volume is 0 |
| Ledger.BalanceFromTradesIff | backend/services/backtest_engine/_engine.py:286-309 | the final balance is the initial balance plus what the returned trades' fields give if and only if nothing was left to close, or it was empty, or the last close is on the grid |
| OffGridRun.OffGridCloseIsLost | backend/services/backtest_engine/_engine.py:286-309 | a concrete run of 51 candles closing at 1.100004 whose balance the trades do not give back |
| StopOut.StopOutLoss | backend/services/position_sizing.py:40-48 | a risk-sized position closed whole at its initial stop loses, before commission, at most max(balance * risk / (d * c) + 0.005, 0.01) * (d + 0.00001 + spread) * c |
| StopOutRuns.StopOutsStayWithinBudget | backend/services/backtest_engine/_engine.py:100-279 | in every risk-sized run with non-negative spreads, each returned position closed whole by its initial stop lost at most that, for the candle, signal and balance it was opened with and the spread of the candle whose exit check recorded the stop |
| LlmBudget.CallBudget | backend/services/backtest_engine/_engine.py:67-69 | in any run an LLM strategy with cap m is called at most MaxCalls(m) times, which is 0 for m = 1, m up to 50 and 2m - 50 beyond, and so at most 2m - 1 |
| LlmBudget.BudgetIsReached | backend/services/backtest_engine/_engine.py:67-69 | a strategy that never signals is called exactly MaxCalls(m) times over 49m + 1 candles, or 2m - 1 beyond m = 50 |
| LlmBudget.CapHoldsIff | backend/services/backtest_engine/_engine.py:164-171 | on n candles no strategy of any state type, with any contexts, exceeds the cap m if and only if n < 50 or ceil(n / step) - ceil(49 / step) <= m with step = max(1, n / m) |
| LlmBudget.CapHoldsForEveryLengthIff | backend/services/backtest_engine/_engine.py:67-69 | the cap m holds for candle lists of every length if and only if m is at most 50 |
| LlmBudget.CapOfHundredIsExceeded | backend/services/backtest_engine/_engine.py:67-69 | 199 candles with a cap of 100 give 150 calls |
| Mirror.ExitMirrors | backend/services/backtest_engine/_helpers.py:64-152 | the exit phase of the mirrored state on the mirrored candle is the mirror of the exit phase, in both modes |
| Mirror.TrajectoriesMirror | backend/services/backtest_engine/_engine.py:100-162 | the same for any sequence of candles: equal reasons, volumes, profits and balance, negated prices |
| Mirror.OpeningMirrorsIff | backend/services/backtest_engine/_engine.py:216-279 | an opening decision mirrors if and only if the stop-distance guard is neutral on the signal |
| Mirror.RefusedBuyAcceptedSell | backend/services/backtest_engine/_engine.py:240-251 | a BUY at 100 with its stop at 99.95 is refused, its mirror image is opened |
| Mirror.RunsMirrorIff | backend/services/backtest_engine/_engine.py:84-279 | two mirrored backtests hold mirrored states after every candle up to k if and only if the guard is neutral on every signal acted on before |
| UnmirroredRun.OnlyTheImageTrades | backend/services/backtest_engine/_engine.py:240-251 | a concrete run of 51 candles that is mirrored up to candle 48 and not after candle 49, where only its image opens a position |
| Mirror.FinalMirrors | backend/services/backtest_engine/_engine.py:84-309 | whole runs mirror each other when the guard stays neutral |
| BacktestMetrics.MetricsDrawdown | backend/services/backtest_metrics.py:55-65 | the loop returns the highest balance and the largest fall from a point to a later one, start included |
| BacktestMetrics.CalculateMaxDrawdown | backend/api/routes/analytics.py:207-219 | the analytics loop, started at 0, returns the largest fall of the curve from any starting balance |
| BacktestMetrics.Consecutive | backend/services/backtest_metrics.py:149-162 | the loop returns the lengths of the longest runs of wins and of losses |
| Drawdown.MaxFallIsUnique | backend/services/backtest_metrics.py:55-65 | there is one largest fall, so the metrics loop and the analytics loop return the same number |
| BacktestMetrics.DrawdownMatchesEquityCurve | backend/services/backtest_engine/_engine.py:122-128 | the drawdown of a run's rounded profits is within (n + 1) * 0.0001 of the drawdown of the equity curve it reports |
| SignalScoreStrategy.EmaSeries | backend/strategies/signal_score/signal_score_strategy.py:31-39 | the loop builds the recursive EMA series; for a period of 0 or less it returns the values |
| SignalScoreStrategy.RsiOf | backend/strategies/signal_score/signal_score_strategy.py:42-56 | the gain and loss loop yields the RSI for every integer period; 0 divides by zero, a negative one reads 100 |
| SignalScoreStrategy.AtrOf | backend/strategies/signal_score/signal_score_strategy.py:59-72 | averaging the last true ranges of the whole list yields the ATR for every integer period; 0 divides by zero, a negative one averages all but the first ranges over a negative number |
| SignalScoreStrategy.OddPeriods | backend/strategies/signal_score/signal_score_strategy.py:42-72 | what RSI and average range give for each sign of the period |
| SignalScoreStrategy.Strategy.ComputeScore | backend/strategies/signal_score/signal_score_strategy.py:108-231 | for any settings the method returns the score and direction of the specification, or none where the source raises, and caches the indicators as far as it came; with positive periods that is Score |
| ScoreLaws.TrendCounts | backend/strategies/signal_score/signal_score_strategy.py:137-162 | a trend is worth 1.5 points against no trend when slope and RSI say nothing for it, unless the score stays at 0 |
| ScoreLaws.SlopeCounts | backend/strategies/signal_score/signal_score_strategy.py:137-145 | a slope along the trend is worth 1.5 points; the score is higher with it if and only if there is a trend and the score with it is not 0 |
| ScoreLaws.RsiZoneCounts | backend/strategies/signal_score/signal_score_strategy.py:147-162 | a better RSI zone never lowers the score, and raises it if and only if the momentum was below its cap of 3 and the score does not stay at 0 |
| ScoreLaws.BodyCounts | backend/strategies/signal_score/signal_score_strategy.py:164-170 | a body above the average raises every score that does not stay at 0 |
| ScoreLaws.PushCounts | backend/strategies/signal_score/signal_score_strategy.py:172-183 | a longer streak and a faster body never lower the score, with the exact condition for raising it |
| ScoreLaws.TierCounts | backend/strategies/signal_score/signal_score_strategy.py:185-200 | a higher range tier raises every score that does not stay at 0, by a half point to weak and two more to strong |
| ScoreLaws.BreakoutCounts | backend/strategies/signal_score/signal_score_strategy.py:202-213 | a breakout is worth one point, with the exact condition for raising the score |
| ScoreLaws.PenaltyCounts | backend/strategies/signal_score/signal_score_strategy.py:215-231 | a smaller penalty counts in full, with the exact condition for raising the score |
| ScoreLaws.TenIff | backend/strategies/signal_score/signal_score_strategy.py:137-231 | a score of 10 is reached if and only if trend, slope, strong tier, breakout, body above average and no penalty come together with an RSI zone that the push amplifies to 3 points |
| ScoreFeatures.EmaWeights | backend/strategies/signal_score/signal_score_strategy.py:31-39 | each average is the mean of the new value counted twice and p - 1 times the average before |
| ScoreFeatures.TrendIs | backend/strategies/signal_score/signal_score_strategy.py:125-145 | there is a trend up if and only if the fast average is above the slow one, and it slopes if and only if the last close is above the fast average before it; down likewise |
| ScoreFeatures.RsiIsTheShareOfRises | backend/strategies/signal_score/signal_score_strategy.py:42-56 | the RSI is the rises' share of the distance the closes travelled, 100 when nothing moved, and 50 with too few closes |
| ScoreFeatures.AtrIsTheMeanSpan | backend/strategies/signal_score/signal_score_strategy.py:59-72 | the average range is the mean of what the last bars span together with the close before each; 0 with too few bars |
| ScoreFeatures.TiersCompareRanges | backend/strategies/signal_score/signal_score_strategy.py:185-200 | the tiers compare the sums of the last true ranges with and without the last bar |
| ScoreFeatures.BodiesCompare | backend/strategies/signal_score/signal_score_strategy.py:164-176 | the last body is above the average if and only if ten of it exceed the last ten bodies together, and it accelerates by that proportion |
| ScoreFeatures.BreakoutIff | backend/strategies/signal_score/signal_score_strategy.py:202-213 | a breakout is a last close beyond all five bars before it in the direction of the trend |
| ScoreFeatures.StreakIs | backend/strategies/signal_score/signal_score_strategy.py:172-183 | the streak counts 1 and the bars before the last that follow the trend, up to 3 in all |
| ScoreFeatures.PenaltyIsTheWick | backend/strategies/signal_score/signal_score_strategy.py:215-223 | the penalty is the last bar's wick against the trend over its body, at most 1, and 0 without a range, a body or a trend |
| ScoreFeatures.DirectionIff | backend/strategies/signal_score/signal_score_strategy.py:108-231 | the direction is that of the trend if and only if there are bars enough and the score reaches the minimum |
| RisingHistory.RisingIsBought | backend/strategies/signal_score/signal_score_strategy.py:108-231 | seventeen bars that rise by one each score 5.6 and are bought |
| SignalScoreProofs.ScoreUnmoved | backend/strategies/signal_score/signal_score_strategy.py:108-231 | replacing every price p by a * p + b with a > 0 changes neither score nor direction, for any history and settings |
| SignalScoreProofs.ScoreWithinTen | backend/strategies/signal_score/signal_score_strategy.py:223-231 | the score lies in [0, 10] when the last bar is consistent |
| SignalScoreProofs.RsiMirrorsIff | backend/strategies/signal_score/signal_score_strategy.py:42-56 | the RSI of negated prices is 100 minus the RSI if and only if the closes behind it moved, or are too few to give anything but 50 |
| SignalScoreProofs.ScoreMirrors | backend/strategies/signal_score/signal_score_strategy.py:108-231 | mirroring prices flips the direction and keeps the score if and only if there are too few bars to score, the closes behind the RSI are not all equal, or there is no trend |
| SignalScoreProofs.FlatMarketFavoursBuyers | backend/strategies/signal_score/signal_score_strategy.py:147-162 | in a flat market the rising one of two mirror images scores strictly more; without a trend they score the same |
| SignalScoreProofs.StepIsNotMirrored | backend/strategies/signal_score/signal_score_strategy.py:108-231 | a concrete rise followed by two equal closes scores more than its mirror image |
| Mt5Session.ReachableIsSafe | backend/mt5/bridge.py:84-243 | in every reachable state with the lock free a connected session means the terminal is logged in to its key, and a session exists with exactly one running reaper |
| Mt5Session.NoSessionWithoutMt5 | backend/mt5/bridge.py:251-272 | without the MT5 package no event sequence creates a session |
| Mt5Session.PinTakesEffect | backend/mt5/bridge.py:193-210 | a successful pin leaves its account connected, pinned and logged in |
| Mt5Session.PinnedStep | backend/mt5/bridge.py:159-191 | while pinned, other accounts are refused with nothing changed and reaper ticks change nothing |
| Mt5Session.PinnedSessionSurvives | backend/mt5/bridge.py:193-218 | from any reachable state, after a pin succeeds the account stays connected over every continuation without unpinning it, invalidate or forced shutdown |
| Mt5Session.HowSessionsEnd | backend/mt5/bridge.py:94-117 | a session is lost, or replaced by one without earlier pins, only by forced shutdown, by a reap when unpinned and idle beyond the timeout, by an unpinned swap, or by reconnecting after an invalidate, for the same account or another |
| Mt5Lifetimes.TickEndsIff | backend/mt5/bridge.py:94-117 | a tick ends the session if and only if it is unpinned and unused for more than 300 seconds, leaving no session, no login when MT5 is installed, and a finished reaper; otherwise it changes nothing |
| Mt5Lifetimes.UnusedSessionEndsIff | backend/mt5/bridge.py:94-117 | after any ticks over an unused session it is gone if and only if it was unpinned and some tick came more than 300 seconds after its last use |
| Mt5Lifetimes.IdleSessionCanBeReaped | backend/mt5/bridge.py:84-117 | in every reachable state with the lock free, a session that is unpinned and unused for more than 300 seconds has a reaper whose next turn ends it, and none runs on after that |
| Mt5Lifetimes.LeaveForbidsReap | backend/mt5/bridge.py:106-157 | after a leave at time t no events of the same account and no reaper tick end the session while the clock reads at most t + 300 |
| Mt5Lifetimes.EnterReuses | backend/mt5/bridge.py:159-170 | a burst of the connected account changes only the stamp and the lock |
| Mt5Lifetimes.EnterSwaps | backend/mt5/bridge.py:171-191 | a burst of another account swaps an unpinned session: the old one is gone, and the new one connected with the lock held unless connecting fails |
| Mt5Lifetimes.InvalidateForcesReconnect | backend/mt5/bridge.py:220-231 | after an invalidate the next burst of any account connects anew, without earlier pins, or fails |
| Mt5Lifetimes.PinCounts | backend/mt5/bridge.py:193-218 | a pin is a burst of its account that counts one pin and leaves the lock free; an unpin takes one off, down to none |
| Mt5Lifetimes.ShutdownEndsAll | backend/mt5/bridge.py:233-243 | a forced shutdown leaves no session and no running reaper, and logs out of a connected session |
| Mt5Bridge.Bridge.AcquireSession | backend/mt5/bridge.py:159-191 | the method over the module's globals takes the protocol's acquire step |
| Mt5Bridge.Bridge.Enter | backend/mt5/bridge.py:139-150 | entering keeps the lock on success and gives it back on every failure |
| Mt5Bridge.Bridge.Leave | backend/mt5/bridge.py:152-157 | leaving stamps the session and frees the lock |
| Mt5Bridge.Bridge.PinSession | backend/mt5/bridge.py:193-210 | the method takes the protocol's pin step |
| Mt5Bridge.Bridge.UnpinSession | backend/mt5/bridge.py:212-218 | the method takes the protocol's unpin step, never below zero |
| Mt5Bridge.Bridge.InvalidateSession | backend/mt5/bridge.py:220-231 | the method takes the protocol's invalidate step |
| Mt5Bridge.Bridge.ForceShutdownSession | backend/mt5/bridge.py:233-243 | the method takes the protocol's shutdown step and cancels the reaper |
| Mt5Bridge.Bridge.Reap | backend/mt5/bridge.py:94-117 | one turn of the reaper takes the protocol's tick |
| Mt5Bridge.Bridge.Serve | backend/mt5/bridge.py:84-243 | whatever critical sections follow one another, the bridge follows the protocol, its connected session is the terminal's login, and exactly one reaper guards it |
| ParamGrid.ProductHas | backend/services/optimization_service.py:122-124 | the product holds exactly the combinations with one value from each list |
| ParamGrid.GridDistinct | backend/services/optimization_service.py:117-130 | distinct names and distinct values per name give a sweep without repeated parameter dictionaries |
| ParamGrid.GridHas | backend/services/optimization_service.py:117-130 | with distinct names a dictionary is swept if and only if it gives each name one of its values and nothing else, with ema_fast below ema_slow when both are swept |
| ParamGrid.LastVariesFastest | backend/services/optimization_service.py:122-124 | combinations come in counting order: two of them agree up to some list, and there the earlier one has the earlier value |
| SweepResults.RankedIsRanking | backend/services/optimization_service.py:189-197 | ranking permutes the rows, larger metrics first, or smaller when lower is better, and missing ones last |
| SweepResults.RankedByMetric | backend/services/optimization_service.py:189-197 | for two ranked rows with both metrics present the earlier one has the larger metric or an equal one, the smaller or an equal one when lower is better; no row with a metric follows one without |
| SweepResults.RankedIsStable | backend/services/optimization_service.py:279-282 | rows with the same metric keep their order |
| SweepResults.FirstIsBest | backend/services/optimization_service.py:280-282 | the first parameters are those of a row whose metric is the maximum over all rows that have one, the minimum when lower is better |
| SweepResults.MissingLast | backend/services/optimization_service.py:193-197 | once a ranked row lacks the metric all later ones do |
| SweepResults.ResumeIsUninterruptedIff | backend/services/optimization_service.py:137-187 | saved rows plus the rows of the remaining combinations are the rows of one sweep if and only if no saved combination has copies left out |
| SweepResults.ResumeCompletes | backend/services/optimization_service.py:137-187 | with distinct combinations, resuming from any partial result completes the sweep |
| SweepResults.EveryResumeCompletesIff | backend/services/optimization_service.py:137-187 | every partial result of a grid can be resumed to the uninterrupted sweep if and only if no combination that yields a row occurs twice |
| SweepResults.RepeatedValuesLoseRows | backend/services/optimization_service.py:174-187 | a repeated grid value is never run again after a cancellation |
| SweepPool.ReachableIsConserved | backend/services/optimization_service.py:213-277 | in every reachable state each submitted combination is pending, finished or processed, exactly once; pending plus finished is at most the worker count; rows are the saved ones plus the processed outcomes; a kill loses at most nine results and leaves a prefix of the rows or, before the first save, what the run row held; each processed future brings the end one nearer |
| SweepPool.EveryTenthIsSaved | backend/services/optimization_service.py:249-263 | the run row is written with all rows so far, best first, at every tenth combination and at no other |
| SweepPool.DrainedIsComplete | backend/services/optimization_service.py:220-247 | with at least one worker, when nothing is pending or unprocessed every combination has run |
| SweepPool.RowsStayPartial | backend/services/optimization_service.py:265-281 | what a stopped run leaves is a partial result that can be resumed from |
| OptimizationRun.ProcessOne | backend/services/optimization_service.py:225-263 | the loop body updates counters, pool and run row as one pool step |
| OptimizationRun.Sweep | backend/services/optimization_service.py:203-301 | for every schedule and every moment of cancellation the loop ends with the saved rows and the processed outcomes, in the order they ran, ranked best first and stably; `best` has the parameters of a row with the best metric; completed means all remaining combinations were processed |
| OptimizationRun.Run | backend/services/optimization_service.py:117-307 | the whole call on a grid; what it leaves is ranked, and `best` is the best; without a row nothing happens; a strategy or data that do not load, an empty grid or a pool without workers fail the run and keep saved results |
| OptimizationRun.CancelAndResumeIsOneRun | backend/services/optimization_service.py:137-300 | any number of cancelled runs followed by a completed one yields the rows of one uninterrupted run |
| OptimizationRun.GridResumeIsOneRun | backend/services/optimization_service.py:117-300 | the same for a parameter grid with distinct names and values |
| OptimizationRun.RunAndResume | backend/services/optimization_service.py:92-307 | calling the service and resuming it while it was cancelled keeps a partial result of the sweep, and once a call completes the rows are those of one uninterrupted sweep |
| JobIds.PrefixHitsOwnJobsOnly | backend/services/scheduler/_lifecycle.py:194-197 | a strategy's prefix matches a job id if and only if the id is one of that strategy's (1 never matches 12) |
| JobIds.JobIdInjective | backend/services/scheduler/_state.py:73-74 | different groups have different job ids |
| GroupRegistry.RemoveAllIsLocal | backend/services/scheduler/_lifecycle.py:189-206 | remove-all changes no account list and no job of another strategy |
| GroupUndo.AddPuts | backend/services/scheduler/_group_job.py:212-229 | adding a binding puts its entry once into each of its groups and registers the strategy's present job |
| GroupUndo.AddPlaces | backend/services/scheduler/_group_job.py:212-229 | after an add the account's entry carries the binding's overrides, in its old place or appended, and every other entry keeps its place |
| GroupUndo.RemoveAllUndoesAdd | backend/services/scheduler/_lifecycle.py:189-206 | remove-all after add restores the whole registry if and only if the account was in no group of the strategy and the groups joined already ran its present job |
| GroupUndo.RemoveIsRemoveAll | backend/services/scheduler/_lifecycle.py:167-187 | removing symbol by symbol equals remove-all if and only if every group of the strategy with the account belongs to one of the symbols |
| GroupStartup.StartupIsAddingOneByOne | backend/services/scheduler/_state.py:77-106 | startup grouping registers what adding the bindings one by one would, if and only if no account is listed twice under one key |
| GroupStartup.RepeatedSymbolDiffers | backend/services/scheduler/_state.py:94-105 | a strategy that lists a symbol twice is registered differently by startup and by adding the binding |
| GroupStartup.StartupRegisters | backend/services/scheduler/_lifecycle.py:39-91 | after a startup the job table holds exactly what it held, one job for each strategy and symbol that a binding lists, as planned there, the maintenance sweep and, if enabled, the news jobs; account lists exist for the group jobs |
| GroupStartup.FreshStartIsAddingOneByOne | backend/services/scheduler/_lifecycle.py:39-91 | a fresh start ends in the same tables as adding the bindings and then the scheduler's own jobs |
| GroupStartup.RegistryAgrees | backend/services/scheduler/_lifecycle.py:27-206 | over any sequence of startup, add, remove and remove-all a group job exists if and only if its key is in the account registry, with a non-empty list of distinct accounts |
| SchedulerRegistry.GroupBindings | backend/services/scheduler/_state.py:77-106 | the nested loops build the specified groups |
| SchedulerRegistry.Scheduler.StartScheduler | backend/services/scheduler/_lifecycle.py:39-91 | registering the groups in any order gives the specified tables |
| SchedulerRegistry.Scheduler.AddBindingJobs | backend/services/scheduler/_group_job.py:198-235 | the loop over symbols gives the specified tables |
| SchedulerRegistry.Scheduler.RemoveBindingJobs | backend/services/scheduler/_lifecycle.py:167-187 | the loop over symbols gives the specified tables |
| SchedulerRegistry.Scheduler.RemoveAllBindingJobs | backend/services/scheduler/_lifecycle.py:189-206 | the loop over a snapshot of the keys, in any order, gives the specified tables |
| TrustGateProofs.WilsonBelowRate | backend/services/research_loop.py:532-538 | for 0 <= wins <= n the bound lies in [0, wins/n] and neither clamp acts |
| TrustGateProofs.WilsonIncreases | backend/services/research_loop.py:526-538 | for fixed n the bound is larger if and only if there are more wins |
| TrustGateProofs.WilsonIsLowerEndPoint | backend/services/research_loop.py:526-538 | the bound is the lower end point of the Wilson score interval, given by its square-root-free equation |
| TrustGateProofs.BetterThanEvenIff | backend/services/research_loop.py:526-538 | the bound exceeds 0.5 if and only if wins exceed losses by more than z times the root of n |
| TrustGateProofs.WilsonFallsWithSample | backend/services/research_loop.py:526-538 | at the same positive win rate the smaller sample has a strictly lower bound |
| TrustGateProofs.PulledTowardsHalfIff | backend/services/research_loop.py:527-531 | shrinking the sample moves the bound nearer to 0.5 if and only if a root-free condition on the rate and the two sample sizes holds; it holds when the smaller sample beats even odds, and the bound moves away when the larger one does not |
| TrustGateProofs.BetweenTheCorollaries | backend/services/research_loop.py:527-531 | when only the larger sample beats even both happen: 7 of 10 is pulled towards 0.5 against 70 of 100, 6 of 10 is not against 60 of 100 |
| TrustGateProofs.PulledAwayFromHalf | backend/services/research_loop.py:527-531 | 3 of 4 is farther from 0.5 than 6 of 8, and 20 of 20 nearer than 40 of 40 |
| TrustGateProofs.SpotlessRecord | backend/services/research_loop.py:526-538 | n wins in n trades have the bound n/(n + z*z) |
| TrustGateProofs.TrustIncreases | backend/services/research_loop.py:541-552 | for fixed n, more wins never lower the rounded trust score |
| TrustGateProofs.TrustRange | backend/services/research_loop.py:541-552 | the score lies in [0, 1], and within half the sample weight of 0.5 up to the rounding |
| TrustGateProofs.MoreWinsNeverRaiseTheBar | backend/services/research_loop.py:593-614 | for fixed n, more wins never raise the effective threshold |
| TrustGateProofs.GateRange | backend/services/research_loop.py:593-608 | the threshold stays in [0.4, 0.9], within 0.15 of a configured value from that range, and equals it without trades |
| TrustCounts.TrustLowersTheBar | backend/services/research_loop.py:607-608 | more trust strictly lowers the threshold unless both sit at the same clamp, between the clamps by 0.3 for each unit; a score of 0.5 leaves a threshold in range as it is |
| TrustCounts.GateFollowsTheScore | backend/services/research_loop.py:593-614 | a threshold configured inside (0.4, 0.9) is lowered if and only if the rounded score is above 0.5, and raised if and only if it is below |
| TrustCounts.WilsonClears | backend/services/research_loop.py:526-538 | the bound exceeds a level x if and only if the wins exceed x * n by more than z times the root of n * x * (1 - x), stated without roots |
| TrustCounts.WinsMoveTheGateIff | backend/services/research_loop.py:541-614 | end to end, for every number of trades and with the rounding: the counts at which the threshold is lowered, and those at which it is raised |
| TrustCounts.SpotlessTwenty | backend/services/research_loop.py:541-614 | twenty wins in twenty trades earn 0.839 and lower a threshold of 0.6 to 0.4983 |
| HistorySync.PairDeals | backend/services/history_sync.py:185-213 | the loop splits the deals into OUT deals and opening deals |
| HistorySyncProofs.FirstOutIsFirst | backend/services/history_sync.py:94-102 | the settling deal of a position is the first OUT deal of the history, and is missing only if there is none |
| HistorySync.InsAreFirst | backend/services/history_sync.py:202-211 | the opening deal of a position is its first IN deal, and is missing only if there is none |
| HistorySyncProofs.SyncLookup | backend/services/history_sync.py:94-159 | the whole table after a sync: positions with an OUT deal that were not closed take their first OUT deal's close data, over the open row or as a new row built from the opening deal; every other row is as before |
| HistorySyncProofs.SyncLeavesAlone | backend/services/history_sync.py:113-115 | rows already closed, and rows of other accounts, are the very same rows after a sync |
| HistorySyncProofs.SyncSettlesRow | backend/services/history_sync.py:113-126 | row by row: an open row of the account whose position has an OUT deal gets the first one's close data in place, and every other row is the very same row |
| HistorySyncProofs.SyncWritesTheDeal | backend/services/history_sync.py:86-159 | the fields a sync writes: price, time and profit with commission and swap of the first OUT deal; a new row has its symbol and volume, the opening deal's price, time and direction, or 0.0, the clock and SELL without one; an open row is otherwise as it was |
| HistorySyncProofs.SyncKeepsTicketsUnique | backend/services/history_sync.py:104-111 | a sync keeps tickets unique per account |
| HistorySyncProofs.SyncCounts | backend/services/history_sync.py:116-162 | imported plus updated is the number of distinct OUT positions that were not closed, and no ticket is reported twice |
| HistorySyncProofs.SyncIsIdempotent | backend/services/history_sync.py:77-181 | syncing the same deals again changes nothing and reports nothing |
| HistorySyncProofs.SyncInTwoSteps | backend/services/history_sync.py:77-181 | syncing a history and later a longer one leaves a row as one late sync of the longer one would, if and only if no opening was made up for it: its opening deal is known to the first sync, or looks like what is made up, or never comes and the clocks agree |
| HistorySyncProofs.LateOpeningIsLost | backend/services/history_sync.py:128-144 | an opening deal fetched after the import does not reach the row |
| HistorySyncProofs.MissingOpeningKeepsTheFirstClock | backend/services/history_sync.py:135-144 | a position whose opening deal never comes keeps the clock of the first sync as its opening time |
| HistoryService.TradesTable.SyncDealsToDb | backend/services/history_sync.py:77-181 | the loop over the table leaves the specified rows and reports the specified counts and the ids of the rows it imported and updated; when the commit fails the table is rolled back and there is no report |
| HistoryService.TradesTable.UpsertDeal | backend/services/history_sync.py:94-159 | one OUT deal is upserted as specified, and the id of the row written is reported |
| SwingDetector.FindPivots | backend/strategies/harmonic/swing_detector.py:41-64 | the scan returns the specified pivots for n >= 1; for n below 1 it raises, except for n = 0 and no candles |
| SwingDetector.PivotsAreTheExtremes | backend/strategies/harmonic/swing_detector.py:47-61 | the output holds exactly the strict local extremes with n candles on each side |
| SwingDetector.PivotsAreOrdered | backend/strategies/harmonic/swing_detector.py:47-64 | the pivots come in index order, a high before a low |
| SwingDetector.SortChangesNothing | backend/strategies/harmonic/swing_detector.py:63-64 | every sorted permutation of the scanned pivots is that list itself |
| SwingDetector.PivotsNeverRepaint | backend/strategies/harmonic/swing_detector.py:9-10 | the pivots of the first m candles are the pivots of the whole list with index + n < m |
| SwingDetector.SameKindIsFarApart | backend/strategies/harmonic/swing_detector.py:47-61 | two pivots of the same kind are more than n candles apart |

## Left out

Weaker than the source or conditional:

- Causality.RecordsAreCausal: asks for the same LLM sampling step instead of the same list length; equal lengths imply it, and `LlmBudget.SamplingLooksAtTheLength` shows the condition is needed.
- Mirror.FinalMirrors: whole runs mirror under the condition of `Mirror.OpeningMirrorsIff` at every opening.
- SwingDetector.FindPivots: the library sort at the end is not run, because `SwingDetector.SortChangesNothing` shows it changes nothing.
- HistoryService.TradesTable.SyncDealsToDb: takes one clock value per sync and assumes deals with all fields present; of the database calls only the commit can fail.
- OptimizationRun.Run: whether the strategy row is found and its data load is one flag.
- OptimizationRun.RunAndResume: gives up after a number of attempts, since a sweep can be cancelled for ever.
- Mt5Session.ReachableIsSafe: runs without task cancellation and without MT5 calls that raise.
- Lifecycle.RunsConserveVolume: says nothing about a close ratio above 1 or a configured fixed volume below 0, for which a scale-out leaves a negative remainder.
- StopOutRuns.StopOutsStayWithinBudget: assumes spreads that are not negative.

Not modelled:

- Signals without numeric stop, target or level list entries: the source raises on them inside the loop.
- Pattern names, metadata, the trade's symbol and source label, the progress callback, the average spread and the log.
- The symbol tables behind pip value, point size and contract size: each is one positive constant per run.
- The indicators and the SMA in the market data: they are functions of the window, which the strategy already receives.
- The loader's primary-timeframe window, date filter and CSV parsing.
- Percentages, Sharpe, Sortino, profit factor and monthly figures of the metrics; they are closed formulas.
- Floating-point error, NaN and infinite values.
- Raw `disconnect`, the symbol cache, per-owner pin accounting, and the poller that is outside the lock.
- Trigger objects, overrides and module paths of jobs are opaque values; one-off manual jobs, news toggling, maintenance rescheduling and shutdown of the scheduler are left out.
- Loading code strategies when a binding's overrides are built, which can replace them by database values.
- Counting wins per symbol in the database and writing the research configuration.
- Routes, storage, WebSocket, LLM agents, chart rendering and the frontend.
