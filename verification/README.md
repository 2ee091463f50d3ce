# Trading stack verification

A Dafny model of the hard core of a research-to-live trading system, with proofs about it: the causal
OHLC backtester and its equity profile, the order-intent journal, the reconciliation of broker history
into the trade ledger, the shared account-risk state, the reconnect circuit breaker, and the bar
builders, filters and risk limits around them. `dafny verify dfyconfig.toml` checks the project.

Prices, volumes and R multiples are exact reals; times are integers. A loop or an object that changes
state in the source is a method or a class here, proved equal to a specification function; the theorems
are lemmas about those functions.

## The modules

| area | modules |
|---|---|
| backtester records, one position, native loop | `Market`, `Positions`, `Backtester`, `BookInvariants`, `NativeInvariants`, `TradeStory`, `RunStory` |
| lower-timeframe replay and its refinement | `Replay`, `ReplayInvariants`, `ScheduleLaw`, `ReplayStory`, `ReplayRefinement`, `FridayReplay`, `EndToEnd` |
| intrabar paths, causality, columns, strategies | `TickPaths`, `NoLookahead`, `FridayLookahead`, `Precompute`, `MeanReversion`, `ReturnFilter`, `FilteredStrategies`, `LiveFilter` |
| equity profile, drawdown, rollover, bar building | `EquityProfile`, `Drawdown`, `Rollover`, `Aggregation` |
| order intents | `IntentStore`, `IntentProtocol`, `SubmissionLaw`, `IntentSolo`, `IntentReopening`, `OrderExecutor` |
| ledger and reconciliation | `Ledger`, `LedgerLaw`, `LedgerStore`, `Confluence`, `LedgerConfluence`, `Reconciliation`, `WatermarkSafety`, `ReconciliationPass`, `PassLaw`, `PassStory`, `Reconciler` |
| risk and connection | `AccountRisk`, `LossGuard`, `PositionSizer`, `CircuitBreaker` |

`Options` holds the two failure-carrying datatypes.

## Main results

- The replay loop is the native loop when both see the same frame; in bar-close mode the loss limits that
  can separate them, and in both modes the Friday bars that can, are characterised exactly.
- Every position and every trade of either loop is explained by the bars alone: the costed fill of a signal
  on the bar the schedule's law names, closed on the first bar that closes it, at that bar's price, with each
  cost once; and positions are opened exactly when there is a chance.
- The bar-close model is conservative against every price path its bars allow, over whole runs.
- Backtests, with the concrete strategies and their recomputed columns, have no lookahead, except through
  the Friday rule; exactly which cuts of the frame it shows is characterised.
- The array-based equity profile equals its definition, ends at the backtester's equity, respects the
  position cap, and its envelope drawdown dominates the closed-trade drawdown.
- Orders cross the broker boundary at most once per signal under arbitrary interleaving and crashes; a
  single process never has two unresolved submissions per strategy, and several processes exactly as
  long as no step reopens a row.
- An order that went out is rejected only if the broker refused it and unresolved until it was refused or found.
- A recomputed trade row says what its deals say, a pass leaves of each position what the position's own
  deals say, and closing rows mirror the broker's history column by column.
- Ledger recovery is confluent, whatever other recoveries lie between, and idempotent, and no own close is ever missing behind the watermark.
- Account halts, peaks and resets are exactly what their operation history says.
- Reconnect attempts in an outage are bounded by whole backoff-plus-cooldown cycles.
- Aggregation composes, the live filter refines the research filter, loss limits hold over whole
  periods, and lot sizing stays within the configured risk and below the lot
  ceiling exactly under stated conditions.

## Where the code and its own words differ

- `source_snapshots/live_trading/risk/position_sizer.py:225-230` says the absolute lot ceiling is never
  exceeded. It is checked on the raw lot. An undersized lot is raised to the broker minimum afterwards, and
  for a step off the grid of ten-thousandths the final rounding to four digits, of the lot or of its retry
  with a step less, can end above the ceiling by itself (`PositionSizer.RoundingBreaksCeiling`).
  `PositionSizer.CeilingHoldsExactlyWhen` gives the exact condition.
- The same file turns away lots above the configured risk (lines 260-272), but the last rounding to four
  digits can raise a broker minimum that is not a multiple of 0.0001, and the retry with one step less is
  not checked. `PositionSizer.EveryLotFitsExactlyWhen` gives the exact condition for a sane configuration,
  `PositionSizer.PositiveStepFitsExactlyWhen` the one for any positive step and buffer.
- `source_snapshots/trading_research/engine/backtester.py:720-727` calls the backtest causal. With Friday
  close on it looks at the next bar and at the bar interval of the whole frame (lines 364-385), so a frame
  cut inside a Friday closes positions that the full run keeps (`FridayLookahead.CutInsideFridayIsSeen`).
  `FridayLookahead.NoLookaheadExactlyWhen` gives the exact condition on the Friday states of frame and cut,
  `NoLookahead.CutBetweenDaysAgrees` a check on the frame.
- The native loop takes no signal on a bar that the Friday rule closes; the replay does, and looks at the
  cutoff only when it fills, so an order of Friday's last bar can open on Monday.
  `FridayReplay.ReplayRefinesNativeExactlyWhen` gives the exact condition for the two loops to agree.
- The intent table permits a resolved row to be reopened, so one active row per strategy is a property of
  a single process, not of the store (`IntentSolo.StaleReaderBreaksOneActive`).
  `IntentReopening.OneActiveExactlyWhen` says for which runs of several processes it holds.
- A live refresh with a non-positive ATR or range keeps the previous returns, and a bar whose history query
  returns nothing (`source_snapshots/live_trading/run_bot.py:587-591`) is not refreshed at all. Such a state
  can permit the opposite of the research side (`LiveFilter.StaleWindowContradicts`).
  `LiveFilter.RefreshTracksExactlyWhen` and `ReturnFilter.StoredReturnsTrackExactlyWhen` give the exact
  conditions. In the first case no order follows: the state is not ready, or the stop distance is not
  positive and the executor turns the signal away (`LiveFilter.NoOrderOnKeptReturns`).
- Rollover units are not additive in a calendar where a workday ends before its rollover time, such as a
  23-hour day with a rollover after 23:00 (`Rollover.AdditiveExactlyWhen`, `Rollover.ShortDayExactlyWhen`); the default 17:00 never does.

## Model

| member | source | states |
|---|---|---|
| `Backtester.RunBacktest` | source_snapshots/trading_research/engine/backtester.py:694-880 | the native loop, bar by bar over mutable state, produces the run that all native theorems are about; it is refused exactly for a negative warm-up or a cap below one |
| `Backtester.RunBar` | source_snapshots/trading_research/engine/backtester.py:781-880 | one bar in the order of the source: calendar reset, due fills, trigger fill, management of every position, new order |
| `Backtester.ManageOpenPositions` | source_snapshots/trading_research/engine/backtester.py:819-873 | the management loop over open positions: survivors, closed trades, equity points and realized R in order |
| `Positions.StopStartsOneRiskAway` | source_snapshots/trading_research/engine/backtester.py:270-309 | every opened stop lies on the losing side of the fill, exactly one risk unit away; only a risk reference opens without a stop |
| `Positions.CostsAreChargedOnce` | source_snapshots/trading_research/engine/backtester.py:312-332 | net R is frictionless R minus spread, slippage, commission and swap, each counted once |
| `Positions.StopLossIsOneR` | source_snapshots/trading_research/engine/backtester.py:283-309 | a full stop-out at the initial stop is minus one R before costs |
| `Positions.ManageKeepsIdentity` | source_snapshots/trading_research/engine/backtester.py:819-873 | managing a position never changes its side, entry, target, risk unit or opening bar, and a trade reports them |
| `TradeStory.FillIsAdverse` | source_snapshots/trading_research/engine/backtester.py:209-309 | a fill is made exactly when the stop leaves a positive risk; a buyer enters half the spread plus the slippage above the raw price and a seller below it, both parts recorded, and side, target, risk and initial stop are the signal's |
| `TradeStory.ManageIsAsTold` | source_snapshots/trading_research/engine/backtester.py:231-267 | on each bar a position leaves exactly when stop, target, time rule or Friday rule say so; a stop is filled at the worse of its level and the open (at its level on a trigger bar), a target at its level, the rest at the close, with the booked costs, result and reason; it survives with the break-even move armed exactly when an earlier bar reached the trigger |
| `BookInvariants.ManageAllConserves` | source_snapshots/trading_research/engine/backtester.py:819-873 | no position is lost or duplicated while a bar is managed; the curve and the realized counters grow by exactly the R of the trades that close |
| `BookInvariants.CurveAt` | source_snapshots/trading_research/engine/backtester.py:856-870 | curve point k is the sum of the R of the first k trades |
| `NativeInvariants.NativeRunKeepsInv` | source_snapshots/trading_research/engine/backtester.py:347-352 | after every bar open plus pending stays within the cap, trades have valid ranges, no bar is covered by more trades and positions than the cap, and the curve is the running sum |
| `RunStory.NativeRunIsTold` | source_snapshots/trading_research/engine/backtester.py:781-880 | over every run: each open position is the costed fill of a signal that no bar since has closed, each trade books one of them on the first bar that closes it, and the realized counters are the R closed since the day or week label changed |
| `RunStory.NativeOpensExactly` | source_snapshots/trading_research/engine/backtester.py:347-352 | a bar opens one position exactly when a signal was free to be taken with room under cap and limits, the Friday rule allows the fill and its stop leaves a risk; otherwise none |
| `RunStory.NativeTradesAreChargedOnce` | source_snapshots/trading_research/engine/backtester.py:209-332 | every trade of a run, with its real raw prices at entry and exit and no further hypothesis: net R is the raw move over the risk minus each cost once |
| `RunStory.FridayRule` | source_snapshots/trading_research/engine/backtester.py:364-385 | a bar is after the cutoff, or closed by it, exactly by its weekday, its time of day, the smallest positive bar distance and the next bar's day |
| `ReplayInvariants.ReplayRunKeepsInv` | source_snapshots/trading_research/engine/backtester.py:562-657 | the same cap, range, overlap and curve invariant for the lower-timeframe replay |
| `ScheduleLaw.RangesHoldTheirBars` | source_snapshots/trading_research/engine/backtester.py:388-400 | for any two frames a candle's range holds exactly the execution bars from its start to the next one's; the mapping fails exactly for falling times or no positive candle distance |
| `ScheduleLaw.HistoryIsAsAsked` | source_snapshots/trading_research/engine/backtester.py:403-426 | a declared history is complete exactly when the bars from its start stand at every interval step before its end; a one-sided or empty window is an error |
| `ScheduleLaw.PlanIsTold` | source_snapshots/trading_research/engine/backtester.py:496-560 | for any two frames: an execution bar receives exactly the orders of the candles whose signal it is the first to reach (bar-close mode: the first bar of the window, on time or an allowed weekly delay), in candle order, and the time exit of the last candle it closes; the two skip counts and the failing signals are exact |
| `ReplayStory.ReplayRunIsTold` | source_snapshots/trading_research/engine/backtester.py:562-657 | over every replay: positions are costed fills on the scheduled bars, trades book them on the first bar that closes them, counters are as in the native loop |
| `ReplayStory.ReplayOpensExactly` | source_snapshots/trading_research/engine/backtester.py:579-593 | an execution bar opens as many positions as cap, limits, cutoff and its fillable orders allow, the first ones in order |
| `ReplayStory.ReplayIsAsTold` | source_snapshots/trading_research/engine/backtester.py:441-657 | a replay succeeds exactly for valid settings, frames that map and overlap and no broken signal, and reports a book as told with the running sum of its trades |
| `Replay.RunBacktestReplay` | source_snapshots/trading_research/engine/backtester.py:441-657 | the replay: rejected inputs, range mapping, schedule with its skips, simulation |
| `Replay.Schedule` | source_snapshots/trading_research/engine/backtester.py:496-560 | the scheduling loop over signal candles, including history windows, delayed weekly opens and first-touch search; the first error ends it |
| `Replay.OpenScheduled` | source_snapshots/trading_research/engine/backtester.py:579-593 | scheduled orders open one by one, each re-checked against the cap and the loss limits |
| `ReplayRefinement.SameFrameMapsToItself` | source_snapshots/trading_research/engine/backtester.py:388-400 | on an identical execution frame every candle maps to its own bar |
| `ReplayRefinement.PlanUpToMatches` | source_snapshots/trading_research/engine/backtester.py:496-560 | the schedule of a same-frame replay holds exactly the order each signal deserves, on its own bar or the next |
| `ReplayRefinement.RunsInStep` | source_snapshots/trading_research/engine/backtester.py:562-657 | native and replay loops agree on positions, trades, curve and effective limit counters after every bar |
| `ReplayRefinement.ReplayRefinesNative` | source_snapshots/trading_research/engine/backtester.py:441-657 | same frame, zero offsets, no signal from a bar that the Friday rule closes while the replay could still fill it: the replay succeeds with exactly the native trades and curve; bar-close mode without loss limits, trigger mode with touched triggers (and no year-long gap if a weekly limit is set) |
| `FridayReplay.ReplayRefinesNativeExactlyWhen` | source_snapshots/trading_research/engine/backtester.py:573-593 | under the agreeable limits every comparable strategy gets the native trades and curve if and only if no bar that the Friday rule closes leaves a fill before the cutoff |
| `FridayReplay.ClosedSignalSeparates` | source_snapshots/trading_research/engine/backtester.py:573-593 | for every bar that breaks this, a strategy whose one signal there trades in the replay and not in the native loop |
| `EndToEnd.MeanReversionReplayIsNative` | source_snapshots/trading_research/strategy/basic_mean_reversion.py:54-145 | the refinement applied to both mean-reversion strategies: their signals always meet its conditions; Friday close may be on as long as closed bars leave no fill |
| `EndToEnd.LimitsSeparateExactlyWhen` | source_snapshots/trading_research/engine/backtester.py:347-352 | in bar-close mode some configuration, strategy and bars make the two loops differ if and only if a daily or weekly limit is set and none is zero |
| `EndToEnd.LimitsSeparateTheLoops` | source_snapshots/trading_research/engine/backtester.py:579-584 | for any such limits, three bars with one native trade and two replay trades: the replay checks the limits when it fills, the native loop when the signal comes |
| `EndToEnd.MeanReversionIsConservative` | source_snapshots/trading_research/strategy/basic_mean_reversion.py:54-145 | end to end: in bar-close mode without loss limits, and with break-even moves no further than their trigger, the backtest of either mean-reversion strategy is a lower bound for every price path |
| `TickPaths.ExitIsConservative` | source_snapshots/trading_research/engine/backtester.py:231-267 | for every intrabar path, first-touch execution exits on a bar exactly when the model does and never at a worse price |
| `TickPaths.ModelledResultIsALowerBound` | source_snapshots/trading_research/engine/backtester.py:781-880 | over whole runs in bar-close mode and every path through the bars: the same trades on the same bars, each with at least the modelled R, so net R and every curve point are lower bounds |
| `TickPaths.SameBarTargetIsOptimisticExactlyWhen` | source_snapshots/trading_research/engine/backtester.py:231-246 | a same-bar target of a fading trigger order that the model books is missed by some price path of the bar if and only if the bar opens beyond the entry and closes short of the target: the bound stops at bar-close mode |
| `NoLookahead.NoLookaheadTheorem` | source_snapshots/trading_research/engine/backtester.py:781-880 | with a causal strategy and Friday states that agree (below), a run on the first m bars reports exactly the full run's trades that close before bar m |
| `NoLookahead.FridayOffAgrees` | source_snapshots/trading_research/engine/backtester.py:784-789 | with Friday close off the Friday states agree wherever the frame is cut |
| `NoLookahead.CutBetweenDaysAgrees` | source_snapshots/trading_research/engine/backtester.py:372-385 | with Friday close on they agree for every cut that keeps the smallest bar gap and does not fall inside a Friday |
| `FridayLookahead.NoLookaheadExactlyWhen` | source_snapshots/trading_research/engine/backtester.py:364-385 | no causal strategy, costs or loss limits show the cut before bar m if and only if every simulated bar keeps its Friday state, or (bar-close mode) nothing is held or due on it and an order placed on it has no fill left |
| `FridayLookahead.CutInsideFridayIsSeen` | source_snapshots/trading_research/engine/backtester.py:784-789 | a frame cut inside a Friday: the last visible bar is closed by the Friday rule, in the full run it is not, and a causal strategy shows it |
| `Precompute.ComputeSwings` | source_snapshots/trading_research/engine/precompute.py:10-61 | the in-place loop marks exactly the confirmed window extrema, at their confirmation bar |
| `Precompute.ComputeTrendLabels` | source_snapshots/trading_research/engine/precompute.py:67-107 | the labelling loop gives each bar the label its last two swings of each kind define |
| `Precompute.SwingsOfPrefix` | source_snapshots/trading_research/engine/precompute.py:34-61 | swing columns of a prefix are the prefix of the swing columns |
| `Precompute.TrendOfPrefix` | source_snapshots/trading_research/engine/precompute.py:67-107 | trend column of a prefix is the prefix of the trend column |
| `Precompute.AtrOfPrefix` | source_snapshots/trading_research/engine/precompute.py:113-128 | ATR column of a prefix is the prefix of the ATR column |
| `Precompute.AtrIsMeanTravel` | source_snapshots/trading_research/engine/precompute.py:113-128 | the ATR of a bar is the mean, over the last period bars, of how far price travelled from the close before; absent before there are so many |
| `Precompute.FlaggedAreFlagged` | source_snapshots/trading_research/engine/precompute.py:67-107 | the values a label compares are those of exactly the flagged bars of its window, in order |
| `MeanReversion.BasicMeanReversion.BindData` | source_snapshots/trading_research/strategy/basic_mean_reversion.py:35-48 | binding takes the frame and its ATR column and fails exactly when that column is missing |
| `MeanReversion.BasicMeanReversion.OnBar` | source_snapshots/trading_research/strategy/basic_mean_reversion.py:54-145 | the bound strategy answers bar i as the pure rule over the bound columns |
| `MeanReversion.SignalFadesTheBoundary` | source_snapshots/trading_research/strategy/basic_mean_reversion.py:54-145 | every signal fades a touched range boundary that bounds the whole lookback, with its stop outside and its target inside |
| `MeanReversion.SignalIs` | source_snapshots/trading_research/strategy/basic_mean_reversion.py:54-145 | exactly when the strategy signals, and the entry, stop and target of the fade |
| `MeanReversion.NoSignalBeforeWindow` | source_snapshots/trading_research/strategy/basic_mean_reversion.py:54-70 | there is no signal before the lookback window is full |
| `MeanReversion.StrategyIsCausal` | source_snapshots/trading_research/strategy/basic_mean_reversion.py:54-145 | the signal of bar i does not change when later bars are removed, ATR recomputation included |
| `MeanReversion.MeanReversionBacktestHasNoLookahead` | source_snapshots/trading_research/strategy/basic_mean_reversion.py:35-145 | end to end: precomputed ATR, strategy and engine together have no lookahead, for every cut at which the Friday states agree |
| `EquityProfile.BuildIntradayEquity` | source_snapshots/trading_research/strategy_profile/analyzer.py:93-208 | the array accumulators and the cumulative sum hold, on every bar, the directly defined realized result plus marks, and fail exactly on an invalid trade |
| `EquityProfile.MarksAreWorth` | source_snapshots/trading_research/strategy_profile/analyzer.py:139-162 | a mark is the move in units of the risk less the fees, at the close, the worst and the best price; on the closing bar it is the result, bounded by it, or the result alone after a protective exit |
| `EquityProfile.CloseEquityIsRealizedPlusOpen` | source_snapshots/trading_research/strategy_profile/analyzer.py:144-195 | close equity on a bar is the R of the trades closed by it plus the close marks of the trades still open |
| `EquityProfile.EnvelopeEnclosesClose` | source_snapshots/trading_research/strategy_profile/analyzer.py:144-162 | low equity <= close equity <= high equity on every bar |
| `EquityProfile.ProfileMatchesBacktest` | source_snapshots/trading_research/strategy_profile/analyzer.py:164-195 | every backtest's trades are accepted, the last close equity is the backtester's final equity, and the overlap count never exceeds the cap |
| `Drawdown.MaxDrawdown` | source_snapshots/trading_research/engine/backtester.py:56-61 | the one-pass maximum drawdown is the largest equity[i] - equity[j] over i <= j |
| `Drawdown.EnvelopeDrawdown` | source_snapshots/trading_research/portfolio_profile/analyzer.py:607-610 | the running-peak envelope drawdown of one strategy's R curves is the largest high[i] - low[j] over i <= j |
| `Drawdown.EnvelopeDrawdownDominates` | source_snapshots/trading_research/portfolio_profile/analyzer.py:607-610 | on the R curves of one strategy with one position at a time, the closed-trade drawdown never exceeds the rebuilt envelope's drawdown |
| `Rollover.RolloverUnits` | source_snapshots/trading_research/engine/execution_cost_model.py:88-112 | the day loop sums the weights of the rollovers in the half-open span over the local days from opening to closing, in any local calendar |
| `Rollover.WeekdaysFollow` | source_snapshots/trading_research/engine/execution_cost_model.py:106-111 | weekdays follow from the epoch's Thursday; weekends are free, the triple day counts three times |
| `Rollover.AdditiveExactlyWhen` | source_snapshots/trading_research/engine/execution_cost_model.py:99-111 | in a calendar with clock changes, units are additive over every span and split if and only if every workday's rollover happens by the end of that local day |
| `Rollover.ShortDayExactlyWhen` | source_snapshots/trading_research/engine/execution_cost_model.py:99-111 | a calendar with one 23-hour day is additive unless that day is a workday that rolls over after 23:00, and then its closing midnight splits the rollover off |
| `Rollover.UnitsAreAllRollovers` | source_snapshots/trading_research/engine/execution_cost_model.py:99-111 | in such a calendar looking at further days on either side finds no rollover that the loop missed |
| `Rollover.RolloverIsAdditive` | source_snapshots/trading_research/engine/execution_cost_model.py:88-112 | units over a span are the units of its two parts, for every split point, also across clock changes |
| `Rollover.WholeWeekUnits` | source_snapshots/trading_research/engine/execution_cost_model.py:88-112 | from a local time to the same local time n weeks later costs 7n units, or 5n when the triple day is on the weekend, whatever clock changes lie between |
| `Rollover.FixedOffsetWeeks` | source_snapshots/trading_research/engine/execution_cost_model.py:88-112 | at a fixed offset, any span of n whole weeks costs 7n or 5n units |
| `Rollover.SwapIsAdditive` | source_snapshots/trading_research/engine/execution_cost_model.py:114-123 | the swap of a holding period is the sum of the swaps of its parts |
| `Aggregation.GroupingMatchesDefinition` | source_snapshots/trading_research/data/download_from_dukascopy.py:213-222 | grouping a time-ordered source yields one bar per key, ascending, each the aggregate of exactly the source bars of its key |
| `Aggregation.BuiltBarsAreSound` | source_snapshots/trading_research/data/download_from_dukascopy.py:213-225 | built bars ascend strictly, lie inside the requested range, have consistent OHLC and conserve volume |
| `Aggregation.CombinedBarIsMadeOf` | source_snapshots/trading_research/data/download_from_dukascopy.py:213-222 | a built bar opens with the first source bar of its key, closes with the last and reaches exactly their extremes |
| `Aggregation.NestedBars` | source_snapshots/trading_research/data/download_from_dukascopy.py:186-199 | for any session map, a coarse bar start does not change by bucketing to a dividing finer interval first, and a fine bar never sticks out of its coarse bar |
| `Aggregation.AggregationComposes` | source_snapshots/trading_research/data/download_from_dukascopy.py:186-225 | building coarse bars from fine bars equals building them from the source, for any gaps and any session map |
| `ReturnFilter.ResearchMatchesDefinition` | source_snapshots/trading_research/strategy/mean_reversion_with_return_filter.py:45-87 | the research column at a bar is the side implied by the latest earlier period's first open and last close, if the history is known to hold that period from its start |
| `ReturnFilter.LiveMatchesDefinition` | source_snapshots/live_trading/strategies/eurgbp_h4_reversion_return_filter/strategy.py:192-224 | the live allowed side is the same definition over the window it was shown |
| `ReturnFilter.LiveRefinesResearch` | source_snapshots/live_trading/strategies/eurgbp_h4_reversion_return_filter/strategy.py:192-241 | on any suffix window holding all earlier-period bars, the live side is none or the research side on the full history, and equals it exactly when the window provably holds the previous period |
| `ReturnFilter.OnlyEarlierPeriodsMatter` | source_snapshots/trading_research/strategy/mean_reversion_with_return_filter.py:45-119 | both sides depend only on bars of earlier periods |
| `ReturnFilter.StoredReturnsTrackExactlyWhen` | source_snapshots/live_trading/strategies/eurgbp_h4_reversion_return_filter/strategy.py:211-224 | for bars any fixed distance or more apart: stored returns agree with research in every such history that extends their window if and only if they permit nothing or no bar of an earlier period than that of now can follow their last bar |
| `FilteredStrategies.MeanReversionWithReturnFilter.BindData` | source_snapshots/trading_research/strategy/mean_reversion_with_return_filter.py:45-87 | the loop fills one side per period and one per bar; each failed validation leaves no side column |
| `FilteredStrategies.MeanReversionWithReturnFilter.OnBar` | source_snapshots/trading_research/strategy/mean_reversion_with_return_filter.py:89-98 | the filtered signal is the base signal when its side is allowed, else nothing |
| `FilteredStrategies.FilterOnlyRemoves` | source_snapshots/trading_research/strategy/mean_reversion_with_return_filter.py:89-98 | a passed signal is the base signal, and goes with or against the previous period's move as the mode says |
| `FilteredStrategies.IntervalIsJudged` | source_snapshots/trading_research/strategy/mean_reversion_with_return_filter.py:121-133 | a frame is turned away exactly when no neighbours are a positive distance apart, or none of these distances is below the filter period |
| `FilteredStrategies.FilteredBacktestHasNoLookahead` | source_snapshots/trading_research/strategy/mean_reversion_with_return_filter.py:45-98 | the filtered strategy has no lookahead either, for every cut at which the Friday states agree |
| `LiveFilter.ReturnFilterStrategy.UpdateH4State` | source_snapshots/live_trading/strategies/eurgbp_h4_reversion_return_filter/strategy.py:32-62 | exact effect of a refresh on bars in any order: a rejected frame changes nothing; a non-positive ATR or range keeps the stored returns |
| `LiveFilter.SortOfWindow` | source_snapshots/live_trading/strategies/eurgbp_h4_reversion_return_filter/strategy.py:39-41 | however the bars of a window arrive, the refresh works on the window |
| `LiveFilter.RefreshTracksExactlyWhen` | source_snapshots/live_trading/strategies/eurgbp_h4_reversion_return_filter/strategy.py:32-62 | on a legal window that holds every earlier-period bar, the permission is none or the research side whatever was stored before, if and only if the window has a positive ATR and a positive range |
| `LiveFilter.StaleWindowContradicts` | source_snapshots/live_trading/strategies/eurgbp_h4_reversion_return_filter/strategy.py:32-62 | two legal refreshes, the second with a zero ATR, after which the ready strategy permits the opposite of the research side |
| `LiveFilter.NoOrderOnKeptReturns` | source_snapshots/live_trading/core/order_executor.py:125-129 | after a refresh that kept older returns, either no signal is raised or the executor turns every signal away before the broker |
| `LiveFilter.RefreshAndAsk` | source_snapshots/live_trading/strategies/eurgbp_h4_reversion_return_filter/strategy.py:32-62 | a refresh on a tradable frame in any order, then a question: none or the research side; a failed refresh changes nothing |
| `LiveFilter.LiveSignalsAre` | source_snapshots/live_trading/strategies/eurgbp_h4_reversion_return_filter/strategy.py:155-181 | after a tradable refresh the two signals fade the bounds of the latest range, with the ATR distance and the target inside, as the research strategy does |
| `IntentStore.IntentRepository.ClaimSignal` | source_snapshots/live_trading/core/order_intent_store.py:329-378 | an existing key, else the strategy's unresolved row, else a new CREATED row; claimed only for the new row |
| `IntentStore.IntentRepository.Transition` | source_snapshots/live_trading/core/order_intent_store.py:419-457 | a transition is applied exactly when the table allows it and no broker id clashes, else nothing changes |
| `IntentStore.IntentRepository.ListReconcilable` | source_snapshots/live_trading/core/order_intent_store.py:394-406 | exactly the unresolved submitted rows of one account, or of all, each once and in no promised order |
| `IntentStore.ClaimIsDecided` | source_snapshots/live_trading/core/order_intent_store.py:329-378 | a claim wins exactly when its key is new and no unresolved row of its own account and strategy exists; else it names the row of the key or the oldest blocking row |
| `IntentStore.ClaimKeepsConstraints` | source_snapshots/live_trading/core/order_intent_store.py:343-373 | claims keep the unique keys and broker ids; a won claim means no unresolved row of the strategy |
| `IntentStore.TransitionKeepsConstraints` | source_snapshots/live_trading/core/order_intent_store.py:419-457 | transitions keep the unique keys and broker ids and never change a key |
| `IntentProtocol.AtMostOnceSubmission` | source_snapshots/live_trading/core/order_executor.py:58-180 | any number of processes, any interleaving, any crash, any broker answers: one row per signal, one won claim per row, at most one broker call per row and per signal |
| `IntentSolo.OneUnresolvedSubmission` | source_snapshots/live_trading/core/order_executor.py:50-256 | one process with crashes and restarts anywhere: at most one active row per strategy, no CREATED row was sent, an order goes out only when earlier ones are resolved, and every attempted transition is in the table |
| `SubmissionLaw.SentUntilAnswered` | source_snapshots/live_trading/core/order_executor.py:166-256 | any number of processes: a sent row is REJECTED only if the broker refused it, stays unresolved until it was refused or found, and of two sent rows of a strategy the earlier was refused or found |
| `SubmissionLaw.SettlingWrites` | source_snapshots/live_trading/core/order_executor.py:170-209 | the status and broker columns of a row for every answer and, after an accepted order, every outcome of the position lookup |
| `SubmissionLaw.ReconcilingWrites` | source_snapshots/live_trading/core/order_executor.py:220-256 | the status and broker columns of a reconciled row for every outcome of the lookup |
| `IntentSolo.StaleReaderBreaksOneActive` | source_snapshots/live_trading/core/order_intent_store.py:71-86 | a concrete two-process run where a stale reader reopens a partial fill, leaving two active rows |
| `IntentReopening.TransitionKeepsOneActiveExactlyWhen` | source_snapshots/live_trading/core/order_intent_store.py:419-457 | an applied transition keeps one active row per strategy if and only if it does not reopen a resolved row beside an active one |
| `IntentReopening.ReopeningPairs` | source_snapshots/live_trading/core/order_intent_store.py:74-86 | the table's only ways back to unresolved are from partially filled to reconciling or unknown, and from rejected to submitting |
| `IntentReopening.OneActiveExactlyWhen` | source_snapshots/live_trading/core/order_intent_store.py:329-457 | in every run of any number of processes, each strategy has at most one active row at all times if and only if no step reopens a row |
| `IntentReopening.OnlyPartialFillsReopen` | source_snapshots/live_trading/core/order_executor.py:50-256 | in those runs a reopened row was partially filled; a rejected row is never submitted again |
| `OrderExecutor.SubmittedRequestIsProtected` | source_snapshots/live_trading/core/order_executor.py:73-161 | a prepared request has its stop and target on the right sides of the market, fits size and margin checks, and respects the slippage bound |
| `OrderExecutor.WellPosedIsPrepared` | source_snapshots/live_trading/core/order_executor.py:73-161 | a well-posed signal is skipped exactly beyond the slippage limit, refused exactly when size or margin is missing, and otherwise submitted with exactly this price, stop, target and volume |
| `OrderExecutor.IllPosedIsRefused` | source_snapshots/live_trading/core/order_executor.py:73-129 | every other signal is refused, or cancelled because a position is open |
| `OrderExecutor.CallsBrokerExactlyWhen` | source_snapshots/live_trading/core/order_executor.py:50-180 | a call reaches the broker exactly when it wins the claim and its request is ready, and then once, for its own row |
| `OrderExecutor.Executor.ExecuteSignal` | source_snapshots/live_trading/core/order_executor.py:50-209 | the row it leaves is cancelled, rejected or settled as preparation, answer and lookup say, or an existing one is reconciled and nothing else changes; the call is exactly its protocol steps on journal and broker, keeps one active row per strategy, and leaves the pending flag as the outcome requires |
| `OrderExecutor.Executor.Settle` | source_snapshots/live_trading/core/order_executor.py:180-209 | the broker's answer and the position lookup move the row to exactly the status they justify |
| `OrderExecutor.Executor.ReconcilePendingIntents` | source_snapshots/live_trading/core/order_executor.py:211-256 | every unresolved row of the account is probed, in the order the journal lists them, nothing is submitted, the first store failure ends the pass |
| `LedgerStore.TradeStore.UpsertOpen` | source_snapshots/live_trading/analytics/trade_store.py:131-159 | opening is once per position; a taken broker order or a refused entry deal leaves nothing behind |
| `LedgerStore.TradeStore.UpsertRecoveredClose` | source_snapshots/live_trading/analytics/trade_store.py:207-232 | a batch is attached and the trade recomputed, or the whole batch is refused |
| `LedgerStore.TradeStore.UpsertRecoveredTrade` | source_snapshots/live_trading/analytics/trade_store.py:187-205 | open if unknown, then attach; the two transactions are separate |
| `LedgerLaw.AggregateIsTold` | source_snapshots/live_trading/analytics/trade_store.py:691-727 | points are exit minus entry for a BUY and the reverse for a SELL, R times risk is the profit, money columns are totals over the position's deals, times are attained extremes, prices are volume means, closed means that the OUT volume covers a positive entry volume |
| `LedgerLaw.TotalGrows` | source_snapshots/live_trading/analytics/trade_store.py:703-705 | a new deal adds exactly its own amount to each total |
| `LedgerLaw.TotalIsCorrected` | source_snapshots/live_trading/analytics/trade_store.py:729-741 | a deal delivered again replaces its own amount |
| `LedgerLaw.PriceIsBetween` | source_snapshots/live_trading/analytics/trade_store.py:725-727 | a mean price lies between the lowest and the highest price it averages |
| `LedgerLaw.RecoverIsTold` | source_snapshots/live_trading/analytics/trade_store.py:207-232 | after a recovery the table holds the last version of every deal of the batch and every other row, and only the position's trade row changes |
| `LedgerConfluence.LedgerRecoveryIsConfluent` | source_snapshots/live_trading/analytics/trade_store.py:187-232 | two interleavings of recovery transactions on one ledger that deliver the same deals for a position, in any order, batching or repetition, and anything for other positions under other ids, end in the same trade fields |
| `LedgerConfluence.InterleavingProjects` | source_snapshots/live_trading/analytics/trade_store.py:207-232 | what the ledger holds of a position after any interleaving is exactly the sequence of that position's own batches |
| `Confluence.RecoveryIsConfluent` | source_snapshots/live_trading/analytics/trade_store.py:207-232 | two sequences of one position's batches that deliver the same deals end in the same trade fields and the same rows |
| `Confluence.ReplayIsNoOp` | source_snapshots/live_trading/analytics/trade_store.py:207-232 | delivering an already delivered batch changes none of those fields |
| `Confluence.AggregateOfPermutation` | source_snapshots/live_trading/analytics/trade_store.py:691-727 | the aggregate depends on the set of deals, not on their order |
| `Confluence.ReaggregationForgets` | source_snapshots/live_trading/analytics/trade_store.py:691-722 | re-aggregating from an aggregated row is the same as from the original row |
| `WatermarkSafety.NoGapBehindTheWatermark` | source_snapshots/live_trading/analytics/trade_reconciliation.py:123-318 | in every reachable state, with passes stopping anywhere, every own close between the first completed pass's start and watermark minus overlap is in the ledger |
| `WatermarkSafety.CompletedPassHasAllCloses` | source_snapshots/live_trading/analytics/trade_reconciliation.py:282-318 | in every reachable state, a pass about to move the watermark has every close it fetched in the ledger, also outside the parity window, and among them every own close of its window that was visible to it |
| `WatermarkSafety.EvidencedGroupIsRecorded` | source_snapshots/live_trading/analytics/trade_reconciliation.py:204-281 | a group with entry evidence has every one of its closes recorded |
| `WatermarkSafety.StepKeepsInv` | source_snapshots/live_trading/analytics/trade_reconciliation.py:123-319 | every step of a pass, a crash between the two transactions of an import, and every interleaved executor write keep the invariant |
| `Reconciler.TradeReconciliation.Reconcile` | source_snapshots/live_trading/analytics/trade_reconciliation.py:123-319 | one pass leaves exactly the state its inputs define; the watermark moves, to the pass's own end, exactly when no issue stands, and after every pass no own close is missing behind it; position by position the ledger says what the broker's deals say, and every closing row mirrors one of them |
| `PassLaw.GroupingIsTold` | source_snapshots/live_trading/analytics/trade_reconciliation.py:161-200 | the groups are one per position with deals of its own; each holds exactly its own entries and closes, in order |
| `PassLaw.GroupIsDone` | source_snapshots/live_trading/analytics/trade_reconciliation.py:204-281 | what one group writes: the raised issue, the completed row, or the import opened from its earliest entry with the cached risk, and what a refusal leaves |
| `PassLaw.PassEndsAs` | source_snapshots/live_trading/analytics/trade_reconciliation.py:282-318 | which issues stand at the end of a pass, and that the watermark moves exactly when none does |
| `PassLaw.OwnedExactlyWhen` | source_snapshots/live_trading/analytics/trade_reconciliation.py:141-175 | a position is the strategy's own exactly through the cache, an open row, or an own entry in the response |
| `PassLaw.MergingIsTold` | source_snapshots/live_trading/analytics/trade_reconciliation.py:147-159 | the position histories add each deal with an id that is not there yet, once and after the response |
| `PassLaw.CloseIdsAre` | source_snapshots/live_trading/analytics/trade_reconciliation.py:176-200 | the closes a pass looks for are the closing deals of positions it owns or with its magic |
| `PassLaw.WindowReachesBack` | source_snapshots/live_trading/analytics/trade_reconciliation.py:126-131 | the window reaches back by the overlap from the watermark, or by the bootstrap from now |
| `PassLaw.ExecutorWrites` | source_snapshots/live_trading/core/order_executor.py:258-303 | the executor's own write opens and caches an unknown position |
| `PassStory.PassIsTold` | source_snapshots/live_trading/analytics/trade_reconciliation.py:123-281 | position by position: an added row has side, order and time of its earliest own entry and the cached risk, and exactly the broker's deals as rows; a position without closes keeps its row; unless a write was refused every recordable position is complete |
| `PassStory.LedgerMirrorsBroker` | source_snapshots/live_trading/analytics/trade_reconciliation.py:422-439 | in every reachable state each closing row is a close of the broker's history, column by column, and no row is without its trade |
| `Reconciler.TradeReconciliation.ClearResolved` | source_snapshots/live_trading/analytics/trade_reconciliation.py:335-354 | exactly the issues whose ids are all in the ledger are cleared; a reversal issue never is |
| `Reconciler.TradeReconciliation.BuildGroups` | source_snapshots/live_trading/analytics/trade_reconciliation.py:161-200 | the grouping loop: one group per position in order of appearance, own closes collected by id |
| `AccountRisk.AccountStateStore.RecordEquity` | source_snapshots/live_trading/risk/account_state_store.py:117-168 | records the equity and raises the peak, or refuses invalid input and changes nothing |
| `AccountRisk.AccountStateStore.Halt` | source_snapshots/live_trading/risk/account_state_store.py:170-213 | halts, keeps the first reason and time, and reports newly halted only if it was not |
| `AccountRisk.AccountStateStore.ResetIfNew` | source_snapshots/live_trading/risk/account_state_store.py:215-323 | an unseen id clears the halt, restarts the peak and appends one audit row; a seen id changes nothing |
| `AccountRisk.RefusedExactlyWhen` | source_snapshots/live_trading/risk/account_state_store.py:117-260 | which inputs an operation turns away: amounts that are not positive, an empty reason, a blank or overlong id or reason of a reset, or a secret in it |
| `AccountRisk.StripIsBare` | source_snapshots/live_trading/risk/account_state_store.py:215-260 | the stored id and reason of a reset are the given ones without the white space around them |
| `AccountRisk.EquityIsRecorded` | source_snapshots/live_trading/risk/account_state_store.py:117-168 | what an accepted equity leaves in every column |
| `AccountRisk.HaltIsSticky` | source_snapshots/live_trading/risk/account_state_store.py:170-213 | what a halt leaves in every column: reason and time only from the first one |
| `AccountRisk.ResetStartsOver` | source_snapshots/live_trading/risk/account_state_store.py:215-323 | what an effective reset leaves in every column and in the audit |
| `AccountRisk.RiskStateIsItsHistory` | source_snapshots/live_trading/risk/account_state_store.py:117-323 | over every serial run: halted, its reason and time, and the peak are exactly what the operations since the last effective reset say |
| `AccountRisk.OneNewHaltPerEpoch` | source_snapshots/live_trading/risk/account_state_store.py:170-213 | between effective resets exactly the first halt reports newly halted |
| `AccountRisk.EachResetIdOnce` | source_snapshots/live_trading/risk/account_state_store.py:215-323 | a reset takes effect exactly when its id is new, and its audit row holds the state just before it |
| `AccountRisk.AuditIsResetHistory` | source_snapshots/live_trading/risk/account_state_store.py:215-323 | the audit holds exactly the ids of accepted resets, each once |
| `LossGuard.RiskManager.CanOpenNewTrade` | source_snapshots/live_trading/risk/risk_manager.py:49-100 | exactly when trading is allowed, which reason is reported, a failed ledger read included, and which announcements are made |
| `LossGuard.WindowByLabel` | source_snapshots/live_trading/analytics/trade_store.py:664-674 | the half-open UTC day and Monday-based week windows hold exactly the times of that day or week |
| `LossGuard.GuardIs` | source_snapshots/live_trading/risk/risk_manager.py:541-608 | the guard's whole answer for every limit, risk, tolerance and realized profit |
| `LossGuard.NoWindowExceedsItsLimit` | source_snapshots/live_trading/risk/risk_manager.py:541-608 | over every run with one position at a time, carried over any boundary, no UTC day or week realizes a loss beyond limit plus tolerance (limit plus one worst close if the risk is unknown) |
| `LossGuard.OverlapStaysWithin` | source_snapshots/live_trading/risk/risk_manager.py:541-608 | with up to k positions of the strategy at a time, no window loses more than limit plus tolerance plus k - 1 worst closes |
| `LossGuard.OverlapBoundIsReached` | source_snapshots/live_trading/risk/risk_manager.py:541-608 | for every k a run of k grants before any settlement reaches that bound; the executor's open-position check is what keeps k at one |
| `PositionSizer.EveryLotFitsExactlyWhen` | source_snapshots/live_trading/risk/position_sizer.py:130-279 | for buffer <= 1 and a step of whole ten-thousandths, every valid lot's stop risk is within the configured risk if and only if the final four-digit rounding cannot raise the fallback lot |
| `PositionSizer.FittedLot` | source_snapshots/live_trading/risk/position_sizer.py:246-279 | a fitted lot is at or below the raw lot in whole steps, or the fallback lot that fits |
| `PositionSizer.AnswerIs` | source_snapshots/live_trading/risk/position_sizer.py:81-279 | the order of the checks on the inputs, and what a valid answer reports, each figure within half its last digit |
| `PositionSizer.PricedChecks` | source_snapshots/live_trading/risk/position_sizer.py:196-258 | the anomaly comes before the ceiling, the ceiling before the broker's volumes |
| `PositionSizer.AnomalousExactlyWhen` | source_snapshots/live_trading/risk/position_sizer.py:196-223 | a raw lot is anomalous exactly when the risk behind it is less than a twentieth of the tick formula's |
| `PositionSizer.RiskOfOneLot` | source_snapshots/live_trading/risk/position_sizer.py:29-68 | the risk of one lot is the positive estimate of the broker, else the stop in ticks times the tick value |
| `PositionSizer.CeilingHoldsExactlyWhen` | source_snapshots/live_trading/risk/position_sizer.py:225-279 | for any positive step and non-negative buffer, on or off the grid: the lot ceiling holds for every request if and only if no undersized request is raised over it and no number of whole steps below it is taken over it by the roundings or the unchecked retry; for a step of whole ten-thousandths only the first can happen |
| `PositionSizer.RoundingBreaksCeiling` | source_snapshots/live_trading/risk/position_sizer.py:225-279 | a step of 0.00005 and a ceiling of 0.00015: no request is raised, and the four-digit rounding alone ends above the ceiling |
| `PositionSizer.PositiveStepFitsExactlyWhen` | source_snapshots/live_trading/risk/position_sizer.py:73-279 | for any positive step and buffer, on or off the grid, and any minimum and maximum: every valid lot is within the configured risk if and only if no number of whole steps up to the broker's maximum overruns and the fallback does not |
| `PositionSizer.RoundedDown` | source_snapshots/live_trading/risk/position_sizer.py:73-78 | rounding down loses less than one step, up to the eighth digit for any step and exactly for a step on the grid |
| `PositionSizer.LargeBufferOverruns` | source_snapshots/live_trading/risk/position_sizer.py:260-272 | with a buffer above one the unchecked retry can return a lot that costs more than the risk |
| `PositionSizer.ZeroStepOverruns` | source_snapshots/live_trading/risk/position_sizer.py:260-272 | with a zero step every sizer that allows undersized lots accepts some request it cannot carry |
| `CircuitBreaker.Broker.EnsureConnection` | source_snapshots/live_trading/core/broker.py:284-342 | one call: healthy, waiting, attempt succeeded, attempt failed, circuit opened |
| `CircuitBreaker.Broker.RequireReconnect` | source_snapshots/live_trading/core/broker.py:264-278 | a trade-time connection loss demands a reconnect and leaves the CONNECTED state |
| `CircuitBreaker.EveryRunKeepsLinkInv` | source_snapshots/live_trading/core/broker.py:264-342 | in every run a demanded reconnect implies not connected, and the failure count reaches the limit only with the circuit open |
| `CircuitBreaker.DelaysGrowToTheCap` | source_snapshots/live_trading/core/retry_policy.py:42-49 | reconnect delays never shrink, never exceed the cap and are never negative |
| `CircuitBreaker.PolicyIsValidExactlyWhen` | source_snapshots/live_trading/core/retry_policy.py:27-41 | a policy is valid exactly with an attempt, no negative duration and a multiplier of at least one |
| `CircuitBreaker.DelaysAreExponential` | source_snapshots/live_trading/core/retry_policy.py:42-49 | the first delay is the initial backoff and each further one the one before times the multiplier, both capped |
| `CircuitBreaker.AnyCycleIsFull` | source_snapshots/live_trading/core/retry_policy.py:26-49 | any A consecutive attempts of an outage span one full cycle of delays plus cooldown, wherever the cycle starts |
| `CircuitBreaker.AttemptsAreBounded` | source_snapshots/live_trading/core/broker.py:284-342 | during an unbroken outage the attempts within time T number at most A * (floor(T / (D + C)) + 1) |

## Left out

- Floating point: prices, R, volumes and money are exact reals, so rounding of sums and displays is not modelled; only the decimal rounding of lots and of the sizing answer is.
- Aliasing: position dictionaries, the book of open positions and journal rows are values held in fields; no second reference to one of them is modelled.
- Cost hooks and strategies are pure functions of their arguments; a hook or strategy with hidden state is outside the model, as are missing-column errors of data frames.
- Metrics other than drawdown, margin, excursion columns, daily equity, drawdown episodes, challenge simulation, plotting and reports.
- ReplayRefinement.ReplayRefinesNative: the ISO calendar is an abstract week-number function that repeats only after at least 52 weeks; a time-exit rule is allowed as long as it does not fire on the unfinished last bar.
- TickPaths.ModelledResultIsALowerBound: price costs are constants and fees do not depend on the exit price; loss limits are off, because an earlier better result could change which later trades are allowed.
- Drawdown.EnvelopeDrawdownDominates: states the comparison on one strategy's R curves, not on the portfolio's percent curves, for a cap of one position, and in trigger mode only with a warm-up of at least one bar.
- EndToEnd.MeanReversionIsConservative: a break-even offset beyond its own trigger is not covered, because the moved stop may lie beyond a nearer target.
- EndToEnd.LimitsSeparateExactlyWhen: the converse of the refinement's limit condition for bar-close mode; for trigger mode only the sufficient condition is stated.
- Aggregation.AggregationComposes: intraday intervals over an arbitrary monotone session map; the New York timezone rules behind the map and the D1 and W1 bars are not modelled.
- ReturnFilter.LiveRefinesResearch: the timezone rules behind period keys are a monotone function with recognised starts; prices are positive, so the sign of the log return is the sign of close minus open.
- Rollover.RolloverUnits: the timezone tables behind local midnights are a parameter with strictly increasing values.
- The broker, its order book, MetaTrader calls and retry loops of individual requests: answers are parameters of the steps, chosen by an adversary.
- SQLite itself, lock retries, schema migration and legacy imports: each transaction is one atomic step on the current schema; random intent ids are row numbers, and timestamps of intents are not kept.
- Post-fill bookkeeping of the executor (trade logging, execution cache, alerts), stop and target columns of the journal, and cross-strategy attribution of a found position.
- Liveness of rows left in CREATED or RECONCILING by a crash: they stay, by design; only safety is stated.
- LedgerConfluence.LedgerRecoveryIsConfluent: the close reason is excluded, since the last non-null one wins.
- LedgerStore.TradeStore.UpsertRecoveredTrade: the adoption of a legacy row before the import is not modelled.
- WatermarkSafety.NoGapBehindTheWatermark: assumes that the broker shows an own close within the overlap of its stamp; broker clock conversion and query padding are part of the fetch answer, and the two transactions of an import interleave with nothing but a crash.
- Reconciler.TradeReconciliation.Reconcile: issue positions are read in an arbitrary order, which does not change the result; alerts and the health label are not modelled.
- Rows closed by the position manager appear only as an environment step that keeps the strategy of a row.
- LossGuard.RiskManager.CanOpenNewTrade: the account, position-cap and margin guards before the loss guards are one parameter, the text of a failed read is one too, and a pnl is summed without rounding to cents.
- LossGuard.NoWindowExceedsItsLimit: granting and recording a close are single steps; a close that the broker has made but the ledger does not show yet is outside the bound.
- PositionSizer.ZeroStepOverruns: non-positive steps get this failing family, not an exact condition.
- PositionSizer.CeilingHoldsExactlyWhen: assumes a positive volume step, positive tick values and a non-negative buffer.
- CircuitBreaker.AttemptsAreBounded: one owner broker with a clock that does not go back; symbol views that share the connection and an explicit connect call after the start are not modelled.
- Configuration validators, heartbeats, the Telegram and HTTP surfaces, report rendering and command-line entry points: easy members or foreign calls.
