/** Prices, bars, signals, positions and trades: the records the backtester passes around.
    Prices and R multiples are exact reals, times are whole seconds since the Unix epoch (UTC). */
module Market {
  import opened Options

  datatype Side = Buy | Sell

  datatype Bar = Bar(time: int, open: real, high: real, low: real, close: real)

  /** The OHLC consistency that the data contract guarantees. */
  predicate ValidBar(b: Bar) {
    b.low <= b.open <= b.high && b.low <= b.close <= b.high
  }

  predicate ValidBars(bars: seq<Bar>) {
    forall i | 0 <= i < |bars| :: ValidBar(bars[i])
  }

  predicate IncreasingTimes(bars: seq<Bar>) {
    forall i, j | 0 <= i < j < |bars| :: bars[i].time < bars[j].time
  }

  // ---------- calendar (UTC) ----------

  const DAY: int := 86400

  /** Days since the epoch; Euclidean division floors for a positive divisor. */
  function DayOf(t: int): int { t / DAY }

  /** Monday is 0, as in pandas; day 0 of the epoch was a Thursday. */
  function WeekdayOf(t: int): int { (DayOf(t) + 3) % 7 }

  /** Consecutive number of the Monday-based week that holds t. */
  function WeekOf(t: int): int { (DayOf(t) + 3) / 7 }

  // ---------- real arithmetic ----------

  function Direction(side: Side): real { if side.Buy? then 1.0 else -1.0 }

  function MaxR(a: real, b: real): real { if a >= b then a else b }

  function MinR(a: real, b: real): real { if a <= b then a else b }

  function AbsR(a: real): real { if a < 0.0 then -a else a }

  lemma QuotientIsMonotone(x: real, y: real, d: real)
    requires x >= y && d > 0.0
    ensures x / d >= y / d
  {
    var q := (x - y) / d;
    assert q * d == x - y;
    assert q >= 0.0;
    assert x / d == y / d + q;
  }

  // ---------- signals ----------

  /** How a signal names its stop: a distance from the fill, a price with no stop order
      (only a risk unit), or a stop level. */
  datatype StopSpec = StopDistance(distance: real) | RiskReference(reference: real) | StopLevel(level: real)

  datatype Trigger = PriceAtOrAbove | PriceAtOrBelow | PriceTouched | UnsupportedTrigger(name: string)

  datatype Signal = Signal(
    side: Side, entry: real, stop: StopSpec, tp: Option<real>, trigger: Trigger,
    historyStart: Option<int>, historyEnd: Option<int>)

  datatype FillTiming = NextBarOpen | SameBarTrigger

  // ---------- positions ----------

  datatype PositionRecord = PositionRecord(
    side: Side, tp: Option<real>, sl: Option<real>, initialSl: Option<real>, initialTp: Option<real>,
    entry: real, signalEntry: real, risk: real, openTime: int, signalTime: int,
    openBar: nat, nativeOpenBar: nat, fillTiming: FillTiming,
    movedToBe: bool, pendingBe: bool, entrySpread: real, entrySlippage: real)

  /** Every position the engine holds has a positive risk unit. */
  type Position = p: PositionRecord | p.risk > 0.0
    witness PositionRecord(Buy, None, None, None, None, 0.0, 0.0, 1.0, 0, 0, 0, 0, NextBarOpen, false, false, 0.0, 0.0)

  // ---------- execution costs ----------

  datatype FillEvent = EntryFill | ExitFill

  /** What a cost hook sees of the position: only side and target at entry, all of it at exit. */
  datatype PositionView = Template(side: Side, tp: Option<real>) | Held(position: Position)

  datatype CostContext = CostContext(
    barIndex: nat, time: int, side: Side, event: FillEvent, price: real, position: PositionView)

  /** Pure cost hooks: spread and slippage are prices, commission and swap are R amounts. */
  datatype Costs = Costs(
    spread: CostContext -> real, slippage: CostContext -> real,
    commission: CostContext -> real, swap: CostContext -> real,
    rolloverUnits: CostContext -> int)

  datatype Fill = Fill(price: real, halfSpread: real, slippage: real)

  // ---------- trades ----------

  datatype CloseReason =
    | StopGap | TargetGap | Stop | Target | StopBeforeTarget
    | StopSameBarTrigger | TargetSameBarTrigger
    | StrategyExit | FridayClose | BreakEven

  predicate EndsWithGap(reason: CloseReason) { reason.StopGap? || reason.TargetGap? }

  /** close_reason.startswith("sl") */
  predicate StartsWithSl(reason: CloseReason) {
    reason.StopGap? || reason.Stop? || reason.StopBeforeTarget? || reason.StopSameBarTrigger?
  }

  datatype TradeRecord = TradeRecord(
    side: Side, openTime: int, signalTime: int, closeTime: int, entry: real, exit: real,
    r: real, reason: CloseReason,
    spreadCostR: real, slippageCostR: real, commissionCostR: real, swapCostR: real,
    feesR: real, totalCostsR: real,
    signalEntry: real, initialSl: Option<real>, initialTp: Option<real>, initialRisk: real,
    openBar: nat, closeBar: nat, durationBars: int, fillTiming: FillTiming, rolloverUnits: int)

  // ---------- configuration and strategy ----------

  datatype Mode = NextBar | OpenBar

  datatype Config = Config(
    mode: Mode, warmupBars: int, maxPositions: int,
    dailyLimit: Option<real>, weeklyLimit: Option<real>,
    useBreakEven: bool, breakEvenTrigger: real, breakEvenOffset: real,
    closeOnFriday: bool, fridayCutoff: int,
    costs: Costs, isoWeekNumber: int -> int)

  /** A strategy as the engine sees it: a signal rule, and optionally a time-exit rule. */
  datatype Strategy = Strategy(
    onBar: (seq<Bar>, nat) -> Option<Signal>,
    hasExitRule: bool,
    shouldExit: (seq<Bar>, nat, Position) -> bool)

  /** The last curve value; the curve of a run is never empty, so the default is never taken by the engine. */
  function LastEquity(equity: seq<real>): real {
    if |equity| == 0 then 0.0 else equity[|equity| - 1]
  }
}
