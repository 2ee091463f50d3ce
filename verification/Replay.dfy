/** Lower-timeframe replay: signals come from the signal frame, fills and management run on the
    execution frame. The schedule is built first, then the execution bars are simulated. */
module Replay {
  import opened Options
  import opened Market
  import opened Positions
  import opened Backtester

  datatype Range = Range(start: nat, end: nat)

  datatype ReplayOrder = ReplayOrder(signal: Signal, signalTime: int, nativeOpenBar: nat, fillTiming: FillTiming)

  datatype Plan = Plan(
    scheduled: map<nat, seq<ReplayOrder>>, exitBars: map<nat, nat>,
    skippedHistory: nat, skippedEntry: nat)

  const EMPTY_PLAN: Plan := Plan(map[], map[], 0, 0)

  datatype Frames = Frames(signal: seq<Bar>, exec: seq<Bar>, ranges: seq<Range>, entryOffset: nat, exitOffset: nat)

  ghost predicate ValidFrames(f: Frames) {
    |f.ranges| == |f.signal| && forall k | 0 <= k < |f.ranges| :: f.ranges[k].end <= |f.exec|
  }

  function OrdersAt(plan: Plan, i: nat): seq<ReplayOrder> {
    if i in plan.scheduled then plan.scheduled[i] else []
  }

  // ---------- mapping signal candles to execution bars ----------

  predicate NonDecreasing(times: seq<int>) {
    forall i | 0 < i < |times| :: times[i - 1] <= times[i]
  }

  /** searchsorted(side="left") by its meaning: the first index, from k on, not below x. */
  function LowerBoundFrom(times: seq<int>, x: int, k: nat): (r: nat)
    requires k <= |times|
    ensures k <= r <= |times|
    ensures forall j | k <= j < r :: times[j] < x
    ensures r < |times| ==> times[r] >= x
    decreases |times| - k
  {
    if k == |times| || times[k] >= x then k else LowerBoundFrom(times, x, k + 1)
  }

  /** Boundary k is the start of candle k; the one past the last candle is one interval later. */
  function Boundary(times: seq<int>, k: nat): int
    requires k <= |times| && |times| > 0
  {
    if k < |times| then times[k] else times[k - 1] + MinPositiveGap(times)
  }

  function ReplayBarRanges(signalTimes: seq<int>, execTimes: seq<int>): (r: Result<seq<Range>, RunError>)
    ensures r.Success? ==>
              |r.value| == |signalTimes| && forall k | 0 <= k < |r.value| :: r.value[k].end <= |execTimes|
  {
    if !NonDecreasing(signalTimes) || !NonDecreasing(execTimes) then
      Failure(ReplayError("Signal and execution timestamps must be increasing"))
    else if MinPositiveGap(signalTimes) <= 0 then
      Failure(ReplayError("Execution replay requires at least two signal bars"))
    else
      Success(seq(|signalTimes|, k requires 0 <= k < |signalTimes| =>
        Range(LowerBoundFrom(execTimes, Boundary(signalTimes, k), 0),
              LowerBoundFrom(execTimes, Boundary(signalTimes, k + 1), 0))))
  }

  // ---------- signal-declared history window ----------

  /** How many execution bars the half-open window [start, end) must hold. */
  function ExpectedBars(start: int, end: int, interval: int): nat
    requires start < end && interval > 0
  {
    (end - start + interval - 1) / interval
  }

  predicate WindowPresent(times: seq<int>, start: int, count: nat, interval: int) {
    var first := LowerBoundFrom(times, start, 0);
    first + count <= |times| && forall k | 0 <= k < count :: times[first + k] == start + k * interval
  }

  function HistoryIsComplete(signal: Signal, execTimes: seq<int>, interval: int): Result<bool, RunError> {
    if signal.historyStart.None? && signal.historyEnd.None? then Success(true)
    else if signal.historyStart.None? || signal.historyEnd.None? then
      Failure(ReplayError("Signals must provide both execution_history_start and execution_history_end"))
    else if signal.historyEnd.value <= signal.historyStart.value then
      Failure(ReplayError("Signal execution history window must have positive duration"))
    else if interval <= 0 then
      Failure(ReplayError("A date range needs a positive frequency"))
    else
      Success(WindowPresent(execTimes, signal.historyStart.value,
                            ExpectedBars(signal.historyStart.value, signal.historyEnd.value, interval), interval))
  }

  /** A weekly boundary may fall before the first tradable bar of the week. */
  predicate WeeklyOpenDelay(expected: int, actual: int, signalInterval: int) {
    && signalInterval >= 6 * DAY
    && WeekdayOf(expected) >= 5
    && 0 < actual - expected <= 3 * DAY
    && (WeekdayOf(actual) == 6 || WeekdayOf(actual) == 0)
  }

  // ---------- trigger search ----------

  predicate Touches(trigger: Trigger, entry: real, b: Bar) {
    match trigger
    case PriceAtOrAbove => b.high >= entry
    case PriceAtOrBelow => b.low <= entry
    case PriceTouched => b.low <= entry && b.high >= entry
    case UnsupportedTrigger(_) => false
  }

  function FirstTouch(bars: seq<Bar>, signal: Signal, lo: nat, hi: nat): (r: Option<nat>)
    requires lo <= hi <= |bars|
    ensures r.Some? ==> lo <= r.value < hi && Touches(signal.trigger, signal.entry, bars[r.value])
    ensures forall k | lo <= k < (if r.Some? then r.value else hi) :: !Touches(signal.trigger, signal.entry, bars[k])
    decreases hi - lo
  {
    if lo == hi then None
    else if Touches(signal.trigger, signal.entry, bars[lo]) then Some(lo)
    else FirstTouch(bars, signal, lo + 1, hi)
  }

  // ---------- scheduling ----------

  function NoteExit(f: Frames, n: nat, plan: Plan): Plan
    requires ValidFrames(f) && n < |f.signal|
  {
    var range := f.ranges[n];
    if n + 1 < |f.signal| && range.end - range.start > f.exitOffset
    then plan.(exitBars := plan.exitBars[range.end - 1 - f.exitOffset := n])
    else plan
  }

  function AddOrder(plan: Plan, fillBar: nat, order: ReplayOrder): Plan {
    plan.(scheduled := plan.scheduled[fillBar := OrdersAt(plan, fillBar) + [order]])
  }

  /** Where a signal of candle n with a complete history goes. */
  function PlaceSignal(f: Frames, cfg: Config, n: nat, signal: Signal, plan: Plan): Result<Plan, RunError>
    requires ValidFrames(f) && n < |f.signal|
  {
    var target := if cfg.mode.OpenBar? then n else n + 1;
    if target >= |f.ranges| then Success(plan)
    else
      var first, end := f.ranges[target].start + f.entryOffset, f.ranges[target].end;
      if first >= end then Success(plan)
      else if cfg.mode.NextBar? then
        var expected := f.signal[target].time + f.entryOffset * MinPositiveGap(TimesOf(f.exec));
        if f.exec[first].time != expected
           && !WeeklyOpenDelay(expected, f.exec[first].time, MinPositiveGap(TimesOf(f.signal)))
        then Success(plan.(skippedEntry := plan.skippedEntry + 1))
        else Success(AddOrder(plan, first, ReplayOrder(signal, f.signal[n].time, target, NextBarOpen)))
      else if signal.trigger.UnsupportedTrigger? then
        Failure(ReplayError("Unsupported entry_trigger: " + signal.trigger.name))
      else
        match FirstTouch(f.exec, signal, first, end)
        case None => Success(plan)
        case Some(bar) =>
          Success(AddOrder(plan, bar, ReplayOrder(signal, f.signal[n].time, target, SameBarTrigger)))
  }

  function PlanOne(f: Frames, cfg: Config, s: Strategy, n: nat, plan: Plan): Result<Plan, RunError>
    requires ValidFrames(f) && n < |f.signal|
  {
    var noted := NoteExit(f, n, plan);
    match s.onBar(f.signal, n)
    case None => Success(noted)
    case Some(signal) =>
      match HistoryIsComplete(signal, TimesOf(f.exec), MinPositiveGap(TimesOf(f.exec)))
      case Failure(e) => Failure(e)
      case Success(complete) =>
        if !complete then Success(noted.(skippedHistory := noted.skippedHistory + 1))
        else PlaceSignal(f, cfg, n, signal, noted)
  }

  function PlanUpTo(f: Frames, cfg: Config, s: Strategy, hi: nat): Result<Plan, RunError>
    requires ValidFrames(f) && hi <= |f.signal|
  {
    if hi == 0 || hi <= cfg.warmupBars then Success(EMPTY_PLAN)
    else
      match PlanUpTo(f, cfg, s, hi - 1)
      case Failure(e) => Failure(e)
      case Success(plan) => PlanOne(f, cfg, s, hi - 1, plan)
  }

  // ---------- simulation ----------

  /** One scheduled order on bar i of the execution frame. */
  function OpenOrder(cfg: Config, bar: Bar, i: nat, o: ReplayOrder, b: Book): Book {
    if !CanOpen(b, 0, cfg) then b
    else
      var raw := if cfg.mode.OpenBar? then o.signal.entry else bar.open;
      match MakePosition(o.signal, raw, i, bar.time, cfg.costs, o.fillTiming)
      case None => b
      case Some(p) => b.(open := b.open + [p.(signalTime := o.signalTime, nativeOpenBar := o.nativeOpenBar)])
  }

  function OpenOrders(cfg: Config, bar: Bar, i: nat, orders: seq<ReplayOrder>, b: Book): Book {
    if |orders| == 0 then b
    else OpenOrder(cfg, bar, i, orders[|orders| - 1], OpenOrders(cfg, bar, i, orders[..|orders| - 1], b))
  }

  /** Calendar roll with the (ISO year, week) label, then the scheduled fills. */
  function ReplayOpened(f: Frames, cfg: Config, plan: Plan, i: nat, b: Book): Book
    requires i < |f.exec|
  {
    var bar := f.exec[i];
    var rolled := RollCalendar(b, DayOf(bar.time), WeekOf(bar.time));
    var orders := if FridayCloseState(cfg, f.exec, i).afterCutoff then [] else OrdersAt(plan, i);
    OpenOrders(cfg, bar, i, orders, rolled)
  }

  function ReplayView(f: Frames, cfg: Config, s: Strategy, plan: Plan, i: nat): BarView
    requires i < |f.exec|
  {
    BarView(i, f.exec[i], cfg, s, f.signal,
            if i in plan.exitBars then Some(plan.exitBars[i]) else None,
            FridayCloseState(cfg, f.exec, i).closeBar)
  }

  function ReplayStep(f: Frames, cfg: Config, s: Strategy, plan: Plan, i: nat, b: Book): Book
    requires i < |f.exec|
  {
    ManageBook(ReplayView(f, cfg, s, plan, i), ReplayOpened(f, cfg, plan, i, b))
  }

  function ReplayRun(f: Frames, cfg: Config, s: Strategy, plan: Plan, hi: nat): Book
    requires hi <= |f.exec|
  {
    if hi == 0 then EMPTY_BOOK
    else ReplayStep(f, cfg, s, plan, hi - 1, ReplayRun(f, cfg, s, plan, hi - 1))
  }

  /** The whole replay: every rejected input, the schedule, then the simulation. */
  function ReplayOutcome(
      cfg: Config, s: Strategy, signal: seq<Bar>, exec: seq<Bar>, entryOffset: int, exitOffset: int)
    : Result<Outcome, RunError>
  {
    if cfg.warmupBars < 0 then Failure(WarmupNegative)
    else if cfg.maxPositions < 1 then Failure(NoPositionAllowed)
    else if entryOffset < 0 || exitOffset < 0 then
      Failure(ReplayError("Replay entry/exit bar offsets must be non-negative"))
    else
      match ReplayBarRanges(TimesOf(signal), TimesOf(exec))
      case Failure(e) => Failure(e)
      case Success(ranges) =>
        if !exists k | 0 <= k < |ranges| :: ranges[k].end > ranges[k].start then
          Failure(ReplayError("Execution replay data does not overlap signal data"))
        else
          var f := Frames(signal, exec, ranges, entryOffset, exitOffset);
          match PlanUpTo(f, cfg, s, |signal|)
          case Failure(e) => Failure(e)
          case Success(plan) =>
            var end := ReplayRun(f, cfg, s, plan, |exec|);
            Success(Outcome(end.trades, end.equity))
  }

  // ---------- the loops ----------

  method OpenScheduled(cfg: Config, bar: Bar, i: nat, orders: seq<ReplayOrder>, b: Book) returns (r: Book)
    ensures r == OpenOrders(cfg, bar, i, orders, b)
  {
    r := b;
    for k := 0 to |orders|
      invariant r == OpenOrders(cfg, bar, i, orders[..k], b)
    {
      assert orders[..k + 1][..k] == orders[..k];
      if CanOpen(r, 0, cfg) {
        var raw := if cfg.mode.OpenBar? then orders[k].signal.entry else bar.open;
        var made := MakePosition(orders[k].signal, raw, i, bar.time, cfg.costs, orders[k].fillTiming);
        if made.Some? {
          var p := made.value.(signalTime := orders[k].signalTime, nativeOpenBar := orders[k].nativeOpenBar);
          r := r.(open := r.open + [p]);
        }
      }
    }
    assert orders[..|orders|] == orders;
  }

  method Schedule(f: Frames, cfg: Config, s: Strategy) returns (r: Result<Plan, RunError>)
    requires ValidFrames(f) && cfg.warmupBars >= 0
    ensures r == PlanUpTo(f, cfg, s, |f.signal|)
  {
    hide PlanOne;
    var plan := EMPTY_PLAN;
    var n := cfg.warmupBars;
    while n < |f.signal|
      invariant cfg.warmupBars <= n
      invariant n <= |f.signal| ==> PlanUpTo(f, cfg, s, n) == Success(plan)
      invariant |f.signal| < n ==> n == cfg.warmupBars && plan == EMPTY_PLAN
    {
      var planned := PlanOne(f, cfg, s, n, plan);
      if planned.Failure? {
        FailuresPersist(f, cfg, s, n + 1, |f.signal|);
        return planned;
      }
      plan := planned.value;
      n := n + 1;
    }
    return Success(plan);
  }

  lemma {:induction false} FailuresPersist(f: Frames, cfg: Config, s: Strategy, lo: nat, hi: nat)
    requires ValidFrames(f) && lo <= hi <= |f.signal| && PlanUpTo(f, cfg, s, lo).Failure?
    ensures PlanUpTo(f, cfg, s, hi) == PlanUpTo(f, cfg, s, lo)
  {
    if lo < hi {
      FailuresPersist(f, cfg, s, lo, hi - 1);
    }
  }

  method Simulate(f: Frames, cfg: Config, s: Strategy, plan: Plan) returns (b: Book)
    ensures b == ReplayRun(f, cfg, s, plan, |f.exec|)
  {
    b := EMPTY_BOOK;
    for i := 0 to |f.exec|
      invariant b == ReplayRun(f, cfg, s, plan, i)
    {
      b := SimulateBar(f, cfg, s, plan, i, b);
    }
  }

  method SimulateBar(f: Frames, cfg: Config, s: Strategy, plan: Plan, i: nat, b: Book) returns (r: Book)
    requires i < |f.exec|
    ensures r == ReplayStep(f, cfg, s, plan, i, b)
  {
    var bar := f.exec[i];
    var friday := FridayCloseState(cfg, f.exec, i);
    r := b;
    if r.day != Some(DayOf(bar.time)) {
      r := r.(day := Some(DayOf(bar.time)), dailyR := 0.0);
    }
    if r.week != Some(WeekOf(bar.time)) {
      r := r.(week := Some(WeekOf(bar.time)), weeklyR := 0.0);
    }
    r := OpenScheduled(cfg, bar, i, if friday.afterCutoff then [] else OrdersAt(plan, i), r);
    assert r == ReplayOpened(f, cfg, plan, i, b);
    r := ManageOpenPositions(ReplayView(f, cfg, s, plan, i), r);
  }

  method RunBacktestReplay(
      cfg: Config, s: Strategy, signal: seq<Bar>, exec: seq<Bar>, entryOffset: int, exitOffset: int)
    returns (r: Result<Outcome, RunError>)
    ensures r == ReplayOutcome(cfg, s, signal, exec, entryOffset, exitOffset)
  {
    hide PlanUpTo, ReplayRun;
    if cfg.warmupBars < 0 {
      return Failure(WarmupNegative);
    }
    if cfg.maxPositions < 1 {
      return Failure(NoPositionAllowed);
    }
    if entryOffset < 0 || exitOffset < 0 {
      return Failure(ReplayError("Replay entry/exit bar offsets must be non-negative"));
    }
    var ranges := ReplayBarRanges(TimesOf(signal), TimesOf(exec));
    if ranges.Failure? {
      return Failure(ranges.error);
    }
    if !exists k | 0 <= k < |ranges.value| :: ranges.value[k].end > ranges.value[k].start {
      return Failure(ReplayError("Execution replay data does not overlap signal data"));
    }
    var f := Frames(signal, exec, ranges.value, entryOffset, exitOffset);
    var plan := Schedule(f, cfg, s);
    if plan.Failure? {
      return Failure(plan.error);
    }
    var end := Simulate(f, cfg, s, plan.value);
    return Success(Outcome(end.trades, end.equity));
  }
}
