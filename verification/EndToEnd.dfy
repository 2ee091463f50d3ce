/** The engine theorems applied to the concrete strategies, and the limit of the replay refinement. */
module EndToEnd {
  import opened Options
  import opened Market
  import opened Positions
  import opened Backtester
  import opened Precompute
  import opened Replay
  import opened ReplayRefinement
  import opened BookInvariants
  import opened MeanReversion
  import opened ReturnFilter
  import opened TickPaths
  import opened FilteredStrategies

  // ---------- mean reversion in both loops ----------

  /** Every fade is triggered by a touch of its own bar and names no history window. */
  lemma MeanReversionIsComparable(cfg: Config, prm: Parameters, bars: seq<Bar>)
    requires ValidParameters(prm)
    ensures Comparable(cfg, StrategyOf(prm), bars)
  {
    var s := StrategyOf(prm);
    forall i: nat | i < |bars| && s.onBar(bars, i).Some?
      ensures var signal := s.onBar(bars, i).value;
              signal.historyStart.None? && signal.historyEnd.None? && Touches(signal.trigger, signal.entry, bars[i])
    {
      hide Midpoint, StopRisk, MaxHigh, MinLow, ComputeAtr;
    }
  }

  lemma FilteredIsComparable(cfg: Config, prm: Parameters, filter: FilterSettings, bars: seq<Bar>)
    requires ValidParameters(prm)
    ensures Comparable(cfg, FilteredStrategyOf(prm, filter), bars)
  {
    hide SignalAt, SideColumn, Touches;
    var s, base := FilteredStrategyOf(prm, filter), StrategyOf(prm);
    MeanReversionIsComparable(cfg, prm, bars);
    forall i: nat | i < |bars| && s.onBar(bars, i).Some?
      ensures s.onBar(bars, i) == base.onBar(bars, i)
    {}
  }

  /** A replay of either mean-reversion strategy on its own frame is its native backtest. */
  lemma {:induction false} MeanReversionReplayIsNative(cfg: Config, prm: Parameters, filter: FilterSettings, bars: seq<Bar>)
    requires ValidParameters(prm) && |bars| >= 2 && IncreasingTimes(bars)
    requires FridaysEndFills(cfg, bars) && ValidSettings(cfg) && AgreeableLimits(cfg, bars)
    ensures ReplayIsNative(cfg, StrategyOf(prm), bars) && ReplayIsNative(cfg, FilteredStrategyOf(prm, filter), bars)
  {
    hide ReplayIsNative, Comparable, StrategyOf, FilteredStrategyOf, FridayCloseState;
    MeanReversionIsComparable(cfg, prm, bars);
    FilteredIsComparable(cfg, prm, filter, bars);
    ReplayRefinesNative(cfg, StrategyOf(prm), bars);
    ReplayRefinesNative(cfg, FilteredStrategyOf(prm, filter), bars);
  }

  // ---------- mean reversion against every price path ----------

  /** A break-even move goes no further than the excursion that arms it. */
  predicate MoveWithinTrigger(cfg: Config) { cfg.useBreakEven ==> cfg.breakEvenOffset <= cfg.breakEvenTrigger }

  /** Both strategies stop on the far side of the range and aim inside it, wherever the next bar opens. */
  lemma MeanReversionOrdersAreOrdered(cfg: Config, prm: Parameters, filter: FilterSettings, bars: seq<Bar>)
    requires ValidParameters(prm) && prm.atrMultiplier > 0.0 && MoveWithinTrigger(cfg)
    ensures OrderedSignals(cfg, StrategyOf(prm), bars) && OrderedSignals(cfg, FilteredStrategyOf(prm, filter), bars)
  {
    hide SignalAt, SideColumn, MakePosition, Ordered;
    forall i | 0 <= i < |bars| - 1 && StrategyOf(prm).onBar(bars, i).Some?
      ensures var made := MakePosition(StrategyOf(prm).onBar(bars, i).value, bars[i + 1].open, i + 1, bars[i + 1].time, cfg.costs, NextBarOpen);
              made.Some? ==> Ordered(made.value, cfg)
    {
      SignalFadesTheBoundary(prm, bars, i);
      FadeIsOrdered(cfg, StrategyOf(prm).onBar(bars, i).value, bars[i + 1], i + 1);
    }
    var filtered := FilteredStrategyOf(prm, filter);
    forall i | 0 <= i < |bars| - 1 && filtered.onBar(bars, i).Some?
      ensures var made := MakePosition(filtered.onBar(bars, i).value, bars[i + 1].open, i + 1, bars[i + 1].time, cfg.costs, NextBarOpen);
              made.Some? ==> Ordered(made.value, cfg)
    {
      assert filtered.onBar(bars, i) == StrategyOf(prm).onBar(bars, i);
    }
    assert OrderedSignals(cfg, filtered, bars);
  }

  lemma FadeIsOrdered(cfg: Config, signal: Signal, bar: Bar, i: nat)
    requires signal.stop.StopLevel? && signal.tp.Some? && MoveWithinTrigger(cfg)
    requires if signal.side.Buy? then signal.stop.level < signal.tp.value else signal.tp.value < signal.stop.level
    ensures var made := MakePosition(signal, bar.open, i, bar.time, cfg.costs, NextBarOpen);
            made.Some? ==> Ordered(made.value, cfg)
  {}

  /** The conservative bound, end to end: in bar-close mode without loss limits the backtest of either
      mean-reversion strategy is a lower bound for every price path through its bars. */
  lemma MeanReversionIsConservative(
      cfg: Config, prm: Parameters, filter: FilterSettings, bars: seq<Bar>, paths: seq<seq<real>>, improve: bool)
    requires ValidParameters(prm) && prm.atrMultiplier > 0.0 && MoveWithinTrigger(cfg)
    requires PathsOf(paths, bars) && cfg.mode.NextBar? && ValidSettings(cfg)
    requires cfg.dailyLimit.None? && cfg.weeklyLimit.None? && ConstantPriceCosts(cfg.costs)
    ensures ConservativeFor(cfg, StrategyOf(prm), bars, paths, improve)
    ensures ConservativeFor(cfg, FilteredStrategyOf(prm, filter), bars, paths, improve)
  {
    hide NativeRun, TickRun, OrderedSignals, StrategyOf, FilteredStrategyOf, PathsOf, ConstantPriceCosts;
    MeanReversionOrdersAreOrdered(cfg, prm, filter, bars);
    ModelledResultIsALowerBound(cfg, StrategyOf(prm), bars, paths, improve);
    ModelledResultIsALowerBound(cfg, FilteredStrategyOf(prm, filter), bars, paths, improve);
  }

  /** The same trades on the same bars, none worse than modelled, and a curve nowhere below the modelled one. */
  ghost predicate ConservativeFor(cfg: Config, s: Strategy, bars: seq<Bar>, paths: seq<seq<real>>, improve: bool)
    requires |bars| == |paths|
  {
    var tick := TickRun(cfg, s, bars, paths, improve, |bars|).book;
    var model := NativeRun(cfg, s, bars, |bars|).book;
    && |tick.trades| == |model.trades| && |tick.equity| == |model.equity|
    && (forall k | 0 <= k < |model.trades| ::
          tick.trades[k].openBar == model.trades[k].openBar && tick.trades[k].closeBar == model.trades[k].closeBar
          && tick.trades[k].r >= model.trades[k].r)
    && (forall k | 0 <= k < |model.equity| :: tick.equity[k] >= model.equity[k])
    && SumOfR(tick.trades) >= SumOfR(model.trades)
  }

  // ---------- exactly which loss limits can separate the loops in bar-close mode ----------

  /** The setting of the refinement, but for the limits, and different results. */
  ghost predicate Separates(cfg: Config, s: Strategy, bars: seq<Bar>) {
    && cfg.mode.NextBar? && ValidSettings(cfg) && SilentOnFridays(cfg, s, bars)
    && |bars| >= 2 && IncreasingTimes(bars) && Comparable(cfg, s, bars) && !ReplayIsNative(cfg, s, bars)
  }

  predicate IsZero(limit: Option<real>) { limit.Some? && limit.value == 0.0 }

  /** Some limit is set, and none forbids every trade from the start. */
  predicate CanSeparate(daily: Option<real>, weekly: Option<real>) {
    (daily.Some? || weekly.Some?) && !IsZero(daily) && !IsZero(weekly)
  }

  // ---------- a limit of zero: neither loop ever trades ----------

  predicate Untraded(b: Book) {
    b.open == [] && b.trades == [] && b.equity == [0.0] && b.dailyR == 0.0 && b.weeklyR == 0.0
  }

  lemma ZeroLimitBlocks(cfg: Config, b: Book, pending: nat)
    requires (IsZero(cfg.dailyLimit) || IsZero(cfg.weeklyLimit)) && Untraded(b)
    ensures !CanOpen(b, pending, cfg)
  {}

  lemma ManagesNone(v: BarView, b: Book)
    requires b.open == []
    ensures ManageBook(v, b) == b
  {
    assert b.(open := []) == b;
  }

  lemma {:induction false} NativeNeverTrades(cfg: Config, s: Strategy, bars: seq<Bar>, hi: nat)
    requires hi <= |bars| && cfg.mode.NextBar? && (IsZero(cfg.dailyLimit) || IsZero(cfg.weeklyLimit))
    ensures Untraded(NativeRun(cfg, s, bars, hi).book) && NativeRun(cfg, s, bars, hi).pending == []
  {
    hide CanOpen, ManageBook, FridayCloseState;
    if !(hi == 0 || hi <= cfg.warmupBars) {
      NativeNeverTrades(cfg, s, bars, hi - 1);
      var st := NativeRun(cfg, s, bars, hi - 1);
      var o := NativeOpened(cfg, s, bars, hi - 1, st);
      assert Untraded(o.book) && o.pending == [];
      ManagesNone(NativeView(cfg, s, bars, hi - 1), o.book);
      ZeroLimitBlocks(cfg, o.book, 0);
    }
  }

  lemma {:induction false} RefusedOrders(cfg: Config, bar: Bar, i: nat, orders: seq<ReplayOrder>, b: Book)
    requires !CanOpen(b, 0, cfg)
    ensures OpenOrders(cfg, bar, i, orders, b) == b
  {
    if |orders| > 0 {
      RefusedOrders(cfg, bar, i, orders[..|orders| - 1], b);
    }
  }

  lemma {:induction false} ReplayNeverTrades(f: Frames, cfg: Config, s: Strategy, plan: Plan, hi: nat)
    requires hi <= |f.exec| && (IsZero(cfg.dailyLimit) || IsZero(cfg.weeklyLimit))
    ensures Untraded(ReplayRun(f, cfg, s, plan, hi))
  {
    hide CanOpen, ManageBook, FridayCloseState, OpenOrders;
    if hi > 0 {
      ReplayNeverTrades(f, cfg, s, plan, hi - 1);
      var bar := f.exec[hi - 1];
      var rolled := RollCalendar(ReplayRun(f, cfg, s, plan, hi - 1), DayOf(bar.time), WeekOf(bar.time));
      ZeroLimitBlocks(cfg, rolled, 0);
      RefusedOrders(cfg, bar, hi - 1, [], rolled);
      RefusedOrders(cfg, bar, hi - 1, OrdersAt(plan, hi - 1), rolled);
      ManagesNone(ReplayView(f, cfg, s, plan, hi - 1), rolled);
    }
  }

  lemma ZeroLimitsAgree(cfg: Config, s: Strategy, bars: seq<Bar>)
    requires IsZero(cfg.dailyLimit) || IsZero(cfg.weeklyLimit)
    ensures !Separates(cfg, s, bars)
  {
    hide Comparable, PlanUpTo, NativeRun, ReplayRun, PlanMatches, ReplayBarRanges;
    if cfg.mode.NextBar? && ValidSettings(cfg) && |bars| >= 2 && IncreasingTimes(bars) && Comparable(cfg, s, bars) {
      SameFrameMapsToItself(bars);
      assert IdentityRanges(|bars|)[0].end > IdentityRanges(|bars|)[0].start;
      PlanUpToMatches(cfg, s, bars, |bars|);
      NativeNeverTrades(cfg, s, bars, |bars|);
      ReplayNeverTrades(SameFrames(bars), cfg, s, PlanUpTo(SameFrames(bars), cfg, s, |bars|).value, |bars|);
    }
  }

  // ---------- any other limits: three bars that separate the loops ----------

  function SizeOf(limit: Option<real>): real { if limit.Some? then AbsR(limit.value) else 0.0 }

  /** What one losing trade of the construction costs: one R at the stop, and fees beyond both limits. */
  function LossFor(daily: Option<real>, weekly: Option<real>): real { 1.0 + SizeOf(daily) + SizeOf(weekly) }

  function FeeCosts(fee: real): Costs { Costs(c => 0.0, c => 0.0, c => fee, c => 0.0, c => 0) }

  /** One position, bar-close signals, and the given limits. */
  function LimitedConfig(daily: Option<real>, weekly: Option<real>): Config {
    Config(NextBar, 0, 1, daily, weekly, false, 0.0, 0.0, false, 0, FeeCosts(LossFor(daily, weekly) - 1.0), w => w)
  }

  function DemoSignal(): Signal { Signal(Buy, 10.0, StopDistance(1.0), None, PriceTouched, None, None) }

  /** Buys every bar with a stop one below the fill. */
  function AlwaysBuy(): Strategy {
    Strategy((bars, i) => Some(DemoSignal()), false, (bars, i, p) => false)
  }

  /** Two bars of a Sunday and one of the Monday after it; each falls through the stop. */
  function FallingBars(): seq<Bar> {
    [Bar(3 * DAY, 10.0, 10.0, 8.0, 9.0), Bar(3 * DAY + 3600, 10.0, 10.0, 8.0, 9.0), Bar(4 * DAY, 10.0, 10.0, 8.0, 9.0)]
  }

  /** A fill at the open of any of these bars is stopped out on the same bar for the whole loss. */
  lemma FillIsStopped(daily: Option<real>, weekly: Option<real>, v: BarView, p: Position)
    requires v.cfg == LimitedConfig(daily, weekly) && v.bar.open == 10.0 && v.bar.low == 8.0 && v.bar.high == 10.0
    requires p.side.Buy? && p.sl == Some(9.0) && p.tp.None? && p.entry == 10.0 && p.risk == 1.0
    requires !p.pendingBe && p.fillTiming.NextBarOpen?
    ensures Manage(v, p).Closes? && Manage(v, p).trade.r == -LossFor(daily, weekly)
  {
    hide LossFor;
  }

  function Filled(i: nat, time: int, signalTime: int): Position {
    PositionRecord(Buy, None, Some(9.0), Some(9.0), None, 10.0, 10.0, 1.0, time, signalTime,
                   i, i, NextBarOpen, false, false, 0.0, 0.0)
  }

  lemma MakesFilled(i: nat, time: int, fee: real)
    ensures MakePosition(DemoSignal(), 10.0, i, time, FeeCosts(fee), NextBarOpen) == Some(Filled(i, time, time))
  {}

  /** No position, so many trades, and so much realized on the current day and in the current week. */
  predicate Flat(b: Book, day: int, week: int, trades: nat, realized: real) {
    && b.open == [] && b.day == Some(day) && b.week == Some(week)
    && |b.trades| == trades && b.dailyR == realized && b.weeklyR == realized
  }

  lemma ManagesOne(v: BarView, p: Position, b: Book, day: int, week: int, n: nat, loss: real)
    requires b.open == [p] && Flat(b.(open := []), day, week, n, 0.0)
    requires Manage(v, p).Closes? && Manage(v, p).trade.r == -loss
    ensures Flat(ManageBook(v, b), day, week, n + 1, -loss)
  {
    hide Manage;
    assert [p][..0] == [];
    assert ManageAll(v, [p][..0], b.(open := [])) == b.(open := []);
  }

  lemma OneDue(o: Order)
    ensures Due([o], o.fillBar) == [o] && NotDue([o], o.fillBar) == []
  {
    assert [o][..0] == [];
  }

  lemma OneFilled(cfg: Config, o: Order, b: Bar, i: nat, fee: real)
    requires o.signal == DemoSignal() && b.open == 10.0 && cfg.costs == FeeCosts(fee)
    ensures FillAll([o], b, i, cfg) == [Filled(i, b.time, o.signalTime)]
  {
    assert [o][..0] == [];
    MakesFilled(i, b.time, fee);
  }

  /** Bar 0: nothing to fill; the first signal is queued. */
  lemma NativeStart(daily: Option<real>, weekly: Option<real>)
    requires CanSeparate(daily, weekly)
    ensures var st := NativeRun(LimitedConfig(daily, weekly), AlwaysBuy(), FallingBars(), 1);
            Flat(st.book, 3, 0, 0, 0.0) && st.pending == [Order(DemoSignal(), 3 * DAY, 1)]
  {
    hide ManageBook, LossFor;
    var cfg, s, bars := LimitedConfig(daily, weekly), AlwaysBuy(), FallingBars();
    var empty := NativeState(EMPTY_BOOK, []);
    var o := NativeOpened(cfg, s, bars, 0, empty);
    assert o.book.open == [] && o.pending == [];
    ManagesNone(NativeView(cfg, s, bars, 0), o.book);
    assert NativeRun(cfg, s, bars, 1) == NativeStep(cfg, s, bars, 0, empty);
  }

  /** Bar 1: the order fills and loses beyond every limit. */
  lemma NativeFill(daily: Option<real>, weekly: Option<real>, st: NativeState)
    requires st.pending == [Order(DemoSignal(), 3 * DAY, 1)] && Flat(st.book, 3, 0, 0, 0.0)
    ensures var m := NativeManaged(LimitedConfig(daily, weekly), AlwaysBuy(), FallingBars(), 1, st);
            Flat(m.book, 3, 0, 1, -LossFor(daily, weekly)) && m.pending == []
  {
    hide MakePosition, Manage, FillAll, ManageBook, Due, NotDue, LossFor;
    var cfg, s, bars := LimitedConfig(daily, weekly), AlwaysBuy(), FallingBars();
    var o := st.pending[0];
    OneDue(o);
    OneFilled(cfg, o, bars[1], 1, LossFor(daily, weekly) - 1.0);
    var filled := NativeOpened(cfg, s, bars, 1, st);
    var p := Filled(1, bars[1].time, 3 * DAY);
    assert filled.book.open == [p];
    var v := NativeView(cfg, s, bars, 1);
    FillIsStopped(daily, weekly, v, p);
    ManagesOne(v, p, filled.book, 3, 0, 0, LossFor(daily, weekly));
  }

  lemma LossHitsALimit(daily: Option<real>, weekly: Option<real>, b: Book)
    requires CanSeparate(daily, weekly) && b.dailyR == b.weeklyR == -LossFor(daily, weekly)
    ensures !CanOpen(b, 0, LimitedConfig(daily, weekly))
  {}

  /** Bar 2: nothing was queued, nothing opens. */
  lemma NativeIdle(daily: Option<real>, weekly: Option<real>, st: NativeState)
    requires st.book.open == [] && st.pending == []
    ensures NativeStep(LimitedConfig(daily, weekly), AlwaysBuy(), FallingBars(), 2, st).book.trades == st.book.trades
  {
    hide ManageBook, LossFor, CanOpen;
    var cfg, s, bars := LimitedConfig(daily, weekly), AlwaysBuy(), FallingBars();
    var o := NativeOpened(cfg, s, bars, 2, st);
    assert o.book.open == [] && o.book.trades == st.book.trades;
    ManagesNone(NativeView(cfg, s, bars, 2), o.book);
  }

  /** Natively the loss reaches the limit before the second signal: nothing is queued for Monday, and the
      run ends with one trade. */
  lemma NativeTradesOnce(daily: Option<real>, weekly: Option<real>)
    requires CanSeparate(daily, weekly)
    ensures |NativeRun(LimitedConfig(daily, weekly), AlwaysBuy(), FallingBars(), 3).book.trades| == 1
  {
    hide ManageBook, NativeManaged, LossFor, CanOpen;
    var cfg, s, bars := LimitedConfig(daily, weekly), AlwaysBuy(), FallingBars();
    NativeStart(daily, weekly);
    var one := NativeRun(cfg, s, bars, 1);
    NativeFill(daily, weekly, one);
    var managed := NativeManaged(cfg, s, bars, 1, one);
    LossHitsALimit(daily, weekly, managed.book);
    var two := NativeRun(cfg, s, bars, 2);
    assert two == NativeStep(cfg, s, bars, 1, one) == managed;
    assert NativeRun(cfg, s, bars, 3) == NativeStep(cfg, s, bars, 2, two);
    NativeIdle(daily, weekly, two);
  }

  // ---------- the same bars in the replay ----------

  lemma ScheduledFill(cfg: Config, bar: Bar, i: nat, o: ReplayOrder, b: Book, fee: real)
    requires o.signal == DemoSignal() && o.fillTiming.NextBarOpen? && bar.open == 10.0 && o.nativeOpenBar == i
    requires b.open == [] && CanOpen(b, 0, cfg) && cfg.mode.NextBar? && cfg.costs == FeeCosts(fee)
    ensures OpenOrders(cfg, bar, i, [o], b) == b.(open := [Filled(i, bar.time, o.signalTime)])
  {
    assert [o][..0] == [];
    MakesFilled(i, bar.time, fee);
  }

  /** A replay bar whose day and week are fresh, or untouched by losses, fills and loses. */
  lemma ReplayFill(daily: Option<real>, weekly: Option<real>, plan: Plan, i: nat, b: Book, n: nat, realized: real)
    requires CanSeparate(daily, weekly) && (i == 1 || i == 2)
    requires PlanMatches(plan, LimitedConfig(daily, weekly), AlwaysBuy(), FallingBars(), 3)
    requires Flat(b, 3, 0, n, realized) && (i == 1 ==> realized == 0.0)
    ensures var r := ReplayStep(SameFrames(FallingBars()), LimitedConfig(daily, weekly), AlwaysBuy(), plan, i, b);
            Flat(r, i + 2, i - 1, n + 1, -LossFor(daily, weekly))
  {
    hide MakePosition, Manage, OpenOrders, ManageBook, OrdersAt, LossFor;
    var cfg, s, bars := LimitedConfig(daily, weekly), AlwaysBuy(), FallingBars();
    var f, bar := SameFrames(bars), bars[i];
    var o := ReplayOrder(DemoSignal(), bars[i - 1].time, i, NextBarOpen);
    assert OrdersAt(plan, i) == [o];
    var rolled := RollCalendar(b, DayOf(bar.time), WeekOf(bar.time));
    assert Flat(rolled, i + 2, i - 1, n, 0.0);
    assert CanOpen(rolled, 0, cfg);
    ScheduledFill(cfg, bar, i, o, rolled, LossFor(daily, weekly) - 1.0);
    var p := Filled(i, bar.time, bars[i - 1].time);
    var v := ReplayView(f, cfg, s, plan, i);
    FillIsStopped(daily, weekly, v, p);
    ManagesOne(v, p, rolled.(open := [p]), i + 2, i - 1, n, LossFor(daily, weekly));
  }

  lemma ReplayStart(daily: Option<real>, weekly: Option<real>, plan: Plan)
    requires PlanMatches(plan, LimitedConfig(daily, weekly), AlwaysBuy(), FallingBars(), 3)
    ensures Flat(ReplayRun(SameFrames(FallingBars()), LimitedConfig(daily, weekly), AlwaysBuy(), plan, 1), 3, 0, 0, 0.0)
  {
    hide ManageBook, OrdersAt, LossFor;
    var cfg, s, bars := LimitedConfig(daily, weekly), AlwaysBuy(), FallingBars();
    var f := SameFrames(bars);
    assert OrdersAt(plan, 0) == [];
    var o := ReplayOpened(f, cfg, plan, 0, EMPTY_BOOK);
    assert o.open == [];
    ManagesNone(ReplayView(f, cfg, s, plan, 0), o);
    assert ReplayRun(f, cfg, s, plan, 0) == EMPTY_BOOK;
  }

  /** The replay checks the limits when it fills, on the Monday, and trades twice. */
  lemma ReplayTradesTwice(daily: Option<real>, weekly: Option<real>, plan: Plan)
    requires CanSeparate(daily, weekly)
    requires PlanMatches(plan, LimitedConfig(daily, weekly), AlwaysBuy(), FallingBars(), 3)
    ensures |ReplayRun(SameFrames(FallingBars()), LimitedConfig(daily, weekly), AlwaysBuy(), plan, 3).trades| == 2
  {
    hide ReplayStep, PlanMatches, LossFor;
    var cfg, s, f := LimitedConfig(daily, weekly), AlwaysBuy(), SameFrames(FallingBars());
    ReplayStart(daily, weekly, plan);
    var one := ReplayRun(f, cfg, s, plan, 1);
    ReplayFill(daily, weekly, plan, 1, one, 0, 0.0);
    var two := ReplayRun(f, cfg, s, plan, 2);
    assert two == ReplayStep(f, cfg, s, plan, 1, one);
    ReplayFill(daily, weekly, plan, 2, two, 1, -LossFor(daily, weekly));
    assert ReplayRun(f, cfg, s, plan, 3) == ReplayStep(f, cfg, s, plan, 2, two);
  }

  /** For any limits that are set and not zero, the three bars separate the loops: one native trade, two
      replay trades. */
  lemma LimitsSeparateTheLoops(daily: Option<real>, weekly: Option<real>)
    requires CanSeparate(daily, weekly)
    ensures Separates(LimitedConfig(daily, weekly), AlwaysBuy(), FallingBars())
  {
    hide NativeRun, ReplayRun, PlanUpTo, PlanMatches, ReplayBarRanges, LossFor;
    var cfg, s, bars := LimitedConfig(daily, weekly), AlwaysBuy(), FallingBars();
    NativeTradesOnce(daily, weekly);
    assert Comparable(cfg, s, bars);
    SameFrameMapsToItself(bars);
    PlanUpToMatches(cfg, s, bars, 3);
    ReplayTradesTwice(daily, weekly, PlanUpTo(SameFrames(bars), cfg, s, 3).value);
    assert IdentityRanges(3)[0].end > IdentityRanges(3)[0].start;
  }

  /** Exactly which limits separate the loops in bar-close mode: some configuration, strategy and bars make
      them differ if and only if a limit is set and no limit is zero. */
  lemma LimitsSeparateExactlyWhen(daily: Option<real>, weekly: Option<real>)
    ensures (exists cfg: Config, s: Strategy, bars: seq<Bar> ::
               cfg.dailyLimit == daily && cfg.weeklyLimit == weekly && Separates(cfg, s, bars))
            <==> CanSeparate(daily, weekly)
  {
    hide NativeRun, ReplayOutcome, Comparable;
    if CanSeparate(daily, weekly) {
      hide Separates;
      LimitsSeparateTheLoops(daily, weekly);
    } else {
      forall cfg: Config, s: Strategy, bars: seq<Bar> | cfg.dailyLimit == daily && cfg.weeklyLimit == weekly
        ensures !Separates(cfg, s, bars)
      {
        OtherLimitsAgree(cfg, s, bars);
      }
    }
  }

  lemma OtherLimitsAgree(cfg: Config, s: Strategy, bars: seq<Bar>)
    requires !CanSeparate(cfg.dailyLimit, cfg.weeklyLimit)
    ensures !Separates(cfg, s, bars)
  {
    hide NativeRun, ReplayOutcome, Comparable;
    if IsZero(cfg.dailyLimit) || IsZero(cfg.weeklyLimit) {
      hide Separates;
      ZeroLimitsAgree(cfg, s, bars);
    } else if cfg.mode.NextBar? && ValidSettings(cfg) && SilentOnFridays(cfg, s, bars) && |bars| >= 2 && IncreasingTimes(bars)
              && Comparable(cfg, s, bars) {
      ReplayRefinesNative(cfg, s, bars);
    }
  }
}
