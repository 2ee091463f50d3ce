/** The bar-close mode is conservative: against every price path the bars allow, first-touch
    execution closes the same trades on the same bars with at least the modelled result. */
module TickPaths {
  import opened Options
  import opened Market
  import opened Positions
  import opened Backtester
  import opened BookInvariants
  import opened NativeInvariants

  // ---------- price paths ----------

  /** A path starts at the open, stays within the range, visits both extremes and ends at the close. */
  ghost predicate PathOf(path: seq<real>, b: Bar) {
    && |path| > 0 && path[0] == b.open && path[|path| - 1] == b.close
    && (forall k | 0 <= k < |path| :: b.low <= path[k] <= b.high)
    && (exists k | 0 <= k < |path| :: path[k] == b.low)
    && (exists k | 0 <= k < |path| :: path[k] == b.high)
  }

  ghost predicate PathsOf(paths: seq<seq<real>>, bars: seq<Bar>) {
    |paths| == |bars| && forall i | 0 <= i < |bars| :: PathOf(paths[i], bars[i])
  }

  // ---------- first-touch execution ----------

  predicate Touched(p: Position, price: real) {
    StopHit(p.side, p.sl, price, price) || TargetHit(p.side, p.tp, price, price)
  }

  function FirstTick(p: Position, path: seq<real>, k: nat): (r: Option<nat>)
    requires k <= |path|
    ensures r.Some? ==> k <= r.value < |path| && Touched(p, path[r.value])
    ensures forall j | k <= j < (if r.Some? then r.value else |path|) :: !Touched(p, path[j])
    decreases |path| - k
  {
    if k == |path| then None
    else if Touched(p, path[k]) then Some(k)
    else FirstTick(p, path, k + 1)
  }

  /** The first level touched is filled at that level; at the opening tick a stop is filled at the
      open, and a target at its level or, with price improvement, at the open. */
  function TickExit(p: Position, path: seq<real>, improve: bool): Option<RawExit> {
    match FirstTick(p, path, 0)
    case None => None
    case Some(k) =>
      if StopHit(p.side, p.sl, path[k], path[k]) then
        Some(if k == 0 then RawExit(path[0], StopGap) else RawExit(p.sl.value, Stop))
      else
        Some(if k == 0 then RawExit(if improve then path[0] else p.tp.value, TargetGap)
             else RawExit(p.tp.value, Target))
  }

  // ---------- the same loop with first-touch exits ----------

  function TickDecision(v: BarView, path: seq<real>, improve: bool, p: Position): Option<RawExit> {
    var protective := TickExit(p, path, improve);
    if protective.Some? then protective
    else if v.exitAt.Some? && v.strategy.hasExitRule
            && v.strategy.shouldExit(v.exitFrame, v.exitAt.value, p.(openBar := p.nativeOpenBar)) then
      Some(RawExit(v.bar.close, StrategyExit))
    else if v.fridayClose then Some(RawExit(v.bar.close, FridayClose))
    else None
  }

  function TickManageOne(v: BarView, path: seq<real>, improve: bool, p0: Position, b: Book): Book {
    var p := ApplyPendingMove(p0, v.cfg.breakEvenOffset);
    match TickDecision(v, path, improve, p)
    case Some(e) =>
      var t := CloseTrade(p, e, v.index, v.bar.time, v.cfg.costs);
      b.(trades := b.trades + [t], equity := b.equity + [LastEquity(b.equity) + t.r],
         dailyR := b.dailyR + t.r, weeklyR := b.weeklyR + t.r)
    case None => b.(open := b.open + [ArmBreakEven(p, v.bar, v.cfg)])
  }

  function TickManageAll(v: BarView, path: seq<real>, improve: bool, ps: seq<Position>, b: Book): Book {
    if |ps| == 0 then b
    else TickManageOne(v, path, improve, ps[|ps| - 1], TickManageAll(v, path, improve, ps[..|ps| - 1], b))
  }

  function TickStep(
      cfg: Config, s: Strategy, bars: seq<Bar>, paths: seq<seq<real>>, improve: bool, i: nat, st: NativeState)
    : NativeState
    requires i < |bars| == |paths|
  {
    var o := NativeOpened(cfg, s, bars, i, st);
    var managed := o.(book := TickManageAll(NativeView(cfg, s, bars, i), paths[i], improve,
                                            o.book.open, o.book.(open := [])));
    NativeQueue(cfg, s, bars, i, managed)
  }

  function TickRun(
      cfg: Config, s: Strategy, bars: seq<Bar>, paths: seq<seq<real>>, improve: bool, hi: nat)
    : NativeState
    requires hi <= |bars| == |paths|
  {
    if hi == 0 || hi <= cfg.warmupBars then NativeState(EMPTY_BOOK, [])
    else TickStep(cfg, s, bars, paths, improve, hi - 1, TickRun(cfg, s, bars, paths, improve, hi - 1))
  }

  // ---------- conditions ----------

  /** The stop lies on the losing side of the target. */
  predicate StopBelowTarget(side: Side, sl: Option<real>, tp: Option<real>) {
    sl.Some? && tp.Some? ==> if side.Buy? then sl.value < tp.value else tp.value < sl.value
  }

  /** ... now and after a break-even move. A move no further than the excursion that arms it stays short
      of a target that this excursion did not reach. */
  predicate Ordered(p: Position, cfg: Config) {
    && p.fillTiming.NextBarOpen?
    && StopBelowTarget(p.side, p.sl, p.tp)
    && (p.pendingBe || (cfg.useBreakEven && cfg.breakEvenOffset > cfg.breakEvenTrigger) ==>
          StopBelowTarget(p.side, Some(BreakEvenStop(p, cfg.breakEvenOffset)), p.tp))
  }

  /** Price costs are constants, and fees do not depend on the price of the exit fill. */
  ghost predicate ConstantPriceCosts(costs: Costs) {
    && (forall c: CostContext, d: CostContext :: costs.spread(c) == costs.spread(d))
    && (forall c: CostContext, d: CostContext :: costs.slippage(c) == costs.slippage(d))
    && (forall c: CostContext, x: real :: costs.commission(c.(price := x)) == costs.commission(c))
    && (forall c: CostContext, x: real :: costs.swap(c.(price := x)) == costs.swap(c))
    && (forall c: CostContext, x: real :: costs.rolloverUnits(c.(price := x)) == costs.rolloverUnits(c))
  }

  /** Every signal, if filled at the next open, gives a position with its stop below its target. */
  predicate OrderedSignals(cfg: Config, s: Strategy, bars: seq<Bar>) {
    forall i | 0 <= i < |bars| - 1 && s.onBar(bars, i).Some? ::
      var made := MakePosition(s.onBar(bars, i).value, bars[i + 1].open, i + 1, bars[i + 1].time, cfg.costs, NextBarOpen);
      made.Some? ==> Ordered(made.value, cfg)
  }

  // ---------- one exit ----------

  predicate AtLeastAsGood(side: Side, better: real, worse: real) {
    if side.Buy? then better >= worse else better <= worse
  }

  /** The tick market exits on a bar exactly when the model does, and never at a worse price. */
  lemma ExitIsConservative(p: Position, b: Bar, i: nat, path: seq<real>, improve: bool)
    requires PathOf(path, b) && p.fillTiming.NextBarOpen? && StopBelowTarget(p.side, p.sl, p.tp)
    ensures ExitForBar(p, b, i).Some? <==> TickExit(p, path, improve).Some?
    ensures ExitForBar(p, b, i).Some? ==>
              AtLeastAsGood(p.side, TickExit(p, path, improve).value.price, ExitForBar(p, b, i).value.price)
  {
    var low :| 0 <= low < |path| && path[low] == b.low;
    var high :| 0 <= high < |path| && path[high] == b.high;
    var first := FirstTick(p, path, 0);
    assert Touched(p, b.open) ==> first == Some(0);
    assert Touched(p, path[low]) || Touched(p, path[high]) <==> first.Some?;
  }

  lemma ResultIsMonotone(p: Position, better: real, worse: real)
    requires AtLeastAsGood(p.side, better, worse)
    ensures ResultR(p, better) >= ResultR(p, worse)
  {
    var x := if p.side.Buy? then better - p.entry else p.entry - better;
    var y := if p.side.Buy? then worse - p.entry else p.entry - worse;
    assert x >= y;
    QuotientIsMonotone(x, y, p.risk);
  }

  // ---------- one trade ----------

  /** The same position closed on the same bar, with at least the result. */
  predicate NoWorse(tick: TradeRecord, model: TradeRecord) {
    tick == model.(exit := tick.exit, r := tick.r, reason := tick.reason) && tick.r >= model.r
  }

  lemma FillsShiftAlike(x: real, y: real, side: Side, costs: Costs, c: CostContext, d: CostContext)
    requires ConstantPriceCosts(costs)
    ensures costs.spread(c) == costs.spread(d) && costs.slippage(c) == costs.slippage(d)
    ensures var tick, model := AdverseFill(x, side, ExitFill, costs, c), AdverseFill(y, side, ExitFill, costs, d);
            tick.price - x == model.price - y
  {}

  lemma CloseIsConservative(p: Position, e: RawExit, m: RawExit, i: nat, time: int, costs: Costs)
    requires ConstantPriceCosts(costs) && AtLeastAsGood(p.side, e.price, m.price)
    ensures NoWorse(CloseTrade(p, e, i, time, costs), CloseTrade(p, m, i, time, costs))
  {
    hide ResultR;
    var c, d := ExitContext(p, e, i, time), ExitContext(p, m, i, time);
    assert c == d.(price := e.price);
    FillsShiftAlike(e.price, m.price, p.side, costs, c, d);
    var tick := AdverseFill(e.price, p.side, ExitFill, costs, c);
    var model := AdverseFill(m.price, p.side, ExitFill, costs, d);
    ResultIsMonotone(p, tick.price, model.price);
  }

  // ---------- one bar ----------

  /** Equal positions and calendar; trades matched one to one, none worse; a curve nowhere below. */
  ghost predicate Dominates(tick: Book, model: Book) {
    && tick.open == model.open && tick.day == model.day && tick.week == model.week
    && |tick.trades| == |model.trades|
    && (forall k | 0 <= k < |model.trades| :: NoWorse(tick.trades[k], model.trades[k]))
    && |tick.equity| == |model.equity|
    && (forall k | 0 <= k < |model.equity| :: tick.equity[k] >= model.equity[k])
  }

  lemma ManageOneIsConservative(
      v: BarView, path: seq<real>, improve: bool, p: Position, tick: Book, model: Book)
    requires PathOf(path, v.bar) && Ordered(p, v.cfg) && ConstantPriceCosts(v.cfg.costs)
    requires Dominates(tick, model)
    ensures Dominates(TickManageOne(v, path, improve, p, tick), ManageOne(v, p, model))
  {
    hide CloseTrade, TickExit, ExitForBar, ConstantPriceCosts, NoWorse, BreakEvenStop;
    var q := ApplyPendingMove(p, v.cfg.breakEvenOffset);
    ExitIsConservative(q, v.bar, v.index, path, improve);
    var e, m := TickDecision(v, path, improve, q), ExitDecision(v, q);
    if m.Some? {
      CloseIsConservative(q, e.value, m.value, v.index, v.bar.time, v.cfg.costs);
      ClosesDominate(tick, model, CloseTrade(q, e.value, v.index, v.bar.time, v.cfg.costs),
                     CloseTrade(q, m.value, v.index, v.bar.time, v.cfg.costs));
    }
  }

  function Recorded(b: Book, t: TradeRecord): Book {
    b.(trades := b.trades + [t], equity := b.equity + [LastEquity(b.equity) + t.r],
       dailyR := b.dailyR + t.r, weeklyR := b.weeklyR + t.r)
  }

  lemma ClosesDominate(tick: Book, model: Book, t: TradeRecord, u: TradeRecord)
    requires Dominates(tick, model) && NoWorse(t, u)
    ensures Dominates(Recorded(tick, t), Recorded(model, u))
  {
    assert t.r >= u.r;
    hide NoWorse;
    assert LastEquity(tick.equity) >= LastEquity(model.equity);
  }

  lemma {:induction false} ManageAllIsConservative(
      v: BarView, path: seq<real>, improve: bool, ps: seq<Position>, tick: Book, model: Book)
    requires PathOf(path, v.bar) && ConstantPriceCosts(v.cfg.costs)
    requires forall p | p in ps :: Ordered(p, v.cfg)
    requires Dominates(tick, model)
    ensures Dominates(TickManageAll(v, path, improve, ps, tick), ManageAll(v, ps, model))
  {
    hide TickManageOne, ManageOne, ConstantPriceCosts, Dominates, PathOf, Ordered;
    if |ps| > 0 {
      var front := ps[..|ps| - 1];
      ManageAllIsConservative(v, path, improve, front, tick, model);
      assert ps[|ps| - 1] in ps;
      ManageOneIsConservative(v, path, improve, ps[|ps| - 1],
                              TickManageAll(v, path, improve, front, tick), ManageAll(v, front, model));
    }
  }

  lemma NoDecisionNoExit(v: BarView, p: Position)
    requires ExitDecision(v, p).None?
    ensures ExitForBar(p, v.bar, v.index).None?
  {}

  /** A bar that moves the position by `offset` risk units reaches the break-even stop of that offset. */
  lemma MoveCoversStop(p: Position, b: Bar, offset: real)
    requires FavourableMove(p, b) >= offset
    ensures if p.side.Buy? then BreakEvenStop(p, offset) <= b.high else BreakEvenStop(p, offset) >= b.low
  {
    var move := if p.side.Buy? then b.high - p.entry else p.entry - b.low;
    var reach := FavourableMove(p, b);
    assert reach * p.risk == move;
    assert (reach - offset) * p.risk >= 0.0;
    assert offset * p.risk <= move;
  }

  lemma SurvivorStaysOrdered(v: BarView, p: Position)
    requires Ordered(p, v.cfg) && Manage(v, p).Survives?
    ensures Ordered(Manage(v, p).position, v.cfg)
  {
    hide ExitDecision;
    var q := ApplyPendingMove(p, v.cfg.breakEvenOffset);
    assert BreakEvenStop(q, v.cfg.breakEvenOffset) == BreakEvenStop(p, v.cfg.breakEvenOffset);
    var r := ArmBreakEven(q, v.bar, v.cfg);
    assert BreakEvenStop(r, v.cfg.breakEvenOffset) == BreakEvenStop(p, v.cfg.breakEvenOffset);
    assert ExitForBar(q, v.bar, v.index).None? by { NoDecisionNoExit(v, q); }
    if FavourableMove(q, v.bar) >= v.cfg.breakEvenTrigger >= v.cfg.breakEvenOffset {
      MoveCoversStop(q, v.bar, v.cfg.breakEvenOffset);
    }
  }

  lemma {:induction false} SurvivorsStayOrdered(v: BarView, ps: seq<Position>, b: Book)
    requires forall p | p in ps :: Ordered(p, v.cfg)
    requires forall p | p in b.open :: Ordered(p, v.cfg)
    ensures forall p | p in ManageAll(v, ps, b).open :: Ordered(p, v.cfg)
  {
    hide Manage, Ordered;
    if |ps| > 0 {
      var last := ps[|ps| - 1];
      assert last in ps;
      SurvivorsStayOrdered(v, ps[..|ps| - 1], b);
      if Manage(v, last).Survives? {
        SurvivorStaysOrdered(v, last);
      }
    }
  }

  // ---------- whole runs ----------

  /** What the two runs keep between bars. */
  ghost predicate InLockstep(cfg: Config, s: Strategy, bars: seq<Bar>, i: nat, tick: NativeState, model: NativeState) {
    && Dominates(tick.book, model.book) && tick.pending == model.pending
    && (forall p | p in model.book.open :: Ordered(p, cfg))
    && (forall o | o in model.pending :: 0 < o.fillBar == i < |bars| && s.onBar(bars, i - 1) == Some(o.signal))
  }

  lemma {:induction false} FillsAreOrdered(cfg: Config, s: Strategy, bars: seq<Bar>, i: nat, orders: seq<Order>)
    requires 0 < i < |bars| && OrderedSignals(cfg, s, bars)
    requires forall o | o in orders :: s.onBar(bars, i - 1) == Some(o.signal)
    ensures forall p | p in FillAll(orders, bars[i], i, cfg) :: Ordered(p, cfg)
  {
    if |orders| > 0 {
      var last := orders[|orders| - 1];
      assert last in orders;
      FillsAreOrdered(cfg, s, bars, i, orders[..|orders| - 1]);
      FilledIsOrdered(cfg, s, bars, i, last);
    }
  }

  lemma FilledIsOrdered(cfg: Config, s: Strategy, bars: seq<Bar>, i: nat, o: Order)
    requires 0 < i < |bars| && OrderedSignals(cfg, s, bars) && s.onBar(bars, i - 1) == Some(o.signal)
    ensures forall p | p in FillOne(o, bars[i], i, cfg) :: Ordered(p, cfg)
  {
    hide MakePosition;
    var j := i - 1;
    assert s.onBar(bars, j).Some?;
    var made := MakePosition(s.onBar(bars, j).value, bars[j + 1].open, j + 1, bars[j + 1].time, cfg.costs, NextBarOpen);
    if made.Some? {
      var p := made.value.(signalTime := o.signalTime);
      assert BreakEvenStop(p, cfg.breakEvenOffset) == BreakEvenStop(made.value, cfg.breakEvenOffset);
    }
  }

  lemma OpensInLockstep(cfg: Config, s: Strategy, bars: seq<Bar>, i: nat, tick: NativeState, model: NativeState)
    requires i < |bars| && cfg.mode.NextBar? && OrderedSignals(cfg, s, bars) && NativeInv(cfg, model, i)
    requires InLockstep(cfg, s, bars, i, tick, model)
    ensures var t, m := NativeOpened(cfg, s, bars, i, tick), NativeOpened(cfg, s, bars, i, model);
            && Dominates(t.book, m.book) && t.pending == m.pending == []
            && (forall p | p in m.book.open :: Ordered(p, cfg))
  {
    hide Ordered, OrderedSignals, NoWorse, FillAll;
    AllDue(model.pending, i);
    if |model.pending| > 0 {
      assert model.pending[0] in model.pending;
      FillsAreOrdered(cfg, s, bars, i, model.pending);
    }
    NoFills(bars[i], i, cfg);
  }

  lemma NoFills(b: Bar, i: nat, cfg: Config)
    ensures FillAll([], b, i, cfg) == []
  {}

  lemma {:induction false} StepInLockstep(
      cfg: Config, s: Strategy, bars: seq<Bar>, paths: seq<seq<real>>, improve: bool, i: nat,
      tick: NativeState, model: NativeState)
    requires i < |bars| && PathsOf(paths, bars) && cfg.mode.NextBar? && ValidSettings(cfg)
    requires cfg.dailyLimit.None? && cfg.weeklyLimit.None?
    requires OrderedSignals(cfg, s, bars) && ConstantPriceCosts(cfg.costs)
    requires NativeInv(cfg, model, i) && InLockstep(cfg, s, bars, i, tick, model)
    ensures InLockstep(cfg, s, bars, i + 1, TickStep(cfg, s, bars, paths, improve, i, tick), NativeStep(cfg, s, bars, i, model))
  {
    hide NativeOpened, TickManageAll, ManageAll, Ordered, NoWorse, OrderedSignals, ConstantPriceCosts, PathOf, NativeInv;
    OpensInLockstep(cfg, s, bars, i, tick, model);
    var t, m := NativeOpened(cfg, s, bars, i, tick).book, NativeOpened(cfg, s, bars, i, model).book;
    var v := NativeView(cfg, s, bars, i);
    ManageAllIsConservative(v, paths[i], improve, m.open, t.(open := []), m.(open := []));
    SurvivorsStayOrdered(v, m.open, m.(open := []));
  }

  lemma {:induction false} RunsInLockstep(
      cfg: Config, s: Strategy, bars: seq<Bar>, paths: seq<seq<real>>, improve: bool, hi: nat)
    requires hi <= |bars| && PathsOf(paths, bars) && cfg.mode.NextBar? && ValidSettings(cfg)
    requires cfg.dailyLimit.None? && cfg.weeklyLimit.None?
    requires OrderedSignals(cfg, s, bars) && ConstantPriceCosts(cfg.costs)
    ensures InLockstep(cfg, s, bars, hi, TickRun(cfg, s, bars, paths, improve, hi), NativeRun(cfg, s, bars, hi))
  {
    hide TickStep, NativeStep, OrderedSignals, ConstantPriceCosts, PathOf, NativeInv;
    if !(hi == 0 || hi <= cfg.warmupBars) {
      RunsInLockstep(cfg, s, bars, paths, improve, hi - 1);
      NativeRunKeepsInv(cfg, s, bars, hi - 1);
      StepInLockstep(cfg, s, bars, paths, improve, hi - 1,
                     TickRun(cfg, s, bars, paths, improve, hi - 1), NativeRun(cfg, s, bars, hi - 1));
    }
  }

  lemma {:induction false} NoWorseSums(tick: seq<TradeRecord>, model: seq<TradeRecord>)
    requires |tick| == |model| && forall k | 0 <= k < |model| :: NoWorse(tick[k], model[k])
    ensures SumOfR(tick) >= SumOfR(model)
  {
    if |model| > 0 {
      NoWorseSums(tick[..|tick| - 1], model[..|model| - 1]);
    }
  }

  /** Conservative fills: for every price path through the bars, first-touch execution makes the same
      trades, opened and closed on the same bars, each with at least the modelled R. The modelled net R
      and every point of the modelled curve are lower bounds. */
  lemma {:induction false} ModelledResultIsALowerBound(
      cfg: Config, s: Strategy, bars: seq<Bar>, paths: seq<seq<real>>, improve: bool)
    requires PathsOf(paths, bars) && cfg.mode.NextBar? && ValidSettings(cfg)
    requires cfg.dailyLimit.None? && cfg.weeklyLimit.None?
    requires OrderedSignals(cfg, s, bars) && ConstantPriceCosts(cfg.costs)
    ensures var tick := TickRun(cfg, s, bars, paths, improve, |bars|).book;
            var model := NativeRun(cfg, s, bars, |bars|).book;
            && |tick.trades| == |model.trades|
            && (forall k | 0 <= k < |model.trades| ::
                  tick.trades[k].openBar == model.trades[k].openBar && tick.trades[k].closeBar == model.trades[k].closeBar
                  && tick.trades[k].entry == model.trades[k].entry && tick.trades[k].r >= model.trades[k].r)
            && tick.open == model.open
            && SumOfR(tick.trades) >= SumOfR(model.trades)
            && |tick.equity| == |model.equity|
            && (forall k | 0 <= k < |model.equity| :: tick.equity[k] >= model.equity[k])
  {
    RunsInLockstep(cfg, s, bars, paths, improve, |bars|);
    NoWorseSums(TickRun(cfg, s, bars, paths, improve, |bars|).book.trades, NativeRun(cfg, s, bars, |bars|).book.trades);
  }

  // ---------- where the bound stops ----------

  /** A fading order waits for the price to come back to its entry. */
  predicate EntersAt(p: Position, price: real) { if p.side.Buy? then price <= p.entry else price >= p.entry }

  /** A trigger-mode position that the model closes at its target on its own bar. */
  predicate BooksSameBarTarget(p: Position, b: Bar) {
    && p.fillTiming.SameBarTrigger? && ValidBar(b) && p.tp.Some?
    && (if p.side.Buy? then p.entry < p.tp.value && b.low <= p.entry else p.tp.value < p.entry && p.entry <= b.high)
    && ExitForBar(p, b, p.openBar) == Some(RawExit(p.tp.value, TargetSameBarTrigger))
  }

  /** On this path no tick from the entry on reaches the target. */
  ghost predicate MissesTarget(p: Position, path: seq<real>, k: nat) {
    && k < |path| && EntersAt(p, path[k]) && (forall j | 0 <= j < k :: !EntersAt(p, path[j]))
    && forall j | k <= j < |path| :: !TargetHit(p.side, p.tp, path[j], path[j])
  }

  /** Beyond the entry at the open, and short of the target at the close. */
  predicate TargetMayBeMissed(p: Position, b: Bar) {
    !EntersAt(p, b.open) && !TargetHit(p.side, p.tp, b.close, b.close)
  }

  /** Exactly when the bound stops: a fading trigger-mode target that the model books is missed by some
      price path of the bar if and only if the bar opens beyond the entry and closes short of the target. */
  lemma SameBarTargetIsOptimisticExactlyWhen(p: Position, b: Bar)
    requires BooksSameBarTarget(p, b)
    ensures (exists path: seq<real>, k: nat :: PathOf(path, b) && MissesTarget(p, path, k)) <==> TargetMayBeMissed(p, b)
  {
    if TargetMayBeMissed(p, b) {
      MissingPath(p, b);
    }
    forall path: seq<real>, k: nat | PathOf(path, b) && MissesTarget(p, path, k)
      ensures TargetMayBeMissed(p, b)
    {
      MissIsPossible(p, b, path, k);
    }
  }

  /** The path: to the far extreme first, then back through the entry, then to the close. */
  lemma MissingPath(p: Position, b: Bar)
    requires BooksSameBarTarget(p, b) && TargetMayBeMissed(p, b)
    ensures exists path: seq<real>, k: nat :: PathOf(path, b) && MissesTarget(p, path, k)
  {
    var path := if p.side.Buy? then [b.open, b.high, b.low, b.close] else [b.open, b.low, b.high, b.close];
    assert path[1] == (if p.side.Buy? then b.high else b.low) && path[2] == (if p.side.Buy? then b.low else b.high);
    assert PathOf(path, b);
    assert MissesTarget(p, path, 2);
  }

  lemma MissIsPossible(p: Position, b: Bar, path: seq<real>, k: nat)
    requires BooksSameBarTarget(p, b) && PathOf(path, b) && MissesTarget(p, path, k)
    ensures TargetMayBeMissed(p, b)
  {
    var i :| 0 <= i < |path| && path[i] == if p.side.Buy? then b.high else b.low;
    assert TargetHit(p.side, p.tp, path[i], path[i]);
    assert k == 0 ==> k <= i;
    assert EntersAt(p, path[0]) ==> k == 0;
  }
}
