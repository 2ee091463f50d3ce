/** The life of one position: fill, protective exit, break-even move, closing trade. */
module Positions {
  import opened Options
  import opened Market

  // ---------- fills ----------

  function AdverseFill(price: real, side: Side, event: FillEvent, costs: Costs, ctx: CostContext): Fill {
    var spread := costs.spread(ctx);
    var slippage := costs.slippage(ctx);
    var adverse := if event.EntryFill? then Direction(side) else -Direction(side);
    Fill(price + adverse * (spread / 2.0 + slippage), spread / 2.0, slippage)
  }

  /** A position opened at the given raw price, or None when the fill leaves no valid risk unit. */
  function MakePosition(signal: Signal, rawEntry: real, barIndex: nat, time: int, costs: Costs, timing: FillTiming)
    : (r: Option<Position>)
  {
    var ctx := CostContext(barIndex, time, signal.side, EntryFill, rawEntry, Template(signal.side, signal.tp));
    var fill := AdverseFill(rawEntry, signal.side, EntryFill, costs, ctx);
    var entry := fill.price;
    var (sl: Option<real>, risk: real, wrongSide: bool) :=
      match signal.stop
      case StopDistance(d) => (Some(entry - Direction(signal.side) * d), d, false)
      case RiskReference(reference) => (None, AbsR(entry - reference), false)
      case StopLevel(level) =>
        (Some(level), AbsR(entry - level),
         if signal.side.Buy? then level >= entry else level <= entry);
    if wrongSide || risk <= 0.0 then None
    else
      Some(PositionRecord(
             signal.side, signal.tp, sl, sl, signal.tp,
             entry, signal.entry, risk, time, time,
             barIndex, barIndex, timing, false, false, fill.halfSpread, fill.slippage))
  }

  // ---------- protective exits ----------

  predicate StopHit(side: Side, sl: Option<real>, high: real, low: real) {
    sl.Some? && (if side.Buy? then low <= sl.value else high >= sl.value)
  }

  predicate TargetHit(side: Side, tp: Option<real>, high: real, low: real) {
    tp.Some? && (if side.Buy? then high >= tp.value else low <= tp.value)
  }

  datatype RawExit = RawExit(price: real, reason: CloseReason)

  /** Conservative OHLC exit: a gapped stop first, then the stop before the target on the same bar. */
  function ExitForBar(p: Position, b: Bar, i: nat): Option<RawExit> {
    if p.fillTiming.SameBarTrigger? && p.openBar == i then
      var high := MaxR(b.open, b.high);
      var low := MinR(b.open, b.low);
      if StopHit(p.side, p.sl, high, low) then
        Some(RawExit(p.sl.value,
                     if TargetHit(p.side, p.tp, high, low) then StopBeforeTarget else StopSameBarTrigger))
      else if TargetHit(p.side, p.tp, high, low) then
        Some(RawExit(p.tp.value, TargetSameBarTrigger))
      else
        None
    else if StopHit(p.side, p.sl, b.open, b.open) then
      Some(RawExit(b.open, StopGap))
    else if TargetHit(p.side, p.tp, b.open, b.open) then
      Some(RawExit(p.tp.value, TargetGap))
    else if StopHit(p.side, p.sl, b.high, b.low) then
      Some(RawExit(p.sl.value, if TargetHit(p.side, p.tp, b.high, b.low) then StopBeforeTarget else Stop))
    else if TargetHit(p.side, p.tp, b.high, b.low) then
      Some(RawExit(p.tp.value, Target))
    else
      None
  }

  // ---------- break-even ----------

  function BreakEvenStop(p: Position, offset: real): real {
    p.entry + Direction(p.side) * p.risk * offset
  }

  /** The move scheduled on an earlier bar takes effect before this bar is evaluated. */
  function ApplyPendingMove(p: Position, offset: real): Position {
    if p.pendingBe then
      p.(sl := Some(BreakEvenStop(p, offset)), movedToBe := true, pendingBe := false)
    else p
  }

  /** Best excursion of the bar in R, which arms the break-even move for the next bar. */
  function FavourableMove(p: Position, b: Bar): real {
    (if p.side.Buy? then b.high - p.entry else p.entry - b.low) / p.risk
  }

  function ArmBreakEven(p: Position, b: Bar, cfg: Config): Position {
    if cfg.useBreakEven && !p.movedToBe && FavourableMove(p, b) >= cfg.breakEvenTrigger
    then p.(pendingBe := true)
    else p
  }

  // ---------- closing ----------

  function ResultR(p: Position, exit: real): real {
    (if p.side.Buy? then exit - p.entry else p.entry - exit) / p.risk
  }

  function FinalReason(p: Position, e: RawExit): CloseReason {
    if p.movedToBe && p.sl == Some(e.price) && !EndsWithGap(e.reason) then BreakEven else e.reason
  }

  function ExitContext(p: Position, e: RawExit, i: nat, time: int): CostContext {
    CostContext(i, time, p.side, ExitFill, e.price, Held(p))
  }

  function CloseTrade(p: Position, e: RawExit, i: nat, time: int, costs: Costs): TradeRecord {
    var ctx := ExitContext(p, e, i, time);
    var fill := AdverseFill(e.price, p.side, ExitFill, costs, ctx);
    var spreadR := (p.entrySpread + fill.halfSpread) / p.risk;
    var slippageR := (p.entrySlippage + fill.slippage) / p.risk;
    var commissionR := costs.commission(ctx);
    var swapR := costs.swap(ctx);
    TradeRecord(
      p.side, p.openTime, p.signalTime, time, p.entry, fill.price,
      ResultR(p, fill.price) - (commissionR + swapR), FinalReason(p, e),
      spreadR, slippageR, commissionR, swapR,
      commissionR + swapR, spreadR + slippageR + commissionR + swapR,
      p.signalEntry, p.initialSl, p.initialTp, p.risk,
      p.openBar, i, i - p.openBar + 1, p.fillTiming, costs.rolloverUnits(ctx))
  }

  // ---------- one bar of one position ----------

  /** The bar as the management loop sees it. The time-exit rule is consulted on `exitFrame`
      at `exitAt`, which is absent when no signal candle ends with this bar. */
  datatype BarView = BarView(
    index: nat, bar: Bar, cfg: Config, strategy: Strategy,
    exitFrame: seq<Bar>, exitAt: Option<nat>, fridayClose: bool)

  /** Protective exit, else time exit at the close, else Friday exit at the close. */
  function ExitDecision(v: BarView, p: Position): Option<RawExit> {
    var protective := ExitForBar(p, v.bar, v.index);
    if protective.Some? then protective
    else if v.exitAt.Some? && v.strategy.hasExitRule
            && v.strategy.shouldExit(v.exitFrame, v.exitAt.value, p.(openBar := p.nativeOpenBar)) then
      Some(RawExit(v.bar.close, StrategyExit))
    else if v.fridayClose then Some(RawExit(v.bar.close, FridayClose))
    else None
  }

  datatype Managed = Survives(position: Position) | Closes(trade: TradeRecord)

  function Manage(v: BarView, p0: Position): Managed {
    var p := ApplyPendingMove(p0, v.cfg.breakEvenOffset);
    match ExitDecision(v, p)
    case Some(e) => Closes(CloseTrade(p, e, v.index, v.bar.time, v.cfg.costs))
    case None => Survives(ArmBreakEven(p, v.bar, v.cfg))
  }

  // ---------- what a fill and a close promise ----------

  /** A stop order always starts on the losing side of the entry, exactly one risk unit away. */
  lemma StopStartsOneRiskAway(signal: Signal, rawEntry: real, i: nat, time: int, costs: Costs, timing: FillTiming)
    requires MakePosition(signal, rawEntry, i, time, costs, timing).Some?
    ensures var p := MakePosition(signal, rawEntry, i, time, costs, timing).value;
            p.side == signal.side && p.tp == signal.tp &&
            (p.sl.Some? ==> p.sl.value == p.entry - Direction(p.side) * p.risk) &&
            (p.sl.None? <==> signal.stop.RiskReference?)
  {}

  /** A full-distance stop loss costs exactly one R before fees when fills are free. */
  lemma StopLossIsOneR(p: Position)
    requires p.sl == Some(p.entry - Direction(p.side) * p.risk)
    ensures ResultR(p, p.sl.value) == -1.0
  {
    assert (if p.side.Buy? then p.sl.value - p.entry else p.entry - p.sl.value) == -p.risk;
    assert (-p.risk) / p.risk == -1.0;
  }

  /** The net result of a trade is its frictionless result minus every cost component, each once,
      whenever entry and exit slipped by the recorded amounts. */
  lemma CostsAreChargedOnce(p: Position, e: RawExit, i: nat, time: int, costs: Costs, rawEntry: real)
    requires p.entry == rawEntry + Direction(p.side) * (p.entrySpread + p.entrySlippage)
    ensures var t := CloseTrade(p, e, i, time, costs);
            var gross := (if p.side.Buy? then e.price - rawEntry else rawEntry - e.price) / p.risk;
            t.r == gross - t.totalCostsR
  {
    var ctx := ExitContext(p, e, i, time);
    var fill := AdverseFill(e.price, p.side, ExitFill, costs, ctx);
    var move := if p.side.Buy? then e.price - rawEntry else rawEntry - e.price;
    var a := p.entrySpread + fill.halfSpread;
    var b := p.entrySlippage + fill.slippage;
    assert (if p.side.Buy? then fill.price - p.entry else p.entry - fill.price) == move - a - b;
    SplitQuotient(move, a, b, p.risk);
  }

  lemma SplitQuotient(x: real, a: real, b: real, d: real)
    requires d > 0.0
    ensures (x - a - b) / d == x / d - a / d - b / d
  {}

  /** Managing never changes what identifies the position or its risk unit. */
  predicate SameIdentity(p: Position, q: Position) {
    && p.side == q.side && p.tp == q.tp && p.initialSl == q.initialSl && p.initialTp == q.initialTp
    && p.entry == q.entry && p.signalEntry == q.signalEntry && p.risk == q.risk
    && p.openTime == q.openTime && p.signalTime == q.signalTime
    && p.openBar == q.openBar && p.nativeOpenBar == q.nativeOpenBar && p.fillTiming == q.fillTiming
  }

  lemma ManageKeepsIdentity(v: BarView, p: Position)
    ensures match Manage(v, p)
            case Survives(q) => SameIdentity(p, q)
            case Closes(t) =>
              t.openBar == p.openBar && t.closeBar == v.index && t.initialRisk == p.risk && t.entry == p.entry
              && t.side == p.side && t.durationBars == v.index - p.openBar + 1
  {}
}
