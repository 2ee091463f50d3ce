/** What every position and every trade of a run must look like, stated from the bars, the signals and the
    cost hooks alone. Both simulation loops are held to it. */
module TradeStory {
  import opened Options
  import opened Market
  import opened Positions
  import opened Backtester

  // ---------- the fill ----------

  /** What a fill costs on top of the raw price: half the spread, and the slippage. */
  function Paid(costs: Costs, ctx: CostContext): real { costs.spread(ctx) / 2.0 + costs.slippage(ctx) }

  function EntryContext(signal: Signal, raw: real, i: nat, time: int): CostContext {
    CostContext(i, time, signal.side, EntryFill, raw, Template(signal.side, signal.tp))
  }

  /** An entry costs the buyer more and gives the seller less than the raw price. */
  function EntryPrice(signal: Signal, raw: real, i: nat, time: int, costs: Costs): real {
    var paid := Paid(costs, EntryContext(signal, raw, i, time));
    if signal.side.Buy? then raw + paid else raw - paid
  }

  /** How far the stop specification puts the risk from the entry; not positive means no trade. */
  function RiskOf(signal: Signal, entry: real): real {
    match signal.stop
    case StopDistance(d) => d
    case RiskReference(reference) => if reference > entry then reference - entry else entry - reference
    case StopLevel(level) => if signal.side.Buy? then entry - level else level - entry
  }

  /** The facts of a fill that management never touches. */
  ghost predicate FilledFor(costs: Costs, signal: Signal, raw: real, b: Bar, p: Position) {
    var ctx := EntryContext(signal, raw, p.openBar, b.time);
    && p.side == signal.side && p.tp == signal.tp && p.initialTp == signal.tp && p.signalEntry == signal.entry
    && p.openTime == b.time
    && p.entry == EntryPrice(signal, raw, p.openBar, b.time, costs)
    && p.entrySpread == costs.spread(ctx) / 2.0 && p.entrySlippage == costs.slippage(ctx)
    && p.risk == RiskOf(signal, p.entry)
    && p.initialSl == (if signal.stop.RiskReference? then None
                       else Some(if signal.side.Buy? then p.entry - p.risk else p.entry + p.risk))
  }

  /** A fill is made exactly when the stop leaves a positive risk, always on the losing side. */
  lemma FillIsAdverse(signal: Signal, raw: real, i: nat, time: int, costs: Costs, timing: FillTiming, b: Bar)
    requires b.time == time
    ensures var made := MakePosition(signal, raw, i, time, costs, timing);
            && (made.Some? <==> RiskOf(signal, EntryPrice(signal, raw, i, time, costs)) > 0.0)
            && (made.Some? ==>
                  var p := made.value;
                  && FilledFor(costs, signal, raw, b, p) && p.openBar == p.nativeOpenBar == i && p.fillTiming == timing
                  && p.signalTime == time && p.sl == p.initialSl && !p.movedToBe && !p.pendingBe)
  {}

  // ---------- the stop that is in force on a bar ----------

  /** The bar moves the position by the break-even trigger or more. */
  predicate Arms(cfg: Config, p: Position, b: Bar) {
    cfg.useBreakEven
    && if p.side.Buy? then b.high >= p.entry + cfg.breakEvenTrigger * p.risk
       else b.low <= p.entry - cfg.breakEvenTrigger * p.risk
  }

  /** An earlier bar of the position armed the move. */
  predicate MovedBefore(cfg: Config, bars: seq<Bar>, p: Position, i: nat)
    requires i <= |bars|
  {
    exists k | p.openBar <= k < i :: Arms(cfg, p, bars[k])
  }

  function MovedStop(cfg: Config, p: Position): real {
    if p.side.Buy? then p.entry + p.risk * cfg.breakEvenOffset else p.entry - p.risk * cfg.breakEvenOffset
  }

  /** The position as bar i sees it: a move armed by any earlier bar is in force. */
  function On(cfg: Config, bars: seq<Bar>, p: Position, i: nat): Position
    requires i <= |bars|
  {
    var moved := MovedBefore(cfg, bars, p, i);
    p.(sl := if moved then Some(MovedStop(cfg, p)) else p.initialSl, movedToBe := moved, pendingBe := false)
  }

  /** The record of an open position before bar i: a move armed by the bar just before is still pending. */
  ghost predicate Recorded(cfg: Config, bars: seq<Bar>, p: Position, i: nat)
    requires i <= |bars|
  {
    && p.openBar <= i
    && p.movedToBe == (i > 0 && MovedBefore(cfg, bars, p, i - 1))
    && p.pendingBe == (!p.movedToBe && MovedBefore(cfg, bars, p, i))
    && p.sl == (if p.movedToBe then Some(MovedStop(cfg, p)) else p.initialSl)
  }

  // ---------- how a bar closes a position ----------

  predicate AtStop(p: Position, x: real) { p.sl.Some? && if p.side.Buy? then x <= p.sl.value else x >= p.sl.value }

  predicate AtTarget(p: Position, x: real) { p.tp.Some? && if p.side.Buy? then x >= p.tp.value else x <= p.tp.value }

  predicate StopTouched(p: Position, b: Bar) { AtStop(p, b.open) || AtStop(p, if p.side.Buy? then b.low else b.high) }

  predicate TargetTouched(p: Position, b: Bar) { AtTarget(p, b.open) || AtTarget(p, if p.side.Buy? then b.high else b.low) }

  predicate OwnBar(p: Position, i: nat) { p.fillTiming.SameBarTrigger? && p.openBar == i }

  /** The stop wins, unless the bar opens at the target and the position was there before it. */
  predicate StoppedOut(p: Position, b: Bar, i: nat) {
    StopTouched(p, b) && (OwnBar(p, i) || AtStop(p, b.open) || !AtTarget(p, b.open))
  }

  predicate TimeExit(v: BarView, p: Position) {
    v.exitAt.Some? && v.strategy.hasExitRule && v.strategy.shouldExit(v.exitFrame, v.exitAt.value, p.(openBar := p.nativeOpenBar))
  }

  predicate Leaves(v: BarView, p: Position) {
    StopTouched(p, v.bar) || TargetTouched(p, v.bar) || TimeExit(v, p) || v.fridayClose
  }

  /** A stop is filled at the worse of its level and the open (at its level on the bar of a trigger fill),
      a target at its level, everything else at the close. */
  function RawPrice(v: BarView, p: Position): real {
    if StoppedOut(p, v.bar, v.index) then
      if OwnBar(p, v.index) || !AtStop(p, v.bar.open) then p.sl.value else v.bar.open
    else if TargetTouched(p, v.bar) then p.tp.value
    else v.bar.close
  }

  predicate Gapped(p: Position, b: Bar, i: nat) {
    !OwnBar(p, i) && (if StoppedOut(p, b, i) then AtStop(p, b.open) else AtTarget(p, b.open))
  }

  function Reason(v: BarView, p: Position): CloseReason {
    var stopped, gapped, own := StoppedOut(p, v.bar, v.index), Gapped(p, v.bar, v.index), OwnBar(p, v.index);
    if gapped then (if stopped then StopGap else TargetGap)
    else if p.movedToBe && p.sl == Some(RawPrice(v, p)) then BreakEven
    else if stopped then
      if TargetTouched(p, v.bar) then StopBeforeTarget else if own then StopSameBarTrigger else Stop
    else if TargetTouched(p, v.bar) then (if own then TargetSameBarTrigger else Target)
    else if TimeExit(v, p) then StrategyExit
    else FridayClose
  }

  /** The trade that closing p at the raw price books: each fill cost once, in price; fees once, in R. */
  ghost predicate Booked(v: BarView, p: Position, t: TradeRecord) {
    var raw := RawPrice(v, p);
    var costs, ctx := v.cfg.costs, CostContext(v.index, v.bar.time, p.side, ExitFill, raw, Held(p));
    && t.exit == (if p.side.Buy? then raw - Paid(costs, ctx) else raw + Paid(costs, ctx))
    && t.commissionCostR == costs.commission(ctx) && t.swapCostR == costs.swap(ctx)
    && t.spreadCostR == (p.entrySpread + costs.spread(ctx) / 2.0) / p.risk
    && t.slippageCostR == (p.entrySlippage + costs.slippage(ctx)) / p.risk
    && t.feesR == t.commissionCostR + t.swapCostR
    && t.totalCostsR == t.spreadCostR + t.slippageCostR + t.feesR
    && t.r == (if p.side.Buy? then t.exit - p.entry else p.entry - t.exit) / p.risk - t.feesR
    && t.reason == Reason(v, p) && t.rolloverUnits == costs.rolloverUnits(ctx)
    && t.closeBar == v.index && t.closeTime == v.bar.time && t.durationBars == v.index - p.openBar + 1
    && t.side == p.side && t.entry == p.entry && t.initialRisk == p.risk && t.openBar == p.openBar
    && t.openTime == p.openTime && t.signalTime == p.signalTime && t.signalEntry == p.signalEntry
    && t.initialSl == p.initialSl && t.initialTp == p.initialTp && t.fillTiming == p.fillTiming
  }

  // ---------- one bar does what the story says ----------

  lemma ExitIsAsTold(v: BarView, p: Position)
    ensures ExitDecision(v, p).Some? <==> Leaves(v, p)
    ensures Leaves(v, p) ==> ExitDecision(v, p).value.price == RawPrice(v, p)
    ensures Leaves(v, p) ==> FinalReason(p, ExitDecision(v, p).value) == Reason(v, p)
  {
    ProtectionIsAsTold(v, p);
    hide ExitForBar, OwnBar, AtStop, AtTarget;
  }

  /** The protective part: a touched stop or target, its price and its reason. */
  lemma ProtectionIsAsTold(v: BarView, p: Position)
    ensures var e := ExitForBar(p, v.bar, v.index);
            && (e.Some? <==> StopTouched(p, v.bar) || TargetTouched(p, v.bar))
            && (e.Some? ==>
                  && e.value.price == RawPrice(v, p)
                  && (EndsWithGap(e.value.reason) <==> Gapped(p, v.bar, v.index))
                  && (Gapped(p, v.bar, v.index) || !p.movedToBe || p.sl != Some(e.value.price) ==> e.value.reason == Reason(v, p)))
  {}

  lemma CloseIsAsTold(v: BarView, p: Position)
    requires Leaves(v, p)
    ensures Booked(v, p, CloseTrade(p, ExitDecision(v, p).value, v.index, v.bar.time, v.cfg.costs))
  {
    hide ExitDecision, FinalReason, RawPrice, Reason, Leaves;
    ExitIsAsTold(v, p);
    var e := ExitDecision(v, p).value;
    assert ExitContext(p, e, v.index, v.bar.time) == CostContext(v.index, v.bar.time, p.side, ExitFill, e.price, Held(p));
  }

  lemma ArmingIsAsTold(cfg: Config, p: Position, b: Bar)
    ensures cfg.useBreakEven && FavourableMove(p, b) >= cfg.breakEvenTrigger <==> Arms(cfg, p, b)
  {
    var move := if p.side.Buy? then b.high - p.entry else p.entry - b.low;
    ReachesTrigger(move, p.risk, cfg.breakEvenTrigger);
  }

  lemma ReachesTrigger(move: real, risk: real, trigger: real)
    requires risk > 0.0
    ensures move / risk >= trigger <==> move >= trigger * risk
  {
    var q := move / risk;
    assert q * risk == move;
    if q >= trigger {
      assert (q - trigger) * risk >= 0.0;
    } else {
      assert (trigger - q) * risk > 0.0;
    }
  }

  lemma {:induction false} ManageIsAsTold(v: BarView, bars: seq<Bar>, p: Position)
    requires v.index < |bars| && v.bar == bars[v.index] && Recorded(v.cfg, bars, p, v.index)
    ensures var q := On(v.cfg, bars, p, v.index);
            match Manage(v, p)
            case Closes(t) => Leaves(v, q) && Booked(v, q, t)
            case Survives(r) => !Leaves(v, q) && Recorded(v.cfg, bars, r, v.index + 1)
                                && r == p.(sl := r.sl, movedToBe := r.movedToBe, pendingBe := r.pendingBe)
  {
    hide ExitDecision, CloseTrade, Leaves, Booked, FavourableMove, Arms;
    var i, q := v.index, On(v.cfg, bars, p, v.index);
    MovesAccumulate(v.cfg, bars, p, i);
    if i > 0 {
      MovesAccumulate(v.cfg, bars, p, i - 1);
    }
    assert BreakEvenStop(p, v.cfg.breakEvenOffset) == MovedStop(v.cfg, p) by { StopsAgree(v.cfg, p); }
    assert ApplyPendingMove(p, v.cfg.breakEvenOffset) == q;
    ExitIsAsTold(v, q);
    if Leaves(v, q) {
      CloseIsAsTold(v, q);
    } else {
      var r := ArmBreakEven(q, v.bar, v.cfg);
      ArmingIsAsTold(v.cfg, q, v.bar);
      SameArms(v.cfg, bars, p, q, i);
      SameArms(v.cfg, bars, p, r, i);
      SameArms(v.cfg, bars, p, r, i + 1);
    }
  }

  lemma StopsAgree(cfg: Config, p: Position)
    ensures BreakEvenStop(p, cfg.breakEvenOffset) == MovedStop(cfg, p)
  {
    var x := p.risk * cfg.breakEvenOffset;
    assert 1.0 * p.risk * cfg.breakEvenOffset == x && -1.0 * p.risk * cfg.breakEvenOffset == -x;
  }

  /** One more bar moves the stop if an earlier one did, or if it arms the move itself. */
  lemma MovesAccumulate(cfg: Config, bars: seq<Bar>, p: Position, i: nat)
    requires i < |bars|
    ensures MovedBefore(cfg, bars, p, i + 1) <==> MovedBefore(cfg, bars, p, i) || (p.openBar <= i && Arms(cfg, p, bars[i]))
  {
    hide Arms;
    if k: nat :| p.openBar <= k < i && Arms(cfg, p, bars[k]) {
      assert p.openBar <= k < i + 1;
    }
  }

  lemma SameArms(cfg: Config, bars: seq<Bar>, p: Position, q: Position, i: nat)
    requires i <= |bars| && q == p.(sl := q.sl, movedToBe := q.movedToBe, pendingBe := q.pendingBe)
    ensures MovedBefore(cfg, bars, p, i) == MovedBefore(cfg, bars, q, i) && MovedStop(cfg, p) == MovedStop(cfg, q)
    ensures i < |bars| ==> Arms(cfg, p, bars[i]) == Arms(cfg, q, bars[i])
  {
    assert forall k | p.openBar <= k < i :: Arms(cfg, p, bars[k]) == Arms(cfg, q, bars[k]);
  }

  // ---------- a run told bar by bar ----------

  /** What a run shows its positions: the execution bars, one view for each, and what makes a position one
      of the run's own (its signal and its fill). */
  datatype Told = Told(cfg: Config, bars: seq<Bar>, view: nat -> BarView, own: Position -> bool)

  /** The views show the bars; being opened does not depend on what management changes. */
  ghost predicate ValidTold(w: Told) {
    && (forall i: nat | i < |w.bars| :: w.view(i).index == i && w.view(i).bar == w.bars[i] && w.view(i).cfg == w.cfg)
    && (forall p: Position, q: Position | w.own(p) && q == p.(sl := q.sl, movedToBe := q.movedToBe, pendingBe := q.pendingBe) ::
          w.own(q))
  }

  /** Opened by its signal, and kept by every bar before i. */
  ghost predicate HeldUntil(w: Told, p: Position, i: nat)
    requires i <= |w.bars|
  {
    && w.own(p) && p.openBar <= i
    && forall k: nat | p.openBar <= k < i :: !Leaves(w.view(k), On(w.cfg, w.bars, p, k))
  }

  /** A trade is the booking of a position on the first bar that closes it. */
  ghost predicate ClosesOf(w: Told, p: Position, t: TradeRecord) {
    && t.closeBar < |w.bars| && HeldUntil(w, p, t.closeBar)
    && var q := On(w.cfg, w.bars, p, t.closeBar); Leaves(w.view(t.closeBar), q) && Booked(w.view(t.closeBar), q, t)
  }

  ghost predicate Explained(w: Told, t: TradeRecord) { exists p: Position :: ClosesOf(w, p, t) }

  ghost predicate StoryOf(w: Told, b: Book, i: nat)
    requires i <= |w.bars|
  {
    && (forall p | p in b.open :: Recorded(w.cfg, w.bars, p, i) && HeldUntil(w, p, i))
    && (forall t | t in b.trades :: Explained(w, t))
  }

  lemma ManageOneIsTold(w: Told, i: nat, p: Position, b: Book)
    requires ValidTold(w) && i < |w.bars| && Recorded(w.cfg, w.bars, p, i) && HeldUntil(w, p, i)
    ensures var r := ManageOne(w.view(i), p, b);
            || (r.open == b.open && |r.trades| == |b.trades| + 1 && r.trades[..|b.trades|] == b.trades
                && Explained(w, r.trades[|b.trades|]))
            || (r.trades == b.trades && |r.open| == |b.open| + 1 && r.open[..|b.open|] == b.open
                && Recorded(w.cfg, w.bars, r.open[|b.open|], i + 1) && HeldUntil(w, r.open[|b.open|], i + 1))
  {
    hide Manage, Leaves, Booked, On, Recorded, MovedBefore;
    var v := w.view(i);
    ManageIsAsTold(v, w.bars, p);
    match Manage(v, p) {
      case Closes(t) =>
        BookedOn(v, On(w.cfg, w.bars, p, i), t);
        assert ClosesOf(w, p, t);
      case Survives(r) =>
        forall k: nat | r.openBar <= k < i + 1
          ensures !Leaves(w.view(k), On(w.cfg, w.bars, r, k))
        {
          SameOn(w.cfg, w.bars, p, r, k);
        }
    }
  }

  lemma BookedOn(v: BarView, p: Position, t: TradeRecord)
    requires Booked(v, p, t)
    ensures t.closeBar == v.index
  {}

  lemma SameOn(cfg: Config, bars: seq<Bar>, p: Position, q: Position, k: nat)
    requires k <= |bars| && q == p.(sl := q.sl, movedToBe := q.movedToBe, pendingBe := q.pendingBe)
    ensures On(cfg, bars, p, k) == On(cfg, bars, q, k)
  {
    SameArms(cfg, bars, p, q, k);
  }

  lemma {:induction false} ManageAllIsTold(w: Told, i: nat, ps: seq<Position>, b: Book)
    requires ValidTold(w) && i < |w.bars|
    requires forall p | p in ps :: Recorded(w.cfg, w.bars, p, i) && HeldUntil(w, p, i)
    requires StoryOf(w, b, i + 1)
    ensures StoryOf(w, ManageAll(w.view(i), ps, b), i + 1)
  {
    hide Recorded, HeldUntil, Explained, ManageOne, ValidTold;
    if |ps| > 0 {
      var front, last := ps[..|ps| - 1], ps[|ps| - 1];
      assert last in ps;
      ManageAllIsTold(w, i, front, b);
      ManageOneIsTold(w, i, last, ManageAll(w.view(i), front, b));
    }
  }

  /** Managing a book whose new positions have just been filled. */
  lemma ManageBookIsTold(w: Told, i: nat, b: Book)
    requires ValidTold(w) && i < |w.bars| && StoryOf(w, b, i)
    ensures StoryOf(w, ManageBook(w.view(i), b), i + 1)
  {
    hide Recorded, HeldUntil, Explained, ValidTold;
    ManageAllIsTold(w, i, b.open, b.(open := []));
  }

  /** A position as MakePosition returns it has the record its first bar expects. */
  lemma FreshIsRecorded(cfg: Config, bars: seq<Bar>, p: Position)
    requires p.openBar <= |bars| && p.sl == p.initialSl && !p.movedToBe && !p.pendingBe
    ensures Recorded(cfg, bars, p, p.openBar)
  {}
}
