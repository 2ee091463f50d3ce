/** Mark-to-market equity rebuilt from closed trades, and its relation to the backtester's own curve. */
module EquityProfile {
  import opened Options
  import opened Market
  import opened Backtester
  import opened BookInvariants
  import opened NativeInvariants

  datatype Mark = CloseMark | LowMark | HighMark

  /** The price of the bar that the given mark values the trade at. */
  function MarkPrice(kind: Mark, side: Side, b: Bar): real {
    match kind
    case CloseMark => b.close
    case LowMark => if side.Buy? then b.low else b.high
    case HighMark => if side.Buy? then b.high else b.low
  }

  function RawMark(kind: Mark, t: TradeRecord, b: Bar): real
    requires t.initialRisk > 0.0
  {
    Direction(t.side) * (MarkPrice(kind, t.side, b) - t.entry) / t.initialRisk - t.feesR
  }

  /** On its closing bar a trade is worth its result; the envelope may reach beyond it, except that
      prices beyond an executed protective stop are no loss. */
  function MarkAt(kind: Mark, t: TradeRecord, bars: seq<Bar>, bar: nat): real
    requires t.initialRisk > 0.0 && bar < |bars|
  {
    if bar != t.closeBar then RawMark(kind, t, bars[bar])
    else
      match kind
      case CloseMark => t.r
      case LowMark =>
        if StartsWithSl(t.reason) || t.reason.BreakEven? then t.r else MinR(RawMark(kind, t, bars[bar]), t.r)
      case HighMark => MaxR(RawMark(kind, t, bars[bar]), t.r)
  }

  /** What a price is worth to the trade: the move in its favour in units of its risk, less its fees. */
  predicate Worth(t: TradeRecord, price: real, mark: real) {
    (mark + t.feesR) * t.initialRisk == (if t.side.Buy? then price - t.entry else t.entry - price)
  }

  /** The protective exits: prices beyond them were never a loss of this trade. */
  predicate StoppedAtStop(t: TradeRecord) {
    t.reason == StopGap || t.reason == Stop || t.reason == StopBeforeTarget || t.reason == StopSameBarTrigger || t.reason == BreakEven
  }

  /** While a trade is open its marks are the worth of the bar's close, worst and best price; on the closing
      bar the close mark is its result, the best mark at least that, the worst mark at most that, or just
      that after a protective exit. */
  lemma MarksAreWorth(t: TradeRecord, bars: seq<Bar>, bar: nat)
    requires t.initialRisk > 0.0 && bar < |bars|
    ensures var b := bars[bar];
            var close, worst, best := MarkAt(CloseMark, t, bars, bar), MarkAt(LowMark, t, bars, bar), MarkAt(HighMark, t, bars, bar);
            var down, up := if t.side.Buy? then b.low else b.high, if t.side.Buy? then b.high else b.low;
            if bar != t.closeBar then Worth(t, b.close, close) && Worth(t, down, worst) && Worth(t, up, best)
            else
              && close == t.r
              && best >= t.r && (best == t.r || Worth(t, up, best)) && (forall w | Worth(t, up, w) :: best >= w)
              && (if StoppedAtStop(t) then worst == t.r
                  else worst <= t.r && (worst == t.r || Worth(t, down, worst)) && forall w | Worth(t, down, w) :: worst <= w)
  {
    var b := bars[bar];
    forall kind: Mark
      ensures Worth(t, MarkPrice(kind, t.side, b), RawMark(kind, t, b))
      ensures forall w | Worth(t, MarkPrice(kind, t.side, b), w) :: w == RawMark(kind, t, b)
    {
      RawMarkIsWorth(kind, t, b);
    }
    hide RawMark, Worth;
  }

  lemma RawMarkIsWorth(kind: Mark, t: TradeRecord, b: Bar)
    requires t.initialRisk > 0.0
    ensures Worth(t, MarkPrice(kind, t.side, b), RawMark(kind, t, b))
    ensures forall w | Worth(t, MarkPrice(kind, t.side, b), w) :: w == RawMark(kind, t, b)
  {
    var price := MarkPrice(kind, t.side, b);
    var move := if t.side.Buy? then price - t.entry else t.entry - price;
    assert Direction(t.side) * (price - t.entry) == move;
    var mark := RawMark(kind, t, b);
    assert (mark + t.feesR) * t.initialRisk == move by { QuotientTimes(move, t.initialRisk); }
    forall w | Worth(t, price, w)
      ensures w == mark
    {
      SameProduct(w + t.feesR, mark + t.feesR, t.initialRisk);
    }
  }

  lemma QuotientTimes(x: real, d: real)
    requires d > 0.0
    ensures x / d * d == x
  {}

  lemma SameProduct(a: real, b: real, d: real)
    requires d > 0.0 && a * d == b * d
    ensures a == b
  {}

  // ---------- direct definitions ----------

  ghost predicate Profiled(trades: seq<TradeRecord>, bars: nat) {
    forall k | 0 <= k < |trades| :: trades[k].initialRisk > 0.0 && trades[k].openBar <= trades[k].closeBar < bars
  }

  /** Sum of the results of trades that closed strictly before the bar. */
  function ClosedBefore(trades: seq<TradeRecord>, bar: nat): real {
    if |trades| == 0 then 0.0
    else
      var t := trades[|trades| - 1];
      ClosedBefore(trades[..|trades| - 1], bar) + if t.closeBar < bar then t.r else 0.0
  }

  /** Sum of the results of trades that closed by the end of the bar. */
  function ClosedBy(trades: seq<TradeRecord>, bar: nat): real {
    if |trades| == 0 then 0.0
    else
      var t := trades[|trades| - 1];
      ClosedBy(trades[..|trades| - 1], bar) + if t.closeBar <= bar then t.r else 0.0
  }

  /** Marks at the close of the trades still open after the bar. */
  function OpenMarks(trades: seq<TradeRecord>, bars: seq<Bar>, bar: nat): real
    requires Profiled(trades, |bars|) && bar < |bars|
  {
    if |trades| == 0 then 0.0
    else
      var t := trades[|trades| - 1];
      OpenMarks(trades[..|trades| - 1], bars, bar)
      + if t.openBar <= bar < t.closeBar then RawMark(CloseMark, t, bars[bar]) else 0.0
  }

  /** What the accumulator of the given mark holds for a bar. */
  function Marks(kind: Mark, trades: seq<TradeRecord>, bars: seq<Bar>, bar: nat): real
    requires Profiled(trades, |bars|) && bar < |bars|
  {
    if |trades| == 0 then 0.0
    else
      var t := trades[|trades| - 1];
      Marks(kind, trades[..|trades| - 1], bars, bar)
      + if ActiveAt(t, bar) then MarkAt(kind, t, bars, bar) else 0.0
  }

  /** What the realized-event array holds at index e: results of trades that closed on the bar before. */
  function EventsAt(trades: seq<TradeRecord>, e: nat): real {
    if |trades| == 0 then 0.0
    else
      var t := trades[|trades| - 1];
      EventsAt(trades[..|trades| - 1], e) + if t.closeBar + 1 == e then t.r else 0.0
  }

  function EquityAt(kind: Mark, trades: seq<TradeRecord>, bars: seq<Bar>, bar: nat): real
    requires Profiled(trades, |bars|) && bar < |bars|
  {
    ClosedBefore(trades, bar) + Marks(kind, trades, bars, bar)
  }

  // ---------- the accumulator loops ----------

  datatype Intraday = Intraday(close: seq<real>, low: seq<real>, high: seq<real>, active: seq<nat>)

  datatype ProfileError = NonPositiveRisk(trade: nat) | RangeOutsideDataset(trade: nat)

  ghost predicate Represents(r: Intraday, trades: seq<TradeRecord>, bars: seq<Bar>)
    requires Profiled(trades, |bars|)
  {
    && |r.close| == |r.low| == |r.high| == |r.active| == |bars|
    && forall b | 0 <= b < |bars| ::
         && r.close[b] == EquityAt(CloseMark, trades, bars, b)
         && r.low[b] == EquityAt(LowMark, trades, bars, b)
         && r.high[b] == EquityAt(HighMark, trades, bars, b)
         && r.active[b] == ActiveOn(trades, b)
  }

  method FirstNonPositiveRisk(trades: seq<TradeRecord>) returns (bad: Option<nat>)
    ensures bad.None? ==> forall k | 0 <= k < |trades| :: trades[k].initialRisk > 0.0
    ensures bad.Some? ==> bad.value < |trades| && trades[bad.value].initialRisk <= 0.0
  {
    for k := 0 to |trades|
      invariant forall j | 0 <= j < k :: trades[j].initialRisk > 0.0
    {
      if trades[k].initialRisk <= 0.0 {
        return Some(k);
      }
    }
    return None;
  }

  /** Adds one trade's marks of one kind to the bars it spans. */
  method AddMarks(kind: Mark, marks: array<real>, bars: seq<Bar>, ghost done: seq<TradeRecord>, t: TradeRecord)
    requires marks.Length == |bars| && Profiled(done + [t], |bars|)
    requires Profiled(done, |bars|)
    requires forall b | 0 <= b < |bars| :: marks[b] == Marks(kind, done, bars, b)
    modifies marks
    ensures forall b | 0 <= b < |bars| :: marks[b] == Marks(kind, done + [t], bars, b)
  {
    assert (done + [t])[|done|] == t;
    assert (done + [t])[..|done|] == done;
    var b := t.openBar;
    while b <= t.closeBar
      invariant t.openBar <= b <= t.closeBar + 1
      invariant forall j | 0 <= j < |bars| ::
          marks[j] == Marks(kind, done, bars, j) + if t.openBar <= j < b then MarkAt(kind, t, bars, j) else 0.0
    {
      marks[b] := marks[b] + MarkAt(kind, t, bars, b);
      b := b + 1;
    }
  }

  method AddActive(active: array<nat>, ghost done: seq<TradeRecord>, t: TradeRecord)
    requires t.openBar <= t.closeBar < active.Length
    requires forall b | 0 <= b < active.Length :: active[b] == ActiveOn(done, b)
    modifies active
    ensures forall b | 0 <= b < active.Length :: active[b] == ActiveOn(done + [t], b)
  {
    assert (done + [t])[..|done|] == done;
    var b := t.openBar;
    while b <= t.closeBar
      invariant t.openBar <= b <= t.closeBar + 1
      invariant forall j | 0 <= j < active.Length ::
          active[j] == ActiveOn(done, j) + if t.openBar <= j < b then 1 else 0
    {
      active[b] := active[b] + 1;
      b := b + 1;
    }
  }

  /** The working arrays after the first trades have been added. */
  ghost predicate Accumulated(
      events: array<real>, closes: array<real>, lows: array<real>, highs: array<real>, active: array<nat>,
      done: seq<TradeRecord>, bars: seq<Bar>)
    requires Profiled(done, |bars|)
    reads events, closes, lows, highs, active
  {
    && events.Length == |bars| + 1
    && closes.Length == lows.Length == highs.Length == active.Length == |bars|
    && (forall b | 0 <= b < |bars| :: closes[b] == Marks(CloseMark, done, bars, b))
    && (forall b | 0 <= b < |bars| :: lows[b] == Marks(LowMark, done, bars, b))
    && (forall b | 0 <= b < |bars| :: highs[b] == Marks(HighMark, done, bars, b))
    && (forall b | 0 <= b < |bars| :: active[b] == ActiveOn(done, b))
    && (forall e | 0 <= e < |bars| :: events[e] == EventsAt(done, e))
  }

  method AddTrade(
      events: array<real>, closes: array<real>, lows: array<real>, highs: array<real>, active: array<nat>,
      bars: seq<Bar>, ghost done: seq<TradeRecord>, t: TradeRecord)
    requires Profiled(done, |bars|) && Profiled(done + [t], |bars|)
    requires Accumulated(events, closes, lows, highs, active, done, bars)
    requires events != closes && events != lows && events != highs && closes != lows && closes != highs && lows != highs
    modifies events, closes, lows, highs, active
    ensures Accumulated(events, closes, lows, highs, active, done + [t], bars)
  {
    assert (done + [t])[..|done|] == done;
    assert (done + [t])[|done|] == t;
    AddMarks(CloseMark, closes, bars, done, t);
    AddMarks(LowMark, lows, bars, done, t);
    AddMarks(HighMark, highs, bars, done, t);
    AddActive(active, done, t);
    if t.closeBar + 1 < |bars| {
      events[t.closeBar + 1] := events[t.closeBar + 1] + t.r;
    }
  }

  method BuildIntradayEquity(bars: seq<Bar>, trades: seq<TradeRecord>) returns (r: Result<Intraday, ProfileError>)
    ensures r.Success? <==> Profiled(trades, |bars|)
    ensures r.Success? ==> Represents(r.value, trades, bars)
  {
    var bad := FirstNonPositiveRisk(trades);
    if bad.Some? {
      return Failure(NonPositiveRisk(bad.value));
    }
    var n := |bars|;
    var events := new real[n + 1](_ => 0.0);
    var closes := new real[n](_ => 0.0);
    var lows := new real[n](_ => 0.0);
    var highs := new real[n](_ => 0.0);
    var active := new nat[n](_ => 0);
    for k := 0 to |trades|
      invariant Profiled(trades[..k], n)
      invariant Accumulated(events, closes, lows, highs, active, trades[..k], bars)
    {
      var t := trades[k];
      if !(t.openBar <= t.closeBar < n) {
        return Failure(RangeOutsideDataset(k));
      }
      assert trades[..k + 1] == trades[..k] + [t];
      AddTrade(events, closes, lows, highs, active, bars, trades[..k], t);
    }
    assert trades[..|trades|] == trades;
    var close, low, high := Accumulate(bars, trades, events, closes, lows, highs, active);
    return Success(Intraday(close, low, high, active[..]));
  }

  /** The cumulative sum of the events, plus the marks, with idle bars pinned to the realized value. */
  method Accumulate(
      bars: seq<Bar>, ghost trades: seq<TradeRecord>, events: array<real>,
      closes: array<real>, lows: array<real>, highs: array<real>, active: array<nat>)
    returns (close: seq<real>, low: seq<real>, high: seq<real>)
    requires Profiled(trades, |bars|) && Accumulated(events, closes, lows, highs, active, trades, bars)
    ensures |close| == |low| == |high| == |bars|
    ensures forall b | 0 <= b < |bars| :: close[b] == EquityAt(CloseMark, trades, bars, b)
    ensures forall b | 0 <= b < |bars| :: low[b] == EquityAt(LowMark, trades, bars, b)
    ensures forall b | 0 <= b < |bars| :: high[b] == EquityAt(HighMark, trades, bars, b)
  {
    close, low, high := [], [], [];
    var realized := 0.0;
    for b := 0 to |bars|
      invariant |close| == |low| == |high| == b
      invariant b > 0 ==> realized == ClosedBefore(trades, b - 1)
      invariant b == 0 ==> realized == 0.0
      invariant forall j | 0 <= j < b :: close[j] == EquityAt(CloseMark, trades, bars, j)
      invariant forall j | 0 <= j < b :: low[j] == EquityAt(LowMark, trades, bars, j)
      invariant forall j | 0 <= j < b :: high[j] == EquityAt(HighMark, trades, bars, j)
    {
      realized := realized + events[b];
      EventsAccumulate(trades, b);
      if active[b] == 0 {
        IdleBarHasNoMarks(trades, bars, b);
        close, low, high := close + [realized], low + [realized], high + [realized];
      } else {
        close, low, high := close + [realized + closes[b]], low + [realized + lows[b]], high + [realized + highs[b]];
      }
    }
  }

  lemma {:induction false} EventsAccumulate(trades: seq<TradeRecord>, bar: nat)
    ensures bar == 0 ==> EventsAt(trades, bar) == ClosedBefore(trades, bar) == 0.0
    ensures bar > 0 ==> ClosedBefore(trades, bar) == ClosedBefore(trades, bar - 1) + EventsAt(trades, bar)
  {
    if |trades| > 0 {
      EventsAccumulate(trades[..|trades| - 1], bar);
    }
  }

  lemma {:induction false} IdleBarHasNoMarks(trades: seq<TradeRecord>, bars: seq<Bar>, bar: nat)
    requires Profiled(trades, |bars|) && bar < |bars| && ActiveOn(trades, bar) == 0
    ensures forall kind :: Marks(kind, trades, bars, bar) == 0.0
  {
    if |trades| > 0 {
      IdleBarHasNoMarks(trades[..|trades| - 1], bars, bar);
    }
  }

  // ---------- what the rebuilt equity means ----------

  /** Close equity is exactly: results of trades closed by the bar, plus marks of those still open. */
  lemma {:induction false} CloseEquityIsRealizedPlusOpen(trades: seq<TradeRecord>, bars: seq<Bar>, bar: nat)
    requires Profiled(trades, |bars|) && bar < |bars|
    ensures EquityAt(CloseMark, trades, bars, bar) == ClosedBy(trades, bar) + OpenMarks(trades, bars, bar)
  {
    if |trades| > 0 {
      CloseEquityIsRealizedPlusOpen(trades[..|trades| - 1], bars, bar);
    }
  }

  lemma RawMarksAreOrdered(t: TradeRecord, b: Bar)
    requires t.initialRisk > 0.0 && ValidBar(b)
    ensures RawMark(LowMark, t, b) <= RawMark(CloseMark, t, b) <= RawMark(HighMark, t, b)
  {
    var d := Direction(t.side);
    var lo, mid, hi := d * (MarkPrice(LowMark, t.side, b) - t.entry), d * (b.close - t.entry),
                       d * (MarkPrice(HighMark, t.side, b) - t.entry);
    assert lo <= mid <= hi;
    QuotientIsMonotone(mid, lo, t.initialRisk);
    QuotientIsMonotone(hi, mid, t.initialRisk);
  }

  /** The envelope encloses the close on every bar. */
  lemma {:induction false} EnvelopeEnclosesClose(trades: seq<TradeRecord>, bars: seq<Bar>, bar: nat)
    requires Profiled(trades, |bars|) && bar < |bars| && ValidBars(bars)
    ensures EquityAt(LowMark, trades, bars, bar) <= EquityAt(CloseMark, trades, bars, bar)
            <= EquityAt(HighMark, trades, bars, bar)
  {
    hide RawMark;
    if |trades| > 0 {
      var t := trades[|trades| - 1];
      EnvelopeEnclosesClose(trades[..|trades| - 1], bars, bar);
      RawMarksAreOrdered(t, bars[bar]);
    }
  }

  lemma {:induction false} LateBarHasOnlyClosedTrades(trades: seq<TradeRecord>, bars: seq<Bar>, bar: nat)
    requires Profiled(trades, |bars|) && bar < |bars|
    requires forall k | 0 <= k < |trades| :: trades[k].closeBar <= bar
    ensures EquityAt(CloseMark, trades, bars, bar) == SumOfR(trades)
  {
    if |trades| > 0 {
      LateBarHasOnlyClosedTrades(trades[..|trades| - 1], bars, bar);
    }
  }

  /** Backtest to profile: every backtest's trades are accepted, the last close equity is the
      backtester's final equity, and the overlap count never exceeds the position cap. */
  lemma ProfileMatchesBacktest(cfg: Config, s: Strategy, bars: seq<Bar>)
    requires ValidSettings(cfg) && |bars| > 0
    ensures var end := NativeRun(cfg, s, bars, |bars|).book;
            && Profiled(end.trades, |bars|)
            && EquityAt(CloseMark, end.trades, bars, |bars| - 1) == LastEquity(end.equity)
            && (forall bar: nat | bar < |bars| :: ActiveOn(end.trades, bar) <= cfg.maxPositions)
  {
    hide NativeRun, OpenMarks, EquityAt, CurveOf;
    NativeRunKeepsInv(cfg, s, bars, |bars|);
    var end := NativeRun(cfg, s, bars, |bars|).book;
    assert forall k | 0 <= k < |end.trades| :: end.trades[k] in end.trades;
    LateBarHasOnlyClosedTrades(end.trades, bars, |bars| - 1);
    CurveEndsAtTheSum(end.trades);
    forall bar: nat | bar < |bars|
      ensures ActiveOn(end.trades, bar) <= cfg.maxPositions
    {
      assert Exposure(end, bar) <= cfg.maxPositions;
    }
  }
}
