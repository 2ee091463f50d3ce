/** The mean-reversion strategy over precomputed columns, and the end-to-end no-lookahead theorem. */
module MeanReversion {
  import opened Options
  import opened Market
  import opened Backtester
  import opened Precompute
  import opened NoLookahead

  datatype Parameters = Parameters(rangeLookback: nat, atrPeriod: nat, atrMultiplier: real, tpFraction: real)

  predicate ValidParameters(prm: Parameters) { prm.rangeLookback >= 1 && prm.atrPeriod >= 1 }

  /** Fade of the range top: stop above by the risk, target part of the way to the mean. */
  function FadeTop(top: real, mean: real, risk: real, tpFraction: real): Option<Signal> {
    var tp := top - (top - mean) * tpFraction;
    if tp >= top then None
    else Some(Signal(Sell, top, StopLevel(top + risk), Some(tp), PriceAtOrAbove, None, None))
  }

  function FadeBottom(bottom: real, mean: real, risk: real, tpFraction: real): Option<Signal> {
    var tp := bottom + (mean - bottom) * tpFraction;
    if tp <= bottom then None
    else Some(Signal(Buy, bottom, StopLevel(bottom - risk), Some(tp), PriceAtOrBelow, None, None))
  }

  function Midpoint(lowest: real, highest: real): real { lowest + (highest - lowest) * 0.5 }

  function StopRisk(prm: Parameters, atr: real): real { atr * prm.atrMultiplier }

  /** The signal of bar i from the bars and an ATR column. */
  function SignalAt(prm: Parameters, bars: seq<Bar>, atr: seq<Option<real>>, i: nat): Option<Signal>
    requires ValidParameters(prm) && i < |bars| && |atr| == |bars|
  {
    if i < prm.rangeLookback || i < prm.atrPeriod then None
    else if atr[i - 1].None? || atr[i - 1].value <= 0.0 then None
    else
      var highest := MaxHigh(bars, i - prm.rangeLookback, i);
      var lowest := MinLow(bars, i - prm.rangeLookback, i);
      if highest - lowest <= 0.0 then None
      else
        var mean := Midpoint(lowest, highest);
        var risk := StopRisk(prm, atr[i - 1].value);
        if bars[i].high >= highest then FadeTop(highest, mean, risk, prm.tpFraction)
        else if bars[i].low <= lowest then FadeBottom(lowest, mean, risk, prm.tpFraction)
        else None
  }

  /** The strategy as the engine runs it: columns are recomputed from whatever frame it is given. */
  function StrategyOf(prm: Parameters): Strategy
    requires ValidParameters(prm)
  {
    Strategy(
      (bars: seq<Bar>, i: nat) => if i < |bars| then SignalAt(prm, bars, ComputeAtr(bars, prm.atrPeriod), i) else None,
      false,
      (bars, i, p) => false)
  }

  datatype BindError = MissingAtrColumn(period: nat)

  class BasicMeanReversion {
    const prm: Parameters
    var bars: seq<Bar>
    var atr: seq<Option<real>>

    ghost predicate Valid() reads this {
      ValidParameters(prm) && |atr| == |bars|
    }

    /** Bound to the frame whose ATR column was computed from that same frame. */
    ghost predicate BoundTo(frame: seq<Bar>) reads this {
      Valid() && bars == frame && atr == ComputeAtr(frame, prm.atrPeriod)
    }

    constructor (prm: Parameters)
      requires ValidParameters(prm)
      ensures Valid() && this.prm == prm && bars == []
    {
      this.prm := prm;
      bars, atr := [], [];
    }

    /** Binding fails, and changes nothing but the price columns, when the ATR column is missing. */
    method BindData(frame: seq<Bar>, atrColumns: map<nat, seq<Option<real>>>) returns (r: Result<(), BindError>)
      requires Valid()
      requires forall period | period in atrColumns :: |atrColumns[period]| == |frame|
      modifies this
      ensures r.Success? <==> prm.atrPeriod in atrColumns
      ensures r.Success? ==> Valid() && bars == frame && atr == atrColumns[prm.atrPeriod]
      ensures r.Failure? ==> r.error == MissingAtrColumn(prm.atrPeriod) && bars == frame && atr == old(atr)
    {
      bars := frame;
      if prm.atrPeriod !in atrColumns {
        return Failure(MissingAtrColumn(prm.atrPeriod));
      }
      atr := atrColumns[prm.atrPeriod];
      return Success(());
    }

    method OnBar(i: nat) returns (signal: Option<Signal>)
      requires Valid() && i < |bars|
      ensures signal == SignalAt(prm, bars, atr, i)
      ensures BoundTo(bars) ==> signal == StrategyOf(prm).onBar(bars, i)
    {
      hide Midpoint, StopRisk, FadeTop, FadeBottom;
      if i < prm.rangeLookback || i < prm.atrPeriod {
        return None;
      }
      var atrValue := atr[i - 1];
      if atrValue.None? || atrValue.value <= 0.0 {
        return None;
      }
      var highest := MaxHigh(bars, i - prm.rangeLookback, i);
      var lowest := MinLow(bars, i - prm.rangeLookback, i);
      if highest - lowest <= 0.0 {
        return None;
      }
      var mean := Midpoint(lowest, highest);
      var risk := StopRisk(prm, atrValue.value);
      if bars[i].high >= highest {
        return FadeTop(highest, mean, risk, prm.tpFraction);
      }
      if bars[i].low <= lowest {
        return FadeBottom(lowest, mean, risk, prm.tpFraction);
      }
      return None;
    }
  }

  /** Both fades put the stop beyond the boundary and the target on the other side of it. */
  lemma FadesAimInside(prm: Parameters, atr: real, boundary: real, mean: real)
    requires atr > 0.0 && prm.atrMultiplier > 0.0
    ensures var f := FadeTop(boundary, mean, StopRisk(prm, atr), prm.tpFraction);
            f.Some? ==> f.value.side.Sell? && f.value.entry == boundary && f.value.stop.StopLevel?
                        && f.value.tp.Some? && f.value.tp.value < boundary < f.value.stop.level
    ensures var f := FadeBottom(boundary, mean, StopRisk(prm, atr), prm.tpFraction);
            f.Some? ==> f.value.side.Buy? && f.value.entry == boundary && f.value.stop.StopLevel?
                        && f.value.tp.Some? && f.value.stop.level < boundary < f.value.tp.value
  {
    assert StopRisk(prm, atr) > 0.0;
  }

  /** What a signal means: a fade of a touched range boundary, stopped outside the range by the
      ATR distance and aimed at the inside of the range. */
  lemma SignalFadesTheBoundary(prm: Parameters, bars: seq<Bar>, i: nat)
    requires ValidParameters(prm) && i < |bars| && prm.atrMultiplier > 0.0
    requires StrategyOf(prm).onBar(bars, i).Some?
    ensures var s := StrategyOf(prm).onBar(bars, i).value;
            && s.stop.StopLevel? && s.tp.Some?
            && prm.rangeLookback <= i
            && (s.side.Sell? ==>
                  && (forall k | i - prm.rangeLookback <= k < i :: bars[k].high <= s.entry)
                  && s.entry <= bars[i].high
                  && s.tp.value < s.entry < s.stop.level)
            && (s.side.Buy? ==>
                  && (forall k | i - prm.rangeLookback <= k < i :: s.entry <= bars[k].low)
                  && bars[i].low <= s.entry
                  && s.stop.level < s.entry < s.tp.value)
  {
    hide Midpoint, StopRisk, FadeTop, FadeBottom;
    var lo, hi := i - prm.rangeLookback, i;
    var highest, lowest := MaxHigh(bars, lo, hi), MinLow(bars, lo, hi);
    var mean, a := Midpoint(lowest, highest), ComputeAtr(bars, prm.atrPeriod)[i - 1].value;
    ExtremaAreAttainedBounds(bars, lo, hi);
    FadesAimInside(prm, a, highest, mean);
    FadesAimInside(prm, a, lowest, mean);
  }

  /** The range of the lookback window before bar i: both bounds are attained in it. */
  ghost predicate RangeIs(prm: Parameters, bars: seq<Bar>, i: nat, bottom: real, top: real)
    requires prm.rangeLookback <= i < |bars|
  {
    && (forall k | i - prm.rangeLookback <= k < i :: bottom <= bars[k].low && bars[k].high <= top)
    && (exists k | i - prm.rangeLookback <= k < i :: bars[k].high == top)
    && (exists k | i - prm.rangeLookback <= k < i :: bars[k].low == bottom)
  }

  /** The fade of a boundary, the far one given: the stop lies `risk` outside, and the target the given
      fraction of half the range inside. */
  predicate FadeIs(prm: Parameters, side: Side, boundary: real, far: real, risk: real, s: Signal) {
    && s.side == side && s.entry == boundary && s.tp.Some? && s.historyStart.None? && s.historyEnd.None?
    && s.stop == StopLevel(if side.Sell? then boundary + risk else boundary - risk)
    && (s.tp.value - boundary) * 2.0 == (far - boundary) * prm.tpFraction
    && (if side.Sell? then s.trigger == PriceAtOrAbove else s.trigger == PriceAtOrBelow)
  }

  /** When the strategy signals, and what: from the bar after a full window with a positive ATR and range on,
      a touched top is faded down, else a touched bottom up, as long as the target lies inside. */
  lemma SignalIs(prm: Parameters, bars: seq<Bar>, i: nat, bottom: real, top: real)
    requires ValidParameters(prm) && prm.rangeLookback <= i < |bars| && RangeIs(prm, bars, i, bottom, top)
    ensures var atr := ComputeAtr(bars, prm.atrPeriod)[i - 1];
            var signal := StrategyOf(prm).onBar(bars, i);
            var risk := if atr.Some? then atr.value * prm.atrMultiplier else 0.0;
            if prm.atrPeriod <= i && atr.Some? && atr.value > 0.0 && bottom < top && prm.tpFraction > 0.0
               && (bars[i].high >= top || bars[i].low <= bottom) then
              signal.Some? && (if bars[i].high >= top then FadeIs(prm, Sell, top, bottom, risk, signal.value)
                               else FadeIs(prm, Buy, bottom, top, risk, signal.value))
            else signal.None?
    ensures !StrategyOf(prm).hasExitRule
  {
    var highest, lowest := MaxHigh(bars, i - prm.rangeLookback, i), MinLow(bars, i - prm.rangeLookback, i);
    ExtremaAreAttainedBounds(bars, i - prm.rangeLookback, i);
    assert highest == top && lowest == bottom;
    hide MaxHigh, MinLow, ComputeAtr, FadeTop, FadeBottom, Midpoint, FadeIs, RangeIs;
    var atr := ComputeAtr(bars, prm.atrPeriod)[i - 1];
    if bottom < top && atr.Some? {
      FadesAre(prm, top, bottom, StopRisk(prm, atr.value));
    }
  }

  lemma FadesAre(prm: Parameters, top: real, bottom: real, risk: real)
    requires bottom < top
    ensures var down := FadeTop(top, Midpoint(bottom, top), risk, prm.tpFraction);
            (down.Some? <==> prm.tpFraction > 0.0) && (down.Some? ==> FadeIs(prm, Sell, top, bottom, risk, down.value))
    ensures var up := FadeBottom(bottom, Midpoint(bottom, top), risk, prm.tpFraction);
            (up.Some? <==> prm.tpFraction > 0.0) && (up.Some? ==> FadeIs(prm, Buy, bottom, top, risk, up.value))
  {
    TargetIsInside(top, bottom, prm.tpFraction);
    assert (bottom - top) * prm.tpFraction == -((top - bottom) * prm.tpFraction);
    hide Midpoint;
  }

  /** Before the window is full there is no signal. */
  lemma NoSignalBeforeWindow(prm: Parameters, bars: seq<Bar>, i: nat)
    requires ValidParameters(prm) && i < |bars| && i < prm.rangeLookback
    ensures StrategyOf(prm).onBar(bars, i).None?
  {}

  lemma TargetIsInside(top: real, bottom: real, fraction: real)
    requires bottom < top
    ensures (top - Midpoint(bottom, top)) * fraction * 2.0 == (top - bottom) * fraction
    ensures (Midpoint(bottom, top) - bottom) * fraction * 2.0 == (top - bottom) * fraction
    ensures (top - Midpoint(bottom, top)) * fraction > 0.0 <==> fraction > 0.0
    ensures (Midpoint(bottom, top) - bottom) * fraction > 0.0 <==> fraction > 0.0
  {
    var half := (top - bottom) * 0.5;
    assert top - Midpoint(bottom, top) == half && Midpoint(bottom, top) - bottom == half;
    SignOfProduct(half, fraction);
  }

  lemma SignOfProduct(x: real, y: real)
    requires x > 0.0
    ensures x * y > 0.0 <==> y > 0.0
  {
    if y > 0.0 {
      assert x * y > 0.0;
    } else {
      assert x * -y >= 0.0;
    }
  }

  lemma SignalOfPrefix(prm: Parameters, bars: seq<Bar>, m: nat, i: nat)
    requires ValidParameters(prm) && i < m <= |bars|
    ensures SignalAt(prm, bars[..m], ComputeAtr(bars[..m], prm.atrPeriod), i)
            == SignalAt(prm, bars, ComputeAtr(bars, prm.atrPeriod), i)
  {
    hide Midpoint, StopRisk, FadeTop, FadeBottom;
    AtrOfPrefix(bars, m, prm.atrPeriod);
    assert bars[..m][i] == bars[i];
    var a, b := ComputeAtr(bars[..m], prm.atrPeriod), ComputeAtr(bars, prm.atrPeriod);
    if prm.rangeLookback <= i {
      assert a[i - 1] == b[..m][i - 1] == b[i - 1];
      ExtremaOfPrefix(bars, m, i - prm.rangeLookback, i);
    }
  }

  /** The strategy's answer about bar i depends only on bars up to i. */
  lemma {:induction false} StrategyIsCausal(prm: Parameters, bars: seq<Bar>, m: nat)
    requires ValidParameters(prm) && m <= |bars|
    ensures CausalOn(StrategyOf(prm), bars, m)
  {
    var s := StrategyOf(prm);
    forall i: nat | i < m
      ensures s.onBar(bars[..m], i) == s.onBar(bars, i)
    {
      SignalOfPrefix(prm, bars, m, i);
    }
  }

  /** End to end: with precomputed ATR columns a backtest of the first m bars reports exactly the full
      backtest's trades that close before bar m, unless the Friday rule shows the cut. */
  lemma MeanReversionBacktestHasNoLookahead(cfg: Config, prm: Parameters, bars: seq<Bar>, m: nat)
    requires ValidParameters(prm) && ValidSettings(cfg) && m <= |bars| && FridaysAgree(cfg, bars, m)
    ensures CutsCleanly(cfg, StrategyOf(prm), bars, m)
  {
    StrategyIsCausal(prm, bars, m);
    NoLookaheadTheorem(cfg, StrategyOf(prm), bars, m);
  }
}
