/** Lot sizing: how many lots one stop may cost, and exactly when a valid lot stays within the
    configured risk and below the configured ceiling. */
module PositionSizer {
  import opened Market
  import opened Options

  datatype SymbolInfo = SymbolInfo(
    tickSize: real, tickValue: real, volumeMin: real, volumeStep: real, volumeMax: real)

  datatype Sizer = Sizer(riskBuffer: real, allowUndersized: bool, maxLot: Option<real>)

  const SANITY_MULTIPLIER: real := 20.0

  datatype RiskSource = OrderCalcProfit | TickFormula

  datatype SizingError =
    | NoSymbolInfo | InvalidTickSize | InvalidTickValue | InvalidStopDistance | InvalidRisk
    | InvalidRiskPerLot | AnomalousLot | LotAboveMax | LotBelowMin | CannotFitRisk

  datatype Sizing = Sizing(lot: real, actualRisk: real, riskPerLot: real, source: RiskSource, stopDistance: real)

  // ---------- decimal rounding ----------

  /** Nearest whole number, ties to even. */
  function RoundUnits(y: real): int {
    var f := y.Floor;
    var rest := y - f as real;
    if rest < 0.5 then f else if rest > 0.5 then f + 1 else if f % 2 == 0 then f else f + 1
  }

  function Round2(x: real): real { RoundUnits(x * 100.0) as real / 100.0 }

  function Round4(x: real): real { RoundUnits(x * 10000.0) as real / 10000.0 }

  function Round8(x: real): real { RoundUnits(x * 100000000.0) as real / 100000000.0 }

  /** A whole number of ten-thousandths. */
  predicate OnGrid(x: real) { (x * 10000.0).Floor as real == x * 10000.0 }

  // ---------- sizing ----------

  /** A product under a name, so that proofs can treat it as opaque. */
  function Times(x: real, y: real): real { x * y }

  function StopCost(lot: real, perLot: real): real { Times(lot, perLot) }

  function Buffered(amount: real, buffer: real): real { Times(amount, buffer) }

  function Lots(amount: real, perLot: real): real
    requires perLot > 0.0
  {
    amount / perLot
  }

  function TickRisk(info: SymbolInfo, entry: real, stop: real): real
    requires info.tickSize > 0.0
  {
    AbsR(entry - stop) / info.tickSize * info.tickValue
  }

  /** Risk of one lot from entry to stop: the broker's own estimate if it gives a positive one. */
  function RiskPerLot(info: SymbolInfo, entry: real, stop: real, estimate: Option<real>): real
    requires info.tickSize > 0.0
  {
    if estimate.Some? && estimate.value > 0.0 then estimate.value else TickRisk(info, entry, stop)
  }

  function SourceOf(estimate: Option<real>): RiskSource {
    if estimate.Some? && estimate.value > 0.0 then OrderCalcProfit else TickFormula
  }

  function StepsOf(count: int, step: real): real { Times(count as real, step) }

  /** Whole steps in a lot, floored. */
  function WholeSteps(lot: real, step: real): real
    requires step > 0.0
  {
    StepsOf((lot / step).Floor, step)
  }

  function RoundDownToStep(lot: real, step: real): real {
    if step <= 0.0 then lot else Round8(WholeSteps(lot, step))
  }

  /** The raw lot is more than the sanity multiple of what the manual tick formula would give. */
  predicate Anomalous(effective: real, raw: real, manualRisk: real) {
    manualRisk > 0.0 && Lots(effective, manualRisk) > 0.0 && raw > Lots(effective, manualRisk) * SANITY_MULTIPLIER
  }

  /** From the raw lot to the lot that is sent. */
  function FitLot(sizer: Sizer, info: SymbolInfo, raw: real, perLot: real, risk: real): Result<real, SizingError> {
    var rounded := RoundDownToStep(raw, info.volumeStep);
    if rounded < info.volumeMin && !sizer.allowUndersized then Failure(LotBelowMin)
    else
      var lot := MinR(if rounded < info.volumeMin then info.volumeMin else rounded, info.volumeMax);
      if StopCost(lot, perLot) <= risk then Success(lot)
      else if lot - info.volumeStep >= info.volumeMin then Success(lot - info.volumeStep)
      else Failure(CannotFitRisk)
  }

  /** Sizing once the inputs are known to be usable. */
  function SizePriced(sizer: Sizer, info: SymbolInfo, manualRisk: real, perLot: real, risk: real): Result<real, SizingError>
    requires perLot > 0.0
  {
    var effective := Buffered(risk, sizer.riskBuffer);
    var raw := Lots(effective, perLot);
    if Anomalous(effective, raw, manualRisk) then Failure(AnomalousLot)
    else if sizer.maxLot.Some? && raw > sizer.maxLot.value then Failure(LotAboveMax)
    else FitLot(sizer, info, raw, perLot, risk)
  }

  function CalculateLot(sizer: Sizer, symbol: Option<SymbolInfo>, entry: real, stop: real, risk: real, estimate: Option<real>)
    : Result<Sizing, SizingError>
  {
    if symbol.None? then Failure(NoSymbolInfo)
    else
      var info := symbol.value;
      if info.tickSize <= 0.0 then Failure(InvalidTickSize)
      else if info.tickValue <= 0.0 then Failure(InvalidTickValue)
      else if AbsR(entry - stop) <= 0.0 then Failure(InvalidStopDistance)
      else if risk <= 0.0 then Failure(InvalidRisk)
      else
        var perLot := RiskPerLot(info, entry, stop, estimate);
        if perLot <= 0.0 then Failure(InvalidRiskPerLot)
        else
          match SizePriced(sizer, info, TickRisk(info, entry, stop), perLot, risk)
          case Failure(e) => Failure(e)
          case Success(lot) =>
            Success(Sizing(Round4(lot), Round2(StopCost(lot, perLot)), Round2(perLot), SourceOf(estimate), AbsR(entry - stop)))
  }

  // ---------- arithmetic ----------

  lemma RoundWhole(k: int)
    ensures RoundUnits(k as real) == k && (k as real).Floor == k
  {}

  lemma {:induction false} GridIsExact(x: real)
    requires OnGrid(x)
    ensures Round4(x) == x && Round8(x) == x
  {
    hide RoundUnits;
    var k := (x * 10000.0).Floor;
    RoundWhole(k);
    RoundWhole(10000 * k);
    assert x * 100000000.0 == (10000 * k) as real;
  }

  lemma RoundBound(y: real, k: int)
    requires y <= k as real
    ensures RoundUnits(y) <= k
  {}

  /** Rounding cannot climb over a grid point. */
  lemma RoundBelowGrid(x: real, top: real)
    requires OnGrid(top) && x <= top
    ensures Round4(x) <= top
  {
    hide RoundUnits;
    RoundBound(x * 10000.0, (top * 10000.0).Floor);
  }

  lemma ProductOfWholes(m: int, k: int)
    ensures m as real * k as real == (m * k) as real
  {}

  /** Real multiples of a whole number of ten-thousandths are whole numbers of ten-thousandths. */
  lemma StepsOnGrid(m: int, step: real, k: int)
    requires step == k as real / 10000.0
    ensures StepsOf(m, step) * 10000.0 == (m * k) as real
  {
    ProductOfWholes(m, k);
  }

  lemma StepMultipleOnGrid(m: int, step: real)
    requires OnGrid(step)
    ensures OnGrid(StepsOf(m, step))
  {
    hide StepsOf;
    var k := (step * 10000.0).Floor;
    StepsOnGrid(m, step, k);
    RoundWhole(m * k);
  }

  lemma TimesOrder(x: real, y: real, f: real)
    requires x <= y && f >= 0.0
    ensures Times(x, f) <= Times(y, f)
  {
    assert (y - x) * f >= 0.0;
  }

  lemma TimesStrict(x: real, y: real, f: real)
    requires x < y && f > 0.0
    ensures Times(x, f) < Times(y, f)
  {
    assert (y - x) * f > 0.0;
  }

  lemma TimesNegated(x: real, f: real)
    ensures Times(x, -f) == -Times(x, f)
  {}

  lemma TimesSwap(x: real, y: real, z: real)
    ensures Times(Times(x, y), z) == Times(Times(x, z), y)
  {}

  lemma DivideBack(x: real, f: real)
    requires f > 0.0
    ensures Times(x / f, f) == x
  {}

  lemma CancelFactor(x: real, f: real)
    requires f > 0.0
    ensures Times(x, f) / f == x
  {}

  lemma OneStepMore(m: int, step: real)
    ensures Times((m + 1) as real, step) == Times(m as real, step) + step
  {
    var x := m as real;
    assert (x + 1.0) * step == x * step + step;
  }

  lemma WholeStepsBelow(raw: real, step: real)
    requires step > 0.0
    ensures WholeSteps(raw, step) <= raw < WholeSteps(raw, step) + step
  {
    hide Times;
    var q := raw / step;
    var m := q.Floor;
    DivideBack(raw, step);
    OneStepMore(m, step);
    TimesOrder(m as real, q, step);
    TimesStrict(q, (m + 1) as real, step);
  }

  lemma RoundIsNear(x: real)
    ensures x - 0.000000005 <= Round8(x) <= x + 0.000000005
  {}

  /** For every positive step the rounded-down lot is within one step below the raw lot, up to the eighth
      digit; for a step on the grid it is so exactly, and on the grid itself. */
  lemma RoundedDown(raw: real, step: real)
    requires step > 0.0
    ensures var lot := RoundDownToStep(raw, step); lot - 0.000000005 <= raw < lot + step + 0.000000005
    ensures OnGrid(step) ==>
              var lot := RoundDownToStep(raw, step); lot == WholeSteps(raw, step) && OnGrid(lot) && lot <= raw < lot + step
  {
    hide Round8, StepsOf, RoundUnits, OnGrid, Round4;
    WholeStepsBelow(raw, step);
    RoundIsNear(WholeSteps(raw, step));
    if OnGrid(step) {
      RoundedDownOnGrid(raw, step);
    }
  }

  lemma RoundedDownOnGrid(raw: real, step: real)
    requires step > 0.0 && OnGrid(step)
    ensures RoundDownToStep(raw, step) == WholeSteps(raw, step) && OnGrid(WholeSteps(raw, step))
  {
    StepMultipleOnGrid((raw / step).Floor, step);
    hide OnGrid, Round8, Round4, StepsOf;
    GridIsExact(WholeSteps(raw, step));
  }

  lemma CostOrder(x: real, y: real, perLot: real)
    requires perLot > 0.0
    ensures x <= y <==> StopCost(x, perLot) <= StopCost(y, perLot)
  {
    hide Times;
    if x <= y {
      TimesOrder(x, y, perLot);
    } else {
      TimesStrict(y, x, perLot);
    }
  }

  lemma CostOfLots(amount: real, perLot: real)
    requires perLot > 0.0
    ensures StopCost(Lots(amount, perLot), perLot) == amount
  {
    hide Times;
    DivideBack(amount, perLot);
  }

  lemma BufferOrder(x: real, y: real, buffer: real)
    requires x <= y
    ensures buffer >= 0.0 ==> Buffered(x, buffer) <= Buffered(y, buffer)
    ensures buffer <= 0.0 ==> Buffered(x, buffer) >= Buffered(y, buffer)
    ensures buffer < 0.0 && x < y ==> Buffered(x, buffer) > Buffered(y, buffer)
  {
    hide Times;
    TimesNegated(x, buffer);
    TimesNegated(y, buffer);
    if buffer >= 0.0 {
      TimesOrder(x, y, buffer);
    }
    if buffer <= 0.0 {
      TimesOrder(x, y, -buffer);
    }
    if buffer < 0.0 && x < y {
      TimesStrict(x, y, -buffer);
    }
  }

  lemma BufferShrinks(x: real, buffer: real)
    requires x >= 0.0 && buffer <= 1.0
    ensures Buffered(x, buffer) <= x
  {
    assert (1.0 - buffer) * x >= 0.0;
  }

  /** Buffering a risk buffers its lots. */
  lemma BufferedLots(amount: real, buffer: real, perLot: real)
    requires perLot > 0.0
    ensures Lots(Buffered(amount, buffer), perLot) == Buffered(Lots(amount, perLot), buffer)
  {
    hide Times;
    var q := amount / perLot;
    DivideBack(amount, perLot);
    TimesSwap(q, perLot, buffer);
    CancelFactor(Times(q, buffer), perLot);
  }

  lemma LotsOfCost(lots: real, perLot: real)
    requires perLot > 0.0
    ensures Lots(StopCost(lots, perLot), perLot) == lots
  {
    hide Times;
    CancelFactor(lots, perLot);
  }

  // ---------- the sizing theorems ----------

  /** What the sizing contract assumes of the configuration and the broker's volume step. */
  predicate SaneSizing(sizer: Sizer, info: SymbolInfo) {
    sizer.riskBuffer <= 1.0 && info.volumeStep > 0.0 && OnGrid(info.volumeStep)
  }

  /** The lot an undersized request falls back to. */
  function FallbackLot(info: SymbolInfo): real { MinR(info.volumeMin, info.volumeMax) }

  /** A request that was priced and passed the checks on the raw lot; `lots` is its unbuffered size. */
  ghost predicate Priced(sizer: Sizer, lots: real, perLot: real, risk: real, raw: real) {
    && perLot > 0.0 && risk > 0.0 && lots == Lots(risk, perLot) && raw == Buffered(lots, sizer.riskBuffer)
    && lots > 0.0 && StopCost(lots, perLot) == risk
    && (sizer.maxLot.Some? ==> raw <= sizer.maxLot.value)
  }

  /** What a valid answer says about the way it was reached. */
  lemma {:induction false} ValidAnswer(sizer: Sizer, info: SymbolInfo, entry: real, stop: real, risk: real, estimate: Option<real>)
      returns (perLot: real, lots: real, raw: real)
    requires CalculateLot(sizer, Some(info), entry, stop, risk, estimate).Success?
    ensures info.tickSize > 0.0 && info.tickValue > 0.0
    ensures perLot == RiskPerLot(info, entry, stop, estimate) && Priced(sizer, lots, perLot, risk, raw)
    ensures FitLot(sizer, info, raw, perLot, risk).Success?
    ensures CalculateLot(sizer, Some(info), entry, stop, risk, estimate).value.lot
            == Round4(FitLot(sizer, info, raw, perLot, risk).value)
  {
    hide FitLot, Round2, Round4, TickRisk, Anomalous, Lots, Buffered, StopCost, RiskPerLot;
    perLot := RiskPerLot(info, entry, stop, estimate);
    lots := Lots(risk, perLot);
    raw := Buffered(lots, sizer.riskBuffer);
    BufferedLots(risk, sizer.riskBuffer, perLot);
    CostOfLots(risk, perLot);
    CostOrder(lots, 0.0, perLot);
    NoLotsNoCost(perLot);
  }

  lemma NoLotsNoCost(perLot: real)
    ensures StopCost(0.0, perLot) == 0.0
  {}

  /** A fitted lot is a step multiple at or below the raw lot (or the broker's maximum below that), or
      the fallback lot; the retry with one step less is never taken. */
  lemma {:induction false} FittedLot(sizer: Sizer, info: SymbolInfo, lots: real, perLot: real, risk: real, raw: real)
    requires SaneSizing(sizer, info) && Priced(sizer, lots, perLot, risk, raw)
    requires FitLot(sizer, info, raw, perLot, risk).Success?
    ensures var lot := FitLot(sizer, info, raw, perLot, risk).value;
            || (Round4(lot) <= RoundDownToStep(raw, info.volumeStep) <= raw <= lots)
            || (sizer.allowUndersized && lot == FallbackLot(info) <= lots)
  {
    hide RoundDownToStep, OnGrid, Round4, StopCost, Buffered, Lots;
    RoundedDown(raw, info.volumeStep);
    BufferShrinks(lots, sizer.riskBuffer);
    var rounded := RoundDownToStep(raw, info.volumeStep);
    var lot := MinR(if rounded < info.volumeMin then info.volumeMin else rounded, info.volumeMax);
    CostOrder(lot, lots, perLot);
    if rounded >= info.volumeMin {
      RoundBelowGrid(lot, rounded);
    }
  }

  /** A valid lot, stopped out, costs at most the configured risk. */
  predicate FitsRisk(sizer: Sizer, info: SymbolInfo, entry: real, stop: real, risk: real, estimate: Option<real>) {
    var r := CalculateLot(sizer, Some(info), entry, stop, risk, estimate);
    r.Success? && info.tickSize > 0.0 ==> StopCost(r.value.lot, RiskPerLot(info, entry, stop, estimate)) <= risk
  }

  /** The raw-lot ceiling turns away every request that the fallback lot would only fit unrounded. */
  predicate CeilingShields(sizer: Sizer, v: real) {
    sizer.maxLot.Some? &&
    if sizer.riskBuffer >= 0.0 then Buffered(v, sizer.riskBuffer) > sizer.maxLot.value
    else Buffered(Round4(v), sizer.riskBuffer) >= sizer.maxLot.value
  }

  /** The final rounding to four digits cannot raise the fallback lot, or no valid request reaches it. */
  predicate FallbackIsExact(sizer: Sizer, info: SymbolInfo) {
    var v := FallbackLot(info);
    || !sizer.allowUndersized || info.tickSize <= 0.0 || info.tickValue <= 0.0
    || v <= 0.0 || Round4(v) <= v || CeilingShields(sizer, v)
  }

  lemma SizedLotFits(sizer: Sizer, info: SymbolInfo, entry: real, stop: real, risk: real, estimate: Option<real>)
    requires SaneSizing(sizer, info) && FallbackIsExact(sizer, info)
    ensures FitsRisk(sizer, info, entry, stop, risk, estimate)
  {
    hide CalculateLot, FitLot, Round4, FallbackIsExact, RoundDownToStep, RiskPerLot, SaneSizing, StopCost, Buffered, Lots, FallbackLot;
    if CalculateLot(sizer, Some(info), entry, stop, risk, estimate).Success? {
      var perLot, lots, raw := ValidAnswer(sizer, info, entry, stop, risk, estimate);
      FittedLot(sizer, info, lots, perLot, risk, raw);
      var lot := FitLot(sizer, info, raw, perLot, risk).value;
      if Round4(lot) > lots {
        RaisedFallback(sizer, info, lots, perLot, risk, raw);
      }
      CostOrder(Round4(lot), lots, perLot);
    }
  }

  /** An exact fallback lot is never raised above what the request could carry. */
  lemma RaisedFallback(sizer: Sizer, info: SymbolInfo, lots: real, perLot: real, risk: real, raw: real)
    requires FallbackIsExact(sizer, info) && sizer.allowUndersized && info.tickSize > 0.0 && info.tickValue > 0.0
    requires Priced(sizer, lots, perLot, risk, raw) && FallbackLot(info) <= lots
    ensures Round4(FallbackLot(info)) <= lots
  {
    hide Round4, FallbackLot, StopCost, Buffered, Lots;
    var v := FallbackLot(info);
    if v <= 0.0 {
      ZeroOnGrid();
      RoundBelowGrid(v, 0.0);
    } else if Round4(v) > lots {
      BufferOrder(v, lots, sizer.riskBuffer);
      BufferOrder(lots, Round4(v), sizer.riskBuffer);
    }
  }

  lemma ZeroOnGrid()
    ensures OnGrid(0.0)
  {}

  // ---------- the conditions are exact ----------

  /** A request whose stop is one tick away, priced by the tick formula, for the risk of `lots` lots. */
  lemma {:induction false} OneTickRequest(sizer: Sizer, info: SymbolInfo, lots: real)
    requires info.tickSize > 0.0 && info.tickValue > 0.0 && lots > 0.0
    requires sizer.maxLot.Some? ==> Buffered(lots, sizer.riskBuffer) <= sizer.maxLot.value
    ensures RiskPerLot(info, info.tickSize, 0.0, None) == info.tickValue
    ensures var r := CalculateLot(sizer, Some(info), info.tickSize, 0.0, StopCost(lots, info.tickValue), None);
            var f := FitLot(sizer, info, Buffered(lots, sizer.riskBuffer), info.tickValue, StopCost(lots, info.tickValue));
            r.Success? == f.Success? && (r.Success? ==> r.value.lot == Round4(f.value))
  {
    hide FitLot, Round2, Round4, Anomalous, TickRisk, StopCost, Buffered, Lots;
    var perLot, risk := info.tickValue, StopCost(lots, info.tickValue);
    OneTickRisk(info);
    BufferedLots(risk, sizer.riskBuffer, perLot);
    LotsOfCost(lots, perLot);
    CostOrder(lots, 0.0, perLot);
    NoLotsNoCost(perLot);
    NotAnomalous(Buffered(risk, sizer.riskBuffer), perLot);
  }

  lemma OneTickRisk(info: SymbolInfo)
    requires info.tickSize > 0.0
    ensures TickRisk(info, info.tickSize, 0.0) == info.tickValue
  {
    assert info.tickSize / info.tickSize == 1.0;
  }

  /** Priced by the tick formula itself, no lot is anomalous. */
  lemma NotAnomalous(effective: real, perLot: real)
    requires perLot > 0.0
    ensures !Anomalous(effective, Lots(effective, perLot), perLot)
  {
    hide Lots;
  }

  /** With the risk of `lots` lots, at least the fallback lot, an undersized request gets the fallback. */
  lemma FallbackReached(sizer: Sizer, info: SymbolInfo, lots: real, perLot: real)
    requires SaneSizing(sizer, info) && sizer.allowUndersized && perLot > 0.0 && 0.0 < FallbackLot(info) <= lots
    requires Buffered(lots, sizer.riskBuffer) <= FallbackLot(info)
    requires Buffered(lots, sizer.riskBuffer) < Round4(FallbackLot(info))
    ensures FitLot(sizer, info, Buffered(lots, sizer.riskBuffer), perLot, StopCost(lots, perLot)) == Success(FallbackLot(info))
  {
    hide RoundDownToStep, Round4, OnGrid, StopCost, Buffered;
    var v, raw := FallbackLot(info), Buffered(lots, sizer.riskBuffer);
    RoundedDown(raw, info.volumeStep);
    GridIsExact(RoundDownToStep(raw, info.volumeStep));
    CostOrder(v, lots, perLot);
  }

  /** The number of lots whose risk exposes the rounding: the fallback lot, or what the ceiling forces. */
  lemma ExposingLots(sizer: Sizer, v: real) returns (lots: real)
    requires 0.0 < v < Round4(v) && sizer.riskBuffer <= 1.0 && !CeilingShields(sizer, v)
    ensures v <= lots < Round4(v) && Buffered(lots, sizer.riskBuffer) <= v
    ensures sizer.maxLot.Some? ==> Buffered(lots, sizer.riskBuffer) <= sizer.maxLot.value
  {
    hide Round4, Buffered;
    var buffer := sizer.riskBuffer;
    lots := v;
    BufferShrinks(v, buffer);
    if buffer < 0.0 && sizer.maxLot.Some? {
      var edge := CeilingEdge(sizer.maxLot.value, buffer);
      if edge > v {
        BufferOrder(v, edge, buffer);
        if edge >= Round4(v) {
          BufferOrder(Round4(v), edge, buffer);
        }
        lots := edge;
      } else {
        BufferOrder(edge, v, buffer);
      }
    }
  }

  lemma CeilingEdge(ceiling: real, buffer: real) returns (edge: real)
    requires buffer < 0.0
    ensures Buffered(edge, buffer) == ceiling
  {
    edge := ceiling / buffer;
  }

  lemma UnsafeFallbackOverruns(sizer: Sizer, info: SymbolInfo) returns (risk: real)
    requires SaneSizing(sizer, info) && !FallbackIsExact(sizer, info)
    ensures !FitsRisk(sizer, info, info.tickSize, 0.0, risk, None)
  {
    hide Round4, OnGrid, CalculateLot, FitLot, RiskPerLot, FallbackLot, CeilingShields, StopCost, Buffered, SaneSizing;
    var v := FallbackLot(info);
    assert sizer.riskBuffer <= 1.0 by { SaneBuffer(sizer, info); }
    var lots := ExposingLots(sizer, v);
    risk := StopCost(lots, info.tickValue);
    FallbackReached(sizer, info, lots, info.tickValue);
    OneTickRequest(sizer, info, lots);
    CostOrder(Round4(v), lots, info.tickValue);
  }

  lemma SaneBuffer(sizer: Sizer, info: SymbolInfo)
    requires SaneSizing(sizer, info)
    ensures sizer.riskBuffer <= 1.0
  {}

  /** Exactly when sizing keeps its promise: for a buffer of at most one and a step of whole
      ten-thousandths, every valid lot's stop risk is within the configured risk on every request if and
      only if the final rounding cannot raise the fallback lot. */
  lemma {:induction false} EveryLotFitsExactlyWhen(sizer: Sizer, info: SymbolInfo)
    requires SaneSizing(sizer, info)
    ensures (forall entry, stop, risk, estimate :: FitsRisk(sizer, info, entry, stop, risk, estimate))
            <==> FallbackIsExact(sizer, info)
  {
    hide FitsRisk, FallbackIsExact, SaneSizing;
    if FallbackIsExact(sizer, info) {
      forall entry, stop, risk, estimate
        ensures FitsRisk(sizer, info, entry, stop, risk, estimate)
      {
        SizedLotFits(sizer, info, entry, stop, risk, estimate);
      }
    } else {
      var risk := UnsafeFallbackOverruns(sizer, info);
    }
  }

  // ---------- every positive step and buffer ----------

  lemma RoundAscends(y: real, z: real)
    requires y <= z
    ensures RoundUnits(y) <= RoundUnits(z)
  {
    assert y.Floor <= z.Floor;
  }

  lemma RoundedStepsAscend(x: real, y: real, step: real)
    requires x <= y && step > 0.0
    ensures RoundDownToStep(x, step) <= RoundDownToStep(y, step)
  {
    hide RoundUnits, Times;
    StepCountAscends(x, y, step);
    TimesOrder((x / step).Floor as real, (y / step).Floor as real, step);
    RoundAscends(WholeSteps(x, step) * 100000000.0, WholeSteps(y, step) * 100000000.0);
  }

  lemma StepCountAscends(x: real, y: real, step: real)
    requires x <= y && step > 0.0
    ensures (x / step).Floor <= (y / step).Floor
  {
    var d := (y - x) / step;
    assert d * step == y - x && d >= 0.0;
    assert y / step == x / step + d;
  }

  /** A raw lot between k and k + 1 steps has k whole steps. */
  lemma StepCount(raw: real, step: real, k: int)
    requires step > 0.0
    ensures StepsOf(k, step) <= raw < StepsOf(k + 1, step) <==> (raw / step).Floor == k
  {
    hide Times;
    var q := raw / step;
    DivideBack(raw, step);
    if q < k as real {
      TimesStrict(q, k as real, step);
    } else {
      TimesOrder(k as real, q, step);
    }
    if q < (k + 1) as real {
      TimesStrict(q, (k + 1) as real, step);
    } else {
      TimesOrder((k + 1) as real, q, step);
    }
  }

  /** The lot that k whole steps give when they reach the minimum. */
  function StepLot(info: SymbolInfo, k: nat): real { MinR(Round8(StepsOf(k, info.volumeStep)), info.volumeMax) }

  /** The smallest request, in unbuffered lots, that buffers to k whole steps. */
  function LeastLots(sizer: Sizer, info: SymbolInfo, k: nat): real
    requires sizer.riskBuffer > 0.0
  {
    Lots(StepsOf(k, info.volumeStep), sizer.riskBuffer)
  }

  predicate UnderCap(sizer: Sizer, raw: real) { sizer.maxLot.Some? ==> raw <= sizer.maxLot.value }

  /** Some request of k whole steps overruns: its lot fits but is rounded above the request, or its lot does
      not fit, and the one retry with a step less, which is not checked, does not fit either. */
  predicate StepOverruns(sizer: Sizer, info: SymbolInfo, k: nat)
    requires sizer.riskBuffer > 0.0
  {
    var lot, least, step := StepLot(info, k), LeastLots(sizer, info, k), info.volumeStep;
    var at := MaxR(least, lot);
    && k >= 1 && Round8(StepsOf(k, step)) >= info.volumeMin
    && (|| (at < LeastLots(sizer, info, k + 1) && at < Round4(lot) && UnderCap(sizer, Buffered(at, sizer.riskBuffer)))
        || (least < lot && lot - step >= info.volumeMin && least < Round4(lot - step) && UnderCap(sizer, StepsOf(k, step))))
  }

  /** Some undersized request fits the fallback lot only before it is rounded. */
  predicate FallbackOverruns(sizer: Sizer, info: SymbolInfo) {
    var v := FallbackLot(info);
    && sizer.allowUndersized && 0.0 < v < Round4(v)
    && RoundDownToStep(Buffered(v, sizer.riskBuffer), info.volumeStep) < info.volumeMin
    && UnderCap(sizer, Buffered(v, sizer.riskBuffer))
  }

  lemma BufferBack(x: real, buffer: real)
    requires buffer > 0.0
    ensures Buffered(Lots(x, buffer), buffer) == x
  {
    DivideBack(x, buffer);
  }

  lemma BufferCompare(x: real, y: real, buffer: real)
    requires buffer > 0.0
    ensures x < y <==> Buffered(x, buffer) < Buffered(y, buffer)
  {
    CostOrder(y, x, buffer);
  }

  lemma NothingRounds()
    ensures Round4(0.0) == 0.0 && Round8(0.0) == 0.0 && OnGrid(0.0)
  {}

  lemma NonPositiveStays(x: real)
    requires x <= 0.0
    ensures Round4(x) <= 0.0
  {
    NothingRounds();
    RoundBelowGrid(x, 0.0);
  }

  /** A request that gets whole steps: either it fits, or its number of steps is one that overruns. */
  lemma StepRequestFits(sizer: Sizer, info: SymbolInfo, lots: real, perLot: real, risk: real, raw: real, k: nat)
    requires info.volumeStep > 0.0 && sizer.riskBuffer > 0.0 && Priced(sizer, lots, perLot, risk, raw)
    requires StepsOf(k, info.volumeStep) <= raw < StepsOf(k + 1, info.volumeStep)
    requires Round8(StepsOf(k, info.volumeStep)) >= info.volumeMin && !StepOverruns(sizer, info, k)
    requires RoundDownToStep(raw, info.volumeStep) == Round8(StepsOf(k, info.volumeStep))
    requires FitLot(sizer, info, raw, perLot, risk).Success?
    ensures Round4(FitLot(sizer, info, raw, perLot, risk).value) <= lots
  {
    hide Round4, Round8, StopCost, Buffered, Lots, StepsOf, RoundDownToStep;
    var step, lot := info.volumeStep, StepLot(info, k);
    var least, next := LeastLots(sizer, info, k), LeastLots(sizer, info, k + 1);
    BufferBack(StepsOf(k, step), sizer.riskBuffer);
    BufferBack(StepsOf(k + 1, step), sizer.riskBuffer);
    BufferCompare(lots, least, sizer.riskBuffer);
    BufferCompare(lots, next, sizer.riskBuffer);
    assert least <= lots < next;
    CostOrder(lot, lots, perLot);
    if k == 0 {
      NoSteps(step);
      NothingRounds();
      NonPositiveStays(lot);
    } else if lot <= lots {
      BufferOrder(MaxR(least, lot), lots, sizer.riskBuffer);
    }
  }

  lemma NoSteps(step: real)
    ensures StepsOf(0, step) == 0.0
  {}

  /** An undersized request fits, or the fallback overruns. */
  lemma FallbackRequestFits(sizer: Sizer, info: SymbolInfo, lots: real, perLot: real, risk: real, raw: real)
    requires info.volumeStep > 0.0 && sizer.riskBuffer > 0.0 && Priced(sizer, lots, perLot, risk, raw)
    requires RoundDownToStep(raw, info.volumeStep) < info.volumeMin && !FallbackOverruns(sizer, info)
    requires FitLot(sizer, info, raw, perLot, risk).Success?
    ensures Round4(FitLot(sizer, info, raw, perLot, risk).value) <= lots
  {
    hide Round4, StopCost, Buffered, Lots, RoundDownToStep;
    var v := FallbackLot(info);
    CostOrder(v, lots, perLot);
    if v <= 0.0 {
      NonPositiveStays(v);
    } else if v <= lots {
      BufferOrder(v, lots, sizer.riskBuffer);
      RoundedStepsAscend(Buffered(v, sizer.riskBuffer), raw, info.volumeStep);
    }
  }

  lemma PositiveStepFits(sizer: Sizer, info: SymbolInfo, entry: real, stop: real, risk: real, estimate: Option<real>)
    requires info.volumeStep > 0.0 && sizer.riskBuffer > 0.0 && !FallbackOverruns(sizer, info)
    requires forall k: nat :: !StepOverruns(sizer, info, k)
    ensures FitsRisk(sizer, info, entry, stop, risk, estimate)
  {
    hide CalculateLot, FitLot, Round4, Round8, RiskPerLot, StopCost, Buffered, Lots, StepsOf, StepOverruns, FallbackOverruns;
    if CalculateLot(sizer, Some(info), entry, stop, risk, estimate).Success? {
      var perLot, lots, raw := ValidAnswer(sizer, info, entry, stop, risk, estimate);
      var step, k := info.volumeStep, (raw / info.volumeStep).Floor;
      RawIsPositive(lots, sizer.riskBuffer);
      CountIsNatural(raw, step);
      StepCount(raw, step, k);
      if RoundDownToStep(raw, step) >= info.volumeMin {
        StepRequestFits(sizer, info, lots, perLot, risk, raw, k);
      } else {
        FallbackRequestFits(sizer, info, lots, perLot, risk, raw);
      }
      CostOrder(Round4(FitLot(sizer, info, raw, perLot, risk).value), lots, perLot);
    }
  }

  lemma RawIsPositive(lots: real, buffer: real)
    requires lots > 0.0 && buffer > 0.0
    ensures Buffered(lots, buffer) > 0.0
  {
    TimesStrict(0.0, lots, buffer);
  }

  lemma CountIsNatural(raw: real, step: real)
    requires raw >= 0.0 && step > 0.0
    ensures (raw / step).Floor >= 0
  {
    assert raw / step >= 0.0;
  }

  /** The overrunning request of k steps. */
  lemma StepOverrunsShown(sizer: Sizer, info: SymbolInfo, k: nat) returns (risk: real)
    requires info.volumeStep > 0.0 && sizer.riskBuffer > 0.0 && info.tickSize > 0.0 && info.tickValue > 0.0
    requires StepOverruns(sizer, info, k)
    ensures !FitsRisk(sizer, info, info.tickSize, 0.0, risk, None)
  {
    hide CalculateLot, RiskPerLot, Round4, Round8, StopCost, Buffered, Lots, StepsOf;
    var step, lot, least := info.volumeStep, StepLot(info, k), LeastLots(sizer, info, k);
    var next := LeastLots(sizer, info, k + 1);
    var at := MaxR(least, lot);
    var lots := if at < next && at < Round4(lot) && UnderCap(sizer, Buffered(at, sizer.riskBuffer)) then at else least;
    risk := StopCost(lots, info.tickValue);
    var raw := Buffered(lots, sizer.riskBuffer);
    BufferBack(StepsOf(k, step), sizer.riskBuffer);
    BufferBack(StepsOf(k + 1, step), sizer.riskBuffer);
    StepsAscend(k, step);
    BufferCompare(lots, least, sizer.riskBuffer);
    BufferCompare(lots, next, sizer.riskBuffer);
    BufferCompare(least, next, sizer.riskBuffer);
    LeastIsPositive(sizer, info, k);
    StepCount(raw, step, k);
    OneTickRequest(sizer, info, lots);
    CostOrder(lot, lots, info.tickValue);
    CostOrder(Round4(lot), lots, info.tickValue);
    CostOrder(Round4(lot - step), lots, info.tickValue);
  }

  lemma StepsAscend(k: nat, step: real)
    requires step > 0.0
    ensures StepsOf(k, step) < StepsOf(k + 1, step)
  {
    OneStepMore(k, step);
  }

  lemma LeastIsPositive(sizer: Sizer, info: SymbolInfo, k: nat)
    requires info.volumeStep > 0.0 && sizer.riskBuffer > 0.0 && k >= 1
    ensures LeastLots(sizer, info, k) > 0.0
  {
    hide Times;
    TimesStrict(0.0, k as real, info.volumeStep);
    ZeroTimes(info.volumeStep);
    var x := StepsOf(k, info.volumeStep);
    PositiveQuotient(x, sizer.riskBuffer);
  }

  lemma ZeroTimes(f: real)
    ensures Times(0.0, f) == 0.0
  {}

  lemma PositiveQuotient(x: real, f: real)
    requires x > 0.0 && f > 0.0
    ensures x / f > 0.0
  {}

  lemma FallbackOverrunShown(sizer: Sizer, info: SymbolInfo) returns (risk: real)
    requires info.volumeStep > 0.0 && sizer.riskBuffer > 0.0 && info.tickSize > 0.0 && info.tickValue > 0.0
    requires FallbackOverruns(sizer, info)
    ensures !FitsRisk(sizer, info, info.tickSize, 0.0, risk, None)
  {
    hide CalculateLot, RiskPerLot, Round4, StopCost, Buffered, RoundDownToStep;
    var v := FallbackLot(info);
    risk := StopCost(v, info.tickValue);
    OneTickRequest(sizer, info, v);
    CostOrder(Round4(v), v, info.tickValue);
  }

  /** No more steps than these can overrun: beyond them a request is larger than the rounded maximum. */
  function LastStep(sizer: Sizer, info: SymbolInfo): int
    requires info.volumeStep > 0.0
  {
    (Buffered(MaxR(info.volumeMax, Round4(info.volumeMax)), sizer.riskBuffer) / info.volumeStep).Floor
  }

  /** So many whole steps are in a lot that is not below them. */
  lemma CountedSteps(x: real, step: real, k: int)
    requires step > 0.0 && StepsOf(k, step) <= x
    ensures k <= (x / step).Floor
  {
    hide Times;
    DivideBack(x, step);
    if x / step < k as real {
      TimesStrict(x / step, k as real, step);
    }
  }

  lemma OverrunsAreBounded(sizer: Sizer, info: SymbolInfo, k: nat)
    requires info.volumeStep > 0.0 && sizer.riskBuffer > 0.0 && StepOverruns(sizer, info, k)
    ensures k <= LastStep(sizer, info)
  {
    hide Round4, Round8, Buffered, Lots, StepsOf;
    var top := MaxR(info.volumeMax, Round4(info.volumeMax));
    Round4Ascends(StepLot(info, k), info.volumeMax);
    assert LeastLots(sizer, info, k) < top;
    BufferBack(StepsOf(k, info.volumeStep), sizer.riskBuffer);
    BufferCompare(LeastLots(sizer, info, k), top, sizer.riskBuffer);
    CountedSteps(Buffered(top, sizer.riskBuffer), info.volumeStep, k);
  }

  lemma Round4Ascends(x: real, y: real)
    requires x <= y
    ensures Round4(x) <= Round4(y)
  {
    hide RoundUnits;
    RoundAscends(x * 10000.0, y * 10000.0);
  }

  /** Exactly when sizing keeps its promise for any positive step and buffer, on or off the grid, and any
      minimum and maximum: every valid lot's stop risk is within the configured risk on every request if and
      only if no number of whole steps up to the broker's maximum overruns and the fallback does not. */
  lemma PositiveStepFitsExactlyWhen(sizer: Sizer, info: SymbolInfo)
    requires info.volumeStep > 0.0 && sizer.riskBuffer > 0.0 && info.tickSize > 0.0 && info.tickValue > 0.0
    ensures (forall entry, stop, risk, estimate :: FitsRisk(sizer, info, entry, stop, risk, estimate))
            <==> !FallbackOverruns(sizer, info) && forall k: nat | k <= LastStep(sizer, info) :: !StepOverruns(sizer, info, k)
  {
    hide FitsRisk, FallbackOverruns, StepOverruns, LastStep;
    if FallbackOverruns(sizer, info) {
      var risk := FallbackOverrunShown(sizer, info);
    } else if k: nat :| StepOverruns(sizer, info, k) {
      var risk := StepOverrunsShown(sizer, info, k);
      OverrunsAreBounded(sizer, info, k);
    } else {
      forall entry, stop, risk, estimate
        ensures FitsRisk(sizer, info, entry, stop, risk, estimate)
      {
        PositiveStepFits(sizer, info, entry, stop, risk, estimate);
      }
    }
  }

  // ---------- the absolute ceiling ----------

  predicate UnderCeiling(sizer: Sizer, info: SymbolInfo, entry: real, stop: real, risk: real, estimate: Option<real>)
    requires sizer.maxLot.Some?
  {
    var r := CalculateLot(sizer, Some(info), entry, stop, risk, estimate);
    r.Success? ==> r.value.lot <= sizer.maxLot.value
  }

  /** The ceiling is checked on the raw lot, before an undersized request is raised to the fallback. */
  predicate FallbackOverCeiling(sizer: Sizer, info: SymbolInfo)
    requires sizer.maxLot.Some?
  {
    var v := FallbackLot(info);
    && sizer.allowUndersized && 0.0 < v
    && RoundDownToStep(Buffered(v, sizer.riskBuffer), info.volumeStep) < info.volumeMin
    && Buffered(v, sizer.riskBuffer) <= sizer.maxLot.value < Round4(v)
  }

  /** ... and before the roundings to eight and to four digits: some raw lot of k whole steps passes the
      check, and its lot, or its retry with a step less, is rounded above the ceiling. */
  predicate StepOverCeiling(sizer: Sizer, info: SymbolInfo, k: nat)
    requires sizer.maxLot.Some?
  {
    var lot, least, step := StepLot(info, k), StepsOf(k, info.volumeStep), info.volumeStep;
    var at := MaxR(least, Buffered(lot, sizer.riskBuffer));
    && sizer.riskBuffer > 0.0 && k >= 1 && Round8(least) >= info.volumeMin
    && (|| (at < StepsOf(k + 1, step) && at <= sizer.maxLot.value < Round4(lot))
        || (least < Buffered(lot, sizer.riskBuffer) && lot - step >= info.volumeMin
            && least <= sizer.maxLot.value < Round4(lot - step)))
  }

  lemma StepRequestUnder(sizer: Sizer, info: SymbolInfo, lots: real, perLot: real, risk: real, raw: real, k: nat)
    requires info.volumeStep > 0.0 && sizer.maxLot.Some? && Priced(sizer, lots, perLot, risk, raw) && raw >= 0.0
    requires StepsOf(k, info.volumeStep) <= raw < StepsOf(k + 1, info.volumeStep) && (k == 0 || sizer.riskBuffer > 0.0)
    requires Round8(StepsOf(k, info.volumeStep)) >= info.volumeMin && !StepOverCeiling(sizer, info, k)
    requires RoundDownToStep(raw, info.volumeStep) == Round8(StepsOf(k, info.volumeStep))
    requires FitLot(sizer, info, raw, perLot, risk).Success?
    ensures Round4(FitLot(sizer, info, raw, perLot, risk).value) <= sizer.maxLot.value
  {
    hide Round4, Round8, StopCost, Buffered, Lots, StepsOf, RoundDownToStep;
    var step, lot := info.volumeStep, StepLot(info, k);
    CostOrder(lot, lots, perLot);
    if k == 0 {
      NoSteps(step);
      NothingRounds();
      NonPositiveStays(lot);
      NonPositiveStays(lot - step);
    } else {
      BufferCompare(lots, lot, sizer.riskBuffer);
    }
  }

  lemma FallbackRequestUnder(sizer: Sizer, info: SymbolInfo, lots: real, perLot: real, risk: real, raw: real)
    requires info.volumeStep > 0.0 && sizer.riskBuffer >= 0.0 && sizer.maxLot.Some?
    requires Priced(sizer, lots, perLot, risk, raw) && raw >= 0.0
    requires RoundDownToStep(raw, info.volumeStep) < info.volumeMin && !FallbackOverCeiling(sizer, info)
    requires FitLot(sizer, info, raw, perLot, risk).Success?
    ensures Round4(FitLot(sizer, info, raw, perLot, risk).value) <= sizer.maxLot.value
  {
    hide Round4, StopCost, Buffered, Lots, RoundDownToStep;
    var v := FallbackLot(info);
    CostOrder(v, lots, perLot);
    if v <= 0.0 {
      NonPositiveStays(v);
    } else if v <= lots {
      BufferOrder(v, lots, sizer.riskBuffer);
      RoundedStepsAscend(Buffered(v, sizer.riskBuffer), raw, info.volumeStep);
    }
  }

  /** A zero buffer leaves no whole step. */
  lemma BufferedIsNatural(lots: real, buffer: real)
    requires lots > 0.0 && buffer >= 0.0
    ensures Buffered(lots, buffer) >= 0.0
    ensures buffer == 0.0 ==> Buffered(lots, buffer) == 0.0
  {
    if buffer > 0.0 {
      RawIsPositive(lots, buffer);
    }
  }

  lemma SizedLotUnderCeiling(sizer: Sizer, info: SymbolInfo, entry: real, stop: real, risk: real, estimate: Option<real>)
    requires info.volumeStep > 0.0 && sizer.riskBuffer >= 0.0 && sizer.maxLot.Some? && !FallbackOverCeiling(sizer, info)
    requires forall k: nat :: !StepOverCeiling(sizer, info, k)
    ensures UnderCeiling(sizer, info, entry, stop, risk, estimate)
  {
    hide CalculateLot, FitLot, Round4, Round8, RiskPerLot, StopCost, Buffered, Lots, StepsOf, StepOverCeiling, FallbackOverCeiling;
    if CalculateLot(sizer, Some(info), entry, stop, risk, estimate).Success? {
      var perLot, lots, raw := ValidAnswer(sizer, info, entry, stop, risk, estimate);
      var step, k := info.volumeStep, (raw / info.volumeStep).Floor;
      BufferedIsNatural(lots, sizer.riskBuffer);
      CountIsNatural(raw, step);
      StepCount(raw, step, k);
      if RoundDownToStep(raw, step) >= info.volumeMin {
        StepRequestUnder(sizer, info, lots, perLot, risk, raw, k);
      } else {
        FallbackRequestUnder(sizer, info, lots, perLot, risk, raw);
      }
    }
  }

  lemma FallbackBreaksCeiling(sizer: Sizer, info: SymbolInfo) returns (risk: real)
    requires sizer.maxLot.Some? && FallbackOverCeiling(sizer, info) && info.tickSize > 0.0 && info.tickValue > 0.0
    ensures !UnderCeiling(sizer, info, info.tickSize, 0.0, risk, None)
  {
    hide CalculateLot, RiskPerLot, Round4, StopCost, Buffered, RoundDownToStep;
    var v := FallbackLot(info);
    risk := StopCost(v, info.tickValue);
    OneTickRequest(sizer, info, v);
  }

  /** The request of k steps that ends above the ceiling. */
  lemma StepsBreakCeiling(sizer: Sizer, info: SymbolInfo, k: nat) returns (risk: real)
    requires info.volumeStep > 0.0 && sizer.maxLot.Some? && StepOverCeiling(sizer, info, k)
    requires info.tickSize > 0.0 && info.tickValue > 0.0
    ensures !UnderCeiling(sizer, info, info.tickSize, 0.0, risk, None)
  {
    hide CalculateLot, RiskPerLot, Round4, Round8, StopCost, Buffered, Lots, StepsOf;
    var lot, least, step := StepLot(info, k), StepsOf(k, info.volumeStep), info.volumeStep;
    var at := MaxR(least, Buffered(lot, sizer.riskBuffer));
    var raw := if at < StepsOf(k + 1, step) && at <= sizer.maxLot.value < Round4(lot) then at else least;
    var lots := Lots(raw, sizer.riskBuffer);
    risk := StopCost(lots, info.tickValue);
    BufferBack(raw, sizer.riskBuffer);
    StepsAscend(k, step);
    LeastIsPositive(sizer, info, k);
    BufferBack(least, sizer.riskBuffer);
    BufferCompare(lots, LeastLots(sizer, info, k), sizer.riskBuffer);
    StepCount(raw, step, k);
    OneTickRequest(sizer, info, lots);
    BufferCompare(lots, lot, sizer.riskBuffer);
    CostOrder(lot, lots, info.tickValue);
  }

  /** No more whole steps than these pass the check on the raw lot. */
  function LastStepUnder(ceiling: real, step: real): int
    requires step > 0.0
  {
    (ceiling / step).Floor
  }

  /** Exactly when the absolute ceiling holds for every request, for any positive step, on or off the grid,
      and any minimum and maximum: no undersized request is raised over it, and no number of whole steps
      below it has a lot that the roundings, or the unchecked retry, take over it. On the grid of whole
      ten-thousandths only the first can happen. */
  lemma CeilingHoldsExactlyWhen(sizer: Sizer, info: SymbolInfo)
    requires info.volumeStep > 0.0 && sizer.riskBuffer >= 0.0 && sizer.maxLot.Some?
    requires info.tickSize > 0.0 && info.tickValue > 0.0
    ensures (forall entry, stop, risk, estimate :: UnderCeiling(sizer, info, entry, stop, risk, estimate))
            <==> !FallbackOverCeiling(sizer, info)
                 && forall k: nat | k <= LastStepUnder(sizer.maxLot.value, info.volumeStep) :: !StepOverCeiling(sizer, info, k)
    ensures OnGrid(info.volumeStep) ==> forall k: nat :: !StepOverCeiling(sizer, info, k)
  {
    hide UnderCeiling, FallbackOverCeiling, StepOverCeiling, LastStepUnder, OnGrid;
    if OnGrid(info.volumeStep) {
      forall k: nat
        ensures !StepOverCeiling(sizer, info, k)
      {
        GridStepsStayUnder(sizer, info, k);
      }
    }
    if FallbackOverCeiling(sizer, info) {
      var risk := FallbackBreaksCeiling(sizer, info);
    } else if k: nat :| StepOverCeiling(sizer, info, k) {
      var risk := StepsBreakCeiling(sizer, info, k);
      CeilingBoundsSteps(sizer, info, k);
    } else {
      forall entry, stop, risk, estimate
        ensures UnderCeiling(sizer, info, entry, stop, risk, estimate)
      {
        SizedLotUnderCeiling(sizer, info, entry, stop, risk, estimate);
      }
    }
  }

  lemma CeilingBoundsSteps(sizer: Sizer, info: SymbolInfo, k: nat)
    requires info.volumeStep > 0.0 && sizer.maxLot.Some? && StepOverCeiling(sizer, info, k)
    ensures k <= LastStepUnder(sizer.maxLot.value, info.volumeStep)
  {
    hide Round4, Round8, StepsOf, Buffered;
    CountedSteps(sizer.maxLot.value, info.volumeStep, k);
  }

  /** For a step of whole ten-thousandths only the fallback can end above the ceiling. */
  lemma GridStepsStayUnder(sizer: Sizer, info: SymbolInfo, k: nat)
    requires info.volumeStep > 0.0 && OnGrid(info.volumeStep) && sizer.maxLot.Some?
    ensures !StepOverCeiling(sizer, info, k)
  {
    hide OnGrid, Round4, Round8, StepsOf, Buffered;
    var least, lot := StepsOf(k, info.volumeStep), StepLot(info, k);
    StepMultipleOnGrid(k, info.volumeStep);
    GridIsExact(least);
    RoundBelowGrid(lot, least);
    RoundBelowGrid(lot - info.volumeStep, least);
  }

  /** Off the grid the rounding alone does it: three steps of 0.00005 lots, with the ceiling on the third. */
  lemma {:induction false} RoundingBreaksCeiling(sizer: Sizer, info: SymbolInfo) returns (risk: real)
    requires sizer == Sizer(1.0, false, Some(0.00015)) && info == SymbolInfo(1.0, 1.0, 0.00005, 0.00005, 100.0)
    ensures !FallbackOverCeiling(sizer, info) && !UnderCeiling(sizer, info, 1.0, 0.0, risk, None)
  {
    RoundsThreeSteps();
    hide Round4, Round8, UnderCeiling;
    assert StepsOf(3, info.volumeStep) == 0.00015 && StepsOf(4, info.volumeStep) == 0.0002;
    assert StepOverCeiling(sizer, info, 3);
    risk := StepsBreakCeiling(sizer, info, 3);
  }

  lemma RoundsThreeSteps()
    ensures Round8(0.00015) == 0.00015 && Round4(0.00015) == 0.0002
  {
    assert 0.00015 * 100000000.0 == 15000.0 && 0.00015 * 10000.0 == 1.5;
    assert RoundUnits(15000.0) == 15000 && RoundUnits(1.5) == 2;
  }

  // ---------- the answer around the lot ----------

  /** Within half of the last digit that is kept. */
  predicate RoundedTo(x: real, shown: real, half: real) { x - half <= shown <= x + half }

  lemma RoundingIsNear(x: real)
    ensures RoundedTo(x, Round2(x), 0.005) && RoundedTo(x, Round4(x), 0.00005)
  {}

  /** The stop in ticks times the value of a tick, written without a quotient. */
  predicate TickRiskIs(info: SymbolInfo, entry: real, stop: real, perLot: real) {
    perLot * info.tickSize == (if entry > stop then entry - stop else stop - entry) * info.tickValue
  }

  /** One lot's risk is the broker's estimate if it is positive, and the stop in tick values otherwise. */
  lemma RiskOfOneLot(info: SymbolInfo, entry: real, stop: real, estimate: Option<real>)
    requires info.tickSize > 0.0
    ensures var perLot := RiskPerLot(info, entry, stop, estimate);
            if estimate.Some? && 0.0 < estimate.value then perLot == estimate.value && SourceOf(estimate) == OrderCalcProfit
            else TickRiskIs(info, entry, stop, perLot) && SourceOf(estimate) == TickFormula
    ensures TickRiskIs(info, entry, stop, TickRisk(info, entry, stop))
  {
    var d := AbsR(entry - stop);
    assert d / info.tickSize * info.tickSize == d by { DivideBack(d, info.tickSize); }
    SwapFactors(d / info.tickSize, info.tickValue, info.tickSize);
  }

  lemma SwapFactors(x: real, y: real, z: real)
    ensures x * y * z == x * z * y
  {}

  /** A raw lot is anomalous exactly when the risk behind it is less than a twentieth of the tick formula's. */
  lemma AnomalousExactlyWhen(effective: real, perLot: real, manualRisk: real)
    requires perLot > 0.0 && manualRisk > 0.0
    ensures Anomalous(effective, Lots(effective, perLot), manualRisk) <==> effective > 0.0 && perLot * 20.0 < manualRisk
  {
    var a, b := Lots(effective, manualRisk), Lots(effective, perLot);
    DivideBack(effective, manualRisk);
    DivideBack(effective, perLot);
    assert a * manualRisk == effective && b * perLot == effective;
    if effective > 0.0 {
      PositiveQuotient(effective, manualRisk);
      PositiveQuotient(effective, perLot);
      CompareByFactor(a, b, manualRisk, perLot, effective);
    } else {
      NonPositiveQuotient(effective, manualRisk);
    }
  }

  lemma NonPositiveQuotient(x: real, f: real)
    requires x <= 0.0 && f > 0.0
    ensures x / f <= 0.0
  {}

  lemma CompareByFactor(a: real, b: real, m: real, p: real, e: real)
    requires a > 0.0 && b > 0.0 && m > 0.0 && p > 0.0 && a * m == e && b * p == e
    ensures b > a * 20.0 <==> p * 20.0 < m
  {
    if b > a * 20.0 {
      assert (b - a * 20.0) * p > 0.0;
      assert a * (m - 20.0 * p) > 0.0;
    } else {
      assert (a * 20.0 - b) * p >= 0.0;
      assert a * (20.0 * p - m) >= 0.0;
    }
  }

  /** The order of the checks, and what a valid answer reports. */
  lemma AnswerIs(sizer: Sizer, symbol: Option<SymbolInfo>, entry: real, stop: real, risk: real, estimate: Option<real>)
    ensures var r := CalculateLot(sizer, symbol, entry, stop, risk, estimate);
            match symbol
            case None => r == Failure(NoSymbolInfo)
            case Some(info) =>
              if info.tickSize <= 0.0 then r == Failure(InvalidTickSize)
              else if info.tickValue <= 0.0 then r == Failure(InvalidTickValue)
              else if entry == stop then r == Failure(InvalidStopDistance)
              else if risk <= 0.0 then r == Failure(InvalidRisk)
              else
                var perLot := RiskPerLot(info, entry, stop, estimate);
                && perLot > 0.0
                && (r.Success? ==>
                      && r.value.source == SourceOf(estimate)
                      && (r.value.stopDistance == entry - stop || r.value.stopDistance == stop - entry) && r.value.stopDistance > 0.0
                      && RoundedTo(perLot, r.value.riskPerLot, 0.005)
                      && exists lot :: RoundedTo(lot, r.value.lot, 0.00005) && RoundedTo(StopCost(lot, perLot), r.value.actualRisk, 0.005))
  {
    hide Round2, Round4, StopCost, FitLot, Anomalous, RoundedTo, Lots;
    if symbol.Some? && symbol.value.tickSize > 0.0 && symbol.value.tickValue > 0.0 && entry != stop && risk > 0.0 {
      var info := symbol.value;
      var perLot := RiskPerLot(info, entry, stop, estimate);
      RiskIsPositive(info, entry, stop, estimate);
      var sized := SizePriced(sizer, info, TickRisk(info, entry, stop), perLot, risk);
      RoundingIsNear(perLot);
      if sized.Success? {
        RoundingIsNear(sized.value);
        RoundingIsNear(StopCost(sized.value, perLot));
      }
    }
  }

  lemma RiskIsPositive(info: SymbolInfo, entry: real, stop: real, estimate: Option<real>)
    requires info.tickSize > 0.0 && info.tickValue > 0.0 && entry != stop
    ensures RiskPerLot(info, entry, stop, estimate) > 0.0
  {
    var d := AbsR(entry - stop);
    PositiveQuotient(d, info.tickSize);
    assert d / info.tickSize * info.tickValue > 0.0;
  }

  /** Once priced, a request fails for its anomaly, then for the ceiling, then for what the broker's volumes
      do not fit; it is turned away below the minimum exactly when undersized lots are not allowed. */
  lemma PricedChecks(sizer: Sizer, info: SymbolInfo, manualRisk: real, perLot: real, risk: real)
    requires perLot > 0.0
    ensures var effective := risk * sizer.riskBuffer;
            var raw, r := Lots(effective, perLot), SizePriced(sizer, info, manualRisk, perLot, risk);
            && (r == Failure(AnomalousLot) <==> Anomalous(effective, raw, manualRisk))
            && (r == Failure(LotAboveMax) <==> !Anomalous(effective, raw, manualRisk) && sizer.maxLot.Some? && sizer.maxLot.value < raw)
            && (r == Failure(LotBelowMin) ==> !sizer.allowUndersized && RoundDownToStep(raw, info.volumeStep) < info.volumeMin)
  {
    hide RoundDownToStep, Anomalous, StopCost, Lots;
    assert Buffered(risk, sizer.riskBuffer) == risk * sizer.riskBuffer;
  }

  // ---------- outside the assumptions ----------

  /** Above a buffer of one, the single retry with one step less is not checked again. */
  lemma {:induction false} LargeBufferOverruns()
    ensures !FitsRisk(Sizer(3.0, false, None), SymbolInfo(1.0, 1.0, 1.0, 1.0, 100.0), 1.0, 0.0, 10.0, None)
  {
    hide Round4, Round8, OnGrid, CalculateLot, RiskPerLot;
    var sizer, info := Sizer(3.0, false, None), SymbolInfo(1.0, 1.0, 1.0, 1.0, 100.0);
    OneTickRequest(sizer, info, 10.0);
    OneOnGrid();
    StepMultipleOnGrid(30, 1.0);
    StepMultipleOnGrid(29, 1.0);
    GridIsExact(30.0);
    GridIsExact(29.0);
    assert WholeSteps(30.0, 1.0) == 30.0;
  }

  lemma OneOnGrid()
    ensures OnGrid(1.0)
  {}

  /** With a zero step the retry repeats the lot that had just been found too expensive: every sizer that
      allows undersized lots then accepts requests it cannot carry. */
  lemma ZeroStepOverruns(sizer: Sizer, info: SymbolInfo) returns (risk: real)
    requires info.volumeStep == 0.0 && sizer.allowUndersized && sizer.riskBuffer > 0.0
    requires info.tickSize > 0.0 && info.tickValue > 0.0 && (sizer.maxLot.Some? ==> sizer.maxLot.value > 0.0)
    requires 0.0 < info.volumeMin <= info.volumeMax && Round4(info.volumeMin) > 0.0
    ensures !FitsRisk(sizer, info, info.tickSize, 0.0, risk, None)
  {
    hide Round4, CalculateLot, RiskPerLot, StopCost, Buffered;
    var v := info.volumeMin;
    var cap := MinR(MinR(v, Round4(v)), if sizer.maxLot.Some? then sizer.maxLot.value else v);
    var lots := SmallRequest(sizer.riskBuffer, cap);
    risk := StopCost(lots, info.tickValue);
    OneTickRequest(sizer, info, lots);
    CostOrder(v, lots, info.tickValue);
    CostOrder(Round4(v), lots, info.tickValue);
  }

  lemma SmallRequest(buffer: real, cap: real) returns (lots: real)
    requires buffer > 0.0 && cap > 0.0
    ensures 0.0 < lots < cap && Buffered(lots, buffer) < cap
  {
    lots := cap / (2.0 * (buffer + 1.0));
    var d := 2.0 * (buffer + 1.0);
    assert lots * d == cap;
    assert lots > 0.0;
    assert lots * d == 2.0 * (lots * buffer) + 2.0 * lots;
    RawIsPositive(lots, buffer);
  }
}
