/** The research strategy that carries the return filter, over a bound frame. */
module FilteredStrategies {
  import opened RunStory
  import opened Options
  import opened Market
  import opened Backtester
  import opened NoLookahead
  import opened Precompute
  import opened MeanReversion
  import opened ReturnFilter

  datatype FilterError =
    | MissingAtr(error: BindError)
    | NeedsTwoTimestampedBars
    | FilterTimeframeNotHigher

  /** The smallest positive bar distance must be below the filter period. */
  function IntervalError(frame: seq<Bar>, filterInterval: int): Option<FilterError> {
    var base := MinPositiveGap(TimesOf(frame));
    if base == 0 then Some(NeedsTwoTimestampedBars)
    else if base >= filterInterval then Some(FilterTimeframeNotHigher)
    else None
  }

  /** A frame is turned away exactly when no two neighbours are a positive distance apart, or when none of
      these distances is below the filter period. */
  lemma IntervalIsJudged(frame: seq<Bar>, filterInterval: int)
    ensures var times, e := TimesOf(frame), IntervalError(frame, filterInterval);
            && (e == Some(NeedsTwoTimestampedBars) <==> forall k | 0 < k < |times| :: Distance(times, k) <= 0)
            && (e == None <==> filterInterval > 0 && exists k | 0 < k < |times| :: 0 < Distance(times, k) < filterInterval)
  {
    GapIsSmallest(TimesOf(frame));
    hide MinPositiveGap;
  }

  // ---------- research ----------

  datatype FilterSettings = FilterSettings(use: bool, mode: FilterMode, periods: Periods, interval: int)

  /** The filtered signal of bar i, columns recomputed from the given frame. */
  function FilteredSignal(prm: Parameters, filter: FilterSettings, bars: seq<Bar>, i: nat): Option<Signal>
    requires ValidParameters(prm) && i < |bars|
  {
    var signal := SignalAt(prm, bars, ComputeAtr(bars, prm.atrPeriod), i);
    if filter.use then Gate(signal, SideColumn(filter.periods, filter.mode, bars)[i]) else signal
  }

  function FilteredStrategyOf(prm: Parameters, filter: FilterSettings): Strategy
    requires ValidParameters(prm)
  {
    Strategy(
      (bars: seq<Bar>, i: nat) => if i < |bars| then FilteredSignal(prm, filter, bars, i) else None,
      false,
      (bars, i, p) => false)
  }

  class MeanReversionWithReturnFilter {
    const base: BasicMeanReversion
    const filter: FilterSettings
    var returnFilterSide: Option<seq<Option<Side>>>

    ghost predicate Valid() reads this, base {
      && base.Valid()
      && (returnFilterSide.Some? ==> |returnFilterSide.value| == |base.bars|)
    }

    /** Bound to a frame with the ATR column of that frame. */
    ghost predicate BoundTo(frame: seq<Bar>) reads this, base {
      && Valid() && base.BoundTo(frame)
      && (filter.use ==> returnFilterSide == Some(SideColumn(filter.periods, filter.mode, frame)))
    }

    constructor (prm: Parameters, filter: FilterSettings)
      requires ValidParameters(prm)
      ensures Valid() && fresh(base) && base.prm == prm && this.filter == filter && returnFilterSide == None
    {
      base := new BasicMeanReversion(prm);
      this.filter := filter;
      returnFilterSide := None;
    }

    /** Fills one side per period, then one side per bar; a failed binding leaves no side column. */
    method BindData(frame: seq<Bar>, atrColumns: map<nat, seq<Option<real>>>) returns (r: Result<(), FilterError>)
      requires Valid()
      requires forall period | period in atrColumns :: |atrColumns[period]| == |frame|
      modifies this, base
      ensures r.Success? <==>
                base.prm.atrPeriod in atrColumns && (filter.use ==> IntervalError(frame, filter.interval).None?)
      ensures r.Success? ==>
                && Valid() && base.bars == frame && base.atr == atrColumns[base.prm.atrPeriod]
                && returnFilterSide == if filter.use then Some(SideColumn(filter.periods, filter.mode, frame)) else None
      ensures r.Failure? && base.prm.atrPeriod in atrColumns ==>
                returnFilterSide == None && Some(r.error) == IntervalError(frame, filter.interval)
    {
      var bound := base.BindData(frame, atrColumns);
      if bound.Failure? {
        return Failure(MissingAtr(bound.error));
      }
      returnFilterSide := None;
      if !filter.use {
        return Success(());
      }
      var error := IntervalError(frame, filter.interval);
      if error.Some? {
        return Failure(error.value);
      }
      var groups := GroupsOf(filter.periods, frame);
      var sideByKey: map<int, Option<Side>> := map[];
      for k := 0 to |groups|
        invariant sideByKey == SideTable(filter.periods, filter.mode, groups, k)
      {
        var value := PreviousReturn(filter.periods, groups, k);
        sideByKey := sideByKey[groups[k].key := SideFor(filter.mode, value)];
      }
      returnFilterSide := Some(seq(|frame|, i requires 0 <= i < |frame| => Lookup(sideByKey, filter.periods.key(frame[i].time))));
      return Success(());
    }

    method OnBar(i: nat) returns (signal: Option<Signal>)
      requires Valid() && i < |base.bars| && (filter.use ==> returnFilterSide.Some?)
      ensures filter.use ==> signal == Gate(SignalAt(base.prm, base.bars, base.atr, i), returnFilterSide.value[i])
      ensures BoundTo(base.bars) ==> signal == FilteredStrategyOf(base.prm, filter).onBar(base.bars, i)
    {
      hide SignalAt;
      signal := base.OnBar(i);
      if signal.None? || !filter.use {
        return;
      }
      var allowed := returnFilterSide.value[i];
      if allowed.None? || signal.value.side != allowed.value {
        return None;
      }
    }
  }

  /** The filter only ever removes signals, and what it passes goes in the previous period's direction
      or against it, as its mode says. */
  lemma FilterOnlyRemoves(prm: Parameters, filter: FilterSettings, bars: seq<Bar>, i: nat)
    requires ValidParameters(prm) && ValidPeriods(filter.periods) && IncreasingTimes(bars) && i < |bars|
    requires filter.use && FilteredSignal(prm, filter, bars, i).Some?
    ensures FilteredSignal(prm, filter, bars, i) == StrategyOf(prm).onBar(bars, i)
    ensures var key := filter.periods.key(bars[i].time);
            var n := EarlierCount(filter.periods, bars, key);
            && 0 < n <= i
            && var first := PreviousStart(filter.periods, bars, key);
               && first < n
               && bars[n - 1].close != bars[first].open
               && (FilteredSignal(prm, filter, bars, i).value.side.Buy?
                   <==> (bars[n - 1].close > bars[first].open) == filter.mode.Continuation?)
  {
    hide SignalAt, EarlierCount, SideColumn;
    var key := filter.periods.key(bars[i].time);
    ResearchMatchesDefinition(filter.periods, filter.mode, bars, i);
    EarlierCountSplits(filter.periods, bars, key);
    var n := EarlierCount(filter.periods, bars, key);
    assert n > 0;
    EarlierCountSplits(filter.periods, bars, filter.periods.key(bars[n - 1].time));
  }

  /** The filtered strategy is causal as well, so its backtests have no lookahead either. */
  lemma {:induction false} FilteredBacktestHasNoLookahead(cfg: Config, prm: Parameters, filter: FilterSettings, bars: seq<Bar>, m: nat)
    requires ValidParameters(prm) && ValidSettings(cfg) && m <= |bars| && FridaysAgree(cfg, bars, m)
    requires ValidPeriods(filter.periods) && IncreasingTimes(bars)
    ensures CutsCleanly(cfg, FilteredStrategyOf(prm, filter), bars, m)
  {
    hide CutsCleanly, FridaysAgree, SignalAt, SideColumn;
    var s := FilteredStrategyOf(prm, filter);
    forall i: nat | i < m
      ensures s.onBar(bars[..m], i) == s.onBar(bars, i)
    {
      SignalOfPrefix(prm, bars, m, i);
      ColumnOfPrefix(filter.periods, filter.mode, bars, m, i);
    }
    NoLookaheadTheorem(cfg, s, bars, m);
  }

  lemma ColumnOfPrefix(c: Periods, mode: FilterMode, bars: seq<Bar>, m: nat, i: nat)
    requires ValidPeriods(c) && IncreasingTimes(bars) && i < m <= |bars|
    ensures SideColumn(c, mode, bars[..m])[i] == SideColumn(c, mode, bars)[i]
  {
    hide SideColumn, EarlierCount, PeriodSide;
    var key := c.key(bars[i].time);
    assert bars[..m][i] == bars[i];
    ResearchMatchesDefinition(c, mode, bars, i);
    ResearchMatchesDefinition(c, mode, bars[..m], i);
    EarlierCountSplits(c, bars, key);
    SideOfPrefix(c, mode, bars, m, key);
  }
}
