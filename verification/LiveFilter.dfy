/** The live strategy that carries the return filter: what a refresh stores, exactly when the stored
    returns track research, and why a refresh that stores none cannot lead to an order. */
module LiveFilter {
  import opened Options
  import opened Market
  import opened Backtester
  import opened Precompute
  import opened MeanReversion
  import opened ReturnFilter
  import opened FilteredStrategies
  import O = OrderExecutor

  // ---------- ordering the frame ----------

  function Insert(sorted: seq<Bar>, b: Bar): (r: seq<Bar>)
    ensures |r| == |sorted| + 1
  {
    var n := |sorted|;
    if n == 0 || sorted[n - 1].time <= b.time then sorted + [b]
    else Insert(sorted[..n - 1], b) + [sorted[n - 1]]
  }

  function SortByTime(frame: seq<Bar>): (r: seq<Bar>)
    ensures |r| == |frame|
  {
    if |frame| == 0 then [] else Insert(SortByTime(frame[..|frame| - 1]), frame[|frame| - 1])
  }

  ghost predicate OrderedTimes(bars: seq<Bar>) {
    forall i, j | 0 <= i < j < |bars| :: bars[i].time <= bars[j].time
  }

  lemma {:induction false} InsertKeepsBars(sorted: seq<Bar>, b: Bar)
    ensures multiset(Insert(sorted, b)) == multiset(sorted) + multiset{b}
  {
    var n := |sorted|;
    if n > 0 && sorted[n - 1].time > b.time {
      InsertKeepsBars(sorted[..n - 1], b);
      DropLatest(sorted);
    }
  }

  lemma {:induction false} InsertSorts(sorted: seq<Bar>, b: Bar)
    requires OrderedTimes(sorted)
    ensures OrderedTimes(Insert(sorted, b))
    ensures forall x | x in Insert(sorted, b) :: x in sorted || x == b
  {
    var n := |sorted|;
    if n > 0 && sorted[n - 1].time > b.time {
      var front, last := sorted[..n - 1], sorted[n - 1];
      InsertSorts(front, b);
      var r := Insert(front, b);
      forall i | 0 <= i < |r|
        ensures r[i].time <= last.time
      {
        assert r[i] in r;
      }
    }
  }

  /** The sorted frame is the frame in time order. */
  lemma {:induction false} SortSorts(frame: seq<Bar>)
    ensures OrderedTimes(SortByTime(frame)) && multiset(SortByTime(frame)) == multiset(frame)
  {
    if |frame| > 0 {
      var front, last := frame[..|frame| - 1], frame[|frame| - 1];
      assert frame == front + [last];
      SortSorts(front);
      InsertSorts(SortByTime(front), last);
      InsertKeepsBars(SortByTime(front), last);
    }
  }

  lemma SameLatest(a: seq<Bar>, window: seq<Bar>)
    requires |a| == |window| > 0 && OrderedTimes(a) && IncreasingTimes(window) && multiset(a) == multiset(window)
    ensures a[|a| - 1] == window[|a| - 1]
  {
    var n := |a| - 1;
    assert a[n] in multiset(window) && window[n] in multiset(a);
    var j :| 0 <= j <= n && window[j] == a[n];
    var i :| 0 <= i <= n && a[i] == window[n];
    assert j < n ==> window[j].time < window[n].time;
    assert i < n ==> a[i].time <= a[n].time;
  }

  lemma DropLatest(a: seq<Bar>)
    requires |a| > 0
    ensures multiset(a[..|a| - 1]) == multiset(a) - multiset{a[|a| - 1]}
  {
    assert a == a[..|a| - 1] + [a[|a| - 1]];
  }

  lemma SameSize(a: seq<Bar>, b: seq<Bar>)
    requires multiset(a) == multiset(b)
    ensures |a| == |b|
  {
    assert |a| == |multiset(a)| == |multiset(b)| == |b|;
  }

  lemma FrontsAreOrdered(a: seq<Bar>, window: seq<Bar>)
    requires |a| > 0 && |window| > 0 && OrderedTimes(a) && IncreasingTimes(window)
    ensures OrderedTimes(a[..|a| - 1]) && IncreasingTimes(window[..|window| - 1])
  {}

  lemma {:induction false} OrderIsUnique(a: seq<Bar>, window: seq<Bar>)
    requires OrderedTimes(a) && IncreasingTimes(window) && multiset(a) == multiset(window)
    ensures a == window
    decreases |a|
  {
    hide OrderedTimes, IncreasingTimes;
    SameSize(a, window);
    if |a| > 0 {
      var x, y := a[..|a| - 1], window[..|window| - 1];
      SameLatest(a, window);
      DropLatest(a);
      DropLatest(window);
      FrontsAreOrdered(a, window);
      OrderIsUnique(x, y);
      assert a == x + [a[|a| - 1]];
      assert window == y + [window[|window| - 1]];
    }
  }

  /** However the bars of a window arrive, sorting gives the window. */
  lemma SortOfWindow(frame: seq<Bar>, window: seq<Bar>)
    requires IncreasingTimes(window) && multiset(frame) == multiset(window)
    ensures SortByTime(frame) == window
  {
    SortSorts(frame);
    OrderIsUnique(SortByTime(frame), window);
  }

  // ---------- the refresh ----------

  datatype LiveSettings = LiveSettings(
    rangeLookback: nat, atrPeriod: nat, useFilter: bool, mode: FilterMode, periods: Periods, interval: int,
    stopLoss: real, takeProfit: real)

  predicate ValidLive(cfg: LiveSettings) { cfg.rangeLookback >= 1 && cfg.atrPeriod >= 1 && cfg.stopLoss >= 0.0 }

  datatype LiveState = LiveState(
    rangeHigh: Option<real>, rangeLow: Option<real>, meanPrice: Option<real>, atr: Option<real>,
    lastBar: Option<int>, completed: seq<Completed>)

  const UNBOUND: LiveState := LiveState(None, None, None, None, None, [])

  predicate StateReady(st: LiveState) { st.rangeHigh.Some? && st.rangeLow.Some? && st.meanPrice.Some? && st.atr.Some? }

  datatype RefreshError = NotEnoughBars | BadInterval(error: FilterError)

  function RequiredBars(cfg: LiveSettings): nat {
    (if cfg.rangeLookback >= cfg.atrPeriod then cfg.rangeLookback else cfg.atrPeriod) + 5
  }

  function RefreshRejected(cfg: LiveSettings, frame: seq<Bar>): Option<RefreshError> {
    if |frame| < RequiredBars(cfg) then Some(NotEnoughBars)
    else
      match IntervalError(SortByTime(frame), cfg.interval)
      case Some(e) => Some(BadInterval(e))
      case None => None
  }

  function LatestAtr(cfg: LiveSettings, bars: seq<Bar>): Option<real>
    requires ValidLive(cfg) && |bars| > 0
  {
    AtrAt(bars, cfg.atrPeriod, |bars| - 1)
  }

  function RangeTop(cfg: LiveSettings, bars: seq<Bar>): real
    requires 1 <= cfg.rangeLookback <= |bars|
  {
    MaxHigh(bars, |bars| - cfg.rangeLookback, |bars|)
  }

  function RangeBottom(cfg: LiveSettings, bars: seq<Bar>): real
    requires 1 <= cfg.rangeLookback <= |bars|
  {
    MinLow(bars, |bars| - cfg.rangeLookback, |bars|)
  }

  /** The ordered bars have a positive ATR and a positive range. */
  predicate Tradable(cfg: LiveSettings, bars: seq<Bar>)
    requires ValidLive(cfg) && |bars| >= RequiredBars(cfg)
  {
    LatestAtr(cfg, bars).Some? && LatestAtr(cfg, bars).value > 0.0 && RangeTop(cfg, bars) > RangeBottom(cfg, bars)
  }

  /** The state after a refresh on usable bars: a non-positive ATR keeps the whole previous range and the
      previous returns, a non-positive range drops the mean and keeps the returns. */
  function Refreshed(cfg: LiveSettings, st: LiveState, bars: seq<Bar>): LiveState
    requires ValidLive(cfg) && |bars| >= RequiredBars(cfg)
  {
    var atr := LatestAtr(cfg, bars);
    var seen := st.(lastBar := Some(bars[|bars| - 1].time), atr := atr);
    if atr.None? || atr.value <= 0.0 then seen
    else
      var top, bottom := RangeTop(cfg, bars), RangeBottom(cfg, bars);
      var ranged := seen.(rangeHigh := Some(top), rangeLow := Some(bottom));
      if top - bottom <= 0.0 then ranged.(meanPrice := None)
      else ranged.(meanPrice := Some(Midpoint(bottom, top)), completed := CompletedReturns(cfg.periods, bars))
  }

  // ---------- the strategy ----------

  class ReturnFilterStrategy {
    const cfg: LiveSettings
    var rangeHigh: Option<real>
    var rangeLow: Option<real>
    var meanPrice: Option<real>
    var atr: Option<real>
    var lastBar: Option<int>
    var completedReturns: seq<Completed>

    function State(): LiveState reads this { LiveState(rangeHigh, rangeLow, meanPrice, atr, lastBar, completedReturns) }

    constructor (cfg: LiveSettings)
      requires ValidLive(cfg)
      ensures this.cfg == cfg && State() == UNBOUND
    {
      this.cfg := cfg;
      rangeHigh, rangeLow, meanPrice, atr, lastBar := None, None, None, None, None;
      completedReturns := [];
    }

    /** Refresh on completed bars in any order; a rejected frame changes nothing. */
    method UpdateH4State(frame: seq<Bar>) returns (r: Result<(), RefreshError>)
      requires ValidLive(cfg)
      modifies this
      ensures match RefreshRejected(cfg, frame)
              case Some(e) => r == Failure(e) && State() == old(State())
              case None => r == Success(()) && State() == Refreshed(cfg, old(State()), SortByTime(frame))
    {
      hide CompletedReturns, Midpoint, MaxHigh, MinLow, AtrAt, SortByTime, IntervalError;
      if |frame| < RequiredBars(cfg) {
        return Failure(NotEnoughBars);
      }
      var bars := SortByTime(frame);
      var error := IntervalError(bars, cfg.interval);
      if error.Some? {
        return Failure(BadInterval(error.value));
      }
      lastBar := Some(bars[|bars| - 1].time);
      atr := LatestAtr(cfg, bars);
      if atr.None? || atr.value <= 0.0 {
        return Success(());
      }
      rangeHigh := Some(RangeTop(cfg, bars));
      rangeLow := Some(RangeBottom(cfg, bars));
      if rangeHigh.value - rangeLow.value <= 0.0 {
        meanPrice := None;
        return Success(());
      }
      meanPrice := Some(Midpoint(rangeLow.value, rangeHigh.value));
      completedReturns := CompletedReturns(cfg.periods, bars);
      return Success(());
    }

    /** The permission at `now` from whatever returns are stored. */
    method AllowedSideNow(now: int) returns (p: Permission)
      ensures p == PermissionIn(cfg, State(), now)
      ensures !cfg.useFilter ==> p == Both
      ensures cfg.useFilter && p.Only? ==>
                exists entry :: entry in completedReturns && entry.key < cfg.periods.key(now)
                                && SideFor(cfg.mode, entry.ret) == Some(p.side)
    {
      p := AllowedSide(cfg.useFilter, cfg.mode, completedReturns, cfg.periods.key(now));
      LatestIsStored(completedReturns, cfg.periods.key(now));
    }
  }

  function PermissionIn(cfg: LiveSettings, st: LiveState, now: int): Permission {
    AllowedSide(cfg.useFilter, cfg.mode, st.completed, cfg.periods.key(now))
  }

  lemma {:induction false} LatestIsStored(table: seq<Completed>, key: int)
    ensures LatestBefore(table, key).Some? ==>
              LatestBefore(table, key).value in table && LatestBefore(table, key).value.key < key
  {
    if |table| > 0 {
      LatestIsStored(table[..|table| - 1], key);
    }
  }

  // ---------- exactly when a refresh makes the filter track research ----------

  /** After a refresh of st on the window, the permission is silent or the full history's research side. */
  ghost predicate TracksAfter(cfg: LiveSettings, st: LiveState, window: seq<Bar>, history: seq<Bar>, now: int)
    requires ValidLive(cfg) && |window| >= RequiredBars(cfg)
  {
    var p := PermissionIn(cfg, Refreshed(cfg, st, window), now);
    p == Neither || p == PermissionOf(PeriodSide(cfg.periods, cfg.mode, history, cfg.periods.key(now)))
  }

  /** On a window of legal length that holds every earlier-period bar, the filter tracks research whatever
      was stored before if and only if the window has a positive ATR and a positive range. */
  lemma RefreshTracksExactlyWhen(cfg: LiveSettings, history: seq<Bar>, a: nat, b: nat, now: int)
    requires ValidLive(cfg) && cfg.useFilter && ValidPeriods(cfg.periods) && IncreasingTimes(history)
    requires a <= b <= |history| && b - a >= RequiredBars(cfg)
    requires forall j | b <= j < |history| :: cfg.periods.key(history[j].time) >= cfg.periods.key(now)
    ensures (forall st: LiveState :: TracksAfter(cfg, st, history[a..b], history, now)) <==> Tradable(cfg, history[a..b])
  {
    hide LatestAtr, RangeTop, RangeBottom, Midpoint, CompletedReturns, PeriodSide, AllowedSide, EarlierCount;
    var window, key := history[a..b], cfg.periods.key(now);
    EarlierCountSplits(cfg.periods, history, key);
    var n := EarlierCount(cfg.periods, history, key);
    assert n > 0 ==> cfg.periods.key(history[n - 1].time) < key;
    WindowSide(cfg.periods, cfg.mode, history, a, b, key);
    LiveMatchesDefinition(cfg.periods, cfg.mode, window, key);
    if !Tradable(cfg, window) {
      var up, down := UNBOUND.(completed := [Completed(key - 1, Ratio(1.0, 2.0))]),
                      UNBOUND.(completed := [Completed(key - 1, Ratio(2.0, 1.0))]);
      StoredSides(cfg, key);
      assert PermissionIn(cfg, Refreshed(cfg, up, window), now).Only?;
      assert !TracksAfter(cfg, up, window, history, now) || !TracksAfter(cfg, down, window, history, now);
    }
  }

  /** A rising and a falling stored period permit opposite sides. */
  lemma StoredSides(cfg: LiveSettings, key: int)
    ensures var up := AllowedSide(true, cfg.mode, [Completed(key - 1, Ratio(1.0, 2.0))], key);
            var down := AllowedSide(true, cfg.mode, [Completed(key - 1, Ratio(2.0, 1.0))], key);
            up.Only? && down.Only? && up.side != down.side
  {
    var up, down := [Completed(key - 1, Ratio(1.0, 2.0))], [Completed(key - 1, Ratio(2.0, 1.0))];
    assert up[..0] == [] && down[..0] == [];
    assert LatestBefore(up, key) == Some(up[0]) && LatestBefore(down, key) == Some(down[0]);
  }

  /** A refresh on a tradable frame, in any order of its bars, then a question: nothing or the research side. */
  method RefreshAndAsk(live: ReturnFilterStrategy, frame: seq<Bar>, ghost history: seq<Bar>, ghost a: nat, ghost b: nat, now: int)
      returns (r: Result<(), RefreshError>, p: Permission)
    requires ValidLive(live.cfg) && a <= b <= |history| && multiset(frame) == multiset(history[a..b])
    requires ValidPeriods(live.cfg.periods) && IncreasingTimes(history)
    requires forall j | b <= j < |history| :: live.cfg.periods.key(history[j].time) >= live.cfg.periods.key(now)
    modifies live
    ensures r.Failure? ==> live.State() == old(live.State())
    ensures r.Success? ==> b - a >= RequiredBars(live.cfg) && live.State() == Refreshed(live.cfg, old(live.State()), history[a..b])
    ensures p == PermissionIn(live.cfg, live.State(), now)
    ensures live.cfg.useFilter && r.Success? && Tradable(live.cfg, history[a..b]) ==>
              forall i | 0 <= i < |history| && live.cfg.periods.key(history[i].time) == live.cfg.periods.key(now) ::
                p == Neither || p == PermissionOf(SideColumn(live.cfg.periods, live.cfg.mode, history)[i])
  {
    hide AllowedSide, SideColumn, CompletedReturns, PeriodSide, Refreshed, LatestAtr, RangeTop, RangeBottom, SortByTime, IntervalError;
    r := live.UpdateH4State(frame);
    p := live.AllowedSideNow(now);
    SortOfWindow(frame, history[a..b]);
    assert |frame| == |multiset(frame)| == |multiset(history[a..b])| == b - a;
    ghost var c, mode, st := live.cfg.periods, live.cfg.mode, old(live.State());
    if live.cfg.useFilter && r.Success? && Tradable(live.cfg, history[a..b]) {
      RefreshTracksExactlyWhen(live.cfg, history, a, b, now);
      assert TracksAfter(live.cfg, st, history[a..b], history, now);
      forall i | 0 <= i < |history| && c.key(history[i].time) == c.key(now)
        ensures p == Neither || p == PermissionOf(SideColumn(c, mode, history)[i])
      {
        ResearchMatchesDefinition(c, mode, history, i);
      }
    }
  }

  // ---------- no order follows a refresh that stored no returns ----------

  /** The signal a tick at the range top would raise. */
  function SellSignal(cfg: LiveSettings, st: LiveState, id: string): Option<O.TradeSignal>
    requires StateReady(st)
  {
    var tp := (st.rangeHigh.value - st.meanPrice.value) * cfg.takeProfit;
    if tp <= 0.0 then None
    else Some(O.TradeSignal(id, Sell, st.rangeHigh.value, st.atr.value * cfg.stopLoss, Some(tp), None))
  }

  function BuySignal(cfg: LiveSettings, st: LiveState, id: string): Option<O.TradeSignal>
    requires StateReady(st)
  {
    var tp := (st.meanPrice.value - st.rangeLow.value) * cfg.takeProfit;
    if tp <= 0.0 then None
    else Some(O.TradeSignal(id, Buy, st.rangeLow.value, st.atr.value * cfg.stopLoss, Some(tp), None))
  }

  /** The range of the latest bars, attained on both sides. */
  ghost predicate LatestRange(cfg: LiveSettings, bars: seq<Bar>, bottom: real, top: real)
    requires 1 <= cfg.rangeLookback <= |bars|
  {
    && (forall k | |bars| - cfg.rangeLookback <= k < |bars| :: bottom <= bars[k].low && bars[k].high <= top)
    && (exists k | |bars| - cfg.rangeLookback <= k < |bars| :: bars[k].low == bottom)
    && (exists k | |bars| - cfg.rangeLookback <= k < |bars| :: bars[k].high == top)
  }

  /** A live fade waits at the boundary, stops an ATR multiple away and aims at the given fraction of half the
      range, as the research strategy does. */
  predicate LiveFade(cfg: LiveSettings, signal: O.TradeSignal, side: Side, boundary: real, range: real, atr: real) {
    && signal.side == side && signal.expectedEntry == boundary && signal.stopDistance == atr * cfg.stopLoss
    && signal.stopPrice.None? && signal.tpDistance.Some? && signal.tpDistance.value * 2.0 == range * cfg.takeProfit
  }

  /** After a tradable refresh both boundaries of the latest range can be faded, if the target lies inside. */
  lemma LiveSignalsAre(cfg: LiveSettings, st: LiveState, bars: seq<Bar>, bottom: real, top: real, id: string)
    requires ValidLive(cfg) && |bars| >= RequiredBars(cfg) && Tradable(cfg, bars) && LatestRange(cfg, bars, bottom, top)
    ensures var after := Refreshed(cfg, st, bars);
            && StateReady(after) && after.lastBar == Some(bars[|bars| - 1].time)
            && (BuySignal(cfg, after, id).Some? <==> cfg.takeProfit > 0.0) && (SellSignal(cfg, after, id).Some? <==> cfg.takeProfit > 0.0)
            && (cfg.takeProfit > 0.0 ==>
                  && LiveFade(cfg, BuySignal(cfg, after, id).value, Buy, bottom, top - bottom, LatestAtr(cfg, bars).value)
                  && LiveFade(cfg, SellSignal(cfg, after, id).value, Sell, top, top - bottom, LatestAtr(cfg, bars).value))
  {
    hide LatestAtr, RangeTop, RangeBottom, CompletedReturns, LatestRange, Midpoint;
    RangeIsLatest(cfg, bars, bottom, top);
    TargetIsInside(top, bottom, cfg.takeProfit);
  }

  lemma RangeIsLatest(cfg: LiveSettings, bars: seq<Bar>, bottom: real, top: real)
    requires 1 <= cfg.rangeLookback <= |bars| && LatestRange(cfg, bars, bottom, top)
    ensures RangeTop(cfg, bars) == top && RangeBottom(cfg, bars) == bottom
  {
    hide MaxHigh, MinLow;
    ExtremaAreAttainedBounds(bars, |bars| - cfg.rangeLookback, |bars|);
  }

  /** After a refresh that kept older returns, either the state is not ready and no signal is raised, or
      every signal has no stop distance and the executor turns it away before the broker. */
  lemma NoOrderOnKeptReturns(
      cfg: LiveSettings, st: LiveState, window: seq<Bar>, id: string, executor: O.ExecutorConfig, env: O.Surroundings)
    requires ValidLive(cfg) && |window| >= RequiredBars(cfg) && !Tradable(cfg, window)
    ensures var after := Refreshed(cfg, st, window);
            StateReady(after) ==>
              && (BuySignal(cfg, after, id).Some? ==> !O.Prepare(executor, BuySignal(cfg, after, id).value, env).Submit?)
              && (SellSignal(cfg, after, id).Some? ==> !O.Prepare(executor, SellSignal(cfg, after, id).value, env).Submit?)
  {
    hide LatestAtr, RangeTop, RangeBottom, Midpoint, CompletedReturns;
    var after := Refreshed(cfg, st, window);
    if StateReady(after) {
      NoStopDistance(after.atr.value, cfg.stopLoss);
    }
  }

  lemma NoStopDistance(atr: real, stopLoss: real)
    requires stopLoss >= 0.0
    ensures atr <= 0.0 ==> atr * stopLoss <= 0.0
  {}

  // ---------- a concrete contradiction ----------

  /** Ten-unit periods, one-bar range and ATR, reversion. */
  function DemoSettings(): LiveSettings {
    LiveSettings(1, 1, true, Reversion, Periods(t => t / 10, t => t % 10 == 0), 10, 2.0, 0.25)
  }

  /** Six bars of a rising first period. */
  function RisingWeek(): seq<Bar> { seq(6, i => Bar(i, 1.0, 2.0, 1.0, 2.0)) }

  /** Six bars of a falling second period, the last one flat. */
  function FallingWeek(): seq<Bar> {
    seq(6, i => if i < 5 then Bar(10 + i, 2.0, 2.0, 1.0, 1.0) else Bar(15, 1.0, 1.0, 1.0, 1.0))
  }

  function DemoHistory(): seq<Bar> { RisingWeek() + FallingWeek() + [Bar(20, 1.0, 1.0, 1.0, 1.0)] }

  lemma {:induction false} GapIsAtMostFirst(times: seq<int>)
    requires |times| >= 2 && forall i, j | 0 <= i < j < |times| :: times[i] < times[j]
    ensures 0 < MinPositiveGap(times) <= times[1] - times[0]
  {
    if |times| > 2 {
      GapIsAtMostFirst(times[..|times| - 1]);
    }
  }

  lemma LegalWindow(bars: seq<Bar>)
    requires |bars| == 6 && IncreasingTimes(bars) && bars[1].time - bars[0].time == 1
    ensures RefreshRejected(DemoSettings(), bars).None? && SortByTime(bars) == bars
  {
    hide SortByTime;
    SortOfWindow(bars, bars);
    GapIsAtMostFirst(TimesOf(bars));
  }

  lemma DemoPeriods()
    ensures ValidPeriods(DemoSettings().periods) && IncreasingTimes(DemoHistory())
    ensures ValidLive(DemoSettings()) && RequiredBars(DemoSettings()) == 6
  {}

  lemma RisingIsTradable()
    ensures Tradable(DemoSettings(), RisingWeek())
  {
    var bars := RisingWeek();
    assert RangeSum(bars, 5, 5) == 0.0;
    assert RangeSum(bars, 5, 6) == TrueRange(bars, 5);
  }

  lemma FallingIsNotTradable()
    ensures LatestAtr(DemoSettings(), FallingWeek()) == Some(0.0)
  {
    var bars := FallingWeek();
    assert RangeSum(bars, 5, 5) == 0.0;
    assert RangeSum(bars, 5, 6) == TrueRange(bars, 5);
  }

  lemma DemoSides()
    ensures var c := DemoSettings().periods;
            && PeriodSide(c, Reversion, RisingWeek(), 2) == Some(Sell)
            && PeriodSide(c, Reversion, DemoHistory(), 2) == Some(Buy)
  {
    var c, rising, history := DemoSettings().periods, RisingWeek(), DemoHistory();
    hide EarlierCount;
    EarlierCountIs(c, rising, 2, 6);
    EarlierCountIs(c, rising, 0, 0);
    EarlierCountIs(c, history, 2, 12);
    EarlierCountIs(c, history, 1, 6);
    assert history[6] == FallingWeek()[0] && history[11] == FallingWeek()[5];
  }

  /** Two refreshes of legal length: the first stores a rising period, the second, with a zero ATR, keeps
      it. The ready state then permits selling where research permits buying. */
  lemma StaleWindowContradicts()
    ensures var cfg := DemoSettings();
            && RefreshRejected(cfg, RisingWeek()).None? && RefreshRejected(cfg, FallingWeek()).None?
            && ValidLive(cfg) && RequiredBars(cfg) == 6
            && var first := Refreshed(cfg, UNBOUND, SortByTime(RisingWeek()));
               var second := Refreshed(cfg, first, SortByTime(FallingWeek()));
               && StateReady(second)
               && PermissionIn(cfg, second, 20) == Only(Sell)
               && SideColumn(cfg.periods, cfg.mode, DemoHistory())[12] == Some(Buy)
  {
    hide PeriodSide, CompletedReturns, AllowedSide, SideColumn, LatestAtr, RangeTop, RangeBottom, SortByTime, IntervalError;
    var cfg := DemoSettings();
    DemoPeriods();
    LegalWindow(RisingWeek());
    LegalWindow(FallingWeek());
    RisingIsTradable();
    FallingIsNotTradable();
    DemoSides();
    LiveMatchesDefinition(cfg.periods, Reversion, RisingWeek(), 2);
    ResearchMatchesDefinition(cfg.periods, Reversion, DemoHistory(), 12);
  }
}
