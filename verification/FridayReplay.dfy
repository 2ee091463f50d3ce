/** With the Friday rule on, the same-frame replay and the native loop part exactly where a bar that the
    rule closes is followed by a fill before the cutoff: the replay takes signals from closed bars. */
module FridayReplay {
  import opened Market
  import opened Positions
  import opened Backtester
  import opened BookInvariants
  import opened NativeInvariants
  import opened Replay
  import opened ReplayInvariants
  import opened ReplayRefinement
  import opened FridayLookahead

  // ---------- the replay takes the closed bar's signal ----------

  /** The bar on which an order placed by bar i is filled. */
  function FillBar(cfg: Config, i: nat): nat { if cfg.mode.NextBar? then i + 1 else i }

  function FillPrice(cfg: Config, bars: seq<Bar>, i: nat): real
    requires FillBar(cfg, i) < |bars|
  {
    if cfg.mode.NextBar? then bars[i + 1].open else bars[i].high
  }

  lemma BuyOnceIsComparable(cfg: Config, bars: seq<Bar>, i: nat)
    requires FillBar(cfg, i) < |bars|
    ensures Comparable(cfg, BuyOnce(i, FillPrice(cfg, bars, i), true), bars)
  {}

  /** Nothing scheduled below hi, nothing done below hi. */
  lemma {:induction false} IdleReplayRun(cfg: Config, s: Strategy, bars: seq<Bar>, plan: Plan, hi: nat)
    requires hi <= |bars| && forall j: nat | j < hi :: OrdersAt(plan, j) == []
    ensures var r := ReplayRun(SameFrames(bars), cfg, s, plan, hi);
            r.open == [] && r.trades == [] && r.equity == [0.0] && r.dailyR == 0.0 && r.weeklyR == 0.0
  {
    hide ReplayStep, OrdersAt;
    if hi > 0 {
      IdleReplayRun(cfg, s, bars, plan, hi - 1);
      IdleReplayBar(cfg, s, bars, plan, hi - 1, ReplayRun(SameFrames(bars), cfg, s, plan, hi - 1));
    }
  }

  lemma {:induction false} ReplayKeepsTrades(f: Frames, cfg: Config, s: Strategy, plan: Plan, lo: nat, hi: nat)
    requires lo <= hi <= |f.exec| && cfg.maxPositions >= 1
    ensures |ReplayRun(f, cfg, s, plan, lo).trades| <= |ReplayRun(f, cfg, s, plan, hi).trades|
  {
    hide ReplayStep;
    if lo < hi {
      ReplayKeepsTrades(f, cfg, s, plan, lo, hi - 1);
      ReplayRunKeepsInv(f, cfg, s, plan, hi - 1);
      StepKeepsTrades(f, cfg, s, plan, hi - 1, ReplayRun(f, cfg, s, plan, hi - 1));
    }
  }

  lemma StepKeepsTrades(f: Frames, cfg: Config, s: Strategy, plan: Plan, i: nat, b: Book)
    requires i < |f.exec| && BookInv(b, i, cfg.maxPositions)
    ensures |b.trades| <= |ReplayStep(f, cfg, s, plan, i, b).trades|
  {
    hide OpenOrders, ManageAll, FridayCloseState;
    var rolled := RollCalendar(b, DayOf(f.exec[i].time), WeekOf(f.exec[i].time));
    assert forall bar: nat :: Exposure(rolled, bar) == Exposure(b, bar);
    var orders := if FridayCloseState(cfg, f.exec, i).afterCutoff then [] else OrdersAt(plan, i);
    OpenOrdersKeepInv(cfg, f.exec[i], i, orders, rolled);
    var o := ReplayOpened(f, cfg, plan, i, b);
    ManageAllKeepsRanges(ReplayView(f, cfg, s, plan, i), o.open, o.(open := []));
  }

  /** The scheduled order is filled, and its trade closes on the same bar. */
  lemma ReplayTrades(cfg: Config, bars: seq<Bar>, plan: Plan, i: nat)
    requires ValidSettings(cfg) && cfg.warmupBars <= i < |bars| && FillStillPossible(cfg, bars, i)
    requires PlanMatches(plan, Unlimited(cfg), BuyOnce(i, FillPrice(cfg, bars, i), true), bars, |bars|)
    ensures ReplayRun(SameFrames(bars), Unlimited(cfg), BuyOnce(i, FillPrice(cfg, bars, i), true), plan, FillBar(cfg, i) + 1).trades != []
  {
    hide FridayCloseState, RollCalendar, MakePosition, OrdersAt, PlanMatches, ReplayRun;
    var c, j, price := Unlimited(cfg), FillBar(cfg, i), FillPrice(cfg, bars, i);
    var s, f := BuyOnce(i, price, true), SameFrames(bars);
    PlannedOrders(plan, c, s, bars);
    assert forall k: nat :: OrdersAt(plan, k) == ExpectedOrders(c, s, bars, |bars|, k);
    IdleReplayRun(c, s, bars, plan, j);
    ReplayStepOf(f, c, s, plan, j);
    SameFridays(cfg, bars, j);
    var b := ReplayRun(f, c, s, plan, j);
    var y := RollCalendar(b, DayOf(bars[j].time), WeekOf(bars[j].time));
    RollKeepsPositions(b, DayOf(bars[j].time), WeekOf(bars[j].time));
    var timing := if cfg.mode.NextBar? then NextBarOpen else SameBarTrigger;
    var o := ReplayOrder(OneBuy(price, true), bars[i].time, j, timing);
    assert OrdersAt(plan, j) == [o];
    OneReplayOrder(c, bars[j], j, o, y);
    BuyIsFilled(price, true, j, bars[j].time, timing);
    var full := ReplayOpened(f, c, plan, j, b);
    assert |full.open| == 1;
    FirstBarOf(ReplayView(f, c, s, plan, j), full.open[0], price, true, timing, full.(open := []));
    assert full.open == [full.open[0]];
  }

  lemma ReplayStepOf(f: Frames, cfg: Config, s: Strategy, plan: Plan, i: nat)
    requires i < |f.exec|
    ensures ReplayRun(f, cfg, s, plan, i + 1) == ReplayStep(f, cfg, s, plan, i, ReplayRun(f, cfg, s, plan, i))
  {}

  /** The strategy that separates the loops at a closed bar whose fill is still possible. */
  lemma ClosedSignalSeparates(cfg: Config, bars: seq<Bar>, i: nat) returns (s: Strategy)
    requires |bars| >= 2 && IncreasingTimes(bars) && ValidSettings(cfg) && cfg.warmupBars <= i < |bars|
    requires FridayCloseState(cfg, bars, i).closeBar && FillStillPossible(cfg, bars, i)
    ensures Comparable(cfg, s, bars) && !ReplayIsNative(Unlimited(cfg), s, bars)
  {
    hide FridayCloseState, NativeRun, ReplayRun, PlanUpTo, PlanMatches, Comparable;
    var c := Unlimited(cfg);
    s := BuyOnce(i, FillPrice(cfg, bars, i), true);
    BuyOnceIsComparable(cfg, bars, i);
    BuyOnceIsComparable(c, bars, i);
    SameFridays(cfg, bars, i);
    IdleRun(c, s, bars, |bars|);
    SameFrameMapsToItself(bars);
    assert IdentityRanges(|bars|)[0].end > IdentityRanges(|bars|)[0].start;
    PlanUpToMatches(c, s, bars, |bars|);
    var plan := PlanUpTo(SameFrames(bars), c, s, |bars|).value;
    ReplayTrades(cfg, bars, plan, i);
    ReplayKeepsTrades(SameFrames(bars), c, s, plan, FillBar(cfg, i) + 1, |bars|);
  }

  // ---------- exactly when ----------

  lemma EndedFillsAreSilent(c: Config, cfg: Config, s: Strategy, bars: seq<Bar>)
    requires SameClock(c, cfg) && FridaysEndFills(cfg, bars)
    ensures SilentOnFridays(c, s, bars)
  {
    hide MinPositiveGap, TimesOf;
    forall i: nat | i < |bars|
      ensures FridayCloseState(c, bars, i) == FridayCloseState(cfg, bars, i)
      ensures FillStillPossible(c, bars, i) == FillStillPossible(cfg, bars, i)
    {}
  }

  /** Exactly when the refinement survives the Friday rule: for every comparable strategy, costs and
      agreeable limits the replay reports the native trades and curve, if and only if every bar that the
      rule closes has no fill left before the cutoff. */
  lemma ReplayRefinesNativeExactlyWhen(cfg: Config, bars: seq<Bar>)
    requires |bars| >= 2 && IncreasingTimes(bars) && ValidSettings(cfg)
    ensures (forall c, s | SameClock(c, cfg) && AgreeableLimits(c, bars) && Comparable(c, s, bars) :: ReplayIsNative(c, s, bars))
            <==> FridaysEndFills(cfg, bars)
  {
    hide ReplayIsNative, Comparable, FridayCloseState, FillStillPossible;
    if FridaysEndFills(cfg, bars) {
      forall c, s | SameClock(c, cfg) && AgreeableLimits(c, bars) && Comparable(c, s, bars)
        ensures ReplayIsNative(c, s, bars)
      {
        EndedFillsAreSilent(c, cfg, s, bars);
        ReplayRefinesNative(c, s, bars);
      }
    } else {
      var i: nat :| cfg.warmupBars <= i < |bars| && FridayCloseState(cfg, bars, i).closeBar && FillStillPossible(cfg, bars, i);
      var s := ClosedSignalSeparates(cfg, bars, i);
      ComparableAnyCosts(cfg, s, bars);
      assert SameClock(Unlimited(cfg), cfg) && AgreeableLimits(Unlimited(cfg), bars);
    }
  }

  lemma ComparableAnyCosts(cfg: Config, s: Strategy, bars: seq<Bar>)
    requires Comparable(cfg, s, bars)
    ensures Comparable(Unlimited(cfg), s, bars)
  {}
}
