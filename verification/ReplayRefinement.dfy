/** With the execution frame equal to the signal frame, the replay loop is the native loop. */
module ReplayRefinement {
  import opened Options
  import opened Market
  import opened Positions
  import opened Backtester
  import opened BookInvariants
  import opened NativeInvariants
  import opened Replay

  // ---------- every candle maps to its own bar ----------

  lemma {:induction false} IncreasingTimesHavePositiveGap(times: seq<int>)
    requires |times| >= 2 && forall i, j | 0 <= i < j < |times| :: times[i] < times[j]
    ensures MinPositiveGap(times) > 0
  {
    if |times| > 2 {
      IncreasingTimesHavePositiveGap(times[..|times| - 1]);
    }
  }

  function IdentityRanges(n: nat): (r: seq<Range>)
    ensures |r| == n && forall k | 0 <= k < n :: r[k] == Range(k, k + 1)
  {
    seq(n, k requires 0 <= k < n => Range(k, k + 1))
  }

  lemma OwnBoundary(times: seq<int>, k: nat)
    requires |times| >= 2 && k <= |times| && MinPositiveGap(times) > 0
    requires forall i, j | 0 <= i < j < |times| :: times[i] < times[j]
    ensures LowerBoundFrom(times, Boundary(times, k), 0) == k
  {
    var r := LowerBoundFrom(times, Boundary(times, k), 0);
    assert r <= k;
    assert forall j | 0 <= j < k :: times[j] < Boundary(times, k);
  }

  lemma SameFrameMapsToItself(bars: seq<Bar>)
    requires |bars| >= 2 && IncreasingTimes(bars)
    ensures ReplayBarRanges(TimesOf(bars), TimesOf(bars)) == Success(IdentityRanges(|bars|))
  {
    hide LowerBoundFrom, MinPositiveGap, Boundary;
    var times := TimesOf(bars);
    IncreasingTimesHavePositiveGap(times);
    forall k | 0 <= k <= |bars|
      ensures LowerBoundFrom(times, Boundary(times, k), 0) == k
    {
      OwnBoundary(times, k);
    }
    var ranges := ReplayBarRanges(times, times).value;
    assert ranges == IdentityRanges(|bars|);
  }

  function SameFrames(bars: seq<Bar>): (f: Frames)
    ensures ValidFrames(f)
  {
    Frames(bars, bars, IdentityRanges(|bars|), 0, 0)
  }

  // ---------- the schedule of a same-frame replay ----------

  /** What the comparison asks of the strategy: signals declare no history window; in trigger mode
      each is touched on its own bar; a time exit never fires on the unfinished last bar. */
  ghost predicate Comparable(cfg: Config, s: Strategy, bars: seq<Bar>) {
    && (forall i: nat | i < |bars| && s.onBar(bars, i).Some? ::
          var signal := s.onBar(bars, i).value;
          && signal.historyStart.None? && signal.historyEnd.None?
          && (cfg.mode.OpenBar? ==> Touches(signal.trigger, signal.entry, bars[i])))
    && (s.hasExitRule ==> forall i: nat, p: Position | i + 1 == |bars| :: !s.shouldExit(bars, i, p))
  }

  /** The orders that bar j receives from the candles below `planned`. */
  function ExpectedOrders(cfg: Config, s: Strategy, bars: seq<Bar>, planned: nat, j: nat): seq<ReplayOrder>
    requires planned <= |bars|
  {
    if cfg.mode.NextBar? then
      if 0 < j < |bars| && cfg.warmupBars <= j - 1 < planned && s.onBar(bars, j - 1).Some?
      then [ReplayOrder(s.onBar(bars, j - 1).value, bars[j - 1].time, j, NextBarOpen)] else []
    else
      if cfg.warmupBars <= j < planned && s.onBar(bars, j).Some?
      then [ReplayOrder(s.onBar(bars, j).value, bars[j].time, j, SameBarTrigger)] else []
  }

  ghost predicate PlanMatches(plan: Plan, cfg: Config, s: Strategy, bars: seq<Bar>, planned: nat)
    requires planned <= |bars|
  {
    && (forall j: nat :: OrdersAt(plan, j) == ExpectedOrders(cfg, s, bars, planned, j))
    && (forall j: nat :: j in plan.exitBars <==> cfg.warmupBars <= j < planned && j + 1 < |bars|)
    && (forall j: nat | j in plan.exitBars :: plan.exitBars[j] == j)
  }

  /** Placing the only order a bar can receive, or none. */
  lemma PlaceMatches(cfg: Config, s: Strategy, bars: seq<Bar>, n: nat, signal: Signal, plan: Plan)
    requires n < |bars| && s.onBar(bars, n) == Some(signal)
    requires cfg.mode.OpenBar? ==> Touches(signal.trigger, signal.entry, bars[n])
    requires OrdersAt(plan, if cfg.mode.OpenBar? then n else n + 1) == []
    ensures var r := PlaceSignal(SameFrames(bars), cfg, n, signal, plan);
            var target := if cfg.mode.OpenBar? then n else n + 1;
            r == Success(
              if target == |bars| then plan
              else AddOrder(plan, target, ReplayOrder(signal, bars[n].time, target,
                            if cfg.mode.OpenBar? then SameBarTrigger else NextBarOpen)))
  {
    hide MinPositiveGap, TimesOf;
    if cfg.mode.OpenBar? {
      assert FirstTouch(bars, signal, n, n + 1) == Some(n);
    }
  }

  lemma PlanOneMatches(cfg: Config, s: Strategy, bars: seq<Bar>, n: nat, plan: Plan)
    requires n < |bars| && cfg.warmupBars <= n && Comparable(cfg, s, bars)
    requires PlanMatches(plan, cfg, s, bars, n)
    ensures var r := PlanOne(SameFrames(bars), cfg, s, n, plan);
            r.Success? && PlanMatches(r.value, cfg, s, bars, n + 1)
  {
    hide PlaceSignal;
    var f := SameFrames(bars);
    var noted := NoteExit(f, n, plan);
    assert forall j: nat :: OrdersAt(noted, j) == OrdersAt(plan, j);
    var signal := s.onBar(bars, n);
    if signal.Some? {
      PlaceMatches(cfg, s, bars, n, signal.value, noted);
    }
    var r := PlanOne(f, cfg, s, n, plan).value;
    forall j: nat
      ensures OrdersAt(r, j) == ExpectedOrders(cfg, s, bars, n + 1, j)
    {
      assert OrdersAt(plan, j) == ExpectedOrders(cfg, s, bars, n, j);
    }
  }

  lemma {:induction false} PlanUpToMatches(cfg: Config, s: Strategy, bars: seq<Bar>, hi: nat)
    requires hi <= |bars| && Comparable(cfg, s, bars)
    ensures var r := PlanUpTo(SameFrames(bars), cfg, s, hi);
            r.Success? && PlanMatches(r.value, cfg, s, bars, hi)
  {
    hide PlanOne, OrdersAt;
    if hi == 0 || hi <= cfg.warmupBars {
      EmptyPlanMatches(cfg, s, bars, hi);
    } else {
      PlanUpToMatches(cfg, s, bars, hi - 1);
      PlanOneMatches(cfg, s, bars, hi - 1, PlanUpTo(SameFrames(bars), cfg, s, hi - 1).value);
    }
  }

  lemma EmptyPlanMatches(cfg: Config, s: Strategy, bars: seq<Bar>, hi: nat)
    requires hi <= |bars| && (hi == 0 || hi <= cfg.warmupBars)
    ensures PlanMatches(EMPTY_PLAN, cfg, s, bars, hi)
  {}

  // ---------- Friday close ----------

  /** The replay can still fill an order placed on bar i: the next bar, or in trigger mode bar i itself,
      starts before the Friday cutoff. */
  predicate FillStillPossible(cfg: Config, bars: seq<Bar>, i: nat)
    requires i < |bars|
  {
    if cfg.mode.NextBar? then i + 1 < |bars| && !FridayCloseState(cfg, bars, i + 1).afterCutoff
    else !FridayCloseState(cfg, bars, i).afterCutoff
  }

  /** The native loop takes no signal on a bar that the Friday rule closes; the replay takes it and looks
      at the cutoff only when it fills. */
  ghost predicate SilentOnFridays(cfg: Config, s: Strategy, bars: seq<Bar>) {
    forall i: nat | cfg.warmupBars <= i < |bars| && FridayCloseState(cfg, bars, i).closeBar && FillStillPossible(cfg, bars, i) ::
      s.onBar(bars, i).None?
  }

  /** Every bar that the Friday rule closes has no fill left before the cutoff. */
  predicate FridaysEndFills(cfg: Config, bars: seq<Bar>) {
    forall i: nat | cfg.warmupBars <= i < |bars| && FridayCloseState(cfg, bars, i).closeBar :: !FillStillPossible(cfg, bars, i)
  }

  // ---------- both loops in step ----------

  /** ISO week numbers repeat only after a whole ISO year of at least 52 weeks. */
  ghost predicate IsoWeekLabels(number: int -> int) {
    forall a: int, b: int | a < b < a + 52 :: number(a) != number(b)
  }

  predicate NoYearLongGap(bars: seq<Bar>) {
    forall i | 0 < i < |bars| :: WeekOf(bars[i].time) - WeekOf(bars[i - 1].time) < 52
  }

  /** The limits under which the two loops agree. */
  ghost predicate AgreeableLimits(cfg: Config, bars: seq<Bar>) {
    && (cfg.mode.NextBar? ==> cfg.dailyLimit.None? && cfg.weeklyLimit.None?)
    && (cfg.weeklyLimit.Some? ==> IsoWeekLabels(cfg.isoWeekNumber) && NoYearLongGap(bars))
  }

  /** Same positions, trades and curve; the realized-R counters agree wherever they are consulted. */
  ghost predicate InStep(cfg: Config, bars: seq<Bar>, i: nat, native: Book, replay: Book)
    requires i <= |bars|
  {
    && native.open == replay.open && native.trades == replay.trades && native.equity == replay.equity
    && (if native.day.None? then native.dailyR == 0.0 && replay.dailyR == 0.0
        else native.day == replay.day && native.dailyR == replay.dailyR)
    && (cfg.weeklyLimit.Some? ==>
          if native.week.None? then native.weeklyR == 0.0 && replay.weeklyR == 0.0
          else
            i > 0 && native.weeklyR == replay.weeklyR
            && replay.week == Some(WeekOf(bars[i - 1].time))
            && native.week == Some(cfg.isoWeekNumber(WeekOf(bars[i - 1].time))))
  }

  lemma RollInStep(cfg: Config, bars: seq<Bar>, i: nat, native: Book, replay: Book)
    requires i < |bars| && IncreasingTimes(bars) && AgreeableLimits(cfg, bars)
    requires InStep(cfg, bars, i, native, replay)
    ensures var a := RollCalendar(native, DayOf(bars[i].time), cfg.isoWeekNumber(WeekOf(bars[i].time)));
            var b := RollCalendar(replay, DayOf(bars[i].time), WeekOf(bars[i].time));
            InStep(cfg, bars, i + 1, a, b) && a.day.Some? && (cfg.weeklyLimit.Some? ==> a.week.Some?)
  {
    if i > 0 {
      var u, w := WeekOf(bars[i - 1].time), WeekOf(bars[i].time);
      assert u <= w;
      if cfg.weeklyLimit.Some? {
        assert cfg.isoWeekNumber(u) == cfg.isoWeekNumber(w) ==> u == w;
      }
    }
  }

  lemma SameGuards(cfg: Config, bars: seq<Bar>, i: nat, native: Book, replay: Book)
    requires i <= |bars| && InStep(cfg, bars, i, native, replay)
    ensures CanOpen(native, 0, cfg) == CanOpen(replay, 0, cfg)
  {}

  /** The two views of a bar lead to the same decision about every position. */
  lemma ViewsAgree(cfg: Config, s: Strategy, bars: seq<Bar>, plan: Plan, i: nat, p: Position)
    requires i < |bars| && cfg.warmupBars <= i && Comparable(cfg, s, bars)
    requires PlanMatches(plan, cfg, s, bars, |bars|)
    ensures Manage(NativeView(cfg, s, bars, i), p) == Manage(ReplayView(SameFrames(bars), cfg, s, plan, i), p)
  {
    var v, w := NativeView(cfg, s, bars, i), ReplayView(SameFrames(bars), cfg, s, plan, i);
    assert v.fridayClose == w.fridayClose;
    if i + 1 < |bars| {
      assert i in plan.exitBars;
    } else {
      assert i !in plan.exitBars;
    }
    var q := ApplyPendingMove(p, cfg.breakEvenOffset);
    assert ExitDecision(v, q) == ExitDecision(w, q);
  }

  lemma {:induction false} ManageInStep(
      cfg: Config, s: Strategy, bars: seq<Bar>, plan: Plan, i: nat, ps: seq<Position>, a: Book, b: Book)
    requires i < |bars| && cfg.warmupBars <= i && Comparable(cfg, s, bars)
    requires PlanMatches(plan, cfg, s, bars, |bars|)
    requires InStep(cfg, bars, i + 1, a, b) && a.day.Some? && (cfg.weeklyLimit.Some? ==> a.week.Some?)
    ensures var v, w := NativeView(cfg, s, bars, i), ReplayView(SameFrames(bars), cfg, s, plan, i);
            var x, y := ManageAll(v, ps, a), ManageAll(w, ps, b);
            InStep(cfg, bars, i + 1, x, y) && x.day.Some? && (cfg.weeklyLimit.Some? ==> x.week.Some?)
  {
    hide NativeView, ReplayView, Manage, Comparable, PlanMatches;
    if |ps| > 0 {
      ManageInStep(cfg, s, bars, plan, i, ps[..|ps| - 1], a, b);
      ViewsAgree(cfg, s, bars, plan, i, ps[|ps| - 1]);
    }
  }

  /** The order the native loop has pending for bar i, if the comparison's conditions hold. */
  ghost predicate PendingMatches(cfg: Config, s: Strategy, bars: seq<Bar>, i: nat, st: NativeState)
    requires i <= |bars|
  {
    cfg.mode.NextBar? ==>
      st.pending ==
        if |st.book.open| < cfg.maxPositions && 0 < i < |bars| && cfg.warmupBars <= i - 1 && s.onBar(bars, i - 1).Some?
           && !FridayCloseState(cfg, bars, i - 1).closeBar
        then [Order(s.onBar(bars, i - 1).value, bars[i - 1].time, i)] else []
  }

  lemma OneReplayOrder(cfg: Config, bar: Bar, i: nat, o: ReplayOrder, b: Book)
    ensures OpenOrders(cfg, bar, i, [o], b) == OpenOrder(cfg, bar, i, o, b)
  {
    assert [o][..0] == [];
    assert OpenOrders(cfg, bar, i, [], b) == b;
  }

  lemma OpensInStep(cfg: Config, s: Strategy, bars: seq<Bar>, plan: Plan, i: nat, st: NativeState, b: Book)
    requires i < |bars| && cfg.warmupBars <= i && IncreasingTimes(bars) && SilentOnFridays(cfg, s, bars)
    requires ValidSettings(cfg) && AgreeableLimits(cfg, bars) && Comparable(cfg, s, bars)
    requires PlanMatches(plan, cfg, s, bars, |bars|)
    requires NativeInv(cfg, st, i) && PendingMatches(cfg, s, bars, i, st) && InStep(cfg, bars, i, st.book, b)
    ensures var o := NativeOpened(cfg, s, bars, i, st).book;
            InStep(cfg, bars, i + 1, o, ReplayOpened(SameFrames(bars), cfg, plan, i, b))
            && o.day.Some? && (cfg.weeklyLimit.Some? ==> o.week.Some?)
  {
    hide NativeOpened, ReplayOpened, RollCalendar, Comparable, BookInv;
    RollInStep(cfg, bars, i, st.book, b);
    AllDue(st.pending, i);
    var x := RollCalendar(st.book, DayOf(bars[i].time), cfg.isoWeekNumber(WeekOf(bars[i].time)));
    var y := RollCalendar(b, DayOf(bars[i].time), WeekOf(bars[i].time));
    RollKeepsPositions(st.book, DayOf(bars[i].time), cfg.isoWeekNumber(WeekOf(bars[i].time)));
    RollKeepsPositions(b, DayOf(bars[i].time), WeekOf(bars[i].time));
    SameGuards(cfg, bars, i + 1, x, y);
    assert OrdersAt(plan, i) == ExpectedOrders(cfg, s, bars, |bars|, i);
    if cfg.mode.NextBar? {
      NextBarOpens(cfg, s, bars, plan, i, st, b, x, y);
    } else {
      OpenBarOpens(cfg, s, bars, plan, i, st, b, x, y);
    }
  }

  /** The books of both loops after bar i's calendar roll. */
  ghost predicate Rolled(cfg: Config, bars: seq<Bar>, i: nat, st: NativeState, b: Book, x: Book, y: Book)
    requires i < |bars|
  {
    && x == RollCalendar(st.book, DayOf(bars[i].time), cfg.isoWeekNumber(WeekOf(bars[i].time)))
    && y == RollCalendar(b, DayOf(bars[i].time), WeekOf(bars[i].time))
    && x.open == st.book.open == b.open == y.open
    && CanOpen(x, 0, cfg) == CanOpen(y, 0, cfg)
  }

  lemma NextBarOpens(
      cfg: Config, s: Strategy, bars: seq<Bar>, plan: Plan, i: nat, st: NativeState, b: Book, x: Book, y: Book)
    requires i < |bars| && cfg.warmupBars <= i && SilentOnFridays(cfg, s, bars) && cfg.mode.NextBar?
    requires cfg.dailyLimit.None? && cfg.weeklyLimit.None? && Rolled(cfg, bars, i, st, b, x, y)
    requires OrdersAt(plan, i) == ExpectedOrders(cfg, s, bars, |bars|, i)
    requires Due(st.pending, i) == st.pending && NotDue(st.pending, i) == []
    requires PendingMatches(cfg, s, bars, i, st)
    ensures var n, r := NativeOpened(cfg, s, bars, i, st).book, ReplayOpened(SameFrames(bars), cfg, plan, i, b);
            n == x.(open := n.open) && r == y.(open := n.open)
  {
    hide RollCalendar, MakePosition, OrdersAt, Due, NotDue, FillAll, OpenOrders;
    var orders := OrdersAt(plan, i);
    assert NativeOpened(cfg, s, bars, i, st) == NativeFills(cfg, bars, i, st);
    NothingToOpen(cfg, bars[i], i, y);
    if |orders| > 0 {
      OneReplayOrder(cfg, bars[i], i, orders[0], y);
      assert orders == [orders[0]];
      FreshPosition(orders[0].signal, bars[i].open, i, bars[i].time, cfg.costs, NextBarOpen);
    }
    if |st.pending| > 0 {
      OneFill(st.pending[0], bars[i], i, cfg);
      assert st.pending == [st.pending[0]];
    }
  }

  lemma FreshPosition(signal: Signal, raw: real, i: nat, time: int, costs: Costs, timing: FillTiming)
    ensures var made := MakePosition(signal, raw, i, time, costs, timing);
            made.Some? ==> made.value.signalTime == time && made.value.nativeOpenBar == made.value.openBar == i
  {}

  lemma NothingToOpen(cfg: Config, bar: Bar, i: nat, b: Book)
    ensures OpenOrders(cfg, bar, i, [], b) == b && FillAll([], bar, i, cfg) == []
  {}

  lemma OpenBarOpens(
      cfg: Config, s: Strategy, bars: seq<Bar>, plan: Plan, i: nat, st: NativeState, b: Book, x: Book, y: Book)
    requires i < |bars| && cfg.warmupBars <= i && SilentOnFridays(cfg, s, bars) && cfg.mode.OpenBar?
    requires st.pending == [] && Rolled(cfg, bars, i, st, b, x, y)
    requires OrdersAt(plan, i) == ExpectedOrders(cfg, s, bars, |bars|, i)
    ensures var n, r := NativeOpened(cfg, s, bars, i, st).book, ReplayOpened(SameFrames(bars), cfg, plan, i, b);
            n == x.(open := n.open) && r == y.(open := n.open)
  {
    hide RollCalendar, MakePosition, OrdersAt, FillAll, OpenOrders;
    var orders := OrdersAt(plan, i);
    NothingToOpen(cfg, bars[i], i, y);
    assert NativeFills(cfg, bars, i, st) == NativeState(x, []) by {
      assert x.open + [] == x.open;
    }
    if |orders| > 0 {
      var signal := orders[0].signal;
      OneReplayOrder(cfg, bars[i], i, orders[0], y);
      assert orders == [orders[0]];
      FreshPosition(signal, signal.entry, i, bars[i].time, cfg.costs, SameBarTrigger);
    }
  }

  lemma StepInStep(cfg: Config, s: Strategy, bars: seq<Bar>, plan: Plan, i: nat, st: NativeState, b: Book)
    requires i < |bars| && cfg.warmupBars <= i && IncreasingTimes(bars) && SilentOnFridays(cfg, s, bars)
    requires ValidSettings(cfg) && AgreeableLimits(cfg, bars) && Comparable(cfg, s, bars)
    requires PlanMatches(plan, cfg, s, bars, |bars|)
    requires NativeInv(cfg, st, i) && PendingMatches(cfg, s, bars, i, st) && InStep(cfg, bars, i, st.book, b)
    ensures var n := NativeStep(cfg, s, bars, i, st);
            && InStep(cfg, bars, i + 1, n.book, ReplayStep(SameFrames(bars), cfg, s, plan, i, b))
            && PendingMatches(cfg, s, bars, i + 1, n)
  {
    hide NativeOpened, ReplayOpened, ManageAll, Comparable, PlanMatches, BookInv;
    OpensInStep(cfg, s, bars, plan, i, st, b);
    OpenedKeepsInv(cfg, s, bars, i, st);
    var o, y := NativeOpened(cfg, s, bars, i, st).book, ReplayOpened(SameFrames(bars), cfg, plan, i, b);
    ManageInStep(cfg, s, bars, plan, i, o.open, o.(open := []), y.(open := []));
  }

  lemma PlannedOrders(plan: Plan, cfg: Config, s: Strategy, bars: seq<Bar>)
    requires PlanMatches(plan, cfg, s, bars, |bars|)
    ensures forall j: nat :: OrdersAt(plan, j) == ExpectedOrders(cfg, s, bars, |bars|, j)
  {}

  lemma IdleReplayBar(cfg: Config, s: Strategy, bars: seq<Bar>, plan: Plan, i: nat, b: Book)
    requires i < |bars| && OrdersAt(plan, i) == [] && b.open == [] && b.dailyR == 0.0 && b.weeklyR == 0.0
    ensures var r := ReplayStep(SameFrames(bars), cfg, s, plan, i, b);
            r.open == [] && r.trades == b.trades && r.equity == b.equity && r.dailyR == 0.0 && r.weeklyR == 0.0
  {
    hide ReplayView, OrdersAt, FridayCloseState;
  }

  /** Before the warm-up ends the native loop has not begun and the replay has nothing scheduled. */
  lemma {:induction false} WarmupInStep(cfg: Config, s: Strategy, bars: seq<Bar>, plan: Plan, hi: nat)
    requires hi <= |bars| && hi <= cfg.warmupBars && PlanMatches(plan, cfg, s, bars, |bars|)
    ensures var r := ReplayRun(SameFrames(bars), cfg, s, plan, hi);
            r.open == [] && r.trades == [] && r.equity == [0.0] && r.dailyR == 0.0 && r.weeklyR == 0.0
  {
    hide ReplayStep, OrdersAt, PlanMatches;
    assert forall j: nat :: OrdersAt(plan, j) == ExpectedOrders(cfg, s, bars, |bars|, j) by { PlannedOrders(plan, cfg, s, bars); }
    if hi > 0 {
      WarmupInStep(cfg, s, bars, plan, hi - 1);
      assert OrdersAt(plan, hi - 1) == ExpectedOrders(cfg, s, bars, |bars|, hi - 1) == [];
      IdleReplayBar(cfg, s, bars, plan, hi - 1, ReplayRun(SameFrames(bars), cfg, s, plan, hi - 1));
    }
  }

  lemma {:induction false} RunsInStep(cfg: Config, s: Strategy, bars: seq<Bar>, plan: Plan, hi: nat)
    requires hi <= |bars| && IncreasingTimes(bars) && SilentOnFridays(cfg, s, bars)
    requires ValidSettings(cfg) && AgreeableLimits(cfg, bars) && Comparable(cfg, s, bars)
    requires PlanMatches(plan, cfg, s, bars, |bars|)
    ensures InStep(cfg, bars, hi, NativeRun(cfg, s, bars, hi).book, ReplayRun(SameFrames(bars), cfg, s, plan, hi))
    ensures PendingMatches(cfg, s, bars, hi, NativeRun(cfg, s, bars, hi))
  {
    hide NativeStep, ReplayStep, Comparable, PlanMatches, AgreeableLimits, NativeInv;
    if hi == 0 || hi <= cfg.warmupBars {
      WarmupInStep(cfg, s, bars, plan, hi);
    } else {
      RunsInStep(cfg, s, bars, plan, hi - 1);
      NativeRunKeepsInv(cfg, s, bars, hi - 1);
      StepInStep(cfg, s, bars, plan, hi - 1, NativeRun(cfg, s, bars, hi - 1),
                 ReplayRun(SameFrames(bars), cfg, s, plan, hi - 1));
    }
  }

  /** The replay on the signal frame itself reports the native trades and curve. */
  ghost predicate ReplayIsNative(cfg: Config, s: Strategy, bars: seq<Bar>) {
    var native := NativeRun(cfg, s, bars, |bars|).book;
    ReplayOutcome(cfg, s, bars, bars, 0, 0) == Success(Outcome(native.trades, native.equity))
  }

  /** Refinement: on one frame, with zero offsets and no signal from a Friday bar that only the replay
      would fill, the replay succeeds and reports exactly what the native backtest reports. */
  lemma ReplayRefinesNative(cfg: Config, s: Strategy, bars: seq<Bar>)
    requires |bars| >= 2 && IncreasingTimes(bars) && ValidSettings(cfg) && SilentOnFridays(cfg, s, bars)
    requires AgreeableLimits(cfg, bars) && Comparable(cfg, s, bars)
    ensures ReplayIsNative(cfg, s, bars)
  {
    SameFrameMapsToItself(bars);
    assert IdentityRanges(|bars|)[0].end > IdentityRanges(|bars|)[0].start;
    PlanUpToMatches(cfg, s, bars, |bars|);
    RunsInStep(cfg, s, bars, PlanUpTo(SameFrames(bars), cfg, s, |bars|).value, |bars|);
  }
}
