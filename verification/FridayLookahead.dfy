/** The Friday rule is the only place where the engine looks ahead: exactly which frames let some strategy
    notice that bars were cut off. */
module FridayLookahead {
  import opened Options
  import opened Market
  import opened Positions
  import opened Backtester
  import opened NativeInvariants
  import opened NoLookahead

  const FREE: Costs := Costs(c => 0.0, c => 0.0, c => 0.0, c => 0.0, c => 0)

  /** The same bars, mode, warm-up, cap, break-even and Friday settings; other costs or loss limits. */
  ghost predicate SameClock(c: Config, cfg: Config) {
    c == cfg.(costs := c.costs, dailyLimit := c.dailyLimit, weeklyLimit := c.weeklyLimit)
  }

  function Unlimited(cfg: Config): Config { cfg.(costs := FREE, dailyLimit := None, weeklyLimit := None) }

  // ---------- a strategy with one signal ----------

  /** Buys once, on bar k, without a stop order; `quick` takes its target at the entry itself. */
  function BuyOnce(k: nat, price: real, quick: bool): Strategy {
    Strategy((bars, i) => if i == k then Some(OneBuy(price, quick)) else None, false, (bars, i, p) => false)
  }

  function OneBuy(price: real, quick: bool): Signal {
    Signal(Buy, price, RiskReference(price - 1.0), if quick then Some(price) else None, PriceAtOrAbove, None, None)
  }

  ghost predicate Idle(st: NativeState) { st.book.open == [] && st.book.trades == [] && st.pending == [] }

  lemma IdleStep(cfg: Config, s: Strategy, bars: seq<Bar>, i: nat, st: NativeState)
    requires i < |bars| && Idle(st) && (s.onBar(bars, i).None? || FridayCloseState(cfg, bars, i).closeBar)
    ensures Idle(NativeStep(cfg, s, bars, i, st))
  {
    hide FridayCloseState, RollCalendar;
    var day, week := DayOf(bars[i].time), cfg.isoWeekNumber(WeekOf(bars[i].time));
    RollKeepsPositions(st.book, day, week);
  }

  lemma {:induction false} IdleRun(cfg: Config, s: Strategy, bars: seq<Bar>, hi: nat)
    requires hi <= |bars|
    requires forall i: nat | cfg.warmupBars <= i < hi :: s.onBar(bars, i).None? || FridayCloseState(cfg, bars, i).closeBar
    ensures Idle(NativeRun(cfg, s, bars, hi))
  {
    hide NativeStep, FridayCloseState;
    if !(hi == 0 || hi <= cfg.warmupBars) {
      IdleRun(cfg, s, bars, hi - 1);
      IdleStep(cfg, s, bars, hi - 1, NativeRun(cfg, s, bars, hi - 1));
    }
  }

  lemma StepOf(cfg: Config, s: Strategy, bars: seq<Bar>, i: nat)
    requires cfg.warmupBars <= i < |bars|
    ensures NativeRun(cfg, s, bars, i + 1) == NativeStep(cfg, s, bars, i, NativeRun(cfg, s, bars, i))
  {}

  // ---------- what the one signal leads to ----------

  lemma OneManaged(v: BarView, p: Position, b: Book)
    ensures ManageAll(v, [p], b) == ManageOne(v, p, b)
  {
    assert [p][..0] == [];
    assert ManageAll(v, [], b) == b;
  }

  /** What a fill at the signal's own price gives. */
  ghost predicate Bought(p: Position, price: real, quick: bool, i: nat, timing: FillTiming) {
    && p.side.Buy? && p.sl.None? && p.tp == (if quick then Some(price) else None) && !p.pendingBe
    && p.openBar == i && p.fillTiming == timing
  }

  lemma BuyIsFilled(price: real, quick: bool, i: nat, time: int, timing: FillTiming)
    ensures var made := MakePosition(OneBuy(price, quick), price, i, time, FREE, timing);
            made.Some? && Bought(made.value, price, quick, i, timing)
  {}

  /** On its first bar it leaves by its target, or by the Friday rule, or not at all. */
  lemma FirstBarOf(v: BarView, p: Position, price: real, quick: bool, timing: FillTiming, b: Book)
    requires Bought(p, price, quick, v.index, timing) && !v.strategy.hasExitRule
    requires if timing.NextBarOpen? then price == v.bar.open else price == v.bar.high
    ensures ManageAll(v, [p], b).trades == b.trades <==> !quick && !v.fridayClose
  {
    OneManaged(v, p, b);
    assert quick <==> ExitForBar(p, v.bar, v.index).Some?;
  }

  /** Trigger mode: the signal trades on its own bar unless the Friday rule closes that bar. */
  lemma TriggerTrades(cfg: Config, bars: seq<Bar>, k: nat, price: real)
    requires cfg.mode.OpenBar? && cfg.warmupBars <= k < |bars| && ValidSettings(cfg) && price == bars[k].high
    ensures var c := Unlimited(cfg);
            NativeRun(c, BuyOnce(k, price, true), bars, k + 1).book.trades == [] <==> FridayCloseState(cfg, bars, k).closeBar
  {
    hide FridayCloseState, RollCalendar, MakePosition, NativeRun;
    var c, s := Unlimited(cfg), BuyOnce(k, price, true);
    IdleRun(c, s, bars, k);
    var st := NativeRun(c, s, bars, k);
    StepOf(c, s, bars, k);
    SameFridays(cfg, bars, k);
    if FridayCloseState(cfg, bars, k).closeBar {
      IdleStep(c, s, bars, k, st);
    } else {
      RollKeepsPositions(st.book, DayOf(bars[k].time), c.isoWeekNumber(WeekOf(bars[k].time)));
      BuyIsFilled(price, true, k, bars[k].time, SameBarTrigger);
      var o := NativeOpened(c, s, bars, k, st);
      assert |o.book.open| == 1;
      FirstBarOf(NativeView(c, s, bars, k), o.book.open[0], price, true, SameBarTrigger, o.book.(open := []));
      assert o.book.open == [o.book.open[0]];
    }
  }

  lemma SameFridays(cfg: Config, bars: seq<Bar>, k: nat)
    requires k < |bars|
    ensures FridayCloseState(Unlimited(cfg), bars, k) == FridayCloseState(cfg, bars, k)
  {}

  /** Bar-close mode: the order placed on bar k is filled on the next bar. */
  lemma FilledNext(cfg: Config, bars: seq<Bar>, k: nat, quick: bool)
    requires cfg.mode.NextBar? && cfg.warmupBars <= k && k + 1 < |bars| && ValidSettings(cfg)
    requires !FridayCloseState(cfg, bars, k + 1).afterCutoff && !FridayCloseState(cfg, bars, k).closeBar
    ensures var c := Unlimited(cfg);
            NativeRun(c, BuyOnce(k, bars[k + 1].open, quick), bars, k + 2).book.trades == []
            <==> !quick && !FridayCloseState(cfg, bars, k + 1).closeBar
  {
    hide FridayCloseState, RollCalendar, MakePosition, NativeRun;
    var price := bars[k + 1].open;
    var c, s := Unlimited(cfg), BuyOnce(k, price, quick);
    IdleRun(c, s, bars, k);
    StepOf(c, s, bars, k);
    StepOf(c, s, bars, k + 1);
    SameFridays(cfg, bars, k);
    SameFridays(cfg, bars, k + 1);
    var before, st := NativeRun(c, s, bars, k), NativeRun(c, s, bars, k + 1);
    QueuedOnce(c, s, bars, k, before);
    AllDue(st.pending, k + 1);
    RollKeepsPositions(st.book, DayOf(bars[k + 1].time), c.isoWeekNumber(WeekOf(bars[k + 1].time)));
    BuyIsFilled(price, quick, k + 1, bars[k + 1].time, NextBarOpen);
    var o := NativeOpened(c, s, bars, k + 1, st);
    OneFill(st.pending[0], bars[k + 1], k + 1, c);
    assert |o.book.open| == 1;
    FirstBarOf(NativeView(c, s, bars, k + 1), o.book.open[0], price, quick, NextBarOpen, o.book.(open := []));
    assert o.book.open == [o.book.open[0]];
  }

  lemma QueuedOnce(c: Config, s: Strategy, bars: seq<Bar>, k: nat, st: NativeState)
    requires k + 1 < |bars| && Idle(st) && c.mode.NextBar? && !FridayCloseState(c, bars, k).closeBar
    requires c.dailyLimit.None? && c.weeklyLimit.None? && c.maxPositions >= 1 && s.onBar(bars, k).Some?
    ensures var r := NativeStep(c, s, bars, k, st);
            r.book.open == [] && r.book.trades == [] && r.pending == [Order(s.onBar(bars, k).value, bars[k].time, k + 1)]
  {
    hide FridayCloseState, RollCalendar;
    RollKeepsPositions(st.book, DayOf(bars[k].time), c.isoWeekNumber(WeekOf(bars[k].time)));
  }

  // ---------- exactly when ----------

  /** A trade that one of the two runs has closed by bar j < m, and the other has not, is noticed. */
  lemma EarlyTradeTells(cfg: Config, s: Strategy, bars: seq<Bar>, m: nat, j: nat)
    requires j < m <= |bars| && ValidSettings(cfg)
    requires NativeRun(cfg, s, bars[..m], j + 1).book.trades == [] <==> NativeRun(cfg, s, bars, j + 1).book.trades != []
    ensures !CutsCleanly(cfg, s, bars, m)
  {
    hide NativeRun;
    var cut := bars[..m];
    NativeRunKeepsInv(cfg, s, cut, j + 1);
    NativeRunKeepsInv(cfg, s, bars, j + 1);
    LaterTradesCloseLater(cfg, s, cut, j + 1, m);
    LaterTradesCloseLater(cfg, s, bars, j + 1, |bars|);
    var a, b := NativeRun(cfg, s, cut, j + 1).book.trades, NativeRun(cfg, s, bars, j + 1).book.trades;
    var short, full := NativeRun(cfg, s, cut, m).book.trades, NativeRun(cfg, s, bars, |bars|).book.trades;
    if a != [] {
      assert short[0] == a[0] && a[0] in a;
    } else {
      assert full[0] == b[0] && b[0] in b;
    }
  }

  /** The strategy that notices a change of bar i's Friday state. */
  lemma ChangeIsSeen(cfg: Config, bars: seq<Bar>, m: nat, i: nat) returns (s: Strategy)
    requires m <= |bars| && ValidSettings(cfg) && cfg.warmupBars <= i < m && !CutIsUnseen(cfg, bars, m, i)
    requires FridayCloseState(cfg, bars[..m], i) != FridayCloseState(cfg, bars, i)
    requires forall k: nat | cfg.warmupBars <= k < i ::
               FridayCloseState(cfg, bars[..m], k) == FridayCloseState(cfg, bars, k) || CutIsUnseen(cfg, bars, m, k)
    ensures CausalOn(s, bars, m) && !CutsCleanly(Unlimited(cfg), s, bars, m)
  {
    hide NativeRun, CutsCleanly, FridayCloseState;
    var cut, c := bars[..m], Unlimited(cfg);
    OnlyCloseBarChanges(cfg, bars, m, i);
    if cfg.mode.OpenBar? {
      s := BuyOnce(i, bars[i].high, true);
      TriggerTrades(cfg, cut, i, bars[i].high);
      TriggerTrades(cfg, bars, i, bars[i].high);
      EarlyTradeTells(c, s, bars, m, i);
    } else if i + 1 < m && !FridayCloseState(cfg, bars, i + 1).afterCutoff {
      OnlyCloseBarChanges(cfg, bars, m, i + 1);
      s := BuyOnce(i, bars[i + 1].open, true);
      NextBarSeen(cfg, cut, i, bars[i + 1].open);
      NextBarSeen(cfg, bars, i, bars[i + 1].open);
      EarlyTradeTells(c, s, bars, m, i + 1);
    } else {
      assert FridayCloseState(cfg, cut, i - 1) == FridayCloseState(cfg, bars, i - 1);
      s := BuyOnce(i - 1, bars[i].open, false);
      FilledNext(cfg, cut, i - 1, false);
      FilledNext(cfg, bars, i - 1, false);
      EarlyTradeTells(c, s, bars, m, i);
    }
  }

  /** Cutting the frame never changes whether a bar starts after the cutoff. */
  lemma OnlyCloseBarChanges(cfg: Config, bars: seq<Bar>, m: nat, i: nat)
    requires i < m <= |bars|
    ensures var a, b := FridayCloseState(cfg, bars[..m], i), FridayCloseState(cfg, bars, i);
            a.afterCutoff == b.afterCutoff && (a.afterCutoff ==> a == b)
  {
    hide MinPositiveGap, TimesOf;
  }

  lemma NextBarSeen(cfg: Config, bars: seq<Bar>, k: nat, price: real)
    requires cfg.mode.NextBar? && cfg.warmupBars <= k && k + 1 < |bars| && ValidSettings(cfg)
    requires !FridayCloseState(cfg, bars, k + 1).afterCutoff && price == bars[k + 1].open
    ensures NativeRun(Unlimited(cfg), BuyOnce(k, price, true), bars, k + 2).book.trades == []
            <==> FridayCloseState(cfg, bars, k).closeBar
  {
    hide NativeRun, FridayCloseState;
    if FridayCloseState(cfg, bars, k).closeBar {
      SameFridays(cfg, bars, k);
      IdleRun(Unlimited(cfg), BuyOnce(k, price, true), bars, k + 2);
    } else {
      FilledNext(cfg, bars, k, true);
    }
  }

  lemma {:induction false} FirstChange(cfg: Config, bars: seq<Bar>, m: nat, n: nat) returns (i: nat)
    requires n <= m <= |bars|
    requires exists k: nat | cfg.warmupBars <= k < n ::
               !(FridayCloseState(cfg, bars[..m], k) == FridayCloseState(cfg, bars, k) || CutIsUnseen(cfg, bars, m, k))
    ensures cfg.warmupBars <= i < n && !CutIsUnseen(cfg, bars, m, i)
    ensures FridayCloseState(cfg, bars[..m], i) != FridayCloseState(cfg, bars, i)
    ensures forall k: nat | cfg.warmupBars <= k < i ::
              FridayCloseState(cfg, bars[..m], k) == FridayCloseState(cfg, bars, k) || CutIsUnseen(cfg, bars, m, k)
  {
    hide FridayCloseState, CutIsUnseen;
    if k: nat :| cfg.warmupBars <= k < n - 1
                 && !(FridayCloseState(cfg, bars[..m], k) == FridayCloseState(cfg, bars, k) || CutIsUnseen(cfg, bars, m, k)) {
      i := FirstChange(cfg, bars, m, n - 1);
    } else {
      i := n - 1;
    }
  }

  /** Exactly when the engine has no lookahead: no causal strategy, costs or loss limits let a run on the
      first m bars differ from the full run before bar m, if and only if the Friday states agree. */
  lemma NoLookaheadExactlyWhen(cfg: Config, bars: seq<Bar>, m: nat)
    requires m <= |bars| && ValidSettings(cfg)
    ensures (forall c, s | SameClock(c, cfg) && CausalOn(s, bars, m) :: CutsCleanly(c, s, bars, m))
            <==> FridaysAgree(cfg, bars, m)
  {
    hide CutsCleanly, CausalOn, FridayCloseState, CutIsUnseen;
    if FridaysAgree(cfg, bars, m) {
      forall c, s | SameClock(c, cfg) && CausalOn(s, bars, m)
        ensures CutsCleanly(c, s, bars, m)
      {
        ClockDecides(c, cfg, bars, m);
        NoLookaheadTheorem(c, s, bars, m);
      }
    } else {
      var i := FirstChange(cfg, bars, m, m);
      var s := ChangeIsSeen(cfg, bars, m, i);
      assert SameClock(Unlimited(cfg), cfg);
    }
  }

  lemma ClockDecides(c: Config, cfg: Config, bars: seq<Bar>, m: nat)
    requires m <= |bars| && SameClock(c, cfg) && FridaysAgree(cfg, bars, m)
    ensures FridaysAgree(c, bars, m)
  {
    hide MinPositiveGap, TimesOf;
    forall i: nat | c.warmupBars <= i < m
      ensures FridayCloseState(c, bars[..m], i) == FridayCloseState(c, bars, i) || CutIsUnseen(c, bars, m, i)
    {
      FridaysAgreeAt(cfg, bars, m, i);
    }
  }

  // ---------- an inhabited failure ----------

  /** Three Friday hours before a late cutoff; cut after the second, which then looks like the day's last. */
  function FridayHours(): seq<Bar> {
    [Bar(DAY, 10.0, 10.0, 10.0, 10.0), Bar(DAY + 3600, 10.0, 10.0, 10.0, 10.0), Bar(DAY + 7200, 10.0, 10.0, 10.0, 10.0)]
  }

  lemma CutInsideFridayIsSeen(cfg: Config) returns (s: Strategy)
    requires cfg.mode.NextBar? && cfg.closeOnFriday && cfg.fridayCutoff == 86000 && cfg.warmupBars == 0 && cfg.maxPositions >= 1
    ensures CausalOn(s, FridayHours(), 2) && !CutsCleanly(Unlimited(cfg), s, FridayHours(), 2)
  {
    hide CutsCleanly, CausalOn;
    var bars := FridayHours();
    var cut := bars[..2];
    HourlyGaps();
    assert cut[0] == bars[0] && cut[1] == bars[1];
    assert FridayCloseState(cfg, cut, 0) == FridayCloseState(cfg, bars, 0) == FridayState(false, false);
    assert FridayCloseState(cfg, cut, 1) == FridayState(true, false) && FridayCloseState(cfg, bars, 1) == FridayState(false, false);
    s := ChangeIsSeen(cfg, bars, 2, 1);
  }

  lemma HourlyGaps()
    ensures MinPositiveGap(TimesOf(FridayHours()[..2])) == MinPositiveGap(TimesOf(FridayHours())) == 3600
  {
    var times := TimesOf(FridayHours());
    assert TimesOf(FridayHours()[..2]) == times[..2];
    assert times[..2][..1] == times[..1];
    assert MinPositiveGap(times[..1]) == 0;
    assert MinPositiveGap(times[..2]) == 3600;
    assert MinPositiveGap(times) == 3600;
  }
}
