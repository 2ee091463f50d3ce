/** The replay told from outside: its fills come from the schedule as the schedule's law describes it, and
    its positions and trades look as those of the native loop must. */
module ReplayStory {
  import opened Options
  import opened Market
  import opened Positions
  import opened Backtester
  import opened BookInvariants
  import opened Replay
  import opened ReplayInvariants
  import opened TradeStory
  import opened RunStory
  import opened ScheduleLaw

  // ---------- what a replayed position is ----------

  /** p is the fill, on its execution bar, of the signal that candle n sends there. */
  ghost predicate ReplayFillOf(f: Frames, cfg: Config, s: Strategy, n: nat, p: Position)
    requires ValidFrames(f)
  {
    && p.openBar < |f.exec| && Sends(f, cfg, s, n, p.openBar) && !AfterCutoff(cfg, f.exec[p.openBar])
    && p.signalTime == f.signal[n].time && p.nativeOpenBar == TargetCandle(cfg, n)
    && p.fillTiming == (if cfg.mode.OpenBar? then SameBarTrigger else NextBarOpen)
    && var signal := s.onBar(f.signal, n).value;
       FilledFor(cfg.costs, signal, if cfg.mode.OpenBar? then signal.entry else f.exec[p.openBar].open, f.exec[p.openBar], p)
  }

  ghost predicate ReplayOwn(f: Frames, cfg: Config, s: Strategy, p: Position)
    requires ValidFrames(f)
  {
    exists n: nat :: ReplayFillOf(f, cfg, s, n, p)
  }

  /** The time-exit rule is asked on the bar that closes a candle, about that candle. */
  ghost function ReplaySight(f: Frames, cfg: Config, s: Strategy, i: nat): BarView
    requires ValidFrames(f)
  {
    if i < |f.exec| then
      BarView(i, f.exec[i], cfg, s, f.signal, ClosedCandle(f, cfg, i), ClosedOnFriday(cfg, f.exec, i))
    else BarView(i, Bar(0, 0.0, 0.0, 0.0, 0.0), cfg, s, f.signal, None, false)
  }

  ghost function ClosedCandle(f: Frames, cfg: Config, i: nat): Option<nat>
    requires |f.ranges| == |f.signal|
  {
    if n: nat :| LastExit(f, cfg, |f.signal|, i, n) then Some(n) else None
  }

  ghost function ReplayTold(f: Frames, cfg: Config, s: Strategy): Told
    requires ValidFrames(f)
  {
    Told(cfg, f.exec, (i: nat) => ReplaySight(f, cfg, s, i), (p: Position) => ReplayOwn(f, cfg, s, p))
  }

  lemma ReplayToldIsValid(f: Frames, cfg: Config, s: Strategy)
    requires ValidFrames(f)
    ensures ValidTold(ReplayTold(f, cfg, s))
  {
    hide Sends;
    var w := ReplayTold(f, cfg, s);
    forall p: Position, q: Position | w.own(p) && q == p.(sl := q.sl, movedToBe := q.movedToBe, pendingBe := q.pendingBe)
      ensures w.own(q)
    {
      var n: nat :| ReplayFillOf(f, cfg, s, n, p);
      assert ReplayFillOf(f, cfg, s, n, q);
    }
  }

  lemma ReplayViewIsSight(f: Frames, cfg: Config, s: Strategy, plan: Plan, i: nat)
    requires ValidFrames(f) && i < |f.exec| && PlanAsTold(f, cfg, s, |f.signal|, plan)
    ensures ReplayView(f, cfg, s, plan, i) == ReplayTold(f, cfg, s).view(i)
  {
    hide FridayCloseState, SentTo, ClosedOnFriday, ExitsOn, WithoutHistory, LateCandles;
    FridayRule(cfg, f.exec, i);
    assert i in plan.exitBars <==> exists n: nat :: LastExit(f, cfg, |f.signal|, i, n);
    if i in plan.exitBars {
      LastExitIsUnique(f, cfg, i, plan.exitBars[i]);
    }
  }

  lemma LastExitIsUnique(f: Frames, cfg: Config, i: nat, n: nat)
    requires |f.ranges| == |f.signal| && LastExit(f, cfg, |f.signal|, i, n)
    ensures ClosedCandle(f, cfg, i) == Some(n)
  {
    var m := ClosedCandle(f, cfg, i).value;
    assert LastExit(f, cfg, |f.signal|, i, m);
    assert m <= n && n <= m;
  }

  // ---------- what a bar opens ----------

  function RawFor(cfg: Config, o: ReplayOrder, b: Bar): real { if cfg.mode.OpenBar? then o.signal.entry else b.open }

  /** The orders whose stop leaves a positive risk from the costed fill on this bar. */
  function Fillable(cfg: Config, b: Bar, i: nat, orders: seq<ReplayOrder>): seq<ReplayOrder> {
    if |orders| == 0 then []
    else
      var o := orders[|orders| - 1];
      Fillable(cfg, b, i, orders[..|orders| - 1])
      + if RiskOf(o.signal, EntryPrice(o.signal, RawFor(cfg, o, b), i, b.time, cfg.costs)) > 0.0 then [o] else []
  }

  /** p is the untouched fill of the order. */
  ghost predicate FillOfOrder(cfg: Config, b: Bar, i: nat, o: ReplayOrder, p: Position) {
    && FilledFor(cfg.costs, o.signal, RawFor(cfg, o, b), b, p) && p.openBar == i && p.fillTiming == o.fillTiming
    && p.signalTime == o.signalTime && p.nativeOpenBar == o.nativeOpenBar
    && p.sl == p.initialSl && !p.movedToBe && !p.pendingBe
  }

  function Least(a: int, b: int): int { if a <= b then a else b }

  /** While neither limit is reached, as many positions as the cap has room for, from the first fillable
      orders; none otherwise. */
  ghost predicate OpensOrders(cfg: Config, bar: Bar, i: nat, orders: seq<ReplayOrder>, b: Book, r: Book) {
    var fillable := Fillable(cfg, bar, i, orders);
    && r == b.(open := r.open)
    && |b.open| <= |r.open| && r.open[..|b.open|] == b.open
    && |r.open| - |b.open| == (if Within(cfg.dailyLimit, b.dailyR) && Within(cfg.weeklyLimit, b.weeklyR)
                               then Least(|fillable|, cfg.maxPositions - |b.open|) else 0)
    && forall k | 0 <= k < |r.open| - |b.open| :: k < |fillable| && FillOfOrder(cfg, bar, i, fillable[k], r.open[|b.open| + k])
  }

  lemma OrderOpens(cfg: Config, bar: Bar, i: nat, o: ReplayOrder, b: Book)
    ensures var r := OpenOrder(cfg, bar, i, o, b);
            if Within(cfg.dailyLimit, b.dailyR) && Within(cfg.weeklyLimit, b.weeklyR) && |b.open| < cfg.maxPositions
               && RiskOf(o.signal, EntryPrice(o.signal, RawFor(cfg, o, bar), i, bar.time, cfg.costs)) > 0.0
            then r == b.(open := r.open) && |r.open| == |b.open| + 1 && r.open[..|b.open|] == b.open
                 && FillOfOrder(cfg, bar, i, o, r.open[|b.open|])
            else r == b
  {
    hide MakePosition, EntryPrice, RiskOf;
    FillIsAdverse(o.signal, RawFor(cfg, o, bar), i, bar.time, cfg.costs, o.fillTiming, bar);
    var made := MakePosition(o.signal, RawFor(cfg, o, bar), i, bar.time, cfg.costs, o.fillTiming);
    if made.Some? {
      TagsAside(cfg, bar, o, made.value);
    }
  }

  lemma TagsAside(cfg: Config, b: Bar, o: ReplayOrder, p: Position)
    ensures FilledFor(cfg.costs, o.signal, RawFor(cfg, o, b), b, p.(signalTime := o.signalTime, nativeOpenBar := o.nativeOpenBar))
            == FilledFor(cfg.costs, o.signal, RawFor(cfg, o, b), b, p)
  {}

  lemma {:induction false} OrdersOpen(cfg: Config, bar: Bar, i: nat, orders: seq<ReplayOrder>, b: Book)
    requires |b.open| <= cfg.maxPositions
    ensures OpensOrders(cfg, bar, i, orders, b, OpenOrders(cfg, bar, i, orders, b))
  {
    hide OpenOrder, FillOfOrder, Within, EntryPrice, RiskOf, OpensOrders;
    if |orders| > 0 {
      var front, last := orders[..|orders| - 1], orders[|orders| - 1];
      OrdersOpen(cfg, bar, i, front, b);
      OrderOpens(cfg, bar, i, last, OpenOrders(cfg, bar, i, front, b));
      OneMoreOrder(cfg, bar, i, orders, b, OpenOrders(cfg, bar, i, front, b), OpenOrders(cfg, bar, i, orders, b));
    } else {
      NoOrders(cfg, bar, i, orders, b);
    }
  }

  lemma NoOrders(cfg: Config, bar: Bar, i: nat, orders: seq<ReplayOrder>, b: Book)
    requires |orders| == 0 && |b.open| <= cfg.maxPositions
    ensures OpensOrders(cfg, bar, i, orders, b, b)
  {}

  lemma OneMoreOrder(cfg: Config, bar: Bar, i: nat, orders: seq<ReplayOrder>, b: Book, mid: Book, r: Book)
    requires |orders| > 0 && |b.open| <= cfg.maxPositions && OpensOrders(cfg, bar, i, orders[..|orders| - 1], b, mid)
    requires var o := orders[|orders| - 1];
             if Within(cfg.dailyLimit, mid.dailyR) && Within(cfg.weeklyLimit, mid.weeklyR) && |mid.open| < cfg.maxPositions
                && RiskOf(o.signal, EntryPrice(o.signal, RawFor(cfg, o, bar), i, bar.time, cfg.costs)) > 0.0
             then r == mid.(open := r.open) && |r.open| == |mid.open| + 1 && r.open[..|mid.open|] == mid.open
                  && FillOfOrder(cfg, bar, i, o, r.open[|mid.open|])
             else r == mid
    ensures OpensOrders(cfg, bar, i, orders, b, r)
  {
    hide FillOfOrder, Within, EntryPrice, RiskOf, RawFor;
    var rest, all, n := Fillable(cfg, bar, i, orders[..|orders| - 1]), Fillable(cfg, bar, i, orders), |b.open|;
    assert |rest| <= |all| && all[..|rest|] == rest;
    hide Fillable;
    forall k | 0 <= k < |r.open| - n
      ensures k < |all| && FillOfOrder(cfg, bar, i, all[k], r.open[n + k])
    {
      if k < |mid.open| - n {
        assert all[k] == rest[k] && r.open[n + k] == mid.open[n + k];
      }
    }
    assert r.open[..n] == mid.open[..n];
  }

  // ---------- every execution bar ----------

  /** Weeks are numbered by Mondays; the label holds the year as well. */
  function ReplayWeek(bars: seq<Bar>): nat -> int {
    (i: nat) => if i < |bars| then (bars[i].time / DAY + 3) / 7 else 0
  }

  ghost predicate ReplayedTo(f: Frames, cfg: Config, s: Strategy, b: Book, i: nat)
    requires ValidFrames(f) && i <= |f.exec|
  {
    StoryOf(ReplayTold(f, cfg, s), b, i) && Counted(DayLabel(f.exec), ReplayWeek(f.exec), 0, b, i)
  }

  /** The orders bar i may fill. */
  ghost function OnOffer(f: Frames, cfg: Config, s: Strategy, i: nat): seq<ReplayOrder>
    requires ValidFrames(f) && i < |f.exec|
  {
    if AfterCutoff(cfg, f.exec[i]) then [] else SentTo(f, cfg, s, |f.signal|, i)
  }

  /** How many positions bar i opens after this book. */
  ghost function Openings(f: Frames, cfg: Config, s: Strategy, i: nat, b: Book): int
    requires ValidFrames(f) && i < |f.exec|
  {
    if Within(cfg.dailyLimit, Realized(DayLabel(f.exec), b.trades, i)) && Within(cfg.weeklyLimit, Realized(ReplayWeek(f.exec), b.trades, i))
    then Least(|Fillable(cfg, f.exec[i], i, OnOffer(f, cfg, s, i))|, cfg.maxPositions - |b.open|)
    else 0
  }

  lemma {:induction false} SentOrdersHaveCandles(f: Frames, cfg: Config, s: Strategy, hi: nat, i: nat)
    requires ValidFrames(f) && hi <= |f.signal|
    ensures forall o | o in SentTo(f, cfg, s, hi, i) ::
              exists n: nat :: n < hi && s.onBar(f.signal, n).Some? && Sends(f, cfg, s, n, i) && o == OrderOf(f, cfg, s, n)
  {
    hide Sends;
    if hi > 0 {
      SentOrdersHaveCandles(f, cfg, s, hi - 1, i);
      SendsOnlySignals(f, cfg, s, hi - 1, i);
    }
  }

  lemma SendsOnlySignals(f: Frames, cfg: Config, s: Strategy, n: nat, i: nat)
    requires ValidFrames(f)
    ensures Sends(f, cfg, s, n, i) ==> n < |f.signal| && s.onBar(f.signal, n).Some?
  {}

  lemma {:induction false} FillableAreOrders(cfg: Config, b: Bar, i: nat, orders: seq<ReplayOrder>)
    ensures forall o | o in Fillable(cfg, b, i, orders) :: o in orders
  {
    hide RiskOf, EntryPrice;
    if |orders| > 0 {
      FillableAreOrders(cfg, b, i, orders[..|orders| - 1]);
    }
  }

  /** A fill of an order on offer is one of the run's own positions. */
  lemma FillIsOwn(f: Frames, cfg: Config, s: Strategy, i: nat, o: ReplayOrder, p: Position)
    requires ValidFrames(f) && i < |f.exec| && o in Fillable(cfg, f.exec[i], i, OnOffer(f, cfg, s, i))
    requires FillOfOrder(cfg, f.exec[i], i, o, p)
    ensures ReplayOwn(f, cfg, s, p)
  {
    hide Sends, SentTo, RiskOf, EntryPrice, AfterCutoff;
    FillableAreOrders(cfg, f.exec[i], i, OnOffer(f, cfg, s, i));
    SentOrdersHaveCandles(f, cfg, s, |f.signal|, i);
    assert !AfterCutoff(cfg, f.exec[i]);
    var n: nat :| n < |f.signal| && s.onBar(f.signal, n).Some? && Sends(f, cfg, s, n, i) && o == OrderOf(f, cfg, s, n);
    assert ReplayFillOf(f, cfg, s, n, p) by {
      SendsOnlySignals(f, cfg, s, n, i);
    }
  }

  lemma OpenedIsTold(f: Frames, cfg: Config, s: Strategy, plan: Plan, i: nat, b: Book)
    requires ValidFrames(f) && i < |f.exec| && PlanAsTold(f, cfg, s, |f.signal|, plan)
    requires ReplayedTo(f, cfg, s, b, i) && |b.open| <= cfg.maxPositions
    ensures var o := ReplayOpened(f, cfg, plan, i, b);
            && StoryOf(ReplayTold(f, cfg, s), o, i) && CountedOn(DayLabel(f.exec), ReplayWeek(f.exec), o, i)
            && o.trades == b.trades && |o.open| == |b.open| + Openings(f, cfg, s, i, b)
  {
    hide SentTo, OpenOrders, RollCalendar, FridayCloseState, Recorded, Explained, Leaves, On, FillOfOrder, Fillable, ReplayOwn,
         Counted, LastExit, WithoutHistory, LateCandles, AfterCutoff, Within, ClosedOnFriday;
    var day, week := DayLabel(f.exec), ReplayWeek(f.exec);
    var bar := f.exec[i];
    ReplayLabels(f.exec, i);
    hide DayLabel, ReplayWeek;
    FridayRule(cfg, f.exec, i);
    RollCounts(day, week, 0, b, i);
    var rolled := RollCalendar(b, day(i), week(i));
    RollKeeps(b, day(i), week(i));
    assert OrdersAt(plan, i) == SentTo(f, cfg, s, |f.signal|, i);
    OrdersOpen(cfg, bar, i, OnOffer(f, cfg, s, i), rolled);
    var o := ReplayOpened(f, cfg, plan, i, b);
    assert o == OpenOrders(cfg, bar, i, OnOffer(f, cfg, s, i), rolled);
    BookKeepsCount(day, week, rolled, o.open, i);
    var w := ReplayTold(f, cfg, s);
    forall p | p in o.open
      ensures Recorded(cfg, f.exec, p, i) && HeldUntil(w, p, i)
    {
      var k :| 0 <= k < |o.open| && o.open[k] == p;
      if k < |b.open| {
        assert o.open[..|b.open|][k] == p;
        assert p in b.open;
      } else {
        var order := Fillable(cfg, bar, i, OnOffer(f, cfg, s, i))[k - |b.open|];
        assert FillOfOrder(cfg, bar, i, order, o.open[|b.open| + (k - |b.open|)]);
        FillIsOwn(f, cfg, s, i, order, p);
        OrderFillIsFresh(cfg, f.exec, i, order, p);
      }
    }
  }

  lemma OrderFillIsFresh(cfg: Config, bars: seq<Bar>, i: nat, o: ReplayOrder, p: Position)
    requires i < |bars| && FillOfOrder(cfg, bars[i], i, o, p)
    ensures p.openBar == i && Recorded(cfg, bars, p, i)
  {
    FreshIsRecorded(cfg, bars, p);
  }

  lemma ReplayLabels(bars: seq<Bar>, i: nat)
    requires i < |bars|
    ensures DayLabel(bars)(i) == DayOf(bars[i].time) && ReplayWeek(bars)(i) == WeekOf(bars[i].time)
  {}

  lemma RollKeeps(b: Book, day: int, week: int)
    ensures var r := RollCalendar(b, day, week); r.open == b.open && r.trades == b.trades
  {}

  lemma {:induction false} ReplayStepIsTold(f: Frames, cfg: Config, s: Strategy, plan: Plan, i: nat, b: Book)
    requires ValidFrames(f) && i < |f.exec| && PlanAsTold(f, cfg, s, |f.signal|, plan)
    requires ReplayedTo(f, cfg, s, b, i) && BookInv(b, i, cfg.maxPositions)
    ensures var n := ReplayStep(f, cfg, s, plan, i, b);
            && ReplayedTo(f, cfg, s, n, i + 1)
            && |n.open| + |n.trades| == |b.open| + |b.trades| + Openings(f, cfg, s, i, b)
  {
    hide ReplayOpened, ManageAll, StoryOf, Counted, CountedOn, Openings, ReplayView, ReplayTold, PlanAsTold;
    OpenedIsTold(f, cfg, s, plan, i, b);
    var o, w, v := ReplayOpened(f, cfg, plan, i, b), ReplayTold(f, cfg, s), ReplayView(f, cfg, s, plan, i);
    ReplayToldIsValid(f, cfg, s);
    ReplayViewIsSight(f, cfg, s, plan, i);
    ReplayBars(f, cfg, s, plan, i);
    ManageBookIsTold(w, i, o);
    BookKeepsCount(DayLabel(f.exec), ReplayWeek(f.exec), o, [], i);
    ManageAllCounts(DayLabel(f.exec), ReplayWeek(f.exec), v, o.open, o.(open := []));
    ManagingKeepsNumber(v, o.open, o.(open := []));
    CountsCarryOver(DayLabel(f.exec), ReplayWeek(f.exec), 0, ManageBook(v, o), i);
  }

  lemma ReplayBars(f: Frames, cfg: Config, s: Strategy, plan: Plan, i: nat)
    requires ValidFrames(f) && i < |f.exec|
    ensures ReplayTold(f, cfg, s).bars == f.exec && ReplayTold(f, cfg, s).cfg == cfg && ReplayView(f, cfg, s, plan, i).index == i
  {}

  lemma {:induction false} ManagingKeepsNumber(v: BarView, ps: seq<Position>, b: Book)
    ensures var r := ManageAll(v, ps, b); |r.open| + |r.trades| == |b.open| + |b.trades| + |ps|
  {
    hide Manage;
    if |ps| > 0 {
      ManagingKeepsNumber(v, ps[..|ps| - 1], b);
    }
  }

  /** The replay is as told: every open position is the costed fill of a signal on the execution bar the
      schedule's law names, with the stop in force that its bars armed; every trade books one of them on the
      first bar that closes it; and the counters are the R closed since the day or the week changed. */
  lemma {:induction false} ReplayRunIsTold(f: Frames, cfg: Config, s: Strategy, plan: Plan, hi: nat)
    requires ValidFrames(f) && hi <= |f.exec| && cfg.maxPositions >= 1 && PlanAsTold(f, cfg, s, |f.signal|, plan)
    ensures ReplayedTo(f, cfg, s, ReplayRun(f, cfg, s, plan, hi), hi)
  {
    hide ReplayStep, ReplayedTo, BookInv, PlanAsTold;
    if hi == 0 {
      NothingReplayed(f, cfg, s);
    } else {
      ReplayRunIsTold(f, cfg, s, plan, hi - 1);
      ReplayRunKeepsInv(f, cfg, s, plan, hi - 1);
      ReplayStepIsTold(f, cfg, s, plan, hi - 1, ReplayRun(f, cfg, s, plan, hi - 1));
    }
  }

  lemma NothingReplayed(f: Frames, cfg: Config, s: Strategy)
    requires ValidFrames(f)
    ensures ReplayedTo(f, cfg, s, EMPTY_BOOK, 0)
  {}

  /** Execution bar i opens as many positions as the room and its fillable orders allow, no more, no fewer. */
  lemma ReplayOpensExactly(f: Frames, cfg: Config, s: Strategy, plan: Plan, i: nat)
    requires ValidFrames(f) && i < |f.exec| && cfg.maxPositions >= 1 && PlanAsTold(f, cfg, s, |f.signal|, plan)
    ensures var a, b := ReplayRun(f, cfg, s, plan, i), ReplayRun(f, cfg, s, plan, i + 1);
            |b.open| + |b.trades| == |a.open| + |a.trades| + Openings(f, cfg, s, i, a)
  {
    hide ReplayStep, ReplayedTo, BookInv, PlanAsTold, Openings;
    ReplayRunIsTold(f, cfg, s, plan, i);
    ReplayRunKeepsInv(f, cfg, s, plan, i);
    ReplayStepIsTold(f, cfg, s, plan, i, ReplayRun(f, cfg, s, plan, i));
  }

  // ---------- a whole replay ----------

  /** The ranges that the candle and bar times define. */
  ghost predicate Mapped(signal: seq<Bar>, exec: seq<Bar>, ranges: seq<Range>) {
    && |ranges| == |signal| && Ascending(TimesOf(signal)) && Ascending(TimesOf(exec))
    && (exists k | 0 < k < |signal| :: Distance(TimesOf(signal), k) > 0)
    && forall k | 0 <= k < |signal| ::
         && SplitsAt(TimesOf(exec), ranges[k].start, signal[k].time)
         && exists t :: EndsAt(TimesOf(signal), k, t) && SplitsAt(TimesOf(exec), ranges[k].end, t)
  }

  ghost predicate ReplaysTo(f: Frames, cfg: Config, s: Strategy, outcome: Outcome)
    requires ValidFrames(f)
  {
    exists b: Book :: ReplayedTo(f, cfg, s, b, |f.exec|) && outcome == Outcome(b.trades, CurveOf(b.trades))
  }

  /** A replay succeeds exactly for valid settings and offsets, frames that map and overlap, and no broken
      signal; it then reports a book as told and the running sum of its trades. */
  lemma ReplayIsAsTold(cfg: Config, s: Strategy, signal: seq<Bar>, exec: seq<Bar>, entryOffset: nat, exitOffset: nat, ranges: seq<Range>)
    requires ReplayBarRanges(TimesOf(signal), TimesOf(exec)) == Success(ranges)
    ensures Mapped(signal, exec, ranges) && ValidFrames(Frames(signal, exec, ranges, entryOffset, exitOffset))
    ensures var f := Frames(signal, exec, ranges, entryOffset, exitOffset);
            var r := ReplayOutcome(cfg, s, signal, exec, entryOffset, exitOffset);
            && (r.Success? <==>
                  && cfg.warmupBars >= 0 && cfg.maxPositions >= 1
                  && (exists k | 0 <= k < |ranges| :: ranges[k].start < ranges[k].end)
                  && forall n: nat | n < |signal| :: !Breaks(f, cfg, s, n))
            && (r.Success? ==> ReplaysTo(f, cfg, s, r.value))
  {
    hide ReplayBarRanges, PlanUpTo, ReplayRun, Breaks, PlanAsTold, ReplayedTo, SplitsAt, EndsAt;
    RangesHoldTheirBars(TimesOf(signal), TimesOf(exec));
    var f := Frames(signal, exec, ranges, entryOffset, exitOffset);
    assert Mapped(signal, exec, ranges);
    RangesAreValid(f);
    PlanIsTold(f, cfg, s, |signal|);
    var plan := PlanUpTo(f, cfg, s, |signal|);
    if plan.Success? && cfg.maxPositions >= 1 {
      ReplayRunIsTold(f, cfg, s, plan.value, |exec|);
      ReplayRunKeepsInv(f, cfg, s, plan.value, |exec|);
    }
  }

  lemma RangesAreValid(f: Frames)
    requires Mapped(f.signal, f.exec, f.ranges)
    ensures ValidFrames(f)
  {}
}
