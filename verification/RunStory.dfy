/** The native loop told from outside: when it opens a position, what each position and trade then is, and
    what the loss limits count. The Friday rule and the counters are restated from the bars. */
module RunStory {
  import opened Options
  import opened Market
  import opened Positions
  import opened Backtester
  import opened BookInvariants
  import opened NativeInvariants
  import opened TradeStory

  // ---------- the calendar rules, from the bars ----------

  /** The epoch began on a Thursday. */
  predicate OnFriday(t: int) { (t / DAY) % 7 == 1 }

  /** The bar starts on a Friday, at or after the cutoff. */
  predicate AfterCutoff(cfg: Config, b: Bar) { cfg.closeOnFriday && OnFriday(b.time) && b.time % DAY >= cfg.fridayCutoff }

  /** The next bar of this length would start at or after the cutoff, whatever positive bar length of the
      frame is taken. */
  predicate ReachesCutoff(cfg: Config, bars: seq<Bar>, i: nat)
    requires i < |bars|
  {
    && (exists k | 0 < k < |bars| :: bars[k].time > bars[k - 1].time)
    && forall k | 0 < k < |bars| && bars[k].time > bars[k - 1].time ::
         bars[i].time % DAY + (bars[k].time - bars[k - 1].time) >= cfg.fridayCutoff
  }

  /** A Friday bar that holds the cutoff, lies after it, or is the last of its day in the frame. */
  predicate ClosedOnFriday(cfg: Config, bars: seq<Bar>, i: nat)
    requires i < |bars|
  {
    && cfg.closeOnFriday && OnFriday(bars[i].time)
    && (AfterCutoff(cfg, bars[i]) || ReachesCutoff(cfg, bars, i)
        || i + 1 == |bars| || bars[i + 1].time / DAY != bars[i].time / DAY)
  }

  /** The distance of a bar to the one before it. */
  function Distance(times: seq<int>, k: int): int
    requires 0 < k < |times|
  {
    times[k] - times[k - 1]
  }

  /** The inferred bar interval is the smallest positive distance of neighbours, or zero without one. */
  lemma {:induction false} GapIsSmallest(times: seq<int>)
    ensures MinPositiveGap(times) >= 0
    ensures MinPositiveGap(times) > 0 ==> exists k | 0 < k < |times| :: Distance(times, k) == MinPositiveGap(times)
    ensures forall k | 0 < k < |times| && Distance(times, k) > 0 :: 0 < MinPositiveGap(times) <= Distance(times, k)
  {
    var n := |times|;
    if n >= 2 {
      var front := times[..n - 1];
      GapIsSmallest(front);
      var gap, rest := MinPositiveGap(times), MinPositiveGap(front);
      assert forall k | 0 < k < n - 1 :: Distance(front, k) == Distance(times, k);
      if gap > 0 && gap == rest {
        var k :| 0 < k < n - 1 && Distance(front, k) == rest;
        assert Distance(times, k) == gap;
      } else if gap > 0 {
        assert Distance(times, n - 1) == gap;
      }
      forall k | 0 < k < n && Distance(times, k) > 0
        ensures 0 < gap <= Distance(times, k)
      {
        if k < n - 1 {
          assert Distance(front, k) > 0;
        }
      }
    }
  }

  lemma FridayRule(cfg: Config, bars: seq<Bar>, i: nat)
    requires i < |bars|
    ensures FridayCloseState(cfg, bars, i) == FridayState(ClosedOnFriday(cfg, bars, i), AfterCutoff(cfg, bars[i]))
  {
    var times := TimesOf(bars);
    GapIsSmallest(times);
    hide MinPositiveGap, TimesOf;
    var t, gap := bars[i].time, MinPositiveGap(times);
    assert (t / DAY + 3) % 7 == 4 <==> OnFriday(t) by { WeekdaysTurn(t / DAY); }
    assert t - t / DAY * DAY == t % DAY;
    assert forall k | 0 < k < |bars| :: Distance(times, k) == bars[k].time - bars[k - 1].time;
    if gap > 0 {
      var k :| 0 < k < |times| && Distance(times, k) == gap;
      assert bars[k].time - bars[k - 1].time == gap;
    }
  }

  lemma WeekdaysTurn(day: int)
    ensures (day + 3) % 7 == 4 <==> day % 7 == 1
  {}

  // ---------- what the loss limits count ----------

  /** Every bar from a to i carries the label of bar i. */
  predicate SameSpan(mark: nat -> int, a: nat, i: nat) { forall k: nat | a <= k <= i :: mark(k) == mark(i) }

  /** The R of the trades closed since the label last changed. */
  function Realized(mark: nat -> int, trades: seq<TradeRecord>, i: nat): real {
    if |trades| == 0 then 0.0
    else
      Realized(mark, trades[..|trades| - 1], i)
      + if SameSpan(mark, trades[|trades| - 1].closeBar, i) then trades[|trades| - 1].r else 0.0
  }

  /** Realized R is above the limit, if there is one; its sign does not matter. */
  predicate Within(limit: Option<real>, realized: real) {
    limit.Some? ==> realized > (if limit.value < 0.0 then limit.value else -limit.value)
  }

  /** The counters before bar i, when bars from warm-up to i - 1 have been simulated. */
  ghost predicate Counted(day: nat -> int, week: nat -> int, first: int, b: Book, i: nat) {
    if i == 0 || i <= first then b.day.None? && b.week.None? && b.dailyR == 0.0 && b.weeklyR == 0.0 && b.trades == []
    else
      && b.day == Some(day(i - 1)) && b.dailyR == Realized(day, b.trades, i - 1)
      && b.week == Some(week(i - 1)) && b.weeklyR == Realized(week, b.trades, i - 1)
      && forall t | t in b.trades :: t.closeBar < i
  }

  /** The counters on bar i, after the calendar roll. */
  ghost predicate CountedOn(day: nat -> int, week: nat -> int, b: Book, i: nat) {
    && b.day == Some(day(i)) && b.dailyR == Realized(day, b.trades, i)
    && b.week == Some(week(i)) && b.weeklyR == Realized(week, b.trades, i)
    && forall t | t in b.trades :: t.closeBar <= i
  }

  lemma {:induction false} LabelStays(mark: nat -> int, trades: seq<TradeRecord>, i: nat)
    requires forall t | t in trades :: t.closeBar <= i
    ensures mark(i + 1) == mark(i) ==> Realized(mark, trades, i + 1) == Realized(mark, trades, i)
    ensures mark(i + 1) != mark(i) ==> Realized(mark, trades, i + 1) == 0.0
  {
    if |trades| > 0 {
      var last := trades[|trades| - 1];
      assert last in trades;
      LabelStays(mark, trades[..|trades| - 1], i);
      SpanGrows(mark, last.closeBar, i);
    }
  }

  lemma SpanGrows(mark: nat -> int, a: nat, i: nat)
    requires a <= i
    ensures SameSpan(mark, a, i + 1) <==> mark(i + 1) == mark(i) && SameSpan(mark, a, i)
  {
    if SameSpan(mark, a, i + 1) {
      assert mark(i) == mark(i + 1);
    }
  }

  lemma RollCounts(day: nat -> int, week: nat -> int, first: int, b: Book, i: nat)
    requires Counted(day, week, first, b, i) && first <= i
    ensures CountedOn(day, week, RollCalendar(b, day(i), week(i)), i)
  {
    if !(i == 0 || i <= first) {
      LabelStays(day, b.trades, i - 1);
      LabelStays(week, b.trades, i - 1);
    }
  }

  lemma {:induction false} ManageAllCounts(day: nat -> int, week: nat -> int, v: BarView, ps: seq<Position>, b: Book)
    requires CountedOn(day, week, b, v.index)
    ensures CountedOn(day, week, ManageAll(v, ps, b), v.index)
  {
    hide Manage;
    if |ps| > 0 {
      var before := ManageAll(v, ps[..|ps| - 1], b);
      ManageAllCounts(day, week, v, ps[..|ps| - 1], b);
      var last := ps[|ps| - 1];
      if Manage(v, last).Closes? {
        var t := Manage(v, last).trade;
        ManageKeepsIdentity(v, last);
        ClosingCounts(day, week, before, t, v.index);
      }
      hide CountedOn;
    }
  }

  lemma ClosingCounts(day: nat -> int, week: nat -> int, b: Book, t: TradeRecord, i: nat)
    requires CountedOn(day, week, b, i) && t.closeBar == i
    ensures CountedOn(day, week, b.(trades := b.trades + [t], equity := b.equity + [LastEquity(b.equity) + t.r],
                                    dailyR := b.dailyR + t.r, weeklyR := b.weeklyR + t.r), i)
  {
    assert SameSpan(day, i, i) && SameSpan(week, i, i);
    OneMoreTrade(day, b.trades, t, i);
    OneMoreTrade(week, b.trades, t, i);
    hide Realized, SameSpan;
  }

  lemma OneMoreTrade(mark: nat -> int, trades: seq<TradeRecord>, t: TradeRecord, i: nat)
    ensures Realized(mark, trades + [t], i) == Realized(mark, trades, i) + if SameSpan(mark, t.closeBar, i) then t.r else 0.0
  {
    assert (trades + [t])[..|trades|] == trades;
  }

  /** A position may be opened: neither limit is reached and the cap has room. */
  predicate Room(cfg: Config, day: nat -> int, week: nat -> int, trades: seq<TradeRecord>, i: nat, held: nat) {
    Within(cfg.dailyLimit, Realized(day, trades, i)) && Within(cfg.weeklyLimit, Realized(week, trades, i)) && held < cfg.maxPositions
  }

  lemma RoomIsCanOpen(cfg: Config, day: nat -> int, week: nat -> int, b: Book, i: nat, pending: nat)
    requires CountedOn(day, week, b, i)
    ensures CanOpen(b, pending, cfg) == Room(cfg, day, week, b.trades, i, |b.open| + pending)
  {}

  // ---------- the native run ----------

  function DayLabel(bars: seq<Bar>): nat -> int { (i: nat) => if i < |bars| then bars[i].time / DAY else 0 }

  /** The week of the bar, numbered by Mondays, under the ISO number of its year. */
  function WeekLabel(cfg: Config, bars: seq<Bar>): nat -> int {
    (i: nat) => if i < |bars| then cfg.isoWeekNumber((bars[i].time / DAY + 3) / 7) else 0
  }

  /** The signal of bar j was free to be taken there. */
  predicate Signals(cfg: Config, s: Strategy, bars: seq<Bar>, j: nat) {
    j < |bars| && cfg.warmupBars <= j && s.onBar(bars, j).Some? && !ClosedOnFriday(cfg, bars, j)
  }

  /** p is the fill of bar j's signal: at the next open, or in trigger mode at its own price. */
  ghost predicate NativeFillOf(cfg: Config, s: Strategy, bars: seq<Bar>, j: nat, p: Position) {
    && Signals(cfg, s, bars, j) && p.signalTime == bars[j].time && p.nativeOpenBar == p.openBar
    && var signal := s.onBar(bars, j).value;
       if cfg.mode.NextBar? then
         && j + 1 < |bars| && p.openBar == j + 1 && !AfterCutoff(cfg, bars[j + 1])
         && p.fillTiming.NextBarOpen? && FilledFor(cfg.costs, signal, bars[j + 1].open, bars[j + 1], p)
       else
         && p.openBar == j && p.fillTiming.SameBarTrigger? && FilledFor(cfg.costs, signal, signal.entry, bars[j], p)
  }

  ghost predicate NativeOwn(cfg: Config, s: Strategy, bars: seq<Bar>, p: Position) {
    exists j: nat :: NativeFillOf(cfg, s, bars, j, p)
  }

  /** The time-exit rule is asked on every bar, about that bar. */
  function NativeSight(cfg: Config, s: Strategy, bars: seq<Bar>, i: nat): BarView {
    if i < |bars| then BarView(i, bars[i], cfg, s, bars, Some(i), ClosedOnFriday(cfg, bars, i))
    else BarView(i, Bar(0, 0.0, 0.0, 0.0, 0.0), cfg, s, bars, None, false)
  }

  ghost function NativeTold(cfg: Config, s: Strategy, bars: seq<Bar>): Told {
    Told(cfg, bars, (i: nat) => NativeSight(cfg, s, bars, i), (p: Position) => NativeOwn(cfg, s, bars, p))
  }

  lemma NativeToldIsValid(cfg: Config, s: Strategy, bars: seq<Bar>)
    ensures ValidTold(NativeTold(cfg, s, bars))
  {
    var w := NativeTold(cfg, s, bars);
    forall p: Position, q: Position | w.own(p) && q == p.(sl := q.sl, movedToBe := q.movedToBe, pendingBe := q.pendingBe)
      ensures w.own(q)
    {
      var j: nat :| NativeFillOf(cfg, s, bars, j, p);
      assert NativeFillOf(cfg, s, bars, j, q);
    }
  }

  /** Bar i finds a chance to open: in bar-close mode the bar before signalled while there was room and this
      bar starts before the cutoff, in trigger mode this bar signals and there is room; the stop must leave
      a positive risk from the costed fill. */
  predicate Chance(cfg: Config, s: Strategy, bars: seq<Bar>, i: nat, trades: seq<TradeRecord>, held: nat)
    requires i < |bars|
  {
    var day, week := DayLabel(bars), WeekLabel(cfg, bars);
    if cfg.mode.NextBar? then
      && i > 0 && Signals(cfg, s, bars, i - 1) && !AfterCutoff(cfg, bars[i]) && Room(cfg, day, week, trades, i - 1, held)
      && var signal := s.onBar(bars, i - 1).value;
         RiskOf(signal, EntryPrice(signal, bars[i].open, i, bars[i].time, cfg.costs)) > 0.0
    else
      && Signals(cfg, s, bars, i) && Room(cfg, day, week, trades, i, held)
      && var signal := s.onBar(bars, i).value;
         RiskOf(signal, EntryPrice(signal, signal.entry, i, bars[i].time, cfg.costs)) > 0.0
  }

  /** Between bars: the story of every position and trade, the counters, and the one order that may be due. */
  ghost predicate NativeStory(cfg: Config, s: Strategy, bars: seq<Bar>, st: NativeState, i: nat)
    requires i <= |bars|
  {
    && StoryOf(NativeTold(cfg, s, bars), st.book, i)
    && Counted(DayLabel(bars), WeekLabel(cfg, bars), cfg.warmupBars, st.book, i)
    && DueOrder(cfg, s, bars, st, i)
  }

  /** The pending orders before bar i: the signal of the bar before, if there was room for it. */
  ghost predicate DueOrder(cfg: Config, s: Strategy, bars: seq<Bar>, st: NativeState, i: nat)
    requires i <= |bars|
  {
    st.pending ==
      if cfg.mode.NextBar? && 0 < i < |bars| && Signals(cfg, s, bars, i - 1)
         && Room(cfg, DayLabel(bars), WeekLabel(cfg, bars), st.book.trades, i - 1, |st.book.open|)
      then [Order(s.onBar(bars, i - 1).value, bars[i - 1].time, i)] else []
  }

  /** What one bar opens, before it is managed. */
  ghost predicate OpensAsTold(cfg: Config, s: Strategy, bars: seq<Bar>, i: nat, st: NativeState, o: NativeState)
    requires i < |bars|
  {
    && o.book.trades == st.book.trades && o.pending == []
    && CountedOn(DayLabel(bars), WeekLabel(cfg, bars), o.book, i)
    && |o.book.open| == |st.book.open| + (if Chance(cfg, s, bars, i, st.book.trades, |st.book.open|) then 1 else 0)
    && o.book.open[..|st.book.open|] == st.book.open
    && forall k | |st.book.open| <= k < |o.book.open| :: Fresh(cfg, s, bars, i, o.book.open[k])
  }

  ghost predicate Fresh(cfg: Config, s: Strategy, bars: seq<Bar>, i: nat, p: Position) {
    p.openBar == i && p.sl == p.initialSl && !p.movedToBe && !p.pendingBe && NativeOwn(cfg, s, bars, p)
  }

  lemma LabelsAre(cfg: Config, bars: seq<Bar>, i: nat)
    requires i < |bars|
    ensures DayLabel(bars)(i) == DayOf(bars[i].time) && WeekLabel(cfg, bars)(i) == cfg.isoWeekNumber(WeekOf(bars[i].time))
  {}

  lemma NextBarOpensAsTold(cfg: Config, s: Strategy, bars: seq<Bar>, i: nat, st: NativeState)
    requires i < |bars| && cfg.warmupBars <= i && cfg.mode.NextBar? && NativeStory(cfg, s, bars, st, i) && NativeInv(cfg, st, i)
    ensures OpensAsTold(cfg, s, bars, i, st, NativeOpened(cfg, s, bars, i, st))
  {
    hide StoryOf, RollCalendar, MakePosition, BookInv, FridayCloseState, Room, ClosedOnFriday, FilledFor, Counted, CountedOn, AfterCutoff,
         EntryPrice, RiskOf;
    var day, week := DayLabel(bars), WeekLabel(cfg, bars);
    LabelsAre(cfg, bars, i);
    hide DayLabel, WeekLabel;
    RollCounts(day, week, cfg.warmupBars, st.book, i);
    RollKeepsPositions(st.book, day(i), week(i));
    FridayRule(cfg, bars, i);
    AllDue(st.pending, i);
    var rolled := RollCalendar(st.book, day(i), week(i));
    var o := NativeOpened(cfg, s, bars, i, st);
    assert FillAll([], bars[i], i, cfg) == [];
    assert o.book == rolled.(open := o.book.open);
    BookKeepsCount(day, week, rolled, o.book.open, i);
    if |st.pending| > 0 && !AfterCutoff(cfg, bars[i]) {
      var signal := s.onBar(bars, i - 1).value;
      OneFill(st.pending[0], bars[i], i, cfg);
      assert st.pending == [st.pending[0]];
      FillIsAdverse(signal, bars[i].open, i, bars[i].time, cfg.costs, NextBarOpen, bars[i]);
      if |o.book.open| > |st.book.open| {
        var p := o.book.open[|st.book.open|];
        SignalTimeAside(cfg.costs, signal, bars[i].open, bars[i], p, bars[i].time);
        assert NativeFillOf(cfg, s, bars, i - 1, p);
      }
    }
  }

  lemma BookKeepsCount(day: nat -> int, week: nat -> int, b: Book, open: seq<Position>, i: nat)
    requires CountedOn(day, week, b, i)
    ensures CountedOn(day, week, b.(open := open), i)
  {}

  lemma SignalTimeAside(costs: Costs, signal: Signal, raw: real, b: Bar, p: Position, time: int)
    ensures FilledFor(costs, signal, raw, b, p.(signalTime := time)) == FilledFor(costs, signal, raw, b, p)
  {}

  lemma OpenBarOpensAsTold(cfg: Config, s: Strategy, bars: seq<Bar>, i: nat, st: NativeState)
    requires i < |bars| && cfg.warmupBars <= i && cfg.mode.OpenBar? && NativeStory(cfg, s, bars, st, i) && NativeInv(cfg, st, i)
    ensures OpensAsTold(cfg, s, bars, i, st, NativeOpened(cfg, s, bars, i, st))
  {
    hide StoryOf, RollCalendar, MakePosition, BookInv, FridayCloseState, Room, FilledFor, Counted, CountedOn, AfterCutoff,
         EntryPrice, RiskOf, ClosedOnFriday;
    var day, week := DayLabel(bars), WeekLabel(cfg, bars);
    LabelsAre(cfg, bars, i);
    hide DayLabel, WeekLabel;
    RollCounts(day, week, cfg.warmupBars, st.book, i);
    RollKeepsPositions(st.book, day(i), week(i));
    FridayRule(cfg, bars, i);
    var rolled := RollCalendar(st.book, day(i), week(i));
    assert FillAll([], bars[i], i, cfg) == [];
    assert rolled.open + [] == rolled.open;
    assert NativeFills(cfg, bars, i, st) == NativeState(rolled, []);
    RoomIsCanOpen(cfg, day, week, rolled, i, 0);
    var o := NativeOpened(cfg, s, bars, i, st);
    BookKeepsCount(day, week, rolled, o.book.open, i);
    if s.onBar(bars, i).Some? {
      var signal := s.onBar(bars, i).value;
      FillIsAdverse(signal, signal.entry, i, bars[i].time, cfg.costs, SameBarTrigger, bars[i]);
      if |o.book.open| > |st.book.open| {
        var p := o.book.open[|st.book.open|];
        assert NativeFillOf(cfg, s, bars, i, p);
      }
    }
  }

  /** A bar's fills extend the story by nothing but fresh positions. */
  lemma FillsExtendStory(cfg: Config, s: Strategy, bars: seq<Bar>, i: nat, st: NativeState, o: NativeState)
    requires i < |bars| && StoryOf(NativeTold(cfg, s, bars), st.book, i) && OpensAsTold(cfg, s, bars, i, st, o)
    ensures StoryOf(NativeTold(cfg, s, bars), o.book, i)
  {
    hide Recorded, Explained, Leaves, On, NativeOwn, Chance, CountedOn;
    var w := NativeTold(cfg, s, bars);
    forall p | p in o.book.open
      ensures Recorded(cfg, bars, p, i) && HeldUntil(w, p, i)
    {
      var k :| 0 <= k < |o.book.open| && o.book.open[k] == p;
      if k < |st.book.open| {
        assert o.book.open[..|st.book.open|][k] == p;
        assert p in st.book.open;
      } else {
        FreshIsRecorded(cfg, bars, p);
      }
    }
  }

  lemma NativeViewIsSight(cfg: Config, s: Strategy, bars: seq<Bar>, i: nat)
    requires i < |bars|
    ensures NativeView(cfg, s, bars, i) == NativeTold(cfg, s, bars).view(i)
  {
    FridayRule(cfg, bars, i);
  }

  /** The queue after bar i. */
  lemma QueueIsTold(cfg: Config, s: Strategy, bars: seq<Bar>, i: nat, m: NativeState)
    requires i < |bars| && cfg.warmupBars <= i && m.pending == [] && CountedOn(DayLabel(bars), WeekLabel(cfg, bars), m.book, i)
    ensures var n := NativeQueue(cfg, s, bars, i, m); n.book == m.book && DueOrder(cfg, s, bars, n, i + 1)
  {
    hide CountedOn, FridayCloseState, ClosedOnFriday, Room, CanOpen, DayLabel, WeekLabel;
    FridayRule(cfg, bars, i);
    RoomIsCanOpen(cfg, DayLabel(bars), WeekLabel(cfg, bars), m.book, i, 0);
  }

  lemma {:induction false} StepIsTold(cfg: Config, s: Strategy, bars: seq<Bar>, i: nat, st: NativeState)
    requires i < |bars| && cfg.warmupBars <= i && ValidSettings(cfg) && NativeStory(cfg, s, bars, st, i) && NativeInv(cfg, st, i)
    ensures var n := NativeStep(cfg, s, bars, i, st);
            && NativeStory(cfg, s, bars, n, i + 1)
            && |n.book.open| + |n.book.trades| == |st.book.open| + |st.book.trades|
                 + (if Chance(cfg, s, bars, i, st.book.trades, |st.book.open|) then 1 else 0)
            && |st.book.trades| <= |n.book.trades| && n.book.trades[..|st.book.trades|] == st.book.trades
  {
    hide NativeOpened, ManageAll, StoryOf, Counted, CountedOn, DueOrder, Chance, BookInv, NativeView, NativeQueue, Fresh, NativeTold;
    assert OpensAsTold(cfg, s, bars, i, st, NativeOpened(cfg, s, bars, i, st)) by {
      if cfg.mode.NextBar? {
        NextBarOpensAsTold(cfg, s, bars, i, st);
      } else {
        OpenBarOpensAsTold(cfg, s, bars, i, st);
      }
    }
    var o := NativeOpened(cfg, s, bars, i, st);
    FillsExtendStory(cfg, s, bars, i, st, o);
    OpenedKeepsInv(cfg, s, bars, i, st);
    NativeToldIsValid(cfg, s, bars);
    NativeViewIsSight(cfg, s, bars, i);
    ToldBars(cfg, s, bars);
    ManageBookIsTold(NativeTold(cfg, s, bars), i, o.book);
    var v := NativeView(cfg, s, bars, i);
    assert v.index == i by { ViewIndex(cfg, s, bars, i); }
    var start := o.book.(open := []);
    BookKeepsCount(DayLabel(bars), WeekLabel(cfg, bars), o.book, [], i);
    ManageAllCounts(DayLabel(bars), WeekLabel(cfg, bars), v, o.book.open, start);
    ManageAllKeepsRanges(v, o.book.open, start);
    var m := NativeManaged(cfg, s, bars, i, st);
    assert m.book == ManageAll(v, o.book.open, start);
    QueueIsTold(cfg, s, bars, i, m);
    CountsCarryOver(DayLabel(bars), WeekLabel(cfg, bars), cfg.warmupBars, m.book, i);
  }

  lemma ToldBars(cfg: Config, s: Strategy, bars: seq<Bar>)
    ensures NativeTold(cfg, s, bars).bars == bars && NativeTold(cfg, s, bars).cfg == cfg
  {}

  lemma ViewIndex(cfg: Config, s: Strategy, bars: seq<Bar>, i: nat)
    requires i < |bars|
    ensures NativeView(cfg, s, bars, i).index == i
  {}

  lemma CountsCarryOver(day: nat -> int, week: nat -> int, first: int, b: Book, i: nat)
    requires CountedOn(day, week, b, i) && first <= i
    ensures Counted(day, week, first, b, i + 1)
  {}

  lemma NothingTold(cfg: Config, s: Strategy, bars: seq<Bar>, hi: nat)
    requires hi <= |bars| && (hi == 0 || hi <= cfg.warmupBars)
    ensures NativeStory(cfg, s, bars, NativeState(EMPTY_BOOK, []), hi)
  {}

  /** The native run is as told: every open position is the costed fill of a signal, with the stop that its
      bars put in force and no bar that closes it; every trade books one of them on the first bar that does;
      the counters are the R closed since the label changed; and the next order is the last bar's signal,
      if the Friday rule and the room allow it. */
  lemma {:induction false} NativeRunIsTold(cfg: Config, s: Strategy, bars: seq<Bar>, hi: nat)
    requires hi <= |bars| && ValidSettings(cfg)
    ensures NativeStory(cfg, s, bars, NativeRun(cfg, s, bars, hi), hi)
  {
    hide NativeStep, NativeStory, NativeInv;
    if hi == 0 || hi <= cfg.warmupBars {
      NothingTold(cfg, s, bars, hi);
    } else {
      NativeRunIsTold(cfg, s, bars, hi - 1);
      NativeRunKeepsInv(cfg, s, bars, hi - 1);
      StepIsTold(cfg, s, bars, hi - 1, NativeRun(cfg, s, bars, hi - 1));
    }
  }

  /** A bar opens one position exactly when it finds a chance, and none otherwise. */
  lemma NativeOpensExactly(cfg: Config, s: Strategy, bars: seq<Bar>, i: nat)
    requires i < |bars| && ValidSettings(cfg) && cfg.warmupBars <= i
    ensures var a, b := NativeRun(cfg, s, bars, i).book, NativeRun(cfg, s, bars, i + 1).book;
            |b.open| + |b.trades| == |a.open| + |a.trades| + if Chance(cfg, s, bars, i, a.trades, |a.open|) then 1 else 0
  {
    hide NativeStep, NativeStory, NativeInv, Chance;
    NativeRunIsTold(cfg, s, bars, i);
    NativeRunKeepsInv(cfg, s, bars, i);
    StepIsTold(cfg, s, bars, i, NativeRun(cfg, s, bars, i));
  }

  // ---------- the costs of a trade ----------

  /** What a costed trade says of its two raw prices: each cost is in the result exactly once. */
  ghost predicate ChargedOnce(t: TradeRecord, rawEntry: real, rawExit: real) {
    && t.initialRisk > 0.0
    && t.r == (if t.side.Buy? then rawExit - rawEntry else rawEntry - rawExit) / t.initialRisk - t.totalCostsR
    && t.totalCostsR == t.spreadCostR + t.slippageCostR + t.commissionCostR + t.swapCostR
  }

  /** Every trade of a native run, with its real raw prices: the next open or the signal's own price at the
      entry, and the price of its closing bar at the exit. */
  lemma NativeTradesAreChargedOnce(cfg: Config, s: Strategy, bars: seq<Bar>, hi: nat, t: TradeRecord)
    requires hi <= |bars| && ValidSettings(cfg) && t in NativeRun(cfg, s, bars, hi).book.trades
    ensures exists p: Position :: ClosesOf(NativeTold(cfg, s, bars), p, t)
              && ChargedOnce(t, if cfg.mode.NextBar? then bars[p.openBar].open else p.signalEntry,
                             RawPrice(NativeTold(cfg, s, bars).view(t.closeBar), On(cfg, bars, p, t.closeBar)))
  {
    hide NativeRun, Leaves, MovedBefore, Counted, DueOrder, RawPrice, Reason, ClosedOnFriday;
    NativeRunIsTold(cfg, s, bars, hi);
    var w := NativeTold(cfg, s, bars);
    assert Explained(w, t);
    var p: Position :| ClosesOf(w, p, t);
    var j: nat :| NativeFillOf(cfg, s, bars, j, p);
    var raw := if cfg.mode.NextBar? then bars[p.openBar].open else p.signalEntry;
    assert FilledFor(cfg.costs, s.onBar(bars, j).value, raw, bars[p.openBar], p);
    BothEndsCharged(w.view(t.closeBar), On(cfg, bars, p, t.closeBar), t, s.onBar(bars, j).value, raw, bars[p.openBar]);
  }

  lemma BothEndsCharged(v: BarView, p: Position, t: TradeRecord, signal: Signal, raw: real, b: Bar)
    requires FilledFor(v.cfg.costs, signal, raw, b, p) && Booked(v, p, t)
    ensures ChargedOnce(t, raw, RawPrice(v, p))
  {
    hide RawPrice, Reason, RiskOf;
    var out := RawPrice(v, p);
    var costs, ctx := v.cfg.costs, CostContext(v.index, v.bar.time, p.side, ExitFill, out, Held(p));
    var move := if p.side.Buy? then out - raw else raw - out;
    var a, c := p.entrySpread + costs.spread(ctx) / 2.0, p.entrySlippage + costs.slippage(ctx);
    assert (if p.side.Buy? then t.exit - p.entry else p.entry - t.exit) == move - a - c;
    SplitQuotient(move, a, c, p.risk);
  }
}
