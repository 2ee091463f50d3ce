/** The native-timeframe simulation loop and the state it carries from bar to bar.
    The functions specify one bar and a run; the methods are the loops, proved equal to them. */
module Backtester {
  import opened Options
  import opened Market
  import opened Positions

  datatype Order = Order(signal: Signal, signalTime: int, fillBar: nat)

  /** What the two simulation loops share. */
  datatype Book = Book(
    open: seq<Position>, trades: seq<TradeRecord>, equity: seq<real>,
    dailyR: real, weeklyR: real, day: Option<int>, week: Option<int>)

  datatype NativeState = NativeState(book: Book, pending: seq<Order>)

  const EMPTY_BOOK: Book := Book([], [], [0.0], 0.0, 0.0, None, None)

  // ---------- guards ----------

  predicate LimitHit(limit: Option<real>, realized: real) {
    limit.Some? && realized <= -AbsR(limit.value)
  }

  predicate CanOpen(b: Book, pending: nat, cfg: Config) {
    !LimitHit(cfg.dailyLimit, b.dailyR) && !LimitHit(cfg.weeklyLimit, b.weeklyR)
    && |b.open| + pending < cfg.maxPositions
  }

  /** Realized R restarts with each day and each week label. */
  function RollCalendar(b: Book, day: int, week: int): Book {
    var d := if b.day != Some(day) then b.(day := Some(day), dailyR := 0.0) else b;
    if d.week != Some(week) then d.(week := Some(week), weeklyR := 0.0) else d
  }

  // ---------- Friday close ----------

  function MinPositiveGap(times: seq<int>): int {
    if |times| < 2 then 0
    else
      var rest := MinPositiveGap(times[..|times| - 1]);
      var gap := times[|times| - 1] - times[|times| - 2];
      if gap > 0 && (rest == 0 || gap < rest) then gap else rest
  }

  function TimesOf(bars: seq<Bar>): (times: seq<int>)
    ensures |times| == |bars| && forall i | 0 <= i < |bars| :: times[i] == bars[i].time
  {
    seq(|bars|, i requires 0 <= i < |bars| => bars[i].time)
  }

  datatype FridayState = FridayState(closeBar: bool, afterCutoff: bool)

  function FridayCloseState(cfg: Config, bars: seq<Bar>, i: nat): FridayState
    requires i < |bars|
  {
    var t := bars[i].time;
    if !cfg.closeOnFriday || WeekdayOf(t) != 4 then FridayState(false, false)
    else
      var cutoff := DayOf(t) * DAY + cfg.fridayCutoff;
      var after := t >= cutoff;
      var contains := t < cutoff <= t + MinPositiveGap(TimesOf(bars));
      var lastOfDay := i + 1 == |bars| || DayOf(bars[i + 1].time) != DayOf(t);
      FridayState(after || contains || lastOfDay, after)
  }

  // ---------- managing every open position on one bar ----------

  function ManageOne(v: BarView, p: Position, b: Book): Book {
    match Manage(v, p)
    case Survives(q) => b.(open := b.open + [q])
    case Closes(t) =>
      b.(trades := b.trades + [t],
         equity := b.equity + [LastEquity(b.equity) + t.r],
         dailyR := b.dailyR + t.r,
         weeklyR := b.weeklyR + t.r)
  }

  /** The book after managing ps in order, starting from a book with no survivors yet. */
  function ManageAll(v: BarView, ps: seq<Position>, b: Book): Book {
    if |ps| == 0 then b
    else ManageOne(v, ps[|ps| - 1], ManageAll(v, ps[..|ps| - 1], b))
  }

  function ManageBook(v: BarView, b: Book): Book {
    ManageAll(v, b.open, b.(open := []))
  }

  // ---------- filling due orders ----------

  function Due(pending: seq<Order>, i: nat): seq<Order> {
    if |pending| == 0 then []
    else
      var rest := Due(pending[..|pending| - 1], i);
      if pending[|pending| - 1].fillBar == i then rest + [pending[|pending| - 1]] else rest
  }

  function NotDue(pending: seq<Order>, i: nat): seq<Order> {
    if |pending| == 0 then []
    else
      var rest := NotDue(pending[..|pending| - 1], i);
      if pending[|pending| - 1].fillBar != i then rest + [pending[|pending| - 1]] else rest
  }

  function FillOne(o: Order, b: Bar, i: nat, cfg: Config): seq<Position> {
    match MakePosition(o.signal, b.open, i, b.time, cfg.costs, NextBarOpen)
    case Some(p) => [p.(signalTime := o.signalTime)]
    case None => []
  }

  function FillAll(orders: seq<Order>, b: Bar, i: nat, cfg: Config): seq<Position> {
    if |orders| == 0 then []
    else FillAll(orders[..|orders| - 1], b, i, cfg) + FillOne(orders[|orders| - 1], b, i, cfg)
  }

  // ---------- one native bar ----------

  function NativeView(cfg: Config, s: Strategy, bars: seq<Bar>, i: nat): BarView
    requires i < |bars|
  {
    BarView(i, bars[i], cfg, s, bars, Some(i), FridayCloseState(cfg, bars, i).closeBar)
  }

  /** Calendar roll and fills at the open. */
  function NativeFills(cfg: Config, bars: seq<Bar>, i: nat, st: NativeState): NativeState
    requires i < |bars|
  {
    var b := RollCalendar(st.book, DayOf(bars[i].time), cfg.isoWeekNumber(WeekOf(bars[i].time)));
    var due := if FridayCloseState(cfg, bars, i).afterCutoff then [] else Due(st.pending, i);
    NativeState(b.(open := b.open + FillAll(due, bars[i], i, cfg)), NotDue(st.pending, i))
  }

  /** Intrabar trigger mode: fill this bar's signal at its own entry price. */
  function NativeTrigger(cfg: Config, s: Strategy, bars: seq<Bar>, i: nat, st: NativeState): NativeState
    requires i < |bars|
  {
    if cfg.mode.OpenBar? && !FridayCloseState(cfg, bars, i).closeBar && CanOpen(st.book, |st.pending|, cfg) then
      match s.onBar(bars, i)
      case None => st
      case Some(signal) =>
        match MakePosition(signal, signal.entry, i, bars[i].time, cfg.costs, SameBarTrigger)
        case None => st
        case Some(p) => st.(book := st.book.(open := st.book.open + [p]))
    else st
  }

  /** Bar-close mode: queue this bar's signal for the next bar's open. */
  function NativeQueue(cfg: Config, s: Strategy, bars: seq<Bar>, i: nat, st: NativeState): NativeState
    requires i < |bars|
  {
    if cfg.mode.NextBar? && !FridayCloseState(cfg, bars, i).closeBar && i + 1 < |bars|
       && CanOpen(st.book, |st.pending|, cfg) then
      match s.onBar(bars, i)
      case None => st
      case Some(signal) => st.(pending := st.pending + [Order(signal, bars[i].time, i + 1)])
    else st
  }

  /** The positions and calendar the management loop of bar i starts from. */
  function NativeOpened(cfg: Config, s: Strategy, bars: seq<Bar>, i: nat, st: NativeState): NativeState
    requires i < |bars|
  {
    NativeTrigger(cfg, s, bars, i, NativeFills(cfg, bars, i, st))
  }

  function NativeManaged(cfg: Config, s: Strategy, bars: seq<Bar>, i: nat, st: NativeState): NativeState
    requires i < |bars|
  {
    var o := NativeOpened(cfg, s, bars, i, st);
    o.(book := ManageBook(NativeView(cfg, s, bars, i), o.book))
  }

  function NativeStep(cfg: Config, s: Strategy, bars: seq<Bar>, i: nat, st: NativeState): NativeState
    requires i < |bars|
  {
    NativeQueue(cfg, s, bars, i, NativeManaged(cfg, s, bars, i, st))
  }

  /** The state after the bars warmup..hi; bars before the warm-up are never visited. */
  function NativeRun(cfg: Config, s: Strategy, bars: seq<Bar>, hi: nat): NativeState
    requires hi <= |bars|
  {
    if hi == 0 || hi <= cfg.warmupBars then NativeState(EMPTY_BOOK, [])
    else NativeStep(cfg, s, bars, hi - 1, NativeRun(cfg, s, bars, hi - 1))
  }

  // ---------- the loops ----------

  method ManageOpenPositions(v: BarView, b: Book) returns (r: Book)
    ensures r == ManageBook(v, b)
  {
    r := b.(open := []);
    for k := 0 to |b.open|
      invariant r == ManageAll(v, b.open[..k], b.(open := []))
    {
      assert b.open[..k + 1][..k] == b.open[..k];
      match Manage(v, b.open[k]) {
        case Survives(q) => r := r.(open := r.open + [q]);
        case Closes(t) =>
          r := r.(trades := r.trades + [t],
                  equity := r.equity + [LastEquity(r.equity) + t.r],
                  dailyR := r.dailyR + t.r,
                  weeklyR := r.weeklyR + t.r);
      }
    }
    assert b.open[..|b.open|] == b.open;
  }

  method SplitPending(pending: seq<Order>, i: nat) returns (due: seq<Order>, later: seq<Order>)
    ensures due == Due(pending, i) && later == NotDue(pending, i)
  {
    due, later := [], [];
    for k := 0 to |pending|
      invariant due == Due(pending[..k], i) && later == NotDue(pending[..k], i)
    {
      assert pending[..k + 1][..k] == pending[..k];
      if pending[k].fillBar == i {
        due := due + [pending[k]];
      } else {
        later := later + [pending[k]];
      }
    }
    assert pending[..|pending|] == pending;
  }

  method FillOrders(orders: seq<Order>, b: Bar, i: nat, cfg: Config) returns (filled: seq<Position>)
    ensures filled == FillAll(orders, b, i, cfg)
  {
    filled := [];
    for k := 0 to |orders|
      invariant filled == FillAll(orders[..k], b, i, cfg)
    {
      assert orders[..k + 1][..k] == orders[..k];
      var made := MakePosition(orders[k].signal, b.open, i, b.time, cfg.costs, NextBarOpen);
      if made.Some? {
        filled := filled + [made.value.(signalTime := orders[k].signalTime)];
      }
    }
    assert orders[..|orders|] == orders;
  }

  datatype RunError = WarmupNegative | NoPositionAllowed | ReplayError(message: string)

  datatype Outcome = Outcome(trades: seq<TradeRecord>, equity: seq<real>)

  predicate ValidSettings(cfg: Config) { cfg.warmupBars >= 0 && cfg.maxPositions >= 1 }

  /** The part of one bar's body that runs before the management loop. */
  method OpenOnBar(cfg: Config, s: Strategy, bars: seq<Bar>, i: nat, st: NativeState) returns (r: NativeState)
    requires i < |bars|
    ensures r == NativeOpened(cfg, s, bars, i, st)
  {
    var friday := FridayCloseState(cfg, bars, i);
    var book := st.book;
    var day, week := DayOf(bars[i].time), cfg.isoWeekNumber(WeekOf(bars[i].time));
    if book.day != Some(day) {
      book := book.(day := Some(day), dailyR := 0.0);
    }
    if book.week != Some(week) {
      book := book.(week := Some(week), weeklyR := 0.0);
    }

    var due, later := SplitPending(st.pending, i);
    var filled := FillOrders(if friday.afterCutoff then [] else due, bars[i], i, cfg);
    book := book.(open := book.open + filled);

    if cfg.mode.OpenBar? && !friday.closeBar && CanOpen(book, |later|, cfg) {
      var signal := s.onBar(bars, i);
      if signal.Some? {
        var made := MakePosition(signal.value, signal.value.entry, i, bars[i].time, cfg.costs, SameBarTrigger);
        if made.Some? {
          book := book.(open := book.open + [made.value]);
        }
      }
    }
    r := NativeState(book, later);
  }

  method RunBar(cfg: Config, s: Strategy, bars: seq<Bar>, i: nat, st: NativeState) returns (r: NativeState)
    requires i < |bars|
    ensures r == NativeStep(cfg, s, bars, i, st)
  {
    r := OpenOnBar(cfg, s, bars, i, st);
    var book := ManageOpenPositions(NativeView(cfg, s, bars, i), r.book);
    r := r.(book := book);
    assert r == NativeManaged(cfg, s, bars, i, st);

    var friday := FridayCloseState(cfg, bars, i);
    if cfg.mode.NextBar? && !friday.closeBar && i + 1 < |bars| && CanOpen(r.book, |r.pending|, cfg) {
      var signal := s.onBar(bars, i);
      if signal.Some? {
        r := r.(pending := r.pending + [Order(signal.value, bars[i].time, i + 1)]);
      }
    }
  }

  method RunBacktest(cfg: Config, s: Strategy, bars: seq<Bar>) returns (r: Result<Outcome, RunError>)
    ensures r.Success? <==> ValidSettings(cfg)
    ensures r.Success? ==>
              var end := NativeRun(cfg, s, bars, |bars|).book;
              r.value == Outcome(end.trades, end.equity)
    ensures cfg.warmupBars < 0 ==> r == Failure(WarmupNegative)
  {
    hide NativeStep;
    if cfg.warmupBars < 0 {
      return Failure(WarmupNegative);
    }
    if cfg.maxPositions < 1 {
      return Failure(NoPositionAllowed);
    }
    var st := NativeState(EMPTY_BOOK, []);
    var i := cfg.warmupBars;
    while i < |bars|
      invariant cfg.warmupBars <= i
      invariant i <= |bars| ==> st == NativeRun(cfg, s, bars, i)
      invariant |bars| < i ==> i == cfg.warmupBars && st == NativeState(EMPTY_BOOK, [])
    {
      st := RunBar(cfg, s, bars, i, st);
      i := i + 1;
    }
    return Success(Outcome(st.book.trades, st.book.equity));
  }
}
