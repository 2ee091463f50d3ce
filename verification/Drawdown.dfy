/** Closed-trade drawdown, envelope drawdown, and why the second dominates the first. */
module Drawdown {
  import opened Market
  import opened Positions
  import opened Backtester
  import opened BookInvariants
  import opened NativeInvariants
  import opened EquityProfile

  /** d is the largest fall from a high to a later (or the same) low. */
  ghost predicate IsLargestFall(d: real, highs: seq<real>, lows: seq<real>)
    requires |highs| == |lows|
  {
    && (forall i, j | 0 <= i <= j < |lows| :: highs[i] - lows[j] <= d)
    && (exists i, j :: 0 <= i <= j < |lows| && highs[i] - lows[j] == d)
  }

  /** The one-pass loop of the backtest metrics. An empty curve has no drawdown. */
  method MaxDrawdown(equity: seq<real>) returns (d: real)
    ensures equity == [] ==> d == 0.0
    ensures equity != [] ==> IsLargestFall(d, equity, equity)
  {
    if equity == [] {
      return 0.0;
    }
    var peak := equity[0];
    d := 0.0;
    ghost var top, p, q := 0, 0, 0;
    for k := 0 to |equity|
      invariant 0 <= top < |equity| && (if k == 0 then top == 0 else top < k) && peak == equity[top]
      invariant forall i | 0 <= i < k :: equity[i] <= peak
      invariant forall i, j | 0 <= i <= j < k :: equity[i] - equity[j] <= d
      invariant 0 <= p <= q < |equity| && equity[p] - equity[q] == d
    {
      if equity[k] >= peak {
        peak, top := equity[k], k;
      }
      if peak - equity[k] > d {
        d := peak - equity[k];
        p, q := top, k;
      }
    }
  }

  /** The running peak of the highs less the lows, maximised over the bars. */
  method EnvelopeDrawdown(highs: seq<real>, lows: seq<real>) returns (d: real)
    requires |highs| == |lows| > 0
    ensures IsLargestFall(d, highs, lows)
  {
    var peak := highs[0];
    d := highs[0] - lows[0];
    ghost var top, p, q := 0, 0, 0;
    for k := 1 to |highs|
      invariant 0 <= top < k && peak == highs[top]
      invariant forall i | 0 <= i < k :: highs[i] <= peak
      invariant forall i, j | 0 <= i <= j < k :: highs[i] - lows[j] <= d
      invariant 0 <= p <= q < |lows| && highs[p] - lows[q] == d
    {
      if highs[k] >= peak {
        peak, top := highs[k], k;
      }
      if peak - lows[k] > d {
        d := peak - lows[k];
        p, q := top, k;
      }
    }
  }

  // ---------- one position at a time ----------

  /** Each trade opens after the one before it has closed. */
  ghost predicate OneAfterAnother(trades: seq<TradeRecord>) {
    forall i, j | 0 <= i < j < |trades| :: trades[i].closeBar < trades[j].openBar
  }

  ghost predicate Alone(b: Book) {
    && |b.open| <= 1
    && OneAfterAnother(b.trades)
    && (forall p, t | p in b.open && t in b.trades :: t.closeBar < p.openBar)
  }

  lemma ManageAloneStaysAlone(v: BarView, b: Book)
    requires Alone(b) && ValidTrades(b.trades, v.index) && forall p | p in b.open :: p.openBar <= v.index
    ensures Alone(ManageBook(v, b))
  {
    var start := b.(open := []);
    if |b.open| == 1 {
      var p := b.open[0];
      assert p in b.open;
      assert b.open[..0] == [];
      assert ManageAll(v, b.open, start) == ManageOne(v, p, ManageAll(v, b.open[..0], start)) == ManageOne(v, p, start);
      ManageKeepsIdentity(v, p);
      forall t | t in b.trades
        ensures t.closeBar < p.openBar
      {}
    }
  }

  /** No trade or position of the book is open on bar 0. */
  ghost predicate FlatAtStart(b: Book) {
    && (forall p | p in b.open :: p.openBar > 0)
    && (forall t | t in b.trades :: t.openBar > 0)
  }

  lemma {:induction false} ManageStaysFlatAtStart(v: BarView, ps: seq<Position>, b: Book)
    requires FlatAtStart(b) && forall p | p in ps :: p.openBar > 0
    ensures FlatAtStart(ManageAll(v, ps, b))
  {
    hide Manage;
    if |ps| > 0 {
      var last := ps[|ps| - 1];
      assert last in ps;
      ManageStaysFlatAtStart(v, ps[..|ps| - 1], b);
      ManageKeepsIdentity(v, last);
    }
  }

  lemma OpenedPositions(cfg: Config, s: Strategy, bars: seq<Bar>, i: nat, st: NativeState)
    requires i < |bars| && NativeInv(cfg, st, i)
    ensures var o := NativeOpened(cfg, s, bars, i, st).book;
            && o.trades == st.book.trades
            && forall p | p in o.open :: p in st.book.open || p.openBar == i
    ensures cfg.mode.NextBar? && i == 0 && st.book.open == [] && st.pending == []
            ==> NativeOpened(cfg, s, bars, i, st).book.open == []
  {
    AllDue(st.pending, i);
    FillsOpenOnThisBar(st.pending, bars[i], i, cfg);
    FillsOpenOnThisBar([], bars[i], i, cfg);
  }

  lemma {:induction false} RunsAreSequential(cfg: Config, s: Strategy, bars: seq<Bar>, hi: nat)
    requires hi <= |bars| && ValidSettings(cfg) && cfg.maxPositions == 1
    requires cfg.mode.NextBar? || cfg.warmupBars >= 1
    ensures var b := NativeRun(cfg, s, bars, hi).book;
            Alone(b) && FlatAtStart(b)
  {
    hide NativeOpened, ManageBook, ManageAll, NativeRun;
    RunUnfolds(cfg, s, bars, hi);
    if !(hi == 0 || hi <= cfg.warmupBars) {
      var i, st := hi - 1, NativeRun(cfg, s, bars, hi - 1);
      RunsAreSequential(cfg, s, bars, i);
      NativeRunKeepsInv(cfg, s, bars, i);
      OpenedKeepsInv(cfg, s, bars, i, st);
      OpenedPositions(cfg, s, bars, i, st);
      RunUnfolds(cfg, s, bars, i);
      OpenedStaysAlone(cfg, s, bars, i, st);
    }
  }

  /** Unfolds the run by one bar, down to the book. */
  lemma RunUnfolds(cfg: Config, s: Strategy, bars: seq<Bar>, hi: nat)
    requires hi <= |bars|
    ensures hi == 0 || hi <= cfg.warmupBars ==> NativeRun(cfg, s, bars, hi) == NativeState(EMPTY_BOOK, [])
    ensures !(hi == 0 || hi <= cfg.warmupBars) ==>
              NativeRun(cfg, s, bars, hi).book
              == ManageBook(NativeView(cfg, s, bars, hi - 1),
                            NativeOpened(cfg, s, bars, hi - 1, NativeRun(cfg, s, bars, hi - 1)).book)
  {
    hide NativeOpened, ManageBook;
  }

  lemma OpenedStaysAlone(cfg: Config, s: Strategy, bars: seq<Bar>, i: nat, st: NativeState)
    requires i < |bars| && ValidSettings(cfg) && cfg.maxPositions == 1 && NativeInv(cfg, st, i)
    requires cfg.mode.NextBar? || cfg.warmupBars >= 1
    requires i == 0 ==> st == NativeState(EMPTY_BOOK, []) && cfg.warmupBars == 0
    requires Alone(st.book) && FlatAtStart(st.book)
    ensures var m := ManageBook(NativeView(cfg, s, bars, i), NativeOpened(cfg, s, bars, i, st).book);
            Alone(m) && FlatAtStart(m)
  {
    hide NativeOpened, ManageAll;
    OpenedKeepsInv(cfg, s, bars, i, st);
    OpenedPositions(cfg, s, bars, i, st);
    var v, o := NativeView(cfg, s, bars, i), NativeOpened(cfg, s, bars, i, st).book;
    forall p, t | p in o.open && t in o.trades
      ensures t.closeBar < p.openBar
    {
      assert t in st.book.trades;
    }
    ManageAloneStaysAlone(v, o);
    ManageStaysFlatAtStart(v, o.open, o.(open := []));
  }

  // ---------- the comparison ----------

  /** On the bar where trade k - 1 closes, the rebuilt close equity is the k-th point of the trade curve. */
  lemma CurvePointIsABar(trades: seq<TradeRecord>, bars: seq<Bar>, k: nat)
    requires Profiled(trades, |bars|) && OneAfterAnother(trades) && 0 < k <= |trades|
    ensures EquityAt(CloseMark, trades, bars, trades[k - 1].closeBar) == SumOfR(trades[..k])
  {
    SettledBar(trades, bars, k, trades[k - 1].closeBar);
  }

  lemma {:induction false} SettledBar(trades: seq<TradeRecord>, bars: seq<Bar>, k: nat, bar: nat)
    requires Profiled(trades, |bars|) && k <= |trades| && bar < |bars|
    requires forall i | 0 <= i < k :: trades[i].closeBar <= bar
    requires forall i | k <= i < |trades| :: trades[i].openBar > bar
    ensures EquityAt(CloseMark, trades, bars, bar) == SumOfR(trades[..k])
  {
    if k == |trades| {
      assert trades[..k] == trades;
      LateBarHasOnlyClosedTrades(trades, bars, bar);
    } else {
      var front := trades[..|trades| - 1];
      assert front[..k] == trades[..k];
      SettledBar(front, bars, k, bar);
    }
  }

  /** Every curve point has a bar where the envelope reaches it, and later points have later bars. */
  function BarOfPoint(trades: seq<TradeRecord>, k: nat): nat
    requires k <= |trades|
  {
    if k == 0 then 0 else trades[k - 1].closeBar
  }

  lemma {:induction false} EnvelopeReachesPoint(trades: seq<TradeRecord>, bars: seq<Bar>, k: nat)
    requires Profiled(trades, |bars|) && OneAfterAnother(trades) && ValidBars(bars) && |bars| > 0 && k <= |trades|
    requires forall i | 0 <= i < |trades| :: trades[i].openBar > 0
    ensures var b := BarOfPoint(trades, k);
            b < |bars|
            && EquityAt(LowMark, trades, bars, b) <= CurveOf(trades)[k] <= EquityAt(HighMark, trades, bars, b)
  {
    hide EquityAt, CurveOf;
    var b := BarOfPoint(trades, k);
    CurveAt(trades, k);
    if k == 0 {
      SettledBar(trades, bars, 0, 0);
    } else {
      CurvePointIsABar(trades, bars, k);
    }
    EnvelopeEnclosesClose(trades, bars, b);
  }

  /** Closed-trade drawdown never exceeds the drawdown of the rebuilt bar envelope, for every backtest
      with one position at a time whose first bar is flat (always so in bar-close mode). */
  lemma EnvelopeDrawdownDominates(cfg: Config, s: Strategy, bars: seq<Bar>, profile: Intraday, closed: real, envelope: real)
    requires ValidSettings(cfg) && cfg.maxPositions == 1 && ValidBars(bars) && |bars| > 0
    requires cfg.mode.NextBar? || cfg.warmupBars >= 1
    requires var end := NativeRun(cfg, s, bars, |bars|).book;
             && Profiled(end.trades, |bars|) && Represents(profile, end.trades, bars)
             && IsLargestFall(closed, end.equity, end.equity)
    requires |profile.high| == |profile.low| && IsLargestFall(envelope, profile.high, profile.low)
    ensures closed <= envelope
  {
    hide NativeRun, Represents, EquityAt, CurveOf, Marks, MarkAt;
    RunsAreSequential(cfg, s, bars, |bars|);
    NativeRunKeepsInv(cfg, s, bars, |bars|);
    var end := NativeRun(cfg, s, bars, |bars|).book;
    var i, j :| 0 <= i <= j < |end.equity| && end.equity[i] - end.equity[j] == closed;
    FallIsInEnvelope(end.trades, bars, profile, envelope, i, j);
  }

  lemma FallIsInEnvelope(
      trades: seq<TradeRecord>, bars: seq<Bar>, profile: Intraday, envelope: real, i: nat, j: nat)
    requires Profiled(trades, |bars|) && OneAfterAnother(trades) && ValidBars(bars) && |bars| > 0
    requires forall t | t in trades :: t.openBar > 0
    requires Represents(profile, trades, bars) && IsLargestFall(envelope, profile.high, profile.low)
    requires i <= j <= |trades|
    ensures CurveOf(trades)[i] - CurveOf(trades)[j] <= envelope
  {
    hide EquityAt, CurveOf, IsLargestFall, Represents, ValidBars;
    EnvelopeReachesPoint(trades, bars, i);
    EnvelopeReachesPoint(trades, bars, j);
    var b, c := BarOfPoint(trades, i), BarOfPoint(trades, j);
    LaterPointsHaveLaterBars(trades, bars, i, j);
    EnvelopeFall(trades, bars, profile, envelope, b, c);
  }

  lemma LaterPointsHaveLaterBars(trades: seq<TradeRecord>, bars: seq<Bar>, i: nat, j: nat)
    requires Profiled(trades, |bars|) && OneAfterAnother(trades) && i <= j <= |trades|
    ensures BarOfPoint(trades, i) <= BarOfPoint(trades, j)
  {}

  lemma EnvelopeFall(trades: seq<TradeRecord>, bars: seq<Bar>, profile: Intraday, envelope: real, b: nat, c: nat)
    requires Profiled(trades, |bars|) && Represents(profile, trades, bars) && IsLargestFall(envelope, profile.high, profile.low)
    requires b <= c < |bars|
    ensures EquityAt(HighMark, trades, bars, b) - EquityAt(LowMark, trades, bars, c) <= envelope
  {
    hide EquityAt;
    assert profile.high[b] - profile.low[c] <= envelope;
  }
}
