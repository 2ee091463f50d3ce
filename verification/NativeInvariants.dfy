/** Whole-run invariants of the native loop: the position cap, the trade ranges, the equity curve. */
module NativeInvariants {
  import opened Market
  import opened Backtester
  import opened BookInvariants

  /** Open plus pending never exceeds the cap, and every pending order is due on the next bar. */
  ghost predicate NativeInv(cfg: Config, st: NativeState, done: nat) {
    && BookInv(st.book, done, cfg.maxPositions)
    && |st.book.open| + |st.pending| <= cfg.maxPositions
    && (forall o | o in st.pending :: o.fillBar == done)
    && (cfg.mode.OpenBar? ==> st.pending == [])
    && |st.pending| <= 1
  }

  lemma {:induction false} AllDue(pending: seq<Order>, i: nat)
    requires forall o | o in pending :: o.fillBar == i
    ensures Due(pending, i) == pending && NotDue(pending, i) == []
  {
    if |pending| > 0 {
      assert pending[|pending| - 1] in pending;
      AllDue(pending[..|pending| - 1], i);
      assert pending == pending[..|pending| - 1] + [pending[|pending| - 1]];
    }
  }

  lemma {:induction false} FillsOpenOnThisBar(orders: seq<Order>, b: Bar, i: nat, cfg: Config)
    ensures var f := FillAll(orders, b, i, cfg);
            |f| <= |orders| && forall p | p in f :: p.openBar == i && p.nativeOpenBar == i
  {
    if |orders| > 0 {
      FillsOpenOnThisBar(orders[..|orders| - 1], b, i, cfg);
    }
  }

  lemma OneFill(o: Order, b: Bar, i: nat, cfg: Config)
    ensures FillAll([o], b, i, cfg) == FillOne(o, b, i, cfg)
  {
    assert [o][..0] == [];
  }

  /** The calendar roll touches nothing but the realized-R counters and their labels. */
  lemma RollKeepsPositions(b: Book, day: int, week: int)
    ensures var r := RollCalendar(b, day, week);
            r.open == b.open && r.trades == b.trades && r.equity == b.equity
  {}

  lemma OpenedKeepsInv(cfg: Config, s: Strategy, bars: seq<Bar>, i: nat, st: NativeState)
    requires i < |bars| && ValidSettings(cfg) && NativeInv(cfg, st, i)
    ensures var o := NativeOpened(cfg, s, bars, i, st);
            OpenedInv(o.book, i, cfg.maxPositions) && o.pending == [] && o.book.trades == st.book.trades
  {
    AllDue(st.pending, i);
    var rolled := RollCalendar(st.book, DayOf(bars[i].time), cfg.isoWeekNumber(WeekOf(bars[i].time)));
    assert forall bar: nat :: Exposure(rolled, bar) == Exposure(st.book, bar);
    var due := if FridayCloseState(cfg, bars, i).afterCutoff then [] else st.pending;
    FillsOpenOnThisBar(due, bars[i], i, cfg);
    FillsKeepInv(rolled, FillAll(due, bars[i], i, cfg), i, cfg.maxPositions);
    var f := NativeFills(cfg, bars, i, st);
    var t := NativeTrigger(cfg, s, bars, i, f);
    if t != f {
      FillsKeepInv(f.book, t.book.open[|f.book.open|..], i, cfg.maxPositions);
    }
  }

  lemma StepKeepsInv(cfg: Config, s: Strategy, bars: seq<Bar>, i: nat, st: NativeState)
    requires i < |bars| && ValidSettings(cfg) && NativeInv(cfg, st, i)
    ensures NativeInv(cfg, NativeStep(cfg, s, bars, i, st), i + 1)
  {
    hide NativeOpened;
    OpenedKeepsInv(cfg, s, bars, i, st);
    var o := NativeOpened(cfg, s, bars, i, st);
    ManageBookKeepsInv(NativeView(cfg, s, bars, i), o.book, cfg.maxPositions);
  }

  /** Position cap, whole run: at every moment between bars open plus pending stays within the cap,
      and on every simulated bar the positions and closed trades that touch it are within the cap. */
  lemma {:induction false} NativeRunKeepsInv(cfg: Config, s: Strategy, bars: seq<Bar>, hi: nat)
    requires hi <= |bars| && ValidSettings(cfg)
    ensures NativeInv(cfg, NativeRun(cfg, s, bars, hi), hi)
  {
    hide NativeStep;
    if hi == 0 || hi <= cfg.warmupBars {
      assert forall bar: nat :: Exposure(EMPTY_BOOK, bar) == 0;
    } else {
      NativeRunKeepsInv(cfg, s, bars, hi - 1);
      StepKeepsInv(cfg, s, bars, hi - 1, NativeRun(cfg, s, bars, hi - 1));
    }
  }
}
