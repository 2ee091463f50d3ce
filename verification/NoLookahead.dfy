/** The engine is causal: a run on the first m bars is the full run cut at bar m, unless the Friday rule
    shows the cut. */
module NoLookahead {
  import opened Market
  import opened Positions
  import opened Backtester
  import opened BookInvariants
  import opened NativeInvariants

  /** The strategy gives the same answers about bars below m whether or not later bars exist. */
  ghost predicate CausalOn(s: Strategy, bars: seq<Bar>, m: nat)
    requires m <= |bars|
  {
    && (forall i: nat | i < m :: s.onBar(bars[..m], i) == s.onBar(bars, i))
    && (s.hasExitRule ==>
          forall i: nat, p: Position | i < m :: s.shouldExit(bars[..m], i, p) == s.shouldExit(bars, i, p))
  }

  // ---------- one bar ----------

  /** Two views of one bar that differ only in the frame shown to the time-exit rule. */
  ghost predicate SameView(v: BarView, w: BarView) {
    && v.index == w.index && v.bar == w.bar && v.cfg == w.cfg && v.strategy == w.strategy
    && v.exitAt == w.exitAt && v.fridayClose == w.fridayClose
    && (v.strategy.hasExitRule && v.exitAt.Some? ==>
          forall p: Position :: v.strategy.shouldExit(v.exitFrame, v.exitAt.value, p)
                                == v.strategy.shouldExit(w.exitFrame, v.exitAt.value, p))
  }

  lemma SameViewSameDecision(v: BarView, w: BarView, p: Position)
    requires SameView(v, w)
    ensures Manage(v, p) == Manage(w, p)
  {
    var q := ApplyPendingMove(p, v.cfg.breakEvenOffset);
    assert ExitDecision(v, q) == ExitDecision(w, q);
  }

  lemma {:induction false} SameViewSameBook(v: BarView, w: BarView, ps: seq<Position>, b: Book)
    requires SameView(v, w)
    ensures ManageAll(v, ps, b) == ManageAll(w, ps, b)
  {
    if |ps| > 0 {
      SameViewSameBook(v, w, ps[..|ps| - 1], b);
      SameViewSameDecision(v, w, ps[|ps| - 1]);
    }
  }

  // ---------- the Friday state of a cut frame ----------

  /** The cut changes the Friday state of bar i, but in bar-close mode with nothing held or due on bar i
      and no fill left for an order placed on it. */
  predicate CutIsUnseen(cfg: Config, bars: seq<Bar>, m: nat, i: nat)
    requires i < m <= |bars|
  {
    && cfg.mode.NextBar?
    && (i == 0 || i <= cfg.warmupBars || FridayCloseState(cfg, bars, i - 1).closeBar)
    && (i + 1 == m || FridayCloseState(cfg, bars, i + 1).afterCutoff)
  }

  /** The Friday rule looks at the next bar and at the bar interval of the whole frame. It tells no strategy
      where the frame was cut when every simulated bar keeps its Friday state or cannot show the change. */
  predicate FridaysAgree(cfg: Config, bars: seq<Bar>, m: nat)
    requires m <= |bars|
  {
    forall i: nat | cfg.warmupBars <= i < m ::
      FridayCloseState(cfg, bars[..m], i) == FridayCloseState(cfg, bars, i) || CutIsUnseen(cfg, bars, m, i)
  }

  lemma FridayOffAgrees(cfg: Config, bars: seq<Bar>, m: nat)
    requires m <= |bars| && !cfg.closeOnFriday
    ensures FridaysAgree(cfg, bars, m)
  {
    hide CutIsUnseen;
  }

  /** A check on the frame: the cut keeps its bar interval and does not fall inside a Friday. */
  lemma CutBetweenDaysAgrees(cfg: Config, bars: seq<Bar>, m: nat)
    requires 0 < m <= |bars| && MinPositiveGap(TimesOf(bars[..m])) == MinPositiveGap(TimesOf(bars))
    requires WeekdayOf(bars[m - 1].time) != 4 || m == |bars| || DayOf(bars[m].time) != DayOf(bars[m - 1].time)
    ensures FridaysAgree(cfg, bars, m)
  {
    hide CutIsUnseen, MinPositiveGap, TimesOf;
  }

  // ---------- one step of both runs ----------

  /** A bar closed by the Friday rule ends with nothing held and nothing due. */
  lemma ClosedBarEndsFlat(cfg: Config, s: Strategy, bars: seq<Bar>, i: nat, st: NativeState)
    requires i < |bars| && ValidSettings(cfg) && NativeInv(cfg, st, i) && FridayCloseState(cfg, bars, i).closeBar
    ensures var r := NativeStep(cfg, s, bars, i, st); r.book.open == [] && r.pending == []
  {
    hide NativeOpened, FridayCloseState;
    OpenedKeepsInv(cfg, s, bars, i, st);
    var o := NativeOpened(cfg, s, bars, i, st);
    AllClose(NativeView(cfg, s, bars, i), o.book.open, o.book.(open := []));
  }

  lemma {:induction false} AllClose(v: BarView, ps: seq<Position>, b: Book)
    requires v.fridayClose && b.open == []
    ensures ManageAll(v, ps, b).open == []
  {
    if |ps| > 0 {
      AllClose(v, ps[..|ps| - 1], b);
      var q := ApplyPendingMove(ps[|ps| - 1], v.cfg.breakEvenOffset);
      assert ExitDecision(v, q).Some?;
    }
  }

  /** The states of both runs before bar i: the same, except for orders that bar i will drop. */
  ghost predicate SameButDropped(cfg: Config, bars: seq<Bar>, i: nat, short: NativeState, full: NativeState) {
    && short.book == full.book
    && (short.pending == full.pending || (i < |bars| && cfg.mode.NextBar? && FridayCloseState(cfg, bars, i).afterCutoff))
  }

  /** Nothing is held or due before bar i when the bar before it was closed or not simulated. */
  ghost predicate FlatAfterClose(cfg: Config, bars: seq<Bar>, i: nat, st: NativeState)
    requires i <= |bars|
  {
    (i == 0 || i <= cfg.warmupBars || FridayCloseState(cfg, bars, i - 1).closeBar) ==> st.book.open == [] && st.pending == []
  }

  lemma FillsAreCausal(cfg: Config, s: Strategy, bars: seq<Bar>, m: nat, i: nat, short: NativeState, full: NativeState)
    requires i < m <= |bars| && ValidSettings(cfg) && SameButDropped(cfg, bars, i, short, full)
    requires NativeInv(cfg, short, i) && NativeInv(cfg, full, i)
    ensures NativeFills(cfg, bars[..m], i, short) == NativeFills(cfg, bars, i, full)
  {
    hide BookInv, RollCalendar, FillAll, Due, NotDue, MinPositiveGap, TimesOf;
    assert bars[..m][i] == bars[i];
    AllDue(short.pending, i);
    AllDue(full.pending, i);
  }

  /** Only orders that will never be filled can tell the short run from the long one. */
  lemma StepIsCausal(cfg: Config, s: Strategy, bars: seq<Bar>, m: nat, i: nat, short: NativeState, full: NativeState)
    requires cfg.warmupBars <= i < m <= |bars| && ValidSettings(cfg) && CausalOn(s, bars, m) && FridaysAgree(cfg, bars, m)
    requires NativeInv(cfg, short, i) && NativeInv(cfg, full, i)
    requires SameButDropped(cfg, bars, i, short, full) && FlatAfterClose(cfg, bars, i, full)
    ensures var a, b := NativeStep(cfg, s, bars[..m], i, short), NativeStep(cfg, s, bars, i, full);
            a.book == b.book && (i + 1 < m ==> SameButDropped(cfg, bars, i + 1, a, b))
  {
    hide FridayCloseState, NativeFills, RollCalendar, MakePosition, BookInv, FridaysAgree;
    var cut := bars[..m];
    assert cut[i] == bars[i];
    assert s.onBar(cut, i) == s.onBar(bars, i);
    FillsAreCausal(cfg, s, bars, m, i, short, full);
    assert FridayCloseState(cfg, cut, i) == FridayCloseState(cfg, bars, i) || CutIsUnseen(cfg, bars, m, i) by {
      FridaysAgreeAt(cfg, bars, m, i);
    }
    var o := NativeOpened(cfg, s, bars, i, full);
    OpenedKeepsInv(cfg, s, bars, i, full);
    if FridayCloseState(cfg, cut, i) == FridayCloseState(cfg, bars, i) {
      assert NativeOpened(cfg, s, cut, i, short) == o;
      var v, w := NativeView(cfg, s, cut, i), NativeView(cfg, s, bars, i);
      assert SameView(v, w);
      SameViewSameBook(v, w, o.book.open, o.book.(open := []));
      assert NativeManaged(cfg, s, cut, i, short) == NativeManaged(cfg, s, bars, i, full);
    } else {
      FlatFills(cfg, bars, i, full);
      assert NativeOpened(cfg, s, cut, i, short) == NativeFills(cfg, bars, i, full) == o;
      assert o.book.open == [];
    }
  }

  lemma FridaysAgreeAt(cfg: Config, bars: seq<Bar>, m: nat, i: nat)
    requires cfg.warmupBars <= i < m <= |bars| && FridaysAgree(cfg, bars, m)
    ensures FridayCloseState(cfg, bars[..m], i) == FridayCloseState(cfg, bars, i) || CutIsUnseen(cfg, bars, m, i)
  {}

  lemma FlatFills(cfg: Config, bars: seq<Bar>, i: nat, st: NativeState)
    requires i < |bars| && st.book.open == [] && st.pending == []
    ensures NativeFills(cfg, bars, i, st).book.open == []
  {}

  // ---------- whole runs ----------

  lemma {:induction false} RunIsCausal(cfg: Config, s: Strategy, bars: seq<Bar>, m: nat, hi: nat)
    requires hi <= m <= |bars| && ValidSettings(cfg) && CausalOn(s, bars, m) && FridaysAgree(cfg, bars, m)
    ensures NativeRun(cfg, s, bars[..m], hi).book == NativeRun(cfg, s, bars, hi).book
    ensures hi < m ==> SameButDropped(cfg, bars, hi, NativeRun(cfg, s, bars[..m], hi), NativeRun(cfg, s, bars, hi))
    ensures FlatAfterClose(cfg, bars, hi, NativeRun(cfg, s, bars, hi))
  {
    hide NativeStep, NativeInv, FridaysAgree, FridayCloseState;
    if !(hi == 0 || hi <= cfg.warmupBars) {
      RunIsCausal(cfg, s, bars, m, hi - 1);
      NativeRunKeepsInv(cfg, s, bars[..m], hi - 1);
      NativeRunKeepsInv(cfg, s, bars, hi - 1);
      var short, full := NativeRun(cfg, s, bars[..m], hi - 1), NativeRun(cfg, s, bars, hi - 1);
      StepIsCausal(cfg, s, bars, m, hi - 1, short, full);
      assert NativeRun(cfg, s, bars[..m], hi) == NativeStep(cfg, s, bars[..m], hi - 1, short);
      if FridayCloseState(cfg, bars, hi - 1).closeBar {
        ClosedBarEndsFlat(cfg, s, bars, hi - 1, full);
      }
    }
  }

  /** Trades are only ever appended, and a trade appended while simulating bar i closes on bar i. */
  lemma StepAppendsTrades(cfg: Config, s: Strategy, bars: seq<Bar>, i: nat, st: NativeState)
    requires i < |bars| && ValidSettings(cfg) && NativeInv(cfg, st, i)
    ensures var old_, new_ := st.book.trades, NativeStep(cfg, s, bars, i, st).book.trades;
            |old_| <= |new_| && new_[..|old_|] == old_
            && forall k | |old_| <= k < |new_| :: new_[k].closeBar == i
  {
    hide NativeOpened;
    OpenedKeepsInv(cfg, s, bars, i, st);
    var o := NativeOpened(cfg, s, bars, i, st);
    ManageAllKeepsRanges(NativeView(cfg, s, bars, i), o.book.open, o.book.(open := []));
  }

  lemma {:induction false} LaterTradesCloseLater(cfg: Config, s: Strategy, bars: seq<Bar>, m: nat, hi: nat)
    requires m <= hi <= |bars| && ValidSettings(cfg)
    ensures var early, late := NativeRun(cfg, s, bars, m).book.trades, NativeRun(cfg, s, bars, hi).book.trades;
            |early| <= |late| && late[..|early|] == early
            && forall k | |early| <= k < |late| :: late[k].closeBar >= m
  {
    hide NativeStep;
    if m < hi && !(hi == 0 || hi <= cfg.warmupBars) {
      LaterTradesCloseLater(cfg, s, bars, m, hi - 1);
      NativeRunKeepsInv(cfg, s, bars, hi - 1);
      var st := NativeRun(cfg, s, bars, hi - 1);
      StepAppendsTrades(cfg, s, bars, hi - 1, st);
      var early := NativeRun(cfg, s, bars, m).book.trades;
      var mid, late := st.book.trades, NativeRun(cfg, s, bars, hi).book.trades;
      assert late[..|early|] == mid[..|early|];
      forall k | |early| <= k < |late|
        ensures late[k].closeBar >= m
      {
        if k < |mid| {
          assert late[k] == mid[k];
        }
      }
    }
  }

  /** The trades of the run on the first m bars are exactly the leading trades of the full run, and the
      full run's remaining trades all close at bar m or later. */
  ghost predicate CutsCleanly(cfg: Config, s: Strategy, bars: seq<Bar>, m: nat)
    requires m <= |bars|
  {
    var short := NativeRun(cfg, s, bars[..m], m).book.trades;
    var full := NativeRun(cfg, s, bars, |bars|).book.trades;
    && |short| <= |full| && full[..|short|] == short
    && (forall t | t in short :: t.closeBar < m)
    && (forall k | |short| <= k < |full| :: full[k].closeBar >= m)
  }

  /** No lookahead. */
  lemma {:induction false} NoLookaheadTheorem(cfg: Config, s: Strategy, bars: seq<Bar>, m: nat)
    requires m <= |bars| && ValidSettings(cfg) && FridaysAgree(cfg, bars, m) && CausalOn(s, bars, m)
    ensures CutsCleanly(cfg, s, bars, m)
  {
    hide FridaysAgree, CausalOn;
    RunIsCausal(cfg, s, bars, m, m);
    NativeRunKeepsInv(cfg, s, bars, m);
    LaterTradesCloseLater(cfg, s, bars, m, |bars|);
  }
}
