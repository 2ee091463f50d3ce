/** What every bar keeps, in either simulation loop: curve, ranges, and the position cap. */
module BookInvariants {
  import opened Market
  import opened Positions
  import opened Backtester

  // ---------- independent definitions ----------

  function SumOfR(trades: seq<TradeRecord>): real {
    if |trades| == 0 then 0.0 else SumOfR(trades[..|trades| - 1]) + trades[|trades| - 1].r
  }

  /** The curve of a trade list: zero, then the running sum. */
  function CurveOf(trades: seq<TradeRecord>): (curve: seq<real>)
    ensures |curve| == |trades| + 1 && curve[0] == 0.0
  {
    if |trades| == 0 then [0.0]
    else CurveOf(trades[..|trades| - 1]) + [SumOfR(trades)]
  }

  predicate ActiveAt(t: TradeRecord, bar: nat) { t.openBar <= bar <= t.closeBar }

  /** How many trades of the list were open at some time during the bar. */
  function ActiveOn(trades: seq<TradeRecord>, bar: nat): nat {
    if |trades| == 0 then 0
    else ActiveOn(trades[..|trades| - 1], bar) + if ActiveAt(trades[|trades| - 1], bar) then 1 else 0
  }

  function HeldOn(ps: seq<Position>, bar: nat): (n: nat)
    ensures n <= |ps|
  {
    if |ps| == 0 then 0
    else HeldOn(ps[..|ps| - 1], bar) + if ps[|ps| - 1].openBar <= bar then 1 else 0
  }

  function Exposure(b: Book, bar: nat): nat { ActiveOn(b.trades, bar) + HeldOn(b.open, bar) }

  ghost predicate ValidTrades(trades: seq<TradeRecord>, bars: nat) {
    forall t | t in trades :: t.openBar <= t.closeBar < bars && t.initialRisk > 0.0
  }

  /** Holds between bars, when the bars below `done` have been simulated. */
  ghost predicate BookInv(b: Book, done: nat, cap: int) {
    && |b.open| <= cap
    && (forall p | p in b.open :: p.openBar < done)
    && ValidTrades(b.trades, done)
    && b.equity == CurveOf(b.trades)
    && (forall bar: nat | bar < done :: Exposure(b, bar) <= cap)
  }

  /** Holds when bar i's fills are in and its management has not started. */
  ghost predicate OpenedInv(b: Book, i: nat, cap: int) {
    && |b.open| <= cap
    && (forall p | p in b.open :: p.openBar <= i)
    && ValidTrades(b.trades, i)
    && b.equity == CurveOf(b.trades)
    && (forall bar: nat | bar < i :: Exposure(b, bar) <= cap)
  }

  // ---------- counting ----------

  lemma {:induction false} HeldOnAppend(ps: seq<Position>, qs: seq<Position>, bar: nat)
    ensures HeldOn(ps + qs, bar) == HeldOn(ps, bar) + HeldOn(qs, bar)
  {
    if |qs| == 0 {
      assert ps + qs == ps;
    } else {
      var q := qs[..|qs| - 1];
      assert (ps + qs)[..|ps + qs| - 1] == ps + q;
      HeldOnAppend(ps, q, bar);
    }
  }

  lemma {:induction false} LaterPositionsAreNotHeld(ps: seq<Position>, bar: nat)
    requires forall p | p in ps :: p.openBar > bar
    ensures HeldOn(ps, bar) == 0
  {
    if |ps| > 0 {
      assert ps[|ps| - 1] in ps;
      LaterPositionsAreNotHeld(ps[..|ps| - 1], bar);
    }
  }

  lemma {:induction false} ClosedTradesAreNotActive(trades: seq<TradeRecord>, bar: nat)
    requires forall t | t in trades :: t.closeBar < bar
    ensures ActiveOn(trades, bar) == 0
  {
    if |trades| > 0 {
      assert trades[|trades| - 1] in trades;
      ClosedTradesAreNotActive(trades[..|trades| - 1], bar);
    }
  }

  lemma {:induction false} CurveEndsAtTheSum(trades: seq<TradeRecord>)
    ensures LastEquity(CurveOf(trades)) == SumOfR(trades)
  {
    if |trades| > 0 {
      CurveEndsAtTheSum(trades[..|trades| - 1]);
    }
  }

  /** Entry k of the curve is the sum of the first k results. */
  lemma {:induction false} CurveAt(trades: seq<TradeRecord>, k: nat)
    requires k <= |trades|
    ensures CurveOf(trades)[k] == SumOfR(trades[..k])
  {
    if k == |trades| {
      assert trades[..k] == trades;
      CurveEndsAtTheSum(trades);
    } else {
      var front := trades[..|trades| - 1];
      CurveAt(front, k);
      assert front[..k] == trades[..k];
    }
  }

  // ---------- management keeps the book consistent ----------

  /** Managing one position moves its exposure from the open list to the trade list, bar by bar. */
  lemma ManageOneConserves(v: BarView, p: Position, b: Book, bar: nat)
    requires bar <= v.index
    ensures Exposure(ManageOne(v, p, b), bar) == Exposure(b, bar) + if p.openBar <= bar then 1 else 0
  {
    match Manage(v, p) {
      case Survives(q) =>
        assert (b.open + [q])[..|b.open|] == b.open;
      case Closes(t) =>
        assert (b.trades + [t])[..|b.trades|] == b.trades;
    }
  }

  lemma {:induction false} ManageAllConserves(v: BarView, ps: seq<Position>, b: Book, bar: nat)
    requires bar <= v.index
    ensures Exposure(ManageAll(v, ps, b), bar) == Exposure(b, bar) + HeldOn(ps, bar)
  {
    if |ps| > 0 {
      var front := ps[..|ps| - 1];
      ManageAllConserves(v, front, b, bar);
      ManageOneConserves(v, ps[|ps| - 1], ManageAll(v, front, b), bar);
    }
  }

  /** Inside the management loop of bar i: every range is within the bar and the curve is the trades' curve. */
  ghost predicate Managing(b: Book, i: nat) {
    && (forall p | p in b.open :: p.openBar <= i)
    && ValidTrades(b.trades, i + 1)
    && b.equity == CurveOf(b.trades)
  }

  lemma ManageOneKeepsRanges(v: BarView, p: Position, b: Book)
    requires Managing(b, v.index) && p.openBar <= v.index
    ensures var r := ManageOne(v, p, b);
            && Managing(r, v.index)
            && |r.open| + |r.trades| == |b.open| + |b.trades| + 1
            && ((r.trades == b.trades)
                || (|r.trades| == |b.trades| + 1 && r.trades[..|b.trades|] == b.trades
                    && r.trades[|b.trades|].closeBar == v.index))
  {
    ManageKeepsIdentity(v, p);
    match Manage(v, p) {
      case Survives(q) =>
      case Closes(t) =>
        assert (b.trades + [t])[..|b.trades|] == b.trades;
        CurveEndsAtTheSum(b.trades);
    }
  }

  /** No position is lost or duplicated; the old trades stay and the new ones close on this bar. */
  lemma {:induction false} ManageAllKeepsRanges(v: BarView, ps: seq<Position>, b: Book)
    requires Managing(b, v.index) && forall p | p in ps :: p.openBar <= v.index
    ensures var r := ManageAll(v, ps, b);
            && Managing(r, v.index)
            && |r.open| + |r.trades| == |b.open| + |b.trades| + |ps|
            && |b.trades| <= |r.trades| && r.trades[..|b.trades|] == b.trades
            && (forall k | |b.trades| <= k < |r.trades| :: r.trades[k].closeBar == v.index)
  {
    if |ps| > 0 {
      var front := ps[..|ps| - 1];
      ManageAllKeepsRanges(v, front, b);
      ManageOneKeepsRanges(v, ps[|ps| - 1], ManageAll(v, front, b));
    }
  }

  /** One bar's management re-establishes the between-bars invariant for one more bar. */
  lemma ManageBookKeepsInv(v: BarView, b: Book, cap: int)
    requires OpenedInv(b, v.index, cap)
    ensures BookInv(ManageBook(v, b), v.index + 1, cap)
  {
    var start := b.(open := []);
    var r := ManageBook(v, b);
    ManageAllKeepsRanges(v, b.open, start);
    forall bar: nat | bar < v.index + 1
      ensures Exposure(r, bar) <= cap
    {
      ManageAllConserves(v, b.open, start, bar);
      if bar == v.index {
        ClosedTradesAreNotActive(b.trades, bar);
      } else {
        assert Exposure(b, bar) <= cap;
      }
    }
  }

  /** Adding fills stamped with bar i to a book that was consistent before bar i. */
  lemma FillsKeepInv(b: Book, filled: seq<Position>, i: nat, cap: int)
    requires BookInv(b, i, cap) || OpenedInv(b, i, cap)
    requires |b.open| + |filled| <= cap
    requires forall p | p in filled :: p.openBar == i
    ensures OpenedInv(b.(open := b.open + filled), i, cap)
  {
    forall bar: nat | bar < i
      ensures Exposure(b.(open := b.open + filled), bar) <= cap
    {
      assert Exposure(b, bar) <= cap;
      HeldOnAppend(b.open, filled, bar);
      LaterPositionsAreNotHeld(filled, bar);
    }
  }
}
