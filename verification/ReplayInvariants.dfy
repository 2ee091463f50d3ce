/** The position cap and the curve invariant hold in every replay, whatever the schedule. */
module ReplayInvariants {
  import opened Market
  import opened Backtester
  import opened BookInvariants
  import opened Replay

  lemma OpenOrderKeepsInv(cfg: Config, bar: Bar, i: nat, o: ReplayOrder, b: Book)
    requires OpenedInv(b, i, cfg.maxPositions)
    ensures OpenedInv(OpenOrder(cfg, bar, i, o, b), i, cfg.maxPositions)
    ensures OpenOrder(cfg, bar, i, o, b).trades == b.trades
  {
    var r := OpenOrder(cfg, bar, i, o, b);
    if r != b {
      var filled := r.open[|b.open|..];
      assert r == b.(open := b.open + filled);
      FillsKeepInv(b, filled, i, cfg.maxPositions);
    }
  }

  lemma {:induction false} OpenOrdersKeepInv(cfg: Config, bar: Bar, i: nat, orders: seq<ReplayOrder>, b: Book)
    requires OpenedInv(b, i, cfg.maxPositions)
    ensures OpenedInv(OpenOrders(cfg, bar, i, orders, b), i, cfg.maxPositions)
    ensures OpenOrders(cfg, bar, i, orders, b).trades == b.trades
  {
    hide OpenOrder;
    if |orders| > 0 {
      var front := orders[..|orders| - 1];
      OpenOrdersKeepInv(cfg, bar, i, front, b);
      OpenOrderKeepsInv(cfg, bar, i, orders[|orders| - 1], OpenOrders(cfg, bar, i, front, b));
    }
  }

  lemma ReplayStepKeepsInv(f: Frames, cfg: Config, s: Strategy, plan: Plan, i: nat, b: Book)
    requires i < |f.exec| && BookInv(b, i, cfg.maxPositions)
    ensures BookInv(ReplayStep(f, cfg, s, plan, i, b), i + 1, cfg.maxPositions)
  {
    hide OpenOrders, ManageBook;
    var rolled := RollCalendar(b, DayOf(f.exec[i].time), WeekOf(f.exec[i].time));
    assert forall bar: nat :: Exposure(rolled, bar) == Exposure(b, bar);
    var orders := if FridayCloseState(cfg, f.exec, i).afterCutoff then [] else OrdersAt(plan, i);
    OpenOrdersKeepInv(cfg, f.exec[i], i, orders, rolled);
    ManageBookKeepsInv(ReplayView(f, cfg, s, plan, i), ReplayOpened(f, cfg, plan, i, b), cfg.maxPositions);
  }

  /** Position cap in replay: after every execution bar the open list is within the cap, and so is
      the number of positions and closed trades that touch any simulated bar. */
  lemma {:induction false} ReplayRunKeepsInv(f: Frames, cfg: Config, s: Strategy, plan: Plan, hi: nat)
    requires hi <= |f.exec| && cfg.maxPositions >= 1
    ensures BookInv(ReplayRun(f, cfg, s, plan, hi), hi, cfg.maxPositions)
  {
    hide ReplayStep;
    if hi == 0 {
      assert forall bar: nat :: Exposure(EMPTY_BOOK, bar) == 0;
    } else {
      ReplayRunKeepsInv(f, cfg, s, plan, hi - 1);
      ReplayStepKeepsInv(f, cfg, s, plan, hi - 1, ReplayRun(f, cfg, s, plan, hi - 1));
    }
  }
}
