/** The store of the ledger: every method is one transaction on the deal and trade tables. */
module LedgerStore {
  import opened Options
  import opened Ledger
  import opened LedgerLaw

  lemma SameOrders(trades: map<string, Trade>, position: string, deals: seq<Deal>, reason: Option<string>)
    requires UniqueOrders(trades) && position in trades
    ensures UniqueOrders(trades[position := Aggregate(deals, position, trades[position], reason)])
  {
    assert Aggregate(deals, position, trades[position], reason).orderId == trades[position].orderId;
  }

  class TradeStore {
    var deals: seq<Deal>
    var trades: map<string, Trade>

    function State(): LedgerState reads this { LedgerState(deals, trades) }

    ghost predicate Valid() reads this { UniqueIds(deals) && UniqueOrders(trades) }

    constructor ()
      ensures Valid() && State() == LedgerState([], map[])
    {
      deals, trades := [], map[];
    }

    method UpsertOpen(p: OpenPayload) returns (r: Result<Trade, LedgerError>)
      requires Valid()
      modifies this
      ensures Valid()
      ensures r.Failure? <==> OpenRefused(old(State()), p)
      ensures r.Failure? ==>
                && State() == old(State())
                && r.error == if OrderTaken(old(trades), p.orderId) then OrderIdTaken else VolumeCheckFailed
      ensures r.Success? ==> State() == Open(old(State()), p) && r.value == trades[p.position]
      // a known position is left alone, an unknown one gets its row and its entry deal
      ensures r.Success? && p.position in old(trades) ==> State() == old(State())
      ensures r.Success? && p.position !in old(trades) ==>
                JustOpened(p, r.value) && TableTold(old(deals), EntryRow(p), deals)
                && trades.Keys == old(trades).Keys + {p.position} && forall q | q in old(trades) :: trades[q] == old(trades)[q]
    {
      OpenIsTold(State(), p);
      if p.position in trades {
        return Success(trades[p.position]);
      }
      if OrderTaken(trades, p.orderId) {
        return Failure(OrderIdTaken);
      }
      if p.dealId.Some? && p.entryVolume < 0.0 {
        return Failure(VolumeCheckFailed);
      }
      trades := trades[p.position := OpenTrade(p)];
      if p.dealId.Some? {
        deals := UpsertDeal(deals, Deal(p.dealId.value, p.position, In, p.entryTime, p.entryVolume, p.entryPrice, 0.0, 0.0, 0.0));
      }
      return Success(trades[p.position]);
    }

    /** Attach exit deals to an already durable trade. */
    method UpsertRecoveredClose(position: string, batch: Batch) returns (r: Result<Trade, LedgerError>)
      requires Valid()
      modifies this
      ensures Valid()
      ensures r.Failure? <==> position !in old(trades) || !Admissible(batch.deals)
      ensures r.Failure? ==> State() == old(State())
      ensures r.Success? ==> State() == Recover(old(State()), position, batch) && r.value == trades[position]
      // the table holds the batch under the position, and the position's row is what the table says
      ensures r.Success? ==>
                TableTold(old(deals), AttachedTo(position, batch.deals), deals)
                && RowTold(deals, position, old(trades)[position], batch.reason, r.value)
                && trades.Keys == old(trades).Keys && forall p | p in trades && p != position :: trades[p] == old(trades)[p]
    {
      if position !in trades {
        return Failure(UnknownTrade);
      }
      if !Admissible(batch.deals) {
        return Failure(VolumeCheckFailed);
      }
      hide RowTold, TableTold, UpsertDeals, Aggregate, UniqueIds, UniqueOrders;
      RecoverIsTold(State(), position, batch);
      var table := Upserted(AttachedTo(position, batch.deals));
      SameOrders(trades, position, table, batch.reason);
      deals := table;
      trades := trades[position := Aggregate(deals, position, trades[position], batch.reason)];
      return Success(trades[position]);
    }

    /** The deal table with the rows inserted or overwritten one by one. */
    method Upserted(rows: seq<Deal>) returns (table: seq<Deal>)
      requires UniqueIds(deals)
      ensures table == UpsertDeals(deals, rows) && UniqueIds(table)
    {
      hide UpsertDeal, UniqueIds;
      table := deals;
      UpsertKeepsIdsUnique(deals, rows);
      for k := 0 to |rows|
        invariant table == UpsertDeals(deals, rows[..k])
      {
        assert rows[..k + 1][..k] == rows[..k];
        table := UpsertDeal(table, rows[k]);
      }
      assert rows[..|rows|] == rows;
    }

    /** Open the trade if it is not yet known, then attach all its deals. The two are separate
        transactions: a refused batch leaves the opened row behind. */
    method UpsertRecoveredTrade(p: OpenPayload, batch: Batch) returns (r: Result<Trade, LedgerError>)
      requires Valid()
      modifies this
      ensures Valid()
      ensures r.Success? <==> Admissible(batch.deals) && !OpenRefused(old(State()), p)
      ensures r.Success? ==> State() == Recover(Open(old(State()), p), p.position, batch) && r.value == trades[p.position]
      ensures r.Failure? ==> State() == if OpenRefused(old(State()), p) then old(State()) else Open(old(State()), p)
    {
      var trade := UpsertOpen(p);
      if trade.Failure? {
        return trade;
      }
      r := UpsertRecoveredClose(p.position, batch);
    }
  }
}
