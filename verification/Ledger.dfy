/** The durable trade and deal ledger of one account: deal rows keyed by broker id, and trade rows
    recomputed from them, as functions on the two tables. */
module Ledger {
  import opened Market
  import opened Options

  datatype EntryType = In | Out

  datatype Deal = Deal(
    id: string, position: string, kind: EntryType, time: int, volume: real, price: Option<real>,
    commission: real, swap: real, profit: real)

  datatype Trade = Trade(
    strategy: string, side: Side, orderId: Option<string>, riskUsd: Option<real>,
    entryVolume: real, closedVolume: real, entryPrice: Option<real>, exitPrice: Option<real>,
    entryTime: int, exitTime: Option<int>, commission: real, swap: real, profit: real,
    points: Option<real>, pnlR: Option<real>, duration: Option<int>,
    closed: bool, closeReason: Option<string>)

  // ---------- the deal table ----------

  ghost predicate UniqueIds(deals: seq<Deal>) {
    forall i, j | 0 <= i < j < |deals| :: deals[i].id != deals[j].id
  }

  function FindDeal(deals: seq<Deal>, id: string, from: nat): (r: Option<nat>)
    requires from <= |deals|
    ensures r.Some? ==> from <= r.value < |deals| && deals[r.value].id == id
    ensures r.None? ==> forall k | from <= k < |deals| :: deals[k].id != id
    decreases |deals| - from
  {
    if from == |deals| then None
    else if deals[from].id == id then Some(from)
    else FindDeal(deals, id, from + 1)
  }

  /** Insert, or overwrite the row with the same broker deal id in place. */
  function UpsertDeal(deals: seq<Deal>, d: Deal): seq<Deal> {
    match FindDeal(deals, d.id, 0)
    case Some(k) => deals[k := d]
    case None => deals + [d]
  }

  function UpsertDeals(deals: seq<Deal>, batch: seq<Deal>): seq<Deal> {
    if |batch| == 0 then deals
    else UpsertDeal(UpsertDeals(deals, batch[..|batch| - 1]), batch[|batch| - 1])
  }

  // ---------- aggregation ----------

  function SumOf(f: Deal -> real, deals: seq<Deal>): real {
    if |deals| == 0 then 0.0 else SumOf(f, deals[..|deals| - 1]) + f(deals[|deals| - 1])
  }

  predicate Selected(d: Deal, position: string, kind: EntryType) { d.position == position && d.kind == kind }

  function Volume(deals: seq<Deal>, position: string, kind: EntryType): real {
    SumOf((d: Deal) => if Selected(d, position, kind) then d.volume else 0.0, deals)
  }

  function PricedVolume(deals: seq<Deal>, position: string, kind: EntryType): real {
    SumOf((d: Deal) => if Selected(d, position, kind) && d.price.Some? then d.volume else 0.0, deals)
  }

  function PricedValue(deals: seq<Deal>, position: string, kind: EntryType): real {
    SumOf((d: Deal) => if Selected(d, position, kind) && d.price.Some? then d.price.value * d.volume else 0.0, deals)
  }

  function WeightedPrice(deals: seq<Deal>, position: string, kind: EntryType): Option<real> {
    var volume := PricedVolume(deals, position, kind);
    if volume == 0.0 then None else Some(PricedValue(deals, position, kind) / volume)
  }

  predicate HasDeal(deals: seq<Deal>, position: string, kind: EntryType) {
    exists k | 0 <= k < |deals| :: Selected(deals[k], position, kind)
  }

  /** The earliest (sign 1) or latest (sign -1) time of the selected deals. */
  function ExtremeTime(deals: seq<Deal>, position: string, kind: EntryType, sign: int): Option<int> {
    if |deals| == 0 then None
    else
      var rest := ExtremeTime(deals[..|deals| - 1], position, kind, sign);
      var d := deals[|deals| - 1];
      if !Selected(d, position, kind) then rest
      else if rest.None? || sign * d.time < sign * rest.value then Some(d.time)
      else rest
  }

  function OfPosition(position: string, f: Deal -> real): Deal -> real {
    (d: Deal) => if d.position == position then f(d) else 0.0
  }

  const COMMISSION: Deal -> real := (d: Deal) => d.commission
  const SWAP: Deal -> real := (d: Deal) => d.swap
  const PROFIT: Deal -> real := (d: Deal) => d.profit

  /** The trade row recomputed from its deals; the durable row stands in where no entry deal is known. */
  function Aggregate(deals: seq<Deal>, position: string, current: Trade, reason: Option<string>): Trade {
    var entered := Volume(deals, position, In);
    var entryVolume := if entered != 0.0 then entered else current.entryVolume;
    var closedVolume := Volume(deals, position, Out);
    var entryPrice := if HasDeal(deals, position, In) then WeightedPrice(deals, position, In) else current.entryPrice;
    var exitPrice := WeightedPrice(deals, position, Out);
    var firstIn := ExtremeTime(deals, position, In, 1);
    var entryTime := if firstIn.Some? then firstIn.value else current.entryTime;
    var exitTime := ExtremeTime(deals, position, Out, -1);
    var profit := SumOf(OfPosition(position, PROFIT), deals);
    Trade(
      current.strategy, current.side, current.orderId, current.riskUsd, entryVolume, closedVolume, entryPrice, exitPrice, entryTime, exitTime,
      SumOf(OfPosition(position, COMMISSION), deals), SumOf(OfPosition(position, SWAP), deals), profit,
      if entryPrice.Some? && exitPrice.Some? then
        Some(if current.side.Buy? then exitPrice.value - entryPrice.value else entryPrice.value - exitPrice.value)
      else None,
      if current.riskUsd.Some? && current.riskUsd.value != 0.0 then Some(profit / current.riskUsd.value) else None,
      if exitTime.Some? then Some(exitTime.value - entryTime) else None,
      entryVolume > 0.0 && closedVolume + 0.000000001 >= entryVolume,
      if reason.Some? then reason else current.closeReason)
  }

  // ---------- recovery ----------

  datatype LedgerState = LedgerState(deals: seq<Deal>, trades: map<string, Trade>)

  datatype Batch = Batch(deals: seq<Deal>, reason: Option<string>)

  /** A batch is refused as a whole when a volume violates the table's check. */
  predicate Admissible(batch: seq<Deal>) { forall k | 0 <= k < |batch| :: batch[k].volume >= 0.0 }

  function AttachedTo(position: string, batch: seq<Deal>): (r: seq<Deal>)
    ensures |r| == |batch| && forall k | 0 <= k < |r| :: r[k] == batch[k].(position := position)
  {
    seq(|batch|, k requires 0 <= k < |batch| => batch[k].(position := position))
  }

  /** Attach a batch of deals to an existing trade and recompute the trade. */
  function Recover(l: LedgerState, position: string, batch: Batch): LedgerState
    requires position in l.trades
  {
    var deals := UpsertDeals(l.deals, AttachedTo(position, batch.deals));
    LedgerState(deals, l.trades[position := Aggregate(deals, position, l.trades[position], batch.reason)])
  }

  datatype OpenPayload = OpenPayload(
    position: string, strategy: string, side: Side, riskUsd: Option<real>, entryTime: int, entryVolume: real,
    entryPrice: Option<real>, orderId: Option<string>, dealId: Option<string>)

  function OpenTrade(p: OpenPayload): Trade {
    Trade(p.strategy, p.side, p.orderId, p.riskUsd, p.entryVolume, 0.0, p.entryPrice, None, p.entryTime, None,
          0.0, 0.0, 0.0, None, None, None, false, None)
  }

  /** Insert once per position; a second open of the position changes nothing. */
  function Open(l: LedgerState, p: OpenPayload): LedgerState {
    if p.position in l.trades then l
    else
      LedgerState(
        if p.dealId.None? then l.deals
        else UpsertDeal(l.deals, Deal(p.dealId.value, p.position, In, p.entryTime, p.entryVolume, p.entryPrice, 0.0, 0.0, 0.0)),
        l.trades[p.position := OpenTrade(p)])
  }

  /** No two trades of the account carry one broker order. */
  ghost predicate UniqueOrders(trades: map<string, Trade>) {
    forall p, q | p in trades && q in trades && p != q && trades[p].orderId.Some? :: trades[p].orderId != trades[q].orderId
  }

  predicate OrderTaken(trades: map<string, Trade>, orderId: Option<string>) {
    orderId.Some? && exists q | q in trades :: trades[q].orderId == orderId
  }

  /** A new row violates the unique broker order, or its entry deal the volume check. */
  predicate OpenRefused(l: LedgerState, p: OpenPayload) {
    p.position !in l.trades && (OrderTaken(l.trades, p.orderId) || (p.dealId.Some? && p.entryVolume < 0.0))
  }

  /** A deal row counts for a strategy through the trade it is attached to. */
  predicate OutRowOf(l: LedgerState, d: Deal, strategy: string) {
    d.kind.Out? && d.position in l.trades && l.trades[d.position].strategy == strategy
  }

  function OutIds(l: LedgerState, strategy: string): set<string> {
    set k | 0 <= k < |l.deals| && OutRowOf(l, l.deals[k], strategy) :: l.deals[k].id
  }

  /** The half-open window read of the parity check. */
  function OutIdsBetween(l: LedgerState, strategy: string, start: int, end: int): set<string> {
    set k | 0 <= k < |l.deals| && OutRowOf(l, l.deals[k], strategy) && start <= l.deals[k].time < end :: l.deals[k].id
  }

  datatype LedgerError = UnknownTrade | VolumeCheckFailed | OrderIdTaken

  lemma {:induction false} UpsertKeepsIdsUnique(deals: seq<Deal>, batch: seq<Deal>)
    requires UniqueIds(deals)
    ensures UniqueIds(UpsertDeals(deals, batch))
  {
    if |batch| > 0 {
      UpsertKeepsIdsUnique(deals, batch[..|batch| - 1]);
    }
  }
}
