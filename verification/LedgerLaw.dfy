/** What a recomputed trade row says about its deals, stated from the deals alone. */
module LedgerLaw {
  import opened Options
  import opened Ledger
  import opened Confluence

  // ---------- totals ----------

  predicate Counts(d: Deal, position: string, kind: Option<EntryType>) {
    d.position == position && (kind.Some? ==> d.kind == kind.value)
  }

  /** The amounts of the position's deals, of one kind or of both, added up from the front. */
  function Total(deals: seq<Deal>, position: string, kind: Option<EntryType>, amount: Deal -> real): real {
    if |deals| == 0 then 0.0
    else (if Counts(deals[0], position, kind) then amount(deals[0]) else 0.0) + Total(deals[1..], position, kind, amount)
  }

  function VolumeOf(): Deal -> real { (d: Deal) => d.volume }

  /** A deal without a price takes no part in the average. */
  function PricedVolumeOf(): Deal -> real { (d: Deal) => if d.price.None? then 0.0 else d.volume }

  function ValueOf(): Deal -> real { (d: Deal) => if d.price.None? then 0.0 else d.volume * d.price.value }

  lemma {:induction false} TotalIsSum(f: Deal -> real, deals: seq<Deal>, position: string, kind: Option<EntryType>, amount: Deal -> real)
    requires forall d: Deal :: f(d) == if Counts(d, position, kind) then amount(d) else 0.0
    ensures SumOf(f, deals) == Total(deals, position, kind, amount)
    decreases |deals|
  {
    if |deals| > 0 {
      assert deals == deals[..1] + deals[1..];
      SumOfConcat(f, deals[..1], deals[1..]);
      SumOfOne(f, deals[0]);
      assert deals[..1] == [deals[0]];
      TotalIsSum(f, deals[1..], position, kind, amount);
    }
  }

  /** A new deal adds exactly its own amount. */
  lemma {:induction false} TotalGrows(deals: seq<Deal>, d: Deal, position: string, kind: Option<EntryType>, amount: Deal -> real)
    ensures Total(deals + [d], position, kind, amount)
            == Total(deals, position, kind, amount) + if Counts(d, position, kind) then amount(d) else 0.0
  {
    if |deals| == 0 {
      assert (deals + [d])[1..] == [];
    } else {
      assert (deals + [d])[1..] == deals[1..] + [d];
      TotalGrows(deals[1..], d, position, kind, amount);
    }
  }

  /** A deal delivered again replaces its own amount. */
  lemma {:induction false} TotalIsCorrected(deals: seq<Deal>, k: nat, d: Deal, position: string, kind: Option<EntryType>, amount: Deal -> real)
    requires k < |deals|
    ensures Total(deals[k := d], position, kind, amount)
            == Total(deals, position, kind, amount)
               - (if Counts(deals[k], position, kind) then amount(deals[k]) else 0.0)
               + (if Counts(d, position, kind) then amount(d) else 0.0)
  {
    if k == 0 {
      assert deals[k := d][1..] == deals[1..];
    } else {
      assert deals[k := d][1..] == deals[1..][k - 1 := d];
      TotalIsCorrected(deals[1..], k - 1, d, position, kind, amount);
    }
  }

  // ---------- the row ----------

  ghost predicate Has(deals: seq<Deal>, position: string, kind: EntryType) { exists d | d in deals :: Counts(d, position, Some(kind)) }

  /** The time of some counted deal, and no counted deal is later (earlier). */
  ghost predicate LatestIs(deals: seq<Deal>, position: string, kind: EntryType, t: int) {
    (exists d | d in deals :: Counts(d, position, Some(kind)) && d.time == t)
    && forall d | d in deals && Counts(d, position, Some(kind)) :: d.time <= t
  }

  ghost predicate EarliestIs(deals: seq<Deal>, position: string, kind: EntryType, t: int) {
    (exists d | d in deals :: Counts(d, position, Some(kind)) && d.time == t)
    && forall d | d in deals && Counts(d, position, Some(kind)) :: t <= d.time
  }

  /** The volume-weighted mean of the priced deals, if they have a volume. */
  ghost predicate PriceIs(deals: seq<Deal>, position: string, kind: EntryType, price: Option<real>) {
    var volume := Total(deals, position, Some(kind), PricedVolumeOf());
    if volume == 0.0 then price.None?
    else price.Some? && price.value * volume == Total(deals, position, Some(kind), ValueOf())
  }

  ghost predicate EntryIs(deals: seq<Deal>, position: string, before: Trade, t: Trade) {
    var entered := Total(deals, position, Some(In), VolumeOf());
    && t.entryVolume == (if entered == 0.0 then before.entryVolume else entered)
    && (if Has(deals, position, In) then PriceIs(deals, position, In, t.entryPrice) && EarliestIs(deals, position, In, t.entryTime)
        else t.entryPrice == before.entryPrice && t.entryTime == before.entryTime)
  }

  ghost predicate ExitIs(deals: seq<Deal>, position: string, t: Trade) {
    && t.closedVolume == Total(deals, position, Some(Out), VolumeOf())
    && PriceIs(deals, position, Out, t.exitPrice)
    && (if Has(deals, position, Out) then t.exitTime.Some? && LatestIs(deals, position, Out, t.exitTime.value) else t.exitTime.None?)
  }

  ghost predicate MoneyIs(deals: seq<Deal>, position: string, t: Trade) {
    && t.profit == Total(deals, position, None, (d: Deal) => d.profit)
    && t.commission == Total(deals, position, None, (d: Deal) => d.commission)
    && t.swap == Total(deals, position, None, (d: Deal) => d.swap)
  }

  /** What the row derives from its own columns. */
  predicate Derived(before: Trade, reason: Option<string>, t: Trade) {
    && t.strategy == before.strategy && t.side == before.side && t.orderId == before.orderId && t.riskUsd == before.riskUsd
    && (match (t.entryPrice, t.exitPrice)
        case (Some(entry), Some(exit)) => t.points == Some(if t.side.Buy? then exit - entry else entry - exit)
        case _ => t.points.None?)
    && (match t.riskUsd
        case Some(risk) => if risk == 0.0 then t.pnlR.None? else t.pnlR.Some? && t.pnlR.value * risk == t.profit
        case None => t.pnlR.None?)
    && t.duration == (if t.exitTime.Some? then Some(t.exitTime.value - t.entryTime) else None)
    && (t.closed <==> t.entryVolume > 0.0 && t.entryVolume - t.closedVolume <= 0.000000001)
    && t.closeReason == (if reason.None? then before.closeReason else reason)
  }

  ghost predicate RowTold(deals: seq<Deal>, position: string, before: Trade, reason: Option<string>, t: Trade) {
    EntryIs(deals, position, before, t) && ExitIs(deals, position, t) && MoneyIs(deals, position, t) && Derived(before, reason, t)
  }

  lemma WeightedPriceIs(deals: seq<Deal>, position: string, kind: EntryType)
    ensures PriceIs(deals, position, kind, WeightedPrice(deals, position, kind))
  {
    TotalIsSum((d: Deal) => if Selected(d, position, kind) && d.price.Some? then d.volume else 0.0, deals, position, Some(kind), PricedVolumeOf());
    TotalIsSum((d: Deal) => if Selected(d, position, kind) && d.price.Some? then d.price.value * d.volume else 0.0, deals, position, Some(kind), ValueOf());
    assert PricedVolume(deals, position, kind) == Total(deals, position, Some(kind), PricedVolumeOf());
    assert PricedValue(deals, position, kind) == Total(deals, position, Some(kind), ValueOf());
  }

  lemma ExtremesAre(deals: seq<Deal>, position: string, kind: EntryType)
    ensures HasDeal(deals, position, kind) <==> Has(deals, position, kind)
    ensures var first, last := ExtremeTime(deals, position, kind, 1), ExtremeTime(deals, position, kind, -1);
            && (first.Some? <==> Has(deals, position, kind)) && (last.Some? <==> Has(deals, position, kind))
            && (first.Some? ==> EarliestIs(deals, position, kind, first.value))
            && (last.Some? ==> LatestIs(deals, position, kind, last.value))
  {
    ExtremeTimeIsExtreme(deals, position, kind, 1);
    ExtremeTimeIsExtreme(deals, position, kind, -1);
    if d :| d in deals && Counts(d, position, Some(kind)) {
      var k :| 0 <= k < |deals| && deals[k] == d;
      assert Selected(deals[k], position, kind);
    }
  }

  lemma EntryIsTold(deals: seq<Deal>, position: string, current: Trade, reason: Option<string>)
    ensures EntryIs(deals, position, current, Aggregate(deals, position, current, reason))
  {
    hide SumOf, WeightedPrice, ExtremeTime, PriceIs, LatestIs, EarliestIs, Has, HasDeal, Volume;
    ExtremesAre(deals, position, In);
    WeightedPriceIs(deals, position, In);
    VolumesAre(deals, position);
  }

  lemma ExitIsTold(deals: seq<Deal>, position: string, current: Trade, reason: Option<string>)
    ensures ExitIs(deals, position, Aggregate(deals, position, current, reason))
  {
    hide SumOf, WeightedPrice, ExtremeTime, PriceIs, LatestIs, EarliestIs, Has, HasDeal, Volume;
    ExtremesAre(deals, position, Out);
    WeightedPriceIs(deals, position, Out);
    VolumesAre(deals, position);
  }

  lemma MoneyIsTold(deals: seq<Deal>, position: string, current: Trade, reason: Option<string>)
    ensures MoneyIs(deals, position, Aggregate(deals, position, current, reason))
  {
    hide SumOf, WeightedPrice, ExtremeTime, HasDeal, Volume;
    MoneyAdds(deals, position, PROFIT, (d: Deal) => d.profit);
    MoneyAdds(deals, position, COMMISSION, (d: Deal) => d.commission);
    MoneyAdds(deals, position, SWAP, (d: Deal) => d.swap);
  }

  lemma ColumnsAreDerived(deals: seq<Deal>, position: string, current: Trade, reason: Option<string>)
    ensures Derived(current, reason, Aggregate(deals, position, current, reason))
  {
    hide SumOf, WeightedPrice, ExtremeTime, HasDeal, Volume;
    if current.riskUsd.Some? && current.riskUsd.value != 0.0 {
      QuotientBack(SumOf(OfPosition(position, PROFIT), deals), current.riskUsd.value);
    }
  }

  /** The recomputed row is as told. */
  lemma AggregateIsTold(deals: seq<Deal>, position: string, current: Trade, reason: Option<string>)
    ensures RowTold(deals, position, current, reason, Aggregate(deals, position, current, reason))
  {
    hide Aggregate, EntryIs, ExitIs, MoneyIs, Derived;
    EntryIsTold(deals, position, current, reason);
    ExitIsTold(deals, position, current, reason);
    MoneyIsTold(deals, position, current, reason);
    ColumnsAreDerived(deals, position, current, reason);
  }

  lemma QuotientBack(x: real, d: real)
    requires d != 0.0
    ensures x / d * d == x
  {}

  lemma VolumesAre(deals: seq<Deal>, position: string)
    ensures Volume(deals, position, In) == Total(deals, position, Some(In), VolumeOf())
    ensures Volume(deals, position, Out) == Total(deals, position, Some(Out), VolumeOf())
  {
    TotalIsSum((d: Deal) => if Selected(d, position, In) then d.volume else 0.0, deals, position, Some(In), VolumeOf());
    TotalIsSum((d: Deal) => if Selected(d, position, Out) then d.volume else 0.0, deals, position, Some(Out), VolumeOf());
  }

  lemma MoneyAdds(deals: seq<Deal>, position: string, f: Deal -> real, amount: Deal -> real)
    requires forall d: Deal :: f(d) == amount(d)
    ensures SumOf(OfPosition(position, f), deals) == Total(deals, position, None, amount)
  {
    TotalIsSum(OfPosition(position, f), deals, position, None, amount);
  }

  /** A mean price lies between the prices it averages. */
  lemma PriceIsBetween(deals: seq<Deal>, position: string, kind: EntryType, price: Option<real>, lo: real, hi: real)
    requires PriceIs(deals, position, kind, price) && price.Some?
    requires forall d | d in deals && Counts(d, position, Some(kind)) && d.price.Some? :: d.volume >= 0.0 && lo <= d.price.value <= hi
    ensures lo <= price.value <= hi
  {
    var volume, value := Total(deals, position, Some(kind), PricedVolumeOf()), Total(deals, position, Some(kind), ValueOf());
    ValueWithin(deals, position, kind, lo, hi);
    CancelVolume(lo, price.value, volume);
    CancelVolume(price.value, hi, volume);
  }

  lemma CancelVolume(a: real, b: real, volume: real)
    requires volume > 0.0 && a * volume <= b * volume
    ensures a <= b
  {}

  lemma {:induction false} ValueWithin(deals: seq<Deal>, position: string, kind: EntryType, lo: real, hi: real)
    requires forall d | d in deals && Counts(d, position, Some(kind)) && d.price.Some? :: d.volume >= 0.0 && lo <= d.price.value <= hi
    ensures var volume, value := Total(deals, position, Some(kind), PricedVolumeOf()), Total(deals, position, Some(kind), ValueOf());
            volume >= 0.0 && lo * volume <= value <= hi * volume
    decreases |deals|
  {
    if |deals| > 0 {
      ValueWithin(deals[1..], position, kind, lo, hi);
      var d := deals[0];
      assert d in deals;
      if Counts(d, position, Some(kind)) && d.price.Some? {
        assert (d.price.value - lo) * d.volume >= 0.0 && (hi - d.price.value) * d.volume >= 0.0;
      }
    }
  }

  // ---------- the deal table ----------

  /** The last version of its deal in the batch. */
  ghost predicate LastVersion(batch: seq<Deal>, k: nat) {
    k < |batch| && forall j | k < j < |batch| :: batch[j].id != batch[k].id
  }

  predicate Named(batch: seq<Deal>, id: string) { exists k | 0 <= k < |batch| :: batch[k].id == id }

  /** The table holds the last version of every deal of the batch, and every other row it held before. */
  ghost predicate TableTold(before: seq<Deal>, batch: seq<Deal>, after: seq<Deal>) {
    && (forall d | d in before && !Named(batch, d.id) :: d in after)
    && (forall k: nat | LastVersion(batch, k) :: batch[k] in after)
    && (forall d | d in after :: (d in before && !Named(batch, d.id)) || exists k: nat :: LastVersion(batch, k) && batch[k] == d)
  }

  lemma UpsertOneIsTold(deals: seq<Deal>, d: Deal)
    requires UniqueIds(deals)
    ensures var r := UpsertDeal(deals, d);
            d in r && (forall x | x in deals && x.id != d.id :: x in r) && forall x | x in r :: x == d || (x in deals && x.id != d.id)
  {
    var r := UpsertDeal(deals, d);
    match FindDeal(deals, d.id, 0) {
      case Some(k) =>
        assert r[k] == d;
        forall x | x in deals && x.id != d.id
          ensures x in r
        {
          var i :| 0 <= i < |deals| && deals[i] == x;
          assert r[i] == x;
        }
      case None =>
        assert r[|deals|] == d;
    }
  }

  lemma {:induction false} UpsertIsTold(deals: seq<Deal>, batch: seq<Deal>)
    requires UniqueIds(deals)
    ensures TableTold(deals, batch, UpsertDeals(deals, batch))
  {
    hide UpsertDeal, UniqueIds;
    if |batch| > 0 {
      var front, d := batch[..|batch| - 1], batch[|batch| - 1];
      UpsertIsTold(deals, front);
      UpsertKeepsIdsUnique(deals, front);
      var mid := UpsertDeals(deals, front);
      UpsertOneIsTold(mid, d);
      OneMoreVersion(batch);
    }
  }

  lemma OneMoreVersion(batch: seq<Deal>)
    requires |batch| > 0
    ensures var front, d := batch[..|batch| - 1], batch[|batch| - 1];
            && (forall id :: Named(batch, id) <==> Named(front, id) || id == d.id)
            && LastVersion(batch, |batch| - 1)
            && (forall k: nat | k < |front| :: LastVersion(batch, k) <==> LastVersion(front, k) && front[k].id != d.id)
  {
    var front, d := batch[..|batch| - 1], batch[|batch| - 1];
    forall id
      ensures Named(batch, id) <==> Named(front, id) || id == d.id
    {
      if k :| 0 <= k < |front| && front[k].id == id {
        assert batch[k].id == id;
      }
    }
  }

  /** A recovery leaves the deals of its batch in the table under the position, and the position's row as
      the table tells it; no other row changes. */
  lemma RecoverIsTold(l: LedgerState, position: string, batch: Batch)
    requires position in l.trades && UniqueIds(l.deals)
    ensures var r := Recover(l, position, batch);
            && TableTold(l.deals, AttachedTo(position, batch.deals), r.deals)
            && r.trades.Keys == l.trades.Keys && (forall p | p in l.trades && p != position :: r.trades[p] == l.trades[p])
            && RowTold(r.deals, position, l.trades[position], batch.reason, r.trades[position])
  {
    hide UpsertDeals, Aggregate, RowTold;
    UpsertIsTold(l.deals, AttachedTo(position, batch.deals));
    AggregateIsTold(UpsertDeals(l.deals, AttachedTo(position, batch.deals)), position, l.trades[position], batch.reason);
  }

  /** Opening an unknown position writes its row, not closed and without results, and its entry deal if the
      broker named one; a known position is left alone. */
  lemma OpenIsTold(l: LedgerState, p: OpenPayload)
    requires UniqueIds(l.deals)
    ensures var r := Open(l, p);
            && (p.position in l.trades ==> r == l)
            && (p.position !in l.trades ==>
                  && r.trades.Keys == l.trades.Keys + {p.position} && (forall q | q in l.trades :: r.trades[q] == l.trades[q])
                  && JustOpened(p, r.trades[p.position]) && TableTold(l.deals, EntryRow(p), r.deals))
  {
    hide UpsertDeal, TableTold;
    var entry := EntryRow(p);
    UpsertIsTold(l.deals, entry);
    if p.dealId.Some? {
      assert entry[..0] == [];
      assert UpsertDeals(l.deals, entry[..0]) == l.deals;
    } else {
      assert UpsertDeals(l.deals, entry) == l.deals;
    }
  }

  /** A row as it is opened: not closed, without results. */
  predicate JustOpened(p: OpenPayload, t: Trade) {
    && t.strategy == p.strategy && t.side == p.side && t.orderId == p.orderId && t.riskUsd == p.riskUsd
    && t.entryVolume == p.entryVolume && t.entryPrice == p.entryPrice && t.entryTime == p.entryTime
    && t.closedVolume == t.commission == t.swap == t.profit == 0.0 && !t.closed && t.closeReason.None?
    && t.exitPrice.None? && t.exitTime.None? && t.points.None? && t.pnlR.None? && t.duration.None?
  }

  /** The entry deal that an open row brings along, without costs. */
  function EntryRow(p: OpenPayload): seq<Deal> {
    match p.dealId
    case Some(id) =>
      [Deal(id := id, position := p.position, kind := In, time := p.entryTime, volume := p.entryVolume, price := p.entryPrice,
            commission := 0.0, swap := 0.0, profit := 0.0)]
    case None => []
  }
}
