/** Confluence on the whole ledger: recoveries of one position, whatever recoveries of other positions
    lie between them, end in the same trade. */
module LedgerConfluence {
  import opened Options
  import opened Ledger
  import opened Confluence

  // ---------- the part of the deal table with given ids ----------

  function Restrict(deals: seq<Deal>, ids: set<string>): seq<Deal> {
    if |deals| == 0 then []
    else
      var rest, last := Restrict(deals[..|deals| - 1], ids), deals[|deals| - 1];
      if last.id in ids then rest + [last] else rest
  }

  lemma {:induction false} RestrictConcat(a: seq<Deal>, b: seq<Deal>, ids: set<string>)
    ensures Restrict(a + b, ids) == Restrict(a, ids) + Restrict(b, ids)
  {
    if |b| == 0 {
      assert a + b == a;
    } else {
      assert (a + b)[..|a + b| - 1] == a + b[..|b| - 1];
      RestrictConcat(a, b[..|b| - 1], ids);
    }
  }

  lemma RestrictOne(d: Deal, ids: set<string>)
    ensures Restrict([d], ids) == if d.id in ids then [d] else []
  {
    assert [d][..0] == [];
    assert Restrict([d][..0], ids) == [];
  }

  lemma {:induction false} RestrictedRows(deals: seq<Deal>, ids: set<string>)
    ensures forall d | d in Restrict(deals, ids) :: d in deals && d.id in ids
    ensures forall d | d in deals && d.id in ids :: d in Restrict(deals, ids)
  {
    if |deals| > 0 {
      assert deals == deals[..|deals| - 1] + [deals[|deals| - 1]];
      RestrictedRows(deals[..|deals| - 1], ids);
    }
  }

  lemma {:induction false} RestrictKeepsIdsUnique(deals: seq<Deal>, ids: set<string>)
    requires UniqueIds(deals)
    ensures UniqueIds(Restrict(deals, ids))
  {
    if |deals| > 0 {
      var front, last := deals[..|deals| - 1], deals[|deals| - 1];
      RestrictKeepsIdsUnique(front, ids);
      RestrictedRows(front, ids);
      var r := Restrict(front, ids);
      forall k | 0 <= k < |r|
        ensures r[k].id != last.id
      {
        assert r[k] in front;
      }
    }
  }

  // ---------- upserts and the restricted table ----------

  lemma {:induction false} FindDealIs(deals: seq<Deal>, id: string, k: nat, from: nat)
    requires from <= k < |deals| && deals[k].id == id && forall j | from <= j < k :: deals[j].id != id
    ensures FindDeal(deals, id, from) == Some(k)
    decreases k - from
  {
    if from < k {
      FindDealIs(deals, id, k, from + 1);
    }
  }

  /** Restricting splits around a row. */
  lemma RestrictAround(deals: seq<Deal>, k: nat, x: Deal, ids: set<string>)
    requires k < |deals|
    ensures Restrict(deals[k := x], ids)
            == Restrict(deals[..k], ids) + (if x.id in ids then [x] else []) + Restrict(deals[k + 1..], ids)
  {
    assert deals[k := x] == deals[..k] + [x] + deals[k + 1..];
    RestrictConcat(deals[..k] + [x], deals[k + 1..], ids);
    RestrictConcat(deals[..k], [x], ids);
    RestrictOne(x, ids);
  }

  /** The replaced row sits in the restricted table after the kept rows before it. */
  lemma ReplaceRestricted(deals: seq<Deal>, k: nat, d: Deal, ids: set<string>)
    requires UniqueIds(deals) && k < |deals| && deals[k].id == d.id
    ensures Restrict(deals[k := d], ids)
            == if d.id in ids then UpsertDeal(Restrict(deals, ids), d) else Restrict(deals, ids)
  {
    hide Restrict;
    var a, b, own := Restrict(deals[..k], ids), Restrict(deals[k + 1..], ids), Restrict(deals, ids);
    RestrictAround(deals, k, d, ids);
    RestrictAround(deals, k, deals[k], ids);
    assert deals[k := deals[k]] == deals;
    if d.id in ids {
      assert own == a + [deals[k]] + b;
      RestrictedRows(deals[..k], ids);
      forall j | 0 <= j < |a|
        ensures own[j].id != d.id
      {
        assert own[j] == a[j] && a[j] in deals[..k];
      }
      FindDealIs(own, d.id, |a|, 0);
      assert own[|a| := d] == a + [d] + b;
    }
  }

  lemma AppendRestricted(deals: seq<Deal>, d: Deal, ids: set<string>)
    requires forall k | 0 <= k < |deals| :: deals[k].id != d.id
    ensures Restrict(deals + [d], ids)
            == if d.id in ids then UpsertDeal(Restrict(deals, ids), d) else Restrict(deals, ids)
  {
    hide Restrict;
    var own := Restrict(deals, ids);
    RestrictedRows(deals, ids);
    RestrictConcat(deals, [d], ids);
    RestrictOne(d, ids);
    forall j | 0 <= j < |own|
      ensures own[j].id != d.id
    {
      assert own[j] in deals;
    }
  }

  /** An upsert of a foreign id leaves the restricted table alone; one of an own id is made in it. */
  lemma UpsertRestricted(deals: seq<Deal>, d: Deal, ids: set<string>)
    requires UniqueIds(deals)
    ensures Restrict(UpsertDeal(deals, d), ids)
            == if d.id in ids then UpsertDeal(Restrict(deals, ids), d) else Restrict(deals, ids)
  {
    hide Restrict;
    match FindDeal(deals, d.id, 0) {
      case Some(k) => ReplaceRestricted(deals, k, d, ids);
      case None => AppendRestricted(deals, d, ids);
    }
  }

  ghost predicate AllWithin(batch: seq<Deal>, ids: set<string>) { forall k | 0 <= k < |batch| :: batch[k].id in ids }

  ghost predicate NoneWithin(batch: seq<Deal>, ids: set<string>) { forall k | 0 <= k < |batch| :: batch[k].id !in ids }

  lemma {:induction false} UpsertsRestricted(deals: seq<Deal>, batch: seq<Deal>, ids: set<string>)
    requires UniqueIds(deals)
    ensures AllWithin(batch, ids) ==> Restrict(UpsertDeals(deals, batch), ids) == UpsertDeals(Restrict(deals, ids), batch)
    ensures NoneWithin(batch, ids) ==> Restrict(UpsertDeals(deals, batch), ids) == Restrict(deals, ids)
  {
    hide UpsertDeal, Restrict;
    if |batch| > 0 {
      var front, last := batch[..|batch| - 1], batch[|batch| - 1];
      UpsertsRestricted(deals, front, ids);
      UpsertKeepsIdsUnique(deals, front);
      UpsertRestricted(UpsertDeals(deals, front), last, ids);
    }
  }

  // ---------- aggregation sees only the position's rows ----------

  /** Rows outside the ids belong to other positions. */
  ghost predicate OwnRowsWithin(deals: seq<Deal>, position: string, ids: set<string>) {
    forall k | 0 <= k < |deals| && deals[k].position == position :: deals[k].id in ids
  }

  lemma {:induction false} SumRestricted(f: Deal -> real, deals: seq<Deal>, position: string, ids: set<string>)
    requires OwnRowsWithin(deals, position, ids) && forall d: Deal | d.position != position :: f(d) == 0.0
    ensures SumOf(f, Restrict(deals, ids)) == SumOf(f, deals)
  {
    if |deals| > 0 {
      SumRestricted(f, deals[..|deals| - 1], position, ids);
    }
  }

  lemma {:induction false} TimesRestricted(deals: seq<Deal>, position: string, kind: EntryType, sign: int, ids: set<string>)
    requires OwnRowsWithin(deals, position, ids)
    ensures ExtremeTime(Restrict(deals, ids), position, kind, sign) == ExtremeTime(deals, position, kind, sign)
  {
    if |deals| > 0 {
      TimesRestricted(deals[..|deals| - 1], position, kind, sign, ids);
    }
  }

  lemma HasDealRestricted(deals: seq<Deal>, position: string, kind: EntryType, ids: set<string>)
    requires OwnRowsWithin(deals, position, ids)
    ensures HasDeal(Restrict(deals, ids), position, kind) == HasDeal(deals, position, kind)
  {
    RestrictedRows(deals, ids);
    var own := Restrict(deals, ids);
    if HasDeal(deals, position, kind) {
      var k :| 0 <= k < |deals| && Selected(deals[k], position, kind);
      assert deals[k] in own;
    }
    if HasDeal(own, position, kind) {
      var k :| 0 <= k < |own| && Selected(own[k], position, kind);
      assert own[k] in deals;
    }
  }

  lemma AggregateRestricted(deals: seq<Deal>, position: string, current: Trade, reason: Option<string>, ids: set<string>)
    requires OwnRowsWithin(deals, position, ids)
    ensures Aggregate(Restrict(deals, ids), position, current, reason) == Aggregate(deals, position, current, reason)
  {
    hide SumOf, ExtremeTime, HasDeal, Restrict, OwnRowsWithin;
    SumRestricted((d: Deal) => if Selected(d, position, In) then d.volume else 0.0, deals, position, ids);
    SumRestricted((d: Deal) => if Selected(d, position, Out) then d.volume else 0.0, deals, position, ids);
    PriceRestricted(deals, position, In, ids);
    PriceRestricted(deals, position, Out, ids);
    SumRestricted(OfPosition(position, PROFIT), deals, position, ids);
    SumRestricted(OfPosition(position, COMMISSION), deals, position, ids);
    SumRestricted(OfPosition(position, SWAP), deals, position, ids);
    HasDealRestricted(deals, position, In, ids);
    TimesRestricted(deals, position, In, 1, ids);
    TimesRestricted(deals, position, Out, -1, ids);
  }

  lemma PriceRestricted(deals: seq<Deal>, position: string, kind: EntryType, ids: set<string>)
    requires OwnRowsWithin(deals, position, ids)
    ensures WeightedPrice(Restrict(deals, ids), position, kind) == WeightedPrice(deals, position, kind)
  {
    SumRestricted((d: Deal) => if Selected(d, position, kind) && d.price.Some? then d.volume else 0.0, deals, position, ids);
    SumRestricted((d: Deal) => if Selected(d, position, kind) && d.price.Some? then d.price.value * d.volume else 0.0, deals, position, ids);
  }

  // ---------- interleaved recoveries ----------

  datatype Delivery = Delivery(position: string, batch: Batch)

  /** Recovery transactions one after another; a refused one leaves the ledger as it was. */
  function Deliver(l: LedgerState, ds: seq<Delivery>): LedgerState {
    if |ds| == 0 then l
    else
      var before, d := Deliver(l, ds[..|ds| - 1]), ds[|ds| - 1];
      if d.position in before.trades && Admissible(d.batch.deals) then Recover(before, d.position, d.batch) else before
  }

  function BatchesFor(ds: seq<Delivery>, position: string): seq<Batch> {
    if |ds| == 0 then []
    else
      var rest, d := BatchesFor(ds[..|ds| - 1], position), ds[|ds| - 1];
      if d.position == position then rest + [d.batch] else rest
  }

  /** The position's deliveries use the ids, and are admissible; those of other positions use none of them. */
  ghost predicate Apart(ds: seq<Delivery>, position: string, ids: set<string>) {
    forall i | 0 <= i < |ds| ::
      if ds[i].position == position then AllWithin(ds[i].batch.deals, ids) && Admissible(ds[i].batch.deals)
      else NoneWithin(ds[i].batch.deals, ids)
  }

  /** The position's part of a ledger. */
  function PartOf(l: LedgerState, position: string, ids: set<string>): Recovery
    requires position in l.trades
  {
    Recovery(Restrict(l.deals, ids), l.trades[position])
  }

  lemma {:induction false} UpsertsKeepOwnRows(deals: seq<Deal>, batch: seq<Deal>, position: string, ids: set<string>)
    requires OwnRowsWithin(deals, position, ids)
    requires forall k | 0 <= k < |batch| && batch[k].position == position :: batch[k].id in ids
    ensures OwnRowsWithin(UpsertDeals(deals, batch), position, ids)
  {
    if |batch| > 0 {
      UpsertsKeepOwnRows(deals, batch[..|batch| - 1], position, ids);
    }
  }

  /** A recovery of the position does to its part exactly what one step of the private sequence does. */
  lemma OwnRecovery(l: LedgerState, position: string, batch: Batch, ids: set<string>)
    requires position in l.trades && UniqueIds(l.deals) && OwnRowsWithin(l.deals, position, ids) && AllWithin(batch.deals, ids)
    ensures var r := Recover(l, position, batch);
            && PartOf(r, position, ids) == Recovered(PartOf(l, position, ids), position, [batch])
            && OwnRowsWithin(r.deals, position, ids)
  {
    hide UpsertDeals, Aggregate, Restrict, OwnRowsWithin;
    var rows := AttachedTo(position, batch.deals);
    var deals := UpsertDeals(l.deals, rows);
    UpsertsRestricted(l.deals, rows, ids);
    UpsertsKeepOwnRows(l.deals, rows, position, ids);
    AggregateRestricted(deals, position, l.trades[position], batch.reason, ids);
    RecoverIsOneStep(LedgerState(Restrict(l.deals, ids), l.trades), position, batch);
  }

  lemma OtherRecovery(l: LedgerState, position: string, other: string, batch: Batch, ids: set<string>)
    requires position in l.trades && other in l.trades && other != position
    requires UniqueIds(l.deals) && OwnRowsWithin(l.deals, position, ids) && NoneWithin(batch.deals, ids)
    ensures var r := Recover(l, other, batch);
            && PartOf(r, position, ids) == PartOf(l, position, ids)
            && OwnRowsWithin(r.deals, position, ids)
  {
    hide UpsertDeals, Aggregate, Restrict, OwnRowsWithin;
    var rows := AttachedTo(other, batch.deals);
    UpsertsRestricted(l.deals, rows, ids);
    UpsertsKeepOwnRows(l.deals, rows, position, ids);
  }

  /** What the whole ledger holds of a position after any interleaving is the private sequence of that
      position's batches. */
  lemma {:induction false} InterleavingProjects(l: LedgerState, position: string, ds: seq<Delivery>, ids: set<string>)
    requires position in l.trades && UniqueIds(l.deals) && OwnRowsWithin(l.deals, position, ids) && Apart(ds, position, ids)
    ensures var r := Deliver(l, ds);
            && position in r.trades && UniqueIds(r.deals) && OwnRowsWithin(r.deals, position, ids)
            && PartOf(r, position, ids) == Recovered(PartOf(l, position, ids), position, BatchesFor(ds, position))
  {
    hide OwnRowsWithin, UpsertDeals, Aggregate, AllWithin, NoneWithin, Admissible, UniqueIds, Restrict, Recovered;
    NoBatches(PartOf(l, position, ids), position);
    if |ds| > 0 {
      var front, d := ds[..|ds| - 1], ds[|ds| - 1];
      InterleavingProjects(l, position, front, ids);
      var before := Deliver(l, front);
      UpsertKeepsIdsUnique(before.deals, AttachedTo(d.position, d.batch.deals));
      if d.position == position {
        OwnRecovery(before, position, d.batch, ids);
        OneMoreBatch(PartOf(l, position, ids), position, BatchesFor(front, position), d.batch);
      } else if d.position in before.trades && Admissible(d.batch.deals) {
        OtherRecovery(before, position, d.position, d.batch, ids);
      }
    }
  }

  lemma NoBatches(start: Recovery, position: string)
    ensures Recovered(start, position, []) == start
  {}

  lemma OneMoreBatch(start: Recovery, position: string, batches: seq<Batch>, last: Batch)
    ensures Recovered(start, position, batches + [last]) == Recovered(Recovered(start, position, batches), position, [last])
  {
    assert (batches + [last])[..|batches|] == batches && [last][..0] == [];
  }

  // ---------- confluence of the ledger ----------

  function MapOf(deals: seq<Deal>): map<string, Deal> {
    if |deals| == 0 then map[] else MapOf(deals[..|deals| - 1])[deals[|deals| - 1].id := deals[|deals| - 1]]
  }

  lemma {:induction false} TableHoldsItsMap(deals: seq<Deal>)
    requires UniqueIds(deals)
    ensures Holds(deals, MapOf(deals))
  {
    if |deals| > 0 {
      var front, last := deals[..|deals| - 1], deals[|deals| - 1];
      TableHoldsItsMap(front);
      UpsertUpdatesMap(front, MapOf(front), last);
      assert FindDeal(front, last.id, 0).None?;
      assert deals == front + [last];
    }
  }

  /** Confluence of the ledger: from one ledger with the position's trade open, two interleavings of
      recovery transactions that deliver the same deals for the position, in any order, batching or
      repetition, and whatever they deliver for other positions under other ids, end with the same
      trade fields. */
  lemma LedgerRecoveryIsConfluent(
      l: LedgerState, position: string, d: map<string, Deal>, ids: set<string>, xs: seq<Delivery>, ys: seq<Delivery>)
    requires position in l.trades && UniqueIds(l.deals) && OwnRowsWithin(l.deals, position, ids)
    requires Apart(xs, position, ids) && Apart(ys, position, ids)
    requires Deliverable(MapOf(Restrict(l.deals, ids)), d, position)
    requires |BatchesFor(xs, position)| > 0 && Delivers(BatchesFor(xs, position), d)
    requires |BatchesFor(ys, position)| > 0 && Delivers(BatchesFor(ys, position), d)
    ensures position in Deliver(l, xs).trades && position in Deliver(l, ys).trades
    ensures SameFields(Deliver(l, xs).trades[position], Deliver(l, ys).trades[position])
  {
    hide Deliver, Holds, Deliverable, Delivers, Restrict, Apart, Recovered, OwnRowsWithin;
    RestrictKeepsIdsUnique(l.deals, ids);
    TableHoldsItsMap(Restrict(l.deals, ids));
    InterleavingProjects(l, position, xs, ids);
    InterleavingProjects(l, position, ys, ids);
    RecoveryIsConfluent(PartOf(l, position, ids), MapOf(Restrict(l.deals, ids)), d, position,
                        BatchesFor(xs, position), BatchesFor(ys, position));
  }
}
