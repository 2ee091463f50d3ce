/** Recovery upserts are confluent: the ledger's final fields depend on which deals were delivered,
    not on order, batching or repetition. */
module Confluence {
  import opened Options
  import opened Ledger

  // ---------- sums over permuted tables ----------

  lemma {:induction false} SumOfConcat(f: Deal -> real, a: seq<Deal>, b: seq<Deal>)
    ensures SumOf(f, a + b) == SumOf(f, a) + SumOf(f, b)
  {
    if |b| == 0 {
      assert a + b == a;
    } else {
      assert (a + b)[..|a + b| - 1] == a + b[..|b| - 1];
      SumOfConcat(f, a, b[..|b| - 1]);
    }
  }

  lemma SumOfOne(f: Deal -> real, d: Deal)
    ensures SumOf(f, [d]) == f(d)
  {
    assert [d][..0] == [];
    assert SumOf(f, [d]) == SumOf(f, [d][..0]) + f(d);
  }

  lemma {:induction false} SumOfSplit(f: Deal -> real, a: seq<Deal>, k: nat)
    requires k < |a|
    ensures SumOf(f, a) == SumOf(f, a[..k] + a[k + 1..]) + f(a[k])
  {
    hide SumOf;
    var front, mid, back := a[..k], [a[k]], a[k + 1..];
    assert a == (front + mid) + back;
    SumOfConcat(f, front + mid, back);
    SumOfConcat(f, front, mid);
    SumOfConcat(f, front, back);
    SumOfOne(f, a[k]);
  }

  lemma RemoveOne(b: seq<Deal>, k: nat)
    requires k < |b|
    ensures multiset(b) == multiset(b[..k] + b[k + 1..]) + multiset{b[k]}
  {
    assert b == b[..k] + [b[k]] + b[k + 1..];
  }

  lemma {:induction false} SumOfPermutation(f: Deal -> real, a: seq<Deal>, b: seq<Deal>)
    requires multiset(a) == multiset(b)
    ensures SumOf(f, a) == SumOf(f, b)
    decreases |a|
  {
    if |a| == 0 {
      assert |multiset(b)| == 0;
    } else {
      var last := |a| - 1;
      assert a[last] in multiset(b);
      var k :| 0 <= k < |b| && b[k] == a[last];
      RemoveOne(a, last);
      RemoveOne(b, k);
      var rest := b[..k] + b[k + 1..];
      assert a[..last] + a[last + 1..] == a[..last];
      assert multiset(a[..last]) == multiset(a) - multiset{a[last]};
      assert multiset(rest) == multiset(b) - multiset{b[k]};
      SumOfPermutation(f, a[..last], rest);
      SumOfSplit(f, b, k);
    }
  }

  // ---------- a table as a map ----------

  /** The table holds exactly the rows of m, one per id. */
  ghost predicate Holds(deals: seq<Deal>, m: map<string, Deal>) {
    && UniqueIds(deals)
    && (forall k | 0 <= k < |deals| :: deals[k].id in m && m[deals[k].id] == deals[k])
    && (forall id | id in m :: m[id].id == id && m[id] in deals)
  }

  lemma {:induction false} UniqueRowsCountOnce(deals: seq<Deal>, d: Deal)
    requires UniqueIds(deals)
    ensures multiset(deals)[d] == if d in deals then 1 else 0
  {
    if |deals| > 0 {
      var last := |deals| - 1;
      assert deals == deals[..last] + [deals[last]];
      UniqueRowsCountOnce(deals[..last], d);
    }
  }

  /** Two tables with the same map are permutations of each other. */
  lemma SameMapSameRows(a: seq<Deal>, b: seq<Deal>, m: map<string, Deal>)
    requires Holds(a, m) && Holds(b, m)
    ensures multiset(a) == multiset(b)
  {
    forall d: Deal
      ensures multiset(a)[d] == multiset(b)[d]
    {
      UniqueRowsCountOnce(a, d);
      UniqueRowsCountOnce(b, d);
    }
  }

  lemma UpsertUpdatesMap(deals: seq<Deal>, m: map<string, Deal>, d: Deal)
    requires Holds(deals, m)
    ensures Holds(UpsertDeal(deals, d), m[d.id := d])
  {
    var r := UpsertDeal(deals, d);
    var n := m[d.id := d];
    forall id | id in n
      ensures n[id].id == id && n[id] in r
    {
      if id != d.id {
        var k :| 0 <= k < |deals| && deals[k] == m[id];
        assert r[k] == deals[k];
      } else {
        match FindDeal(deals, d.id, 0) {
          case Some(k) => assert r[k] == d;
          case None => assert r[|deals|] == d;
        }
      }
    }
  }

  // ---------- times over permuted tables ----------

  /** The extreme time is attained by a selected row and bounds them all. */
  lemma {:induction false} ExtremeTimeIsExtreme(deals: seq<Deal>, position: string, kind: EntryType, sign: int)
    requires sign == 1 || sign == -1
    ensures var t := ExtremeTime(deals, position, kind, sign);
            && (t.None? <==> !HasDeal(deals, position, kind))
            && (t.Some? ==>
                  && (forall k | 0 <= k < |deals| && Selected(deals[k], position, kind) :: sign * t.value <= sign * deals[k].time)
                  && (exists k | 0 <= k < |deals| :: Selected(deals[k], position, kind) && deals[k].time == t.value))
  {
    if |deals| > 0 {
      var front, last := deals[..|deals| - 1], |deals| - 1;
      ExtremeTimeIsExtreme(front, position, kind, sign);
      var t := ExtremeTime(deals, position, kind, sign);
      if Selected(deals[last], position, kind) {
        assert HasDeal(deals, position, kind);
      }
      if HasDeal(front, position, kind) {
        var k :| 0 <= k < |front| && Selected(front[k], position, kind)
                 && front[k].time == ExtremeTime(front, position, kind, sign).value;
        assert Selected(deals[k], position, kind);
      }
    }
  }

  lemma SameRows(a: seq<Deal>, b: seq<Deal>, k: nat) returns (j: nat)
    requires multiset(a) == multiset(b) && k < |a|
    ensures j < |b| && b[j] == a[k]
  {
    assert a[k] in multiset(a);
    assert a[k] in multiset(b);
    j :| 0 <= j < |b| && b[j] == a[k];
  }

  /** One table's extreme is no further out than the other's. */
  lemma ExtremeWithin(a: seq<Deal>, b: seq<Deal>, position: string, kind: EntryType, sign: int)
    requires multiset(a) == multiset(b) && (sign == 1 || sign == -1) && HasDeal(a, position, kind)
    ensures HasDeal(b, position, kind)
    ensures var s, t := ExtremeTime(a, position, kind, sign), ExtremeTime(b, position, kind, sign);
            s.Some? && t.Some? && sign * t.value <= sign * s.value
  {
    hide ExtremeTime;
    ExtremeTimeIsExtreme(a, position, kind, sign);
    var k :| 0 <= k < |a| && Selected(a[k], position, kind) && a[k].time == ExtremeTime(a, position, kind, sign).value;
    var j := SameRows(a, b, k);
    assert Selected(b[j], position, kind);
    ExtremeTimeIsExtreme(b, position, kind, sign);
  }

  lemma SameRowsSameTimes(a: seq<Deal>, b: seq<Deal>, position: string, kind: EntryType, sign: int)
    requires multiset(a) == multiset(b) && (sign == 1 || sign == -1)
    ensures HasDeal(a, position, kind) == HasDeal(b, position, kind)
    ensures ExtremeTime(a, position, kind, sign) == ExtremeTime(b, position, kind, sign)
  {
    hide ExtremeTime, HasDeal;
    ExtremeTimeIsExtreme(a, position, kind, sign);
    ExtremeTimeIsExtreme(b, position, kind, sign);
    if HasDeal(a, position, kind) {
      ExtremeWithin(a, b, position, kind, sign);
    }
    if HasDeal(b, position, kind) {
      ExtremeWithin(b, a, position, kind, sign);
    }
  }

  // ---------- aggregation depends on the rows only ----------

  lemma AggregateOfPermutation(a: seq<Deal>, b: seq<Deal>, position: string, current: Trade, reason: Option<string>)
    requires multiset(a) == multiset(b)
    ensures Aggregate(a, position, current, reason) == Aggregate(b, position, current, reason)
  {
    SumOfPermutation((d: Deal) => if Selected(d, position, In) then d.volume else 0.0, a, b);
    SumOfPermutation((d: Deal) => if Selected(d, position, Out) then d.volume else 0.0, a, b);
    WeightedPriceOfPermutation(a, b, position, In);
    WeightedPriceOfPermutation(a, b, position, Out);
    SumOfPermutation(OfPosition(position, PROFIT), a, b);
    SumOfPermutation(OfPosition(position, COMMISSION), a, b);
    SumOfPermutation(OfPosition(position, SWAP), a, b);
    SameRowsSameTimes(a, b, position, In, 1);
    SameRowsSameTimes(a, b, position, Out, -1);
  }

  lemma WeightedPriceOfPermutation(a: seq<Deal>, b: seq<Deal>, position: string, kind: EntryType)
    requires multiset(a) == multiset(b)
    ensures WeightedPrice(a, position, kind) == WeightedPrice(b, position, kind)
  {
    SumOfPermutation((d: Deal) => if Selected(d, position, kind) && d.price.Some? then d.volume else 0.0, a, b);
    SumOfPermutation((d: Deal) => if Selected(d, position, kind) && d.price.Some? then d.price.value * d.volume else 0.0, a, b);
  }

  // ---------- re-aggregation forgets the intermediate rows ----------

  /** Equal up to the close reason, where the last non-null delivery wins. */
  predicate SameFields(x: Trade, y: Trade) { x == y.(closeReason := x.closeReason) }

  ghost predicate NonNegative(deals: seq<Deal>) { forall k | 0 <= k < |deals| :: deals[k].volume >= 0.0 }

  predicate Weighs(d: Deal, position: string) { Selected(d, position, In) && d.volume > 0.0 }

  lemma {:induction false} EnteredVolumeIsPositive(deals: seq<Deal>, position: string)
    requires NonNegative(deals)
    ensures Volume(deals, position, In) >= 0.0
    ensures Volume(deals, position, In) != 0.0 <==> exists k | 0 <= k < |deals| :: Weighs(deals[k], position)
  {
    if |deals| > 0 {
      var front, last := deals[..|deals| - 1], |deals| - 1;
      EnteredVolumeIsPositive(front, position);
      if Volume(front, position, In) != 0.0 {
        var k :| 0 <= k < |front| && Weighs(front[k], position);
        assert Weighs(deals[k], position);
      }
      assert Weighs(deals[last], position) ==> Volume(deals, position, In) > 0.0;
    }
  }

  /** Later tables keep what earlier aggregations relied on: an entry deal stays one, and keeps weight. */
  ghost predicate KeepsEntries(earlier: seq<Deal>, later: seq<Deal>, position: string) {
    && (HasDeal(earlier, position, In) ==> HasDeal(later, position, In))
    && ((exists k | 0 <= k < |earlier| :: Weighs(earlier[k], position)) ==>
          exists k | 0 <= k < |later| :: Weighs(later[k], position))
  }

  lemma ReaggregationForgets(
      earlier: seq<Deal>, later: seq<Deal>, position: string, base: Trade, current: Trade, r1: Option<string>, r2: Option<string>)
    requires NonNegative(earlier) && NonNegative(later) && KeepsEntries(earlier, later, position)
    requires SameFields(current, Aggregate(earlier, position, base, r1))
    ensures SameFields(Aggregate(later, position, current, r2), Aggregate(later, position, base, r2))
  {
    hide SumOf, WeightedPrice, HasDeal, ExtremeTime, Volume;
    EnteredVolumeIsPositive(earlier, position);
    EnteredVolumeIsPositive(later, position);
    ExtremeTimeIsExtreme(earlier, position, In, 1);
    ExtremeTimeIsExtreme(later, position, In, 1);
  }

  // ---------- sequences of recoveries ----------

  /** One position's part of the ledger after a sequence of recovery batches. */
  datatype Recovery = Recovery(deals: seq<Deal>, trade: Trade)

  function Recovered(start: Recovery, position: string, batches: seq<Batch>): Recovery {
    if |batches| == 0 then start
    else
      var before := Recovered(start, position, batches[..|batches| - 1]);
      var last := batches[|batches| - 1];
      var deals := UpsertDeals(before.deals, AttachedTo(position, last.deals));
      Recovery(deals, Aggregate(deals, position, before.trade, last.reason))
  }

  /** The ledger transaction does to this position exactly what one step of the sequence does. */
  lemma RecoverIsOneStep(l: LedgerState, position: string, batch: Batch)
    requires position in l.trades
    ensures var r := Recover(l, position, batch);
            Recovered(Recovery(l.deals, l.trades[position]), position, [batch]) == Recovery(r.deals, r.trades[position])
            && forall other | other in l.trades && other != position :: r.trades[other] == l.trades[other]
  {
    assert [batch][..0] == [];
  }

  /** Every delivered deal comes from d; the broker never reports two versions of one id. */
  ghost predicate Consistent(batches: seq<Batch>, d: map<string, Deal>) {
    forall i, k | 0 <= i < |batches| && 0 <= k < |batches[i].deals| ::
      batches[i].deals[k].id in d && d[batches[i].deals[k].id] == batches[i].deals[k]
  }

  /** ... and all of d is delivered. */
  ghost predicate Delivers(batches: seq<Batch>, d: map<string, Deal>) {
    && Consistent(batches, d)
    && forall id | id in d :: exists i, k :: 0 <= i < |batches| && 0 <= k < |batches[i].deals| && batches[i].deals[k].id == id
  }

  /** The ids of d are their deals' ids, volumes pass the table check, and redelivering an entry deal
      that the opening row already holds leaves it an entry deal with weight. */
  ghost predicate Deliverable(start: map<string, Deal>, d: map<string, Deal>, position: string) {
    && (forall id | id in d :: d[id].id == id && d[id].volume >= 0.0)
    && (forall id | id in start :: start[id].volume >= 0.0)
    && (forall id | id in start && id in d && Selected(start[id], position, In) ::
          d[id].kind.In? && (start[id].volume > 0.0 ==> d[id].volume > 0.0))
  }

  function IdsOf(batch: seq<Deal>): set<string> { set k | 0 <= k < |batch| :: batch[k].id }

  function AllIds(batches: seq<Batch>): set<string> {
    if |batches| == 0 then {} else AllIds(batches[..|batches| - 1]) + IdsOf(batches[|batches| - 1].deals)
  }

  /** The starting table with the deals of ids delivered into it. */
  function PartMap(start: map<string, Deal>, d: map<string, Deal>, ids: set<string>, position: string): map<string, Deal>
    requires ids <= d.Keys
  {
    map id | id in start.Keys + ids :: if id in ids then d[id].(position := position) else start[id]
  }

  lemma {:induction false} BatchDelivers(
      deals: seq<Deal>, start: map<string, Deal>, d: map<string, Deal>, ids: set<string>, position: string, batch: seq<Deal>)
    requires ids <= d.Keys && Holds(deals, PartMap(start, d, ids, position))
    requires forall k | 0 <= k < |batch| :: batch[k].id in d && d[batch[k].id] == batch[k]
    ensures IdsOf(batch) <= d.Keys
    ensures Holds(UpsertDeals(deals, AttachedTo(position, batch)), PartMap(start, d, ids + IdsOf(batch), position))
  {
    hide Holds, UpsertDeal, PartMap, IdsOf;
    if |batch| == 0 {
      NoIds(batch);
      assert ids + IdsOf(batch) == ids;
    } else {
      var last, front := batch[|batch| - 1], batch[..|batch| - 1];
      BatchDelivers(deals, start, d, ids, position, front);
      var table := UpsertDeals(deals, AttachedTo(position, front));
      assert AttachedTo(position, batch)[..|batch| - 1] == AttachedTo(position, front);
      UpsertUpdatesMap(table, PartMap(start, d, ids + IdsOf(front), position), last.(position := position));
      IdsOfSnoc(batch);
      OneMoreDelivered(start, d, ids + IdsOf(front), position, last);
      assert ids + IdsOf(batch) == ids + IdsOf(front) + {last.id};
    }
  }

  lemma NoIds(batch: seq<Deal>)
    requires batch == []
    ensures IdsOf(batch) == {}
  {}

  lemma IdsOfSnoc(batch: seq<Deal>)
    requires |batch| > 0
    ensures IdsOf(batch) == IdsOf(batch[..|batch| - 1]) + {batch[|batch| - 1].id}
  {}

  lemma OneMoreDelivered(start: map<string, Deal>, d: map<string, Deal>, ids: set<string>, position: string, deal: Deal)
    requires ids <= d.Keys && deal.id in d && d[deal.id] == deal
    ensures PartMap(start, d, ids + {deal.id}, position)
            == PartMap(start, d, ids, position)[deal.id := deal.(position := position)]
  {}

  lemma {:induction false} SequenceDelivers(
      start: Recovery, table: map<string, Deal>, d: map<string, Deal>, position: string, batches: seq<Batch>)
    requires Holds(start.deals, table) && Consistent(batches, d)
    ensures AllIds(batches) <= d.Keys
    ensures Holds(Recovered(start, position, batches).deals, PartMap(table, d, AllIds(batches), position))
  {
    hide Holds, Aggregate;
    if |batches| == 0 {
      assert PartMap(table, d, {}, position) == table;
    } else {
      var front := batches[..|batches| - 1];
      SequenceDelivers(start, table, d, position, front);
      BatchDelivers(Recovered(start, position, front).deals, table, d, AllIds(front), position, batches[|batches| - 1].deals);
    }
  }

  lemma {:induction false} AllIdsAreDelivered(batches: seq<Batch>, i: nat, k: nat)
    requires i < |batches| && k < |batches[i].deals|
    ensures batches[i].deals[k].id in AllIds(batches)
  {
    if i < |batches| - 1 {
      AllIdsAreDelivered(batches[..|batches| - 1], i, k);
    }
  }

  lemma CompleteDelivery(batches: seq<Batch>, d: map<string, Deal>)
    requires Delivers(batches, d) && AllIds(batches) <= d.Keys
    ensures AllIds(batches) == d.Keys
  {
    forall id | id in d
      ensures id in AllIds(batches)
    {
      var i, k :| 0 <= i < |batches| && 0 <= k < |batches[i].deals| && batches[i].deals[k].id == id;
      AllIdsAreDelivered(batches, i, k);
    }
  }

  /** An entry row of the earlier table has an entry row in the later one, with weight if it had any. */
  lemma EntryStays(
      earlier: seq<Deal>, later: seq<Deal>, start: map<string, Deal>, d: map<string, Deal>,
      ids: set<string>, more: set<string>, position: string, k: nat) returns (j: nat)
    requires ids <= more <= d.Keys && Deliverable(start, d, position)
    requires Holds(earlier, PartMap(start, d, ids, position)) && Holds(later, PartMap(start, d, more, position))
    requires k < |earlier| && Selected(earlier[k], position, In)
    ensures j < |later| && Selected(later[j], position, In)
    ensures earlier[k].volume > 0.0 ==> later[j].volume > 0.0
  {
    var id := earlier[k].id;
    assert PartMap(start, d, ids, position)[id] == earlier[k];
    j :| 0 <= j < |later| && later[j] == PartMap(start, d, more, position)[id];
  }

  lemma RowsAreNonNegative(deals: seq<Deal>, start: map<string, Deal>, d: map<string, Deal>, ids: set<string>, position: string)
    requires ids <= d.Keys && Deliverable(start, d, position) && Holds(deals, PartMap(start, d, ids, position))
    ensures NonNegative(deals)
  {
    forall k | 0 <= k < |deals|
      ensures deals[k].volume >= 0.0
    {
      assert PartMap(start, d, ids, position)[deals[k].id] == deals[k];
    }
  }

  /** Delivering more never removes an entry deal or its weight. */
  lemma MoreDeliveryKeepsEntries(
      earlier: seq<Deal>, later: seq<Deal>, start: map<string, Deal>, d: map<string, Deal>,
      ids: set<string>, more: set<string>, position: string)
    requires ids <= more <= d.Keys && Deliverable(start, d, position)
    requires Holds(earlier, PartMap(start, d, ids, position)) && Holds(later, PartMap(start, d, more, position))
    ensures NonNegative(earlier) && NonNegative(later) && KeepsEntries(earlier, later, position)
  {
    hide Holds, PartMap, Deliverable;
    RowsAreNonNegative(earlier, start, d, ids, position);
    RowsAreNonNegative(later, start, d, more, position);
    if HasDeal(earlier, position, In) {
      var k :| 0 <= k < |earlier| && Selected(earlier[k], position, In);
      var j := EntryStays(earlier, later, start, d, ids, more, position, k);
    }
    if exists k | 0 <= k < |earlier| :: Weighs(earlier[k], position) {
      var k :| 0 <= k < |earlier| && Weighs(earlier[k], position);
      var j := EntryStays(earlier, later, start, d, ids, more, position, k);
      assert Weighs(later[j], position);
    }
  }

  /** After any non-empty sequence the trade is the aggregate of its table over the opening row alone. */
  lemma {:induction false} TradeIsAggregateOfTable(
      start: Recovery, table: map<string, Deal>, d: map<string, Deal>, position: string, batches: seq<Batch>)
    requires |batches| > 0 && Holds(start.deals, table) && Consistent(batches, d) && Deliverable(table, d, position)
    ensures var r := Recovered(start, position, batches);
            SameFields(r.trade, Aggregate(r.deals, position, start.trade, None))
  {
    hide Holds, KeepsEntries, NonNegative, PartMap, Deliverable;
    var front := batches[..|batches| - 1];
    var reason := batches[|batches| - 1].reason;
    var before, after := Recovered(start, position, front), Recovered(start, position, batches);
    if |front| > 0 {
      TradeIsAggregateOfTable(start, table, d, position, front);
      SequenceDelivers(start, table, d, position, front);
      SequenceDelivers(start, table, d, position, batches);
      MoreDeliveryKeepsEntries(before.deals, after.deals, table, d, AllIds(front), AllIds(batches), position);
      ReaggregationForgets(before.deals, after.deals, position, start.trade, before.trade, None, reason);
    }
  }

  /** Confluence: from one opening row, any two non-empty sequences of recovery batches that deliver
      the same deals, in any order, batching or repetition, end with the same volumes, prices, times,
      costs, profit, R, duration and status; only the close reason may differ. */
  lemma {:induction false} RecoveryIsConfluent(
      start: Recovery, table: map<string, Deal>, d: map<string, Deal>, position: string, xs: seq<Batch>, ys: seq<Batch>)
    requires Holds(start.deals, table) && Deliverable(table, d, position)
    requires |xs| > 0 && Delivers(xs, d)
    requires |ys| > 0 && Delivers(ys, d)
    ensures SameFields(Recovered(start, position, xs).trade, Recovered(start, position, ys).trade)
    ensures multiset(Recovered(start, position, xs).deals) == multiset(Recovered(start, position, ys).deals)
  {
    hide Holds, Aggregate, PartMap, Deliverable;
    SequenceDelivers(start, table, d, position, xs);
    SequenceDelivers(start, table, d, position, ys);
    CompleteDelivery(xs, d);
    CompleteDelivery(ys, d);
    var a, b := Recovered(start, position, xs), Recovered(start, position, ys);
    SameMapSameRows(a.deals, b.deals, PartMap(table, d, d.Keys, position));
    TradeIsAggregateOfTable(start, table, d, position, xs);
    TradeIsAggregateOfTable(start, table, d, position, ys);
    AggregateOfPermutation(a.deals, b.deals, position, start.trade, None);
  }

  /** Replaying any already delivered batch changes no field but possibly the close reason. */
  lemma {:induction false} ReplayIsNoOp(
      start: Recovery, table: map<string, Deal>, d: map<string, Deal>, position: string, xs: seq<Batch>, again: Batch)
    requires Holds(start.deals, table) && Deliverable(table, d, position)
    requires |xs| > 0 && Delivers(xs, d) && Consistent([again], d)
    ensures SameFields(Recovered(start, position, xs + [again]).trade, Recovered(start, position, xs).trade)
  {
    var ys := xs + [again];
    assert ys[|xs|] == [again][0];
    forall i, k | 0 <= i < |ys| && 0 <= k < |ys[i].deals|
      ensures ys[i].deals[k].id in d && d[ys[i].deals[k].id] == ys[i].deals[k]
    {
      assert i < |xs| ==> ys[i] == xs[i];
    }
    forall id | id in d
      ensures exists i, k :: 0 <= i < |ys| && 0 <= k < |ys[i].deals| && ys[i].deals[k].id == id
    {
      var i, k :| 0 <= i < |xs| && 0 <= k < |xs[i].deals| && xs[i].deals[k].id == id;
      assert ys[i] == xs[i];
    }
    RecoveryIsConfluent(start, table, d, position, ys, xs);
  }
}
