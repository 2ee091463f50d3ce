/** What a pass does with the broker's deals, stated from the deals: which of them belong to a position, what
    an imported or completed trade row then says, and which issues are raised and cleared. */
module PassLaw {
  import opened Market
  import opened Options
  import opened Ledger
  import opened LedgerLaw
  import opened Reconciliation
  import opened ReconciliationPass

  // ---------- the deals of a position ----------

  function Keep(deals: seq<BrokerDeal>, wanted: BrokerDeal -> bool): seq<BrokerDeal> {
    if |deals| == 0 then []
    else Keep(deals[..|deals| - 1], wanted) + if wanted(deals[|deals| - 1]) then [deals[|deals| - 1]] else []
  }

  /** An entry deal of the position that carries the strategy's symbol and magic. */
  function EntryOf(position: string): BrokerDeal -> bool {
    (d: BrokerDeal) => d.position == position && d.ownSymbol && d.ownMagic && d.entry == EntryIn
  }

  /** A closing or reversing deal of the position: with the strategy's magic, or of a position it owns. */
  function CloseOf(position: string, owned: set<string>): BrokerDeal -> bool {
    (d: BrokerDeal) =>
      d.position == position && d.ownSymbol && (d.entry == EntryOut || d.entry == EntryReversal) && (d.ownMagic || position in owned)
  }

  /** One group per position with deals of its own; each holds them all, in order. */
  ghost predicate GroupsTold(deals: seq<BrokerDeal>, owned: set<string>, groups: seq<Group>) {
    && (forall i, j | 0 <= i < j < |groups| :: groups[i].position != groups[j].position)
    && (forall k | 0 <= k < |groups| :: GroupTold(deals, owned, groups[k]))
    && (forall p :: Keep(deals, EntryOf(p)) != [] || Keep(deals, CloseOf(p, owned)) != [] ==>
          exists k | 0 <= k < |groups| :: groups[k].position == p)
  }

  ghost predicate GroupTold(deals: seq<BrokerDeal>, owned: set<string>, g: Group) {
    && g.opens == Keep(deals, EntryOf(g.position)) && g.closes == Keep(deals, CloseOf(g.position, owned))
    && (g.reversal <==> exists d | d in g.closes :: d.entry == EntryReversal)
  }

  lemma ClassIs(d: BrokerDeal, owned: set<string>)
    ensures var c := ClassOf(d, owned);
            && (c.Opening? <==> EntryOf(d.position)(d))
            && (c.Closing? || c.Reversing? <==> CloseOf(d.position, owned)(d))
            && (c.Reversing? <==> CloseOf(d.position, owned)(d) && d.entry == EntryReversal)
  {}

  lemma AddedDealIsTold(deals: seq<BrokerDeal>, owned: set<string>, before: Group, after: Group, d: BrokerDeal)
    requires |deals| > 0 && deals[|deals| - 1] == d && GroupTold(deals[..|deals| - 1], owned, before)
    requires after == if before.position == d.position then AddToGroup(before, d, ClassOf(d, owned)) else before
    ensures GroupTold(deals, owned, after)
  {
    ClassIs(d, owned);
    hide ClassOf, Keep;
    var p := before.position;
    assert Keep(deals, EntryOf(p)) == Keep(deals[..|deals| - 1], EntryOf(p)) + (if EntryOf(p)(d) then [d] else []) by { OneMoreKept(deals, EntryOf(p)); }
    assert Keep(deals, CloseOf(p, owned)) == Keep(deals[..|deals| - 1], CloseOf(p, owned)) + (if CloseOf(p, owned)(d) then [d] else []) by {
      OneMoreKept(deals, CloseOf(p, owned));
    }
  }

  lemma OneMoreKept(deals: seq<BrokerDeal>, wanted: BrokerDeal -> bool)
    requires |deals| > 0
    ensures Keep(deals, wanted)
            == Keep(deals[..|deals| - 1], wanted) + if wanted(deals[|deals| - 1]) then [deals[|deals| - 1]] else []
  {}

  /** A position that has no group yet has no deals of its own yet. */
  lemma NewGroupIsTold(deals: seq<BrokerDeal>, owned: set<string>, groups: seq<Group>, p: string)
    requires GroupsTold(deals, owned, groups) && forall k | 0 <= k < |groups| :: groups[k].position != p
    ensures GroupTold(deals, owned, Group(p, [], [], false))
  {}

  lemma {:induction false} GroupingIsTold(deals: seq<BrokerDeal>, owned: set<string>)
    ensures GroupsTold(deals, owned, GroupsOf(deals, owned))
  {
    hide ClassOf, AddToGroup, GroupTold, Keep;
    if |deals| == 0 {
      assert forall f: BrokerDeal -> bool :: Keep(deals, f) == [] by { NothingKept(deals); }
    } else {
      var front, d := deals[..|deals| - 1], deals[|deals| - 1];
      GroupingIsTold(front, owned);
      var before, after := GroupsOf(front, owned), GroupsOf(deals, owned);
      ClassIs(d, owned);
      forall k | 0 <= k < |before|
        ensures GroupTold(deals, owned, if before[k].position == d.position then AddToGroup(before[k], d, ClassOf(d, owned)) else before[k])
      {
        AddedDealIsTold(deals, owned, before[k], if before[k].position == d.position then AddToGroup(before[k], d, ClassOf(d, owned)) else before[k], d);
      }
      AddingKeepsPosition(d, owned);
      var found := FindGroup(before, d.position, 0);
      if found.None? {
        NewGroupIsTold(front, owned, before, d.position);
        var blank := Group(d.position, [], [], false);
        AddedDealIsTold(deals, owned, blank, AddToGroup(blank, d, ClassOf(d, owned)), d);
      }
      if ClassOf(d, owned).Ignored? {
        IgnoredAddsNothing(d, owned);
      }
      forall p
        ensures Keep(deals, EntryOf(p)) != [] || Keep(deals, CloseOf(p, owned)) != [] ==>
                  exists k | 0 <= k < |after| :: after[k].position == p
      {
        OneMoreKept(deals, EntryOf(p));
        OneMoreKept(deals, CloseOf(p, owned));
        if k :| 0 <= k < |before| && before[k].position == p {
          assert after[k].position == p;
        } else if p == d.position && !ClassOf(d, owned).Ignored? {
          assert after[|before|].position == p;
        }
      }
    }
  }

  lemma NothingKept(deals: seq<BrokerDeal>)
    requires deals == []
    ensures forall f: BrokerDeal -> bool :: Keep(deals, f) == []
  {}

  lemma AddingKeepsPosition(d: BrokerDeal, owned: set<string>)
    ensures forall g: Group :: AddToGroup(g, d, ClassOf(d, owned)).position == g.position
  {
    hide ClassOf;
  }

  lemma IgnoredAddsNothing(d: BrokerDeal, owned: set<string>)
    requires ClassOf(d, owned).Ignored?
    ensures forall g: Group :: AddToGroup(g, d, ClassOf(d, owned)) == g
  {}

  // ---------- what one group writes ----------

  /** The ledger row of a broker deal. */
  function BrokerRow(d: BrokerDeal, kind: EntryType): Deal {
    Deal(id := d.id, position := d.position, kind := kind, time := d.time, volume := d.volume, price := Some(d.price),
         commission := d.commission, swap := d.swap, profit := d.profit)
  }

  function BrokerRows(deals: seq<BrokerDeal>, kind: EntryType): seq<Deal> {
    if |deals| == 0 then [] else [BrokerRow(deals[0], kind)] + BrokerRows(deals[1..], kind)
  }

  /** The first of the deals with the least time. */
  ghost predicate IsEarliest(deals: seq<BrokerDeal>, d: BrokerDeal) {
    exists i: nat :: EarliestAt(deals, i) && deals[i] == d
  }

  ghost predicate EarliestAt(deals: seq<BrokerDeal>, i: nat) {
    && i < |deals|
    && (forall j | 0 <= j < i :: deals[j].time > deals[i].time) && (forall j | i < j < |deals| :: deals[j].time >= deals[i].time)
  }

  /** The last of the deals with the greatest time. */
  ghost predicate IsLatest(deals: seq<BrokerDeal>, d: BrokerDeal) {
    exists i: nat :: LatestAt(deals, i) && deals[i] == d
  }

  ghost predicate LatestAt(deals: seq<BrokerDeal>, i: nat) {
    && i < |deals|
    && (forall j | 0 <= j < i :: deals[j].time <= deals[i].time) && (forall j | i < j < |deals| :: deals[j].time < deals[i].time)
  }

  function VolumeSum(deals: seq<BrokerDeal>): real { if |deals| == 0 then 0.0 else deals[0].volume + VolumeSum(deals[1..]) }

  /** An unknown position's row as the pass opens it: side, order and time of its earliest entry, the volume
      of all of them, and the risk from the cache; the cached price stands in until the deals are added. */
  ghost predicate OpenedFrom(d: Durable, s: Settings, p: string, entries: seq<BrokerDeal>, t: Trade) {
    exists first ::
      && IsEarliest(entries, first)
      && JustOpened(OpenPayload(position := p, strategy := s.strategy, side := if first.buy then Buy else Sell,
                                riskUsd := if p in d.cache then d.cache[p].riskUsd else None, entryTime := first.time,
                                entryVolume := VolumeSum(entries),
                                entryPrice := if p in d.cache then d.cache[p].actualEntry else Some(first.price),
                                orderId := first.order, dealId := None), t)
  }

  ghost predicate Deliverable(deals: seq<BrokerDeal>) { forall d | d in deals :: d.volume >= 0.0 }

  /** The position's row is recomputed over the table with the group's deals; its cache entry and its issue
      are gone, and nothing else has changed. */
  ghost predicate Completed(d: Durable, p: string, rows: seq<Deal>, before: Trade, closes: seq<BrokerDeal>, after: Durable) {
    && TableTold(d.ledger.deals, rows, after.ledger.deals)
    && after.ledger.trades.Keys == d.ledger.trades.Keys + {p}
    && (forall q | q in d.ledger.trades && q != p :: after.ledger.trades[q] == d.ledger.trades[q])
    && (exists last :: IsLatest(closes, last) && RowTold(after.ledger.deals, p, before, Some(last.reason), after.ledger.trades[p]))
    && after.cache == d.cache - {p} && after.issues == d.issues - {p} && after.watermark == d.watermark
  }

  ghost predicate OrderElsewhere(l: LedgerState, order: Option<string>) {
    order.Some? && exists q | q in l.trades :: l.trades[q].orderId == order
  }

  ghost predicate GroupDone(d: Durable, s: Settings, g: Group, lookup: seq<BrokerDeal>, after: Progress) {
    var p := g.position;
    var entries := if g.opens == [] then Keep(lookup, EntryOf(p)) else g.opens;
    if g.closes == [] then after == Progress(d, true)
    else if g.reversal then
      after == Progress(d.(issues := d.issues[p := Issue(ReversalNeedsSplit, set c | c in g.closes :: c.id)]), true)
    else if g.opens == [] && p in d.ledger.trades then
      && (after.ok <==> Deliverable(g.closes))
      && (after.ok ==> Completed(d, p, BrokerRows(g.closes, Out), d.ledger.trades[p], g.closes, after.durable))
      && (!after.ok ==> after.durable == d)
    else if entries == [] then
      after == Progress(d.(issues := d.issues[p := Issue(EntryUnavailable, set c | c in g.closes :: c.id)]), true)
    else
      exists start :: ImportDone(d, s, g, entries, start, after)
  }

  /** A group with entries: its row is the known one or a new one, and the deals complete it; a refusal leaves
      nothing, or the row that a transaction of its own had opened. */
  ghost predicate ImportDone(d: Durable, s: Settings, g: Group, entries: seq<BrokerDeal>, start: Trade, after: Progress) {
    var p := g.position;
    var clash := p !in d.ledger.trades && OrderElsewhere(d.ledger, start.orderId);
    && (if p in d.ledger.trades then start == d.ledger.trades[p] else OpenedFrom(d, s, p, entries, start))
    && (after.ok <==> !clash && Deliverable(entries) && Deliverable(g.closes))
    && (after.ok ==> Completed(d, p, BrokerRows(entries, In) + BrokerRows(g.closes, Out), start, g.closes, after.durable))
    && (!after.ok ==> after.durable == if clash then d else d.(ledger := d.ledger.(trades := d.ledger.trades[p := start])))
  }

  lemma {:induction false} RowsAreBrokerRows(deals: seq<BrokerDeal>, kind: EntryType)
    ensures Rows(deals, kind) == BrokerRows(deals, kind)
    decreases |deals|
  {
    if |deals| > 0 {
      RowsAreBrokerRows(deals[1..], kind);
      assert Rows(deals, kind) == [RowOf(deals[0], kind)] + Rows(deals[1..], kind);
    } else {
      assert Rows(deals, kind) == [];
    }
  }

  lemma {:induction false} BrokerRowsAt(deals: seq<BrokerDeal>, kind: EntryType)
    ensures |BrokerRows(deals, kind)| == |deals| && forall k | 0 <= k < |deals| :: BrokerRows(deals, kind)[k] == BrokerRow(deals[k], kind)
    decreases |deals|
  {
    if |deals| > 0 {
      BrokerRowsAt(deals[1..], kind);
      forall k | 0 <= k < |deals|
        ensures BrokerRows(deals, kind)[k] == BrokerRow(deals[k], kind)
      {
        assert k > 0 ==> deals[k] == deals[1..][k - 1];
      }
    }
  }

  lemma {:induction false} EntriesAreKept(candidates: seq<BrokerDeal>, position: string)
    ensures EntriesFrom(candidates, position) == Keep(candidates, EntryOf(position))
  {
    if |candidates| > 0 {
      EntriesAreKept(candidates[..|candidates| - 1], position);
    }
  }

  lemma {:induction false} EarliestIsEarliest(deals: seq<BrokerDeal>) returns (i: nat)
    requires |deals| > 0
    ensures EarliestAt(deals, i) && deals[i] == Earliest(deals)
  {
    var n := |deals| - 1;
    i := n;
    if n > 0 {
      var front := deals[..n];
      var k := EarliestIsEarliest(front);
      assert forall j | 0 <= j < n :: deals[j] == front[j];
      if deals[n].time >= deals[k].time {
        i := k;
      }
    }
  }

  lemma {:induction false} LatestIsLatest(deals: seq<BrokerDeal>) returns (i: nat)
    requires |deals| > 0
    ensures LatestAt(deals, i) && deals[i] == Latest(deals)
  {
    var n := |deals| - 1;
    i := n;
    if n > 0 {
      var front := deals[..n];
      var k := LatestIsLatest(front);
      assert forall j | 0 <= j < n :: deals[j] == front[j];
      if deals[n].time < deals[k].time {
        i := k;
      }
    }
  }

  lemma {:induction false} VolumesAdd(deals: seq<BrokerDeal>, more: BrokerDeal)
    ensures VolumeSum(deals + [more]) == VolumeSum(deals) + more.volume
    decreases |deals|
  {
    if |deals| == 0 {
      assert ([] + [more])[1..] == [];
      assert VolumeSum([more][1..]) == 0.0;
      assert deals + [more] == [more];
    } else {
      assert (deals + [more])[1..] == deals[1..] + [more];
      VolumesAdd(deals[1..], more);
    }
  }

  lemma {:induction false} TotalIsVolumeSum(deals: seq<BrokerDeal>)
    ensures TotalVolume(deals) == VolumeSum(deals)
  {
    if |deals| > 0 {
      TotalIsVolumeSum(deals[..|deals| - 1]);
      assert deals == deals[..|deals| - 1] + [deals[|deals| - 1]];
      VolumesAdd(deals[..|deals| - 1], deals[|deals| - 1]);
    }
  }

  lemma PayloadIsTold(d: Durable, s: Settings, p: string, entries: seq<BrokerDeal>)
    requires |entries| > 0
    ensures OpenedFrom(d, s, p, entries, OpenTrade(PayloadFor(d, s, p, entries)))
    ensures PayloadFor(d, s, p, entries).position == p && PayloadFor(d, s, p, entries).dealId.None?
  {
    hide Earliest, TotalVolume, EarliestAt;
    var i := EarliestIsEarliest(entries);
    assert IsEarliest(entries, entries[i]);
    TotalIsVolumeSum(entries);
  }

  /** Deals that all name the position. */
  ghost predicate AllOf(deals: seq<BrokerDeal>, p: string) { forall d | d in deals :: d.position == p }

  lemma AttachingKeepsRows(rows: seq<Deal>, p: string)
    requires forall k | 0 <= k < |rows| :: rows[k].position == p
    ensures AttachedTo(p, rows) == rows
  {}

  lemma {:induction false} BatchIs(entries: seq<BrokerDeal>, closes: seq<BrokerDeal>, p: string)
    requires AllOf(entries, p) && AllOf(closes, p)
    ensures var rows := Rows(entries, In) + Rows(closes, Out);
            && rows == BrokerRows(entries, In) + BrokerRows(closes, Out) && AttachedTo(p, rows) == rows
            && (Admissible(rows) <==> Deliverable(entries) && Deliverable(closes))
  {
    RowsAreBrokerRows(entries, In);
    RowsAreBrokerRows(closes, Out);
    var rows := Rows(entries, In) + Rows(closes, Out);
    forall k | 0 <= k < |rows|
      ensures rows[k].position == p && (k < |entries| ==> rows[k].volume == entries[k].volume)
      ensures k >= |entries| ==> rows[k].volume == closes[k - |entries|].volume
    {
      assert k < |entries| ==> entries[k] in entries;
      assert k >= |entries| ==> closes[k - |entries|] in closes;
    }
    AttachingKeepsRows(rows, p);
    VolumesOfBatch(rows, entries, closes);
  }

  lemma {:induction false} VolumesOfBatch(rows: seq<Deal>, entries: seq<BrokerDeal>, closes: seq<BrokerDeal>)
    requires |rows| == |entries| + |closes|
    requires forall k | 0 <= k < |entries| :: rows[k].volume == entries[k].volume
    requires forall k | |entries| <= k < |rows| :: rows[k].volume == closes[k - |entries|].volume
    ensures Admissible(rows) <==> Deliverable(entries) && Deliverable(closes)
  {
    if Admissible(rows) {
      forall c | c in closes
        ensures c.volume >= 0.0
      {
        var k :| 0 <= k < |closes| && closes[k] == c;
        assert rows[|entries| + k].volume >= 0.0;
      }
    }
  }

  lemma {:induction false} RecoveredIsCompleted(d: Durable, p: string, rows: seq<Deal>, closes: seq<BrokerDeal>, l: LedgerState)
    requires UniqueIds(l.deals) && p in l.trades && |closes| > 0 && AttachedTo(p, rows) == rows
    requires l.deals == d.ledger.deals && l.trades.Keys == d.ledger.trades.Keys + {p}
    requires forall q | q in d.ledger.trades && q != p :: l.trades[q] == d.ledger.trades[q]
    ensures Completed(d, p, rows, l.trades[p], closes,
                      Settled(d.(ledger := Recover(l, p, Batch(rows, Some(Latest(closes).reason)))), p))
  {
    hide Recover, RowTold, TableTold, LatestAt;
    var i := LatestIsLatest(closes);
    assert IsLatest(closes, closes[i]);
    RecoverIsTold(l, p, Batch(rows, Some(Latest(closes).reason)));
  }

  /** One group does what its deals say. */
  lemma {:induction false} GroupIsDone(d: Durable, s: Settings, g: Group, lookup: seq<BrokerDeal>)
    requires UniqueIds(d.ledger.deals) && AllOf(g.opens, g.position) && AllOf(g.closes, g.position)
    ensures GroupDone(d, s, g, lookup, AfterGroup(d, s, g, lookup))
  {
    hide Recover, PayloadFor, Rows, Latest, OpenTrade, RowTold, TableTold, Completed, OpenedFrom, Keep, UniqueIds, Deliverable, Settled, ImportDone;
    var p := g.position;
    EntriesAreKept(lookup, p);
    IdsAre(g.closes);
    if g.closes != [] && !g.reversal {
      if g.opens == [] && p in d.ledger.trades {
        BatchIs([], g.closes, p);
        NoBrokerRows();
        assert [] + Rows(g.closes, Out) == Rows(g.closes, Out) && [] + BrokerRows(g.closes, Out) == BrokerRows(g.closes, Out);
        RecoveredIsCompleted(d, p, Rows(g.closes, Out), g.closes, d.ledger);
      } else {
        var entries := if g.opens == [] then Keep(lookup, EntryOf(p)) else g.opens;
        if entries != [] {
          KeptOf(lookup, p);
          PayloadIsTold(d, s, p, entries);
          BatchIs(entries, g.closes, p);
          ImportIsDone(d, s, g, entries, AfterGroup(d, s, g, lookup));
        }
      }
    }
  }

  lemma NoBrokerRows()
    ensures Rows([], In) == [] && BrokerRows([], In) == [] && Deliverable([])
  {}

  lemma IdsAre(deals: seq<BrokerDeal>)
    ensures IdsOf(deals) == set c | c in deals :: c.id
  {
    forall id
      ensures id in IdsOf(deals) <==> id in (set c | c in deals :: c.id)
    {
      if c :| c in deals && c.id == id {
        var k :| 0 <= k < |deals| && deals[k] == c;
      }
    }
  }

  lemma {:induction false} KeptOf(deals: seq<BrokerDeal>, p: string)
    ensures AllOf(Keep(deals, EntryOf(p)), p)
  {
    if |deals| > 0 {
      KeptOf(deals[..|deals| - 1], p);
    }
  }

  /** The import of a group that has entries. */
  lemma {:induction false} ImportIsDone(d: Durable, s: Settings, g: Group, entries: seq<BrokerDeal>, after: Progress)
    requires UniqueIds(d.ledger.deals) && |g.closes| > 0 && |entries| > 0
    requires var payload := PayloadFor(d, s, g.position, entries);
             var action := ImportTrade(payload, Batch(Rows(entries, In) + Rows(g.closes, Out), Some(Latest(g.closes).reason)));
             && after == (match Write(d, g, action)
                          case None => Progress(Unfinished(d, action), false)
                          case Some(w) => Progress(Settled(w, g.position), true))
             && payload.position == g.position && payload.dealId.None? && OpenedFrom(d, s, g.position, entries, OpenTrade(payload))
    requires var rows := Rows(entries, In) + Rows(g.closes, Out);
             && rows == BrokerRows(entries, In) + BrokerRows(g.closes, Out) && AttachedTo(g.position, rows) == rows
             && (Admissible(rows) <==> Deliverable(entries) && Deliverable(g.closes))
    ensures var p := g.position;
            ImportDone(d, s, g, entries,
                       if p in d.ledger.trades then d.ledger.trades[p] else OpenTrade(PayloadFor(d, s, p, entries)), after)
  {
    hide Recover, PayloadFor, Rows, Latest, RowTold, TableTold, Completed, OpenedFrom, UniqueIds, Deliverable, Admissible, AttachedTo, Settled;
    var p, payload := g.position, PayloadFor(d, s, g.position, entries);
    var rows := Rows(entries, In) + Rows(g.closes, Out);
    var l := Open(d.ledger, payload);
    RecoveredIsCompleted(d, p, rows, g.closes, l);
    if p in d.ledger.trades {
      assert d.ledger.trades[p := d.ledger.trades[p]] == d.ledger.trades;
    }
  }

  // ---------- how a pass begins and ends ----------

  /** The executor's own write: an unknown position is opened and cached, unless its order is taken or its
      entry deal has a negative volume. */
  lemma ExecutorWrites(sys: System, s: Settings, payload: OpenPayload, entry: CacheEntry)
    requires !OrderElsewhere(sys.durable.ledger, payload.orderId) && (payload.dealId.None? || payload.entryVolume >= 0.0)
    ensures var after := After(sys, s, ExecutorOpens(payload, entry)).durable;
            payload.position in after.ledger.trades && payload.position in after.cache && after.cache[payload.position] == entry
  {}

  /** The window reaches back by the overlap from the watermark, or by the bootstrap from now. */
  lemma WindowReachesBack(d: Durable, s: Settings, now: int)
    ensures match d.watermark
            case Some(mark) => mark - FetchStart(d, s, now) == s.overlap
            case None => now - FetchStart(d, s, now) == s.bootstrap
  {}

  predicate HasId(deals: seq<BrokerDeal>, id: string) { exists k | 0 <= k < |deals| :: deals[k].id == id }

  /** The response comes first; then every further deal with an id that is not there yet. */
  ghost predicate Merged(fetched: seq<BrokerDeal>, extra: seq<BrokerDeal>, deals: seq<BrokerDeal>) {
    && |fetched| <= |deals| && deals[..|fetched|] == fetched
    && (forall e | e in extra && e.id != "" :: HasId(deals, e.id))
    && (forall k | |fetched| <= k < |deals| :: deals[k] in extra && deals[k].id != "" && !HasId(deals[..k], deals[k].id))
  }

  lemma {:induction false} MergingIsTold(fetched: seq<BrokerDeal>, extra: seq<BrokerDeal>)
    ensures Merged(fetched, extra, MergeDeals(fetched, extra))
  {
    if |extra| > 0 {
      var front, d := extra[..|extra| - 1], extra[|extra| - 1];
      MergingIsTold(fetched, front);
      var rest := MergeDeals(fetched, front);
      assert MergeDeals(fetched, extra) == if d.id == "" || HasId(rest, d.id) then rest else rest + [d];
      hide MergeDeals, HasId, Merged;
      if d.id == "" || HasId(rest, d.id) {
        NothingMerged(fetched, extra, rest);
      } else {
        OneMoreMerged(fetched, extra, rest);
      }
    }
  }

  lemma NothingMerged(fetched: seq<BrokerDeal>, extra: seq<BrokerDeal>, rest: seq<BrokerDeal>)
    requires |extra| > 0 && Merged(fetched, extra[..|extra| - 1], rest)
    requires extra[|extra| - 1].id == "" || HasId(rest, extra[|extra| - 1].id)
    ensures Merged(fetched, extra, rest)
  {
    hide HasId;
    assert forall e | e in extra :: e in extra[..|extra| - 1] || e == extra[|extra| - 1];
  }

  lemma {:induction false} OneMoreMerged(fetched: seq<BrokerDeal>, extra: seq<BrokerDeal>, rest: seq<BrokerDeal>)
    requires |extra| > 0 && Merged(fetched, extra[..|extra| - 1], rest)
    requires extra[|extra| - 1].id != "" && !HasId(rest, extra[|extra| - 1].id)
    ensures Merged(fetched, extra, rest + [extra[|extra| - 1]])
  {
    var front, d := extra[..|extra| - 1], extra[|extra| - 1];
    var r := rest + [d];
    IdsOfMore(rest, d);
    hide HasId;
    assert forall e | e in extra :: e in front || e == d;
    assert r[..|fetched|] == rest[..|fetched|];
    forall k | |fetched| <= k < |r|
      ensures r[k] in extra && r[k].id != "" && !HasId(r[..k], r[k].id)
    {
      if k < |rest| {
        assert r[..k] == rest[..k] && r[k] == rest[k] && rest[k] in front;
      } else {
        assert r[..k] == rest;
      }
    }
  }

  lemma IdsOfMore(deals: seq<BrokerDeal>, d: BrokerDeal)
    ensures forall id :: HasId(deals, id) || d.id == id <==> HasId(deals + [d], id)
  {
    var r := deals + [d];
    forall id
      ensures HasId(deals, id) || d.id == id <==> HasId(r, id)
    {
      if k :| 0 <= k < |deals| && deals[k].id == id {
        assert r[k].id == id;
      }
      assert r[|deals|].id == d.id;
    }
  }

  /** A position is the strategy's own through the cache, an open row, or an entry of the response. */
  lemma OwnedExactlyWhen(d: Durable, strategy: string, deals: seq<BrokerDeal>, p: string)
    ensures p in OwnedPositions(d, strategy, deals)
            <==> p in d.cache || (p in d.ledger.trades && d.ledger.trades[p].strategy == strategy && !d.ledger.trades[p].closed)
                 || exists e | e in deals :: EntryOf(p)(e)
  {
    if e :| e in deals && EntryOf(p)(e) {
      var k :| 0 <= k < |deals| && deals[k] == e;
      assert deals[k].position == p;
    }
    if k :| 0 <= k < |deals| && deals[k].ownSymbol && deals[k].ownMagic && deals[k].entry.EntryIn? && deals[k].position == p {
      assert EntryOf(p)(deals[k]);
    }
  }

  /** The closes a pass looks for are the closing deals of the positions it owns. */
  lemma CloseIdsAre(deals: seq<BrokerDeal>, owned: set<string>, id: string)
    ensures id in CloseIdsOf(deals, owned) <==> exists c | c in deals :: c.id == id && CloseOf(c.position, owned)(c)
  {
    hide ClassOf;
    if c :| c in deals && c.id == id && CloseOf(c.position, owned)(c) {
      var k :| 0 <= k < |deals| && deals[k] == c;
      ClassIs(deals[k], owned);
    }
    if k :| 0 <= k < |deals| && (ClassOf(deals[k], owned).Closing? || ClassOf(deals[k], owned).Reversing?) && deals[k].id == id {
      ClassIs(deals[k], owned);
      assert deals[k] in deals;
    }
  }

  /** A closing row of the strategy with this id. */
  ghost predicate IsRecorded(l: LedgerState, strategy: string, id: string) {
    exists r | r in l.deals :: r.id == id && r.kind == Out && r.position in l.trades && l.trades[r.position].strategy == strategy
  }

  /** ... stamped in the window, both ends included. */
  ghost predicate IsRecordedIn(l: LedgerState, strategy: string, id: string, start: int, end: int) {
    exists r | r in l.deals ::
      r.id == id && r.kind == Out && r.position in l.trades && l.trades[r.position].strategy == strategy && start <= r.time <= end
  }

  /** The issues after the comparison: fetched closes without a row in the window raise one, none clears it. */
  ghost function Compared(d: Durable, s: Settings, start: int, end: int, closeIds: set<string>): map<string, Issue> {
    var missing := set id | id in closeIds && !IsRecordedIn(d.ledger, s.strategy, id, start, end);
    if closeIds == {} then d.issues
    else if missing == {} then d.issues - {PARITY}
    else d.issues[PARITY := Issue(ParityMismatch, missing)]
  }

  /** An issue stands while it is a reversal, names no deal, or names one without a closing row. */
  ghost predicate Stands(d: Durable, s: Settings, issue: Issue) {
    issue.reason == ReversalNeedsSplit || issue.ids == {} || exists id | id in issue.ids :: !IsRecorded(d.ledger, s.strategy, id)
  }

  /** The end of a pass: the standing issues, and the watermark at the pass's end when there is none. */
  ghost predicate EndsAs(d: Durable, s: Settings, start: int, end: int, closeIds: set<string>, after: Durable) {
    var raised := Compared(d, s, start, end, closeIds);
    && after.ledger == d.ledger && after.cache == d.cache
    && (forall p :: p in after.issues <==> p in raised && Stands(d, s, raised[p]))
    && (forall p | p in after.issues :: after.issues[p] == raised[p])
    && after.watermark == (if after.issues == map[] then Some(end) else d.watermark)
  }

  lemma RecordedIds(l: LedgerState, strategy: string, start: int, end: int)
    ensures forall id :: id in OutIds(l, strategy) <==> IsRecorded(l, strategy, id)
    ensures forall id :: id in OutIdsBetween(l, strategy, start, end + 1) <==> IsRecordedIn(l, strategy, id, start, end)
  {
    forall id
      ensures IsRecorded(l, strategy, id) ==> id in OutIds(l, strategy)
      ensures IsRecordedIn(l, strategy, id, start, end) ==> id in OutIdsBetween(l, strategy, start, end + 1)
    {
      if r :| r in l.deals && r.id == id && r.kind == Out && r.position in l.trades && l.trades[r.position].strategy == strategy {
        var k :| 0 <= k < |l.deals| && l.deals[k] == r;
        assert OutRowOf(l, l.deals[k], strategy);
      }
      if r :| r in l.deals && r.id == id && r.kind == Out && r.position in l.trades && l.trades[r.position].strategy == strategy
              && start <= r.time <= end {
        var k :| 0 <= k < |l.deals| && l.deals[k] == r;
        assert OutRowOf(l, l.deals[k], strategy);
      }
    }
  }

  /** A pass that handled its groups ends as told. */
  lemma PassEndsAs(d: Durable, s: Settings, start: int, end: int, closeIds: set<string>)
    ensures EndsAs(d, s, start, end, closeIds, AfterFinish(d, s, start, end, closeIds))
  {
    hide OutIds, OutIdsBetween, IsRecorded, IsRecordedIn;
    RecordedIds(d.ledger, s.strategy, start, end);
    assert closeIds - OutIdsBetween(d.ledger, s.strategy, start, end + 1)
        == set id | id in closeIds && !IsRecordedIn(d.ledger, s.strategy, id, start, end);
    assert ParityChecked(d, s, start, end, closeIds).issues == Compared(d, s, start, end, closeIds);
    forall issue: Issue
      ensures Resolved(d, s, issue) <==> !Stands(d, s, issue)
    {}
  }
}
