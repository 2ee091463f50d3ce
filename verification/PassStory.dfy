/** A whole pass, position by position: groups do not disturb each other, so every row the pass leaves is
    what the position's own deals say. */
module PassStory {
  import opened Market
  import opened Options
  import opened Ledger
  import opened LedgerLaw
  import opened Reconciliation
  import opened WatermarkSafety
  import opened ReconciliationPass
  import opened PassLaw

  // ---------- rows of other positions stay ----------

  /** Every deal row belongs to a known trade. */
  ghost predicate RowsHaveTrades(l: LedgerState) { forall r | r in l.deals :: r.position in l.trades }

  /** Rows of p and every total over them are the same in both tables. */
  ghost predicate SameFor(p: string, a: seq<Deal>, b: seq<Deal>) {
    && (forall r: Deal | r.position == p :: r in a <==> r in b)
    && forall kind: Option<EntryType>, amount: Deal -> real :: Total(a, p, kind, amount) == Total(b, p, kind, amount)
  }

  lemma SameForTransitive(p: string, a: seq<Deal>, b: seq<Deal>, c: seq<Deal>)
    requires SameFor(p, a, b) && SameFor(p, b, c)
    ensures SameFor(p, a, c)
  {
    forall kind: Option<EntryType>, amount: Deal -> real
      ensures Total(a, p, kind, amount) == Total(c, p, kind, amount)
    {
      assert Total(a, p, kind, amount) == Total(b, p, kind, amount);
    }
  }

  lemma UpsertOneKeepsOthers(deals: seq<Deal>, d: Deal, p: string)
    requires UniqueIds(deals) && d.position != p && forall x | x in deals && x.id == d.id :: x.position != p
    ensures SameFor(p, deals, UpsertDeal(deals, d))
  {
    hide UniqueIds;
    UpsertOneIsTold(deals, d);
    var r := UpsertDeal(deals, d);
    forall kind: Option<EntryType>, amount: Deal -> real
      ensures Total(deals, p, kind, amount) == Total(r, p, kind, amount)
    {
      match FindDeal(deals, d.id, 0) {
        case Some(k) =>
          assert deals[k] in deals;
          TotalIsCorrected(deals, k, d, p, kind, amount);
        case None =>
          TotalGrows(deals, d, p, kind, amount);
      }
    }
  }

  lemma {:induction false} UpsertsKeepOthers(deals: seq<Deal>, batch: seq<Deal>, p: string)
    requires UniqueIds(deals) && forall b | b in batch :: b.position != p && forall x | x in deals && x.id == b.id :: x.position != p
    ensures SameFor(p, deals, UpsertDeals(deals, batch))
  {
    hide UniqueIds, UpsertDeal, SameFor;
    if |batch| == 0 {
      assert SameFor(p, deals, deals) by { SameForItself(p, deals); }
    } else {
      var front, d := batch[..|batch| - 1], batch[|batch| - 1];
      assert forall b | b in front :: b in batch;
      UpsertsKeepOthers(deals, front, p);
      UpsertKeepsIdsUnique(deals, front);
      var mid := UpsertDeals(deals, front);
      assert d in batch;
      UpsertIsTold(deals, front);
      forall x | x in mid && x.id == d.id
        ensures x.position != p
      {
        if !(x in deals) {
          var k: nat :| LastVersion(front, k) && front[k] == x;
          assert x in batch;
        }
      }
      UpsertOneKeepsOthers(mid, d, p);
      SameForTransitive(p, deals, mid, UpsertDeals(deals, batch));
    }
  }

  lemma SameForItself(p: string, deals: seq<Deal>)
    ensures SameFor(p, deals, deals)
  {}

  /** The story of a row depends only on its own deals. */
  lemma RowStays(p: string, a: seq<Deal>, b: seq<Deal>, before: Trade, reason: Option<string>, t: Trade)
    requires SameFor(p, a, b) && RowTold(a, p, before, reason, t)
    ensures RowTold(b, p, before, reason, t)
  {
    hide Total, Derived;
    forall kind: EntryType, time: int
      ensures Has(a, p, kind) <==> Has(b, p, kind)
      ensures LatestIs(a, p, kind, time) <==> LatestIs(b, p, kind, time)
      ensures EarliestIs(a, p, kind, time) <==> EarliestIs(b, p, kind, time)
    {
      CountedAlike(p, a, b, kind);
    }
    forall kind: EntryType, price: Option<real>
      ensures PriceIs(a, p, kind, price) <==> PriceIs(b, p, kind, price)
    {}
  }

  lemma CountedAlike(p: string, a: seq<Deal>, b: seq<Deal>, kind: EntryType)
    requires SameFor(p, a, b)
    ensures forall d: Deal :: d in a && Counts(d, p, Some(kind)) <==> d in b && Counts(d, p, Some(kind))
  {}

  // ---------- one group, seen from outside ----------

  /** What a group's step does to the rest: it upserts deals of its own position only. */
  ghost predicate Touches(d: Durable, q: string, batch: seq<Deal>, after: Durable) {
    && after.ledger.deals == UpsertDeals(d.ledger.deals, batch) && (forall b | b in batch :: b.position == q)
    && (forall p | p != q :: p in after.ledger.trades <==> p in d.ledger.trades)
    && (forall p | p != q && p in d.ledger.trades :: after.ledger.trades[p] == d.ledger.trades[p])
    && (q in d.ledger.trades ==> q in after.ledger.trades) && (batch != [] ==> q in after.ledger.trades)
    && (forall p | p != q :: p in after.cache <==> p in d.cache) && (forall p | p != q && p in d.cache :: after.cache[p] == d.cache[p])
  }

  lemma RecoverTouches(d: Durable, l: LedgerState, q: string, batch: Batch)
    requires q in l.trades && l.deals == d.ledger.deals && AttachedTo(q, batch.deals) == batch.deals
    requires forall b | b in batch.deals :: b.position == q
    requires l == d.ledger || (q !in d.ledger.trades && l.trades == d.ledger.trades[q := l.trades[q]])
    ensures Touches(d, q, batch.deals, Settled(d.(ledger := Recover(l, q, batch)), q))
  {
    hide Aggregate, UpsertDeals;
  }

  lemma OpenTouches(d: Durable, payload: OpenPayload)
    requires payload.dealId.None?
    ensures var l := Open(d.ledger, payload);
            l.deals == d.ledger.deals
            && (l == d.ledger || (payload.position !in d.ledger.trades && l.trades == d.ledger.trades[payload.position := l.trades[payload.position]]))
    ensures Touches(d, payload.position, [], d.(ledger := Open(d.ledger, payload)))
  {
    hide UpsertDeals;
    NoUpserts(d.ledger.deals);
  }

  lemma NothingTouches(d: Durable, q: string, after: Durable)
    requires after.ledger == d.ledger && after.cache == d.cache
    ensures Touches(d, q, [], after)
  {
    NoUpserts(d.ledger.deals);
  }

  ghost predicate FromDeals(batch: seq<Deal>, g: Group, lookup: seq<BrokerDeal>) {
    forall b | b in batch ::
      && (exists e :: (e in g.opens || e in g.closes || e in lookup) && e.id == b.id && e.position == g.position)
      && (b.kind.Out? ==> exists c :: c in g.closes && b == BrokerRow(c, Out))
  }

  /** A group's step by its action. */
  lemma StepByAction(d: Durable, s: Settings, g: Group, lookup: seq<BrokerDeal>)
    ensures var action, after := ActionFor(d, s, g, lookup), AfterGroup(d, s, g, lookup);
            match action
            case NothingToDo => after.durable.ledger == d.ledger && after.durable.cache == d.cache
            case RaiseIssue(_) => after.durable.ledger == d.ledger && after.durable.cache == d.cache
            case AttachCloses(batch) =>
              after == if g.position in d.ledger.trades && Admissible(batch.deals)
                       then Progress(Settled(d.(ledger := Recover(d.ledger, g.position, batch)), g.position), true)
                       else Progress(d, false)
            case ImportTrade(payload, batch) =>
              payload.position == g.position ==>
                after == if OpenRefused(d.ledger, payload) then Progress(d, false)
                         else if !Admissible(batch.deals) then Progress(d.(ledger := Open(d.ledger, payload)), false)
                         else Progress(Settled(d.(ledger := Recover(Open(d.ledger, payload), g.position, batch)), g.position), true)
  {
    hide ActionFor, Recover, Open, Settled, Admissible, OpenRefused;
    var action := ActionFor(d, s, g, lookup);
    if action.ImportTrade? {
      assert action.payload.position in Open(d.ledger, action.payload).trades by { OpenAdds(d.ledger, action.payload); }
    }
  }

  /** The batch of an action holds rows of the group's deals under the group's position. */
  lemma {:induction false} ActionBatch(d: Durable, s: Settings, g: Group, lookup: seq<BrokerDeal>)
    requires AllOf(g.opens, g.position) && AllOf(g.closes, g.position)
    ensures var a := ActionFor(d, s, g, lookup);
            && (a.AttachCloses? ==> g.position in d.ledger.trades && BatchOf(a.batch.deals, g, lookup))
            && (a.ImportTrade? ==> BatchOf(a.trade.deals, g, lookup) && a.payload.position == g.position && a.payload.dealId.None?)
  {
    hide Latest, Rows, PayloadFor, EntriesFrom, Keep, OpenedFrom, FromDeals, AttachedTo, BrokerRows, Admissible, Deliverable;
    var p := g.position;
    EntriesAreKept(lookup, p);
    KeptOf(lookup, p);
    var entries := if g.opens == [] then Keep(lookup, EntryOf(p)) else g.opens;
    if entries != [] {
      PayloadIsTold(d, s, p, entries);
      EntriesBatch(g, lookup, entries);
    }
    ClosesBatch(g, lookup);
  }

  /** Rows under the group's position, of deals of the group or the lookup. */
  ghost predicate BatchOf(rows: seq<Deal>, g: Group, lookup: seq<BrokerDeal>) {
    (forall b | b in rows :: b.position == g.position) && AttachedTo(g.position, rows) == rows && FromDeals(rows, g, lookup)
  }

  lemma {:induction false} ClosesBatch(g: Group, lookup: seq<BrokerDeal>)
    requires AllOf(g.closes, g.position)
    ensures BatchOf(Rows(g.closes, Out), g, lookup)
  {
    BatchIs([], g.closes, g.position);
    NoBrokerRows();
    assert [] + Rows(g.closes, Out) == Rows(g.closes, Out);
    RowsComeFrom(g.closes, Out, g.position);
  }

  lemma {:induction false} EntriesBatch(g: Group, lookup: seq<BrokerDeal>, entries: seq<BrokerDeal>)
    requires AllOf(g.opens, g.position) && AllOf(g.closes, g.position)
    requires entries == if g.opens == [] then Keep(lookup, EntryOf(g.position)) else g.opens
    ensures BatchOf(Rows(entries, In) + Rows(g.closes, Out), g, lookup)
  {
    hide Rows, Keep, BatchOf;
    EntryRowsBatch(g, lookup, entries);
    ClosesBatch(g, lookup);
    BatchesJoin(Rows(entries, In), Rows(g.closes, Out), g, lookup);
  }

  lemma {:induction false} EntryRowsBatch(g: Group, lookup: seq<BrokerDeal>, entries: seq<BrokerDeal>)
    requires AllOf(g.opens, g.position)
    requires entries == if g.opens == [] then Keep(lookup, EntryOf(g.position)) else g.opens
    ensures BatchOf(Rows(entries, In), g, lookup)
  {
    hide Rows, Keep, AttachedTo, BrokerRow;
    KeptOf(lookup, g.position);
    KeptFrom(lookup, EntryOf(g.position));
    RowsComeFrom(entries, In, g.position);
    RowsArePositioned(entries, In, g.position);
  }

  lemma {:induction false} BatchesJoin(a: seq<Deal>, b: seq<Deal>, g: Group, lookup: seq<BrokerDeal>)
    requires BatchOf(a, g, lookup) && BatchOf(b, g, lookup)
    ensures BatchOf(a + b, g, lookup)
  {
    assert forall x | x in a + b :: x in a || x in b;
    hide FromDeals;
    FromDealsJoin(a, b, g, lookup);
    AttachingKeepsRows(a + b, g.position);
  }

  lemma {:induction false} FromDealsJoin(a: seq<Deal>, b: seq<Deal>, g: Group, lookup: seq<BrokerDeal>)
    requires FromDeals(a, g, lookup) && FromDeals(b, g, lookup)
    ensures FromDeals(a + b, g, lookup)
  {}

  lemma {:induction false} RowsArePositioned(deals: seq<BrokerDeal>, kind: EntryType, p: string)
    requires AllOf(deals, p)
    ensures AttachedTo(p, Rows(deals, kind)) == Rows(deals, kind)
  {
    var rows := Rows(deals, kind);
    forall k | 0 <= k < |rows|
      ensures rows[k].position == p
    {
      assert deals[k] in deals;
    }
    AttachingKeepsRows(rows, p);
  }

  lemma {:induction false} GroupTouches(d: Durable, s: Settings, g: Group, lookup: seq<BrokerDeal>) returns (batch: seq<Deal>)
    requires AllOf(g.opens, g.position) && AllOf(g.closes, g.position)
    ensures Touches(d, g.position, batch, AfterGroup(d, s, g, lookup).durable) && FromDeals(batch, g, lookup)
  {
    hide Touches, Recover, Open, ActionFor, AfterGroup, FromDeals, Settled, Admissible, OpenRefused;
    var action, p := ActionFor(d, s, g, lookup), g.position;
    StepByAction(d, s, g, lookup);
    ActionBatch(d, s, g, lookup);
    NothingIsFromDeals(g, lookup);
    batch := [];
    match action {
      case NothingToDo => NothingTouches(d, p, AfterGroup(d, s, g, lookup).durable);
      case RaiseIssue(_) => NothingTouches(d, p, AfterGroup(d, s, g, lookup).durable);
      case AttachCloses(rows) =>
        if Admissible(rows.deals) {
          batch := rows.deals;
          RecoverTouches(d, d.ledger, p, rows);
        } else {
          NothingTouches(d, p, d);
        }
      case ImportTrade(payload, rows) =>
        OpenTouches(d, payload);
        OpenAdds(d.ledger, payload);
        if OpenRefused(d.ledger, payload) {
          NothingTouches(d, p, d);
        } else if Admissible(rows.deals) {
          batch := rows.deals;
          RecoverTouches(d, Open(d.ledger, payload), p, rows);
        }
    }
  }

  lemma NothingIsFromDeals(g: Group, lookup: seq<BrokerDeal>)
    ensures FromDeals([], g, lookup)
  {}

  lemma NoUpserts(deals: seq<Deal>)
    ensures UpsertDeals(deals, []) == deals
  {}

  lemma {:induction false} KeptFrom(deals: seq<BrokerDeal>, wanted: BrokerDeal -> bool)
    ensures forall d | d in Keep(deals, wanted) :: d in deals && wanted(d)
  {
    if |deals| > 0 {
      KeptFrom(deals[..|deals| - 1], wanted);
    }
  }

  lemma {:induction false} RowsComeFrom(deals: seq<BrokerDeal>, kind: EntryType, p: string)
    requires AllOf(deals, p)
    ensures forall b | b in AttachedTo(p, Rows(deals, kind)) ::
              b.position == p && b.kind == kind && exists e :: e in deals && e.id == b.id && e.position == p && b == BrokerRow(e, kind)
  {
    var rows := AttachedTo(p, Rows(deals, kind));
    forall b | b in rows
      ensures b.position == p && b.kind == kind && exists e :: e in deals && e.id == b.id && e.position == p && b == BrokerRow(e, kind)
    {
      var k :| 0 <= k < |rows| && rows[k] == b;
      assert deals[k] in deals && deals[k].id == b.id && b == BrokerRow(deals[k], kind);
    }
  }

  /** Broker deals of one position never carry the id of a row of another. */
  lemma {:induction false} GroupKeepsOthers(
      history: set<BrokerDeal>, d: Durable, s: Settings, g: Group, lookup: seq<BrokerDeal>, p: string)
    requires UniqueIds(d.ledger.deals) && RowsOk(history, d.ledger.deals) && GroupOk(history, g) && FromHistory(history, lookup)
    requires p != g.position
    ensures var a := AfterGroup(d, s, g, lookup).durable;
            && SameFor(p, d.ledger.deals, a.ledger.deals)
            && (p in a.ledger.trades <==> p in d.ledger.trades) && (p in d.ledger.trades ==> a.ledger.trades[p] == d.ledger.trades[p])
            && (p in a.cache <==> p in d.cache) && (p in d.cache ==> a.cache[p] == d.cache[p])
  {
    hide AfterGroup, UniqueIds, SameFor;
    GroupIsOfPosition(history, g);
    var batch := GroupTouches(d, s, g, lookup);
    forall b, x | b in batch && x in d.ledger.deals && x.id == b.id
      ensures x.position != p
    {
      var e :| (e in g.opens || e in g.closes || e in lookup) && e.id == b.id && e.position == g.position;
      InHistory(history, g, lookup, e);
      var k :| 0 <= k < |d.ledger.deals| && d.ledger.deals[k] == x;
      assert RowOk(history, d.ledger.deals[k]);
    }
    UpsertsKeepOthers(d.ledger.deals, batch, p);
  }

  lemma GroupIsOfPosition(history: set<BrokerDeal>, g: Group)
    requires GroupOk(history, g)
    ensures AllOf(g.opens, g.position) && AllOf(g.closes, g.position)
  {}

  lemma InHistory(history: set<BrokerDeal>, g: Group, lookup: seq<BrokerDeal>, e: BrokerDeal)
    requires GroupOk(history, g) && FromHistory(history, lookup) && (e in g.opens || e in g.closes || e in lookup)
    ensures e in history
  {}

  // ---------- what a position's deals make of its row ----------

  /** The entries a pass goes by: those of the response, else of the position's lookup if the row is unknown. */
  function EntriesFor(d: Durable, g: Group, lookup: seq<BrokerDeal>): seq<BrokerDeal> {
    if g.opens != [] then g.opens else if g.position in d.ledger.trades then [] else Keep(lookup, EntryOf(g.position))
  }

  /** Of the position's rows, those of these deals carry the broker's columns; the others were there before. */
  ghost predicate RowsFrom(before: seq<Deal>, p: string, entries: seq<BrokerDeal>, closes: seq<BrokerDeal>, after: seq<Deal>) {
    && (forall e | e in entries :: BrokerRow(e, In) in after) && (forall c | c in closes :: BrokerRow(c, Out) in after)
    && forall r | r in after && r.position == p ::
         (exists e | e in entries :: r == BrokerRow(e, In)) || (exists c | c in closes :: r == BrokerRow(c, Out)) || r in before
  }

  /** The row is the known one, or one opened from its earliest entry, recomputed over its rows. */
  ghost predicate PositionTold(d: Durable, s: Settings, p: string, entries: seq<BrokerDeal>, closes: seq<BrokerDeal>, l: LedgerState) {
    && p in l.trades && RowsFrom(d.ledger.deals, p, entries, closes, l.deals)
    && exists start, last :: ToldBy(d, s, p, entries, closes, l, start, last)
  }

  ghost predicate ToldBy(
      d: Durable, s: Settings, p: string, entries: seq<BrokerDeal>, closes: seq<BrokerDeal>, l: LedgerState, start: Trade, last: BrokerDeal)
  {
    && p in l.trades
    && (if p in d.ledger.trades then start == d.ledger.trades[p] else OpenedFrom(d, s, p, entries, start))
    && IsLatest(closes, last) && RowTold(l.deals, p, start, Some(last.reason), l.trades[p])
  }

  /** The ledger says of p what it said before. */
  ghost predicate Quiet(before: LedgerState, p: string, after: LedgerState) {
    && SameFor(p, before.deals, after.deals) && (p in before.trades <==> p in after.trades)
    && (p in before.trades ==> after.trades[p] == before.trades[p])
  }

  ghost predicate SameCache(d: Durable, p: string, e: Durable) {
    (p in d.cache <==> p in e.cache) && (p in d.cache ==> d.cache[p] == e.cache[p])
  }

  /** Opened in a transaction of its own, before its deals were refused. */
  ghost predicate HalfOpened(d: Durable, s: Settings, p: string, entries: seq<BrokerDeal>, l: LedgerState) {
    p !in d.ledger.trades && p in l.trades && OpenedFrom(d, s, p, entries, l.trades[p]) && SameFor(p, d.ledger.deals, l.deals)
  }

  /** The group has closes to record, no reversal among them, and a known row or an entry to open one from. */
  predicate Recordable(d: Durable, g: Group, lookup: seq<BrokerDeal>) {
    g.closes != [] && !g.reversal && (g.position in d.ledger.trades || EntriesFor(d, g, lookup) != [])
  }

  ghost predicate Verdict(d: Durable, s: Settings, g: Group, lookup: seq<BrokerDeal>, l: LedgerState, ok: bool) {
    var p, entries := g.position, EntriesFor(d, g, lookup);
    if Recordable(d, g, lookup) then
      PositionTold(d, s, p, entries, g.closes, l)
      || (!ok && (Quiet(d.ledger, p, l) || HalfOpened(d, s, p, entries, l)))
    else Quiet(d.ledger, p, l)
  }

  // ---------- from the table to the position ----------

  /** Two rows of one deal are the same row. */
  ghost predicate OneRowPerDeal(rows: seq<Deal>) { forall i, j | 0 <= i < |rows| && 0 <= j < |rows| && rows[i].id == rows[j].id :: rows[i] == rows[j] }

  lemma {:induction false} SomeLastVersion(rows: seq<Deal>, k: nat) returns (j: nat)
    requires k < |rows|
    ensures LastVersion(rows, j) && rows[j].id == rows[k].id
    decreases |rows| - k
  {
    if i :| k < i < |rows| && rows[i].id == rows[k].id {
      j := SomeLastVersion(rows, i);
    } else {
      j := k;
    }
  }

  lemma {:induction false} BatchHasOneRowPerDeal(history: set<BrokerDeal>, overlap: int, entries: seq<BrokerDeal>, closes: seq<BrokerDeal>)
    requires ValidHistory(history, overlap)
    requires forall e | e in entries :: e in history && e.entry.EntryIn?
    requires forall c | c in closes :: c in history && IsClose(c)
    ensures OneRowPerDeal(BrokerRows(entries, In) + BrokerRows(closes, Out))
  {
    BrokerRowsAt(entries, In);
    BrokerRowsAt(closes, Out);
    var rows, n := BrokerRows(entries, In) + BrokerRows(closes, Out), |entries|;
    forall i, j | 0 <= i < |rows| && 0 <= j < |rows| && rows[i].id == rows[j].id
      ensures rows[i] == rows[j]
    {
      var a := if i < n then entries[i] else closes[i - n];
      var b := if j < n then entries[j] else closes[j - n];
      assert a in history && b in history && a.id == b.id;
      assert a == b;
    }
  }

  lemma {:induction false} TableHasRows(before: seq<Deal>, p: string, entries: seq<BrokerDeal>, closes: seq<BrokerDeal>, after: seq<Deal>)
    requires TableTold(before, BrokerRows(entries, In) + BrokerRows(closes, Out), after)
    requires OneRowPerDeal(BrokerRows(entries, In) + BrokerRows(closes, Out))
    ensures RowsFrom(before, p, entries, closes, after)
  {
    BatchRowsAre(entries, closes);
    var rows, n := BrokerRows(entries, In) + BrokerRows(closes, Out), |entries|;
    hide BrokerRows, BrokerRow;
    forall k | 0 <= k < |rows|
      ensures rows[k] in after
    {
      var j := SomeLastVersion(rows, k);
    }
    hide OneRowPerDeal;
    forall e | e in entries
      ensures BrokerRow(e, In) in after
    {
      var k :| 0 <= k < n && entries[k] == e;
      assert rows[k] == BrokerRow(e, In);
    }
    forall c | c in closes
      ensures BrokerRow(c, Out) in after
    {
      var k :| 0 <= k < |closes| && closes[k] == c;
      assert rows[n + k] == BrokerRow(c, Out);
    }
    forall r | r in after && r.position == p && !(r in before)
      ensures (exists e | e in entries :: r == BrokerRow(e, In)) || (exists c | c in closes :: r == BrokerRow(c, Out))
    {
      var k: nat :| LastVersion(rows, k) && rows[k] == r;
      RowHasDeal(entries, closes, rows, k);
    }
  }

  lemma {:induction false} BatchRowsAre(entries: seq<BrokerDeal>, closes: seq<BrokerDeal>)
    ensures var rows, n := BrokerRows(entries, In) + BrokerRows(closes, Out), |entries|;
            && |rows| == n + |closes| && (forall k | 0 <= k < n :: rows[k] == BrokerRow(entries[k], In))
            && (forall k | 0 <= k < |closes| :: rows[n + k] == BrokerRow(closes[k], Out))
  {
    BrokerRowsAt(entries, In);
    BrokerRowsAt(closes, Out);
    hide BrokerRows, BrokerRow;
  }

  lemma {:induction false} RowHasDeal(entries: seq<BrokerDeal>, closes: seq<BrokerDeal>, rows: seq<Deal>, k: nat)
    requires k < |rows| == |entries| + |closes| && (forall j | 0 <= j < |entries| :: rows[j] == BrokerRow(entries[j], In))
    requires forall j | 0 <= j < |closes| :: rows[|entries| + j] == BrokerRow(closes[j], Out)
    ensures (exists e | e in entries :: rows[k] == BrokerRow(e, In)) || (exists c | c in closes :: rows[k] == BrokerRow(c, Out))
  {
    hide BrokerRow;
    if k < |entries| {
      assert entries[k] in entries && rows[k] == BrokerRow(entries[k], In);
    } else {
      var j := k - |entries|;
      assert closes[j] in closes && rows[|entries| + j] == BrokerRow(closes[j], Out);
    }
  }

  /** A told position stays told while others are handled. */
  lemma ToldStays(d: Durable, s: Settings, p: string, entries: seq<BrokerDeal>, closes: seq<BrokerDeal>, a: LedgerState, b: LedgerState)
    requires PositionTold(d, s, p, entries, closes, a) && Quiet(a, p, b)
    requires forall e | e in entries :: e.position == p
    requires forall c | c in closes :: c.position == p
    ensures PositionTold(d, s, p, entries, closes, b)
  {
    hide RowTold, OpenedFrom, IsLatest;
    var start, last :| ToldBy(d, s, p, entries, closes, a, start, last);
    RowStays(p, a.deals, b.deals, start, Some(last.reason), a.trades[p]);
    assert ToldBy(d, s, p, entries, closes, b, start, last);
    RowsStay(d.ledger.deals, p, entries, closes, a.deals, b.deals);
  }

  lemma RowsStay(before: seq<Deal>, p: string, entries: seq<BrokerDeal>, closes: seq<BrokerDeal>, a: seq<Deal>, b: seq<Deal>)
    requires RowsFrom(before, p, entries, closes, a) && SameFor(p, a, b)
    requires forall e | e in entries :: e.position == p
    requires forall c | c in closes :: c.position == p
    ensures RowsFrom(before, p, entries, closes, b)
  {
    forall e | e in entries
      ensures BrokerRow(e, In) in b
    {
      assert BrokerRow(e, In).position == p;
    }
    forall c | c in closes
      ensures BrokerRow(c, Out) in b
    {
      assert BrokerRow(c, Out).position == p;
    }
  }

  lemma QuietTransitive(a: LedgerState, b: LedgerState, c: LedgerState, p: string)
    requires Quiet(a, p, b) && Quiet(b, p, c)
    ensures Quiet(a, p, c)
  {
    SameForTransitive(p, a.deals, b.deals, c.deals);
  }

  lemma {:induction false} VerdictStays(d: Durable, s: Settings, g: Group, lookup: seq<BrokerDeal>, a: LedgerState, b: LedgerState, ok: bool)
    requires Verdict(d, s, g, lookup, a, true) && Quiet(a, g.position, b) && AllOf(g.opens, g.position) && AllOf(g.closes, g.position)
    ensures Verdict(d, s, g, lookup, b, ok)
  {
    hide PositionTold, Quiet, Keep;
    KeptOf(lookup, g.position);
    if Recordable(d, g, lookup) {
      ToldStays(d, s, g.position, EntriesFor(d, g, lookup), g.closes, a, b);
    } else {
      QuietTransitive(d.ledger, a, b, g.position);
    }
  }

  // ---------- the groups of a pass, one after the other ----------

  /** What the pass knows of its groups. */
  ghost predicate PassGroups(history: set<BrokerDeal>, s: Settings, groups: seq<Group>, lookup: string -> seq<BrokerDeal>) {
    && ValidHistory(history, s.overlap) && GroupsOk(history, groups)
    && (forall i, j | 0 <= i < j < |groups| :: groups[i].position != groups[j].position)
    && (forall p :: FromHistory(history, lookup(p)))
    && (forall k | 0 <= k < |groups| :: forall e | e in groups[k].opens :: e.entry.EntryIn?)
  }

  /** After n groups: each of them as its deals say, all other positions as before. */
  ghost predicate PassTo(
      history: set<BrokerDeal>, d: Durable, s: Settings, groups: seq<Group>, lookup: string -> seq<BrokerDeal>, n: nat, cur: Progress)
    requires n <= |groups|
  {
    && UniqueIds(cur.durable.ledger.deals) && RowsOk(history, cur.durable.ledger.deals)
    && (forall k | 0 <= k < n :: Verdict(d, s, groups[k], lookup(groups[k].position), cur.durable.ledger, cur.ok))
    && (forall p | (forall k | 0 <= k < n :: groups[k].position != p) ::
          Quiet(d.ledger, p, cur.durable.ledger) && SameCache(d, p, cur.durable))
  }

  /** The group's own step, as seen from the start of the pass. */
  lemma {:induction false} OwnStep(history: set<BrokerDeal>, d: Durable, s: Settings, g: Group, lookup: seq<BrokerDeal>, mid: Durable)
    requires UniqueIds(mid.ledger.deals) && RowsOk(history, mid.ledger.deals) && ValidHistory(history, s.overlap)
    requires GroupOk(history, g) && FromHistory(history, lookup)
    requires Quiet(d.ledger, g.position, mid.ledger) && SameCache(d, g.position, mid)
    ensures var after := AfterGroup(mid, s, g, lookup); Verdict(d, s, g, lookup, after.durable.ledger, after.ok)
  {
    hide AfterGroup, Keep, OpenedFrom, UniqueIds, RowOk, RowTold, TableTold, BrokerRows, SameFor, IsLatest, PositionTold, Deliverable, Quiet, ValidHistory;
    var p := g.position;
    GroupIsOfPosition(history, g);
    GroupIsDone(mid, s, g, lookup);
    QuietParts(d.ledger, p, mid.ledger);
    var entries, after := EntriesFor(d, g, lookup), AfterGroup(mid, s, g, lookup);
    if Recordable(d, g, lookup) {
      EntriesAreEntries(history, d, g, lookup);
      GroupClosesAreCloses(history, g);
      BatchHasOneRowPerDeal(history, s.overlap, entries, g.closes);
      if g.opens == [] && p in d.ledger.trades {
        NoBrokerRows();
        assert BrokerRows(entries, In) + BrokerRows(g.closes, Out) == BrokerRows(g.closes, Out);
        if after.ok {
          CompletedIsTold(d, s, p, entries, g.closes, mid, d.ledger.trades[p], after.durable);
        }
      } else {
        var start :| ImportDone(mid, s, g, entries, start, after);
        SameOpening(d, s, p, entries, mid, start);
        if after.ok {
          CompletedIsTold(d, s, p, entries, g.closes, mid, start, after.durable);
        } else if p in d.ledger.trades {
          assert mid.ledger.trades[p := start] == mid.ledger.trades;
        } else {
          HalfOpenedIsTold(d, s, p, entries, mid, start, after.durable);
        }
      }
    } else {
      UnrecordedIsQuiet(mid, s, g, lookup, after);
    }
  }

  lemma QuietParts(a: LedgerState, p: string, b: LedgerState)
    requires Quiet(a, p, b)
    ensures SameFor(p, a.deals, b.deals) && (p in a.trades <==> p in b.trades) && (p in a.trades ==> b.trades[p] == a.trades[p])
  {}

  lemma GroupClosesAreCloses(history: set<BrokerDeal>, g: Group)
    requires GroupOk(history, g)
    ensures forall c | c in g.closes :: c in history && IsClose(c)
    ensures forall e | e in g.opens :: e in history && e.entry.EntryIn?
  {}

  lemma {:induction false} EntriesAreEntries(history: set<BrokerDeal>, d: Durable, g: Group, lookup: seq<BrokerDeal>)
    requires GroupOk(history, g) && FromHistory(history, lookup)
    ensures forall e | e in EntriesFor(d, g, lookup) :: e in history && e.entry.EntryIn? && e.position == g.position
  {
    hide Keep;
    KeptFrom(lookup, EntryOf(g.position));
    GroupClosesAreCloses(history, g);
    GroupIsOfPosition(history, g);
  }

  lemma SameOpening(d: Durable, s: Settings, p: string, entries: seq<BrokerDeal>, mid: Durable, start: Trade)
    requires SameCache(d, p, mid)
    ensures OpenedFrom(d, s, p, entries, start) <==> OpenedFrom(mid, s, p, entries, start)
  {}

  lemma {:induction false} CompletedIsTold(
      d: Durable, s: Settings, p: string, entries: seq<BrokerDeal>, closes: seq<BrokerDeal>, mid: Durable, start: Trade, after: Durable)
    requires Completed(mid, p, BrokerRows(entries, In) + BrokerRows(closes, Out), start, closes, after)
    requires OneRowPerDeal(BrokerRows(entries, In) + BrokerRows(closes, Out)) && SameFor(p, d.ledger.deals, mid.ledger.deals)
    requires if p in d.ledger.trades then start == d.ledger.trades[p] else OpenedFrom(d, s, p, entries, start)
    ensures PositionTold(d, s, p, entries, closes, after.ledger)
  {
    hide OpenedFrom, RowTold, TableTold, IsLatest, BrokerRows, OneRowPerDeal;
    TableHasRows(mid.ledger.deals, p, entries, closes, after.ledger.deals);
    var last :| IsLatest(closes, last) && RowTold(after.ledger.deals, p, start, Some(last.reason), after.ledger.trades[p]);
    assert ToldBy(d, s, p, entries, closes, after.ledger, start, last);
  }

  lemma {:induction false} HalfOpenedIsTold(
      d: Durable, s: Settings, p: string, entries: seq<BrokerDeal>, mid: Durable, start: Trade, after: Durable)
    requires Quiet(d.ledger, p, mid.ledger) && p !in d.ledger.trades && OpenedFrom(d, s, p, entries, start)
    requires after == mid || after == mid.(ledger := mid.ledger.(trades := mid.ledger.trades[p := start]))
    ensures Quiet(d.ledger, p, after.ledger) || HalfOpened(d, s, p, entries, after.ledger)
  {
    hide OpenedFrom;
  }

  /** A group that records nothing leaves the ledger alone. */
  lemma {:induction false} UnrecordedIsQuiet(mid: Durable, s: Settings, g: Group, lookup: seq<BrokerDeal>, after: Progress)
    requires GroupDone(mid, s, g, lookup, after) && !Recordable(mid, g, lookup)
    ensures after.durable.ledger == mid.ledger
  {
    hide Keep, Completed, OpenedFrom, ImportDone;
  }

  lemma {:induction false} StepKeepsTable(history: set<BrokerDeal>, d: Durable, s: Settings, g: Group, lookup: seq<BrokerDeal>)
    requires UniqueIds(d.ledger.deals) && RowsOk(history, d.ledger.deals) && ValidHistory(history, s.overlap)
    requires GroupOk(history, g) && FromHistory(history, lookup)
    ensures var a := AfterGroup(d, s, g, lookup).durable; UniqueIds(a.ledger.deals) && RowsOk(history, a.ledger.deals)
  {
    hide AfterGroup, UniqueIds, RowsOk, ValidHistory, ActionFor, Recover, Open, Settled, Admissible, OpenRefused;
    GroupIsOfPosition(history, g);
    var batch := GroupTouches(d, s, g, lookup);
    UpsertKeepsIdsUnique(d.ledger.deals, batch);
    WriteGrows(history, s, d, g, lookup);
    StepByAction(d, s, g, lookup);
    ActionBatch(d, s, g, lookup);
    var action := ActionFor(d, s, g, lookup);
    if action.AttachCloses? {
      AttachGrows(history, s, d, g, lookup);
      SettlingKeepsLedger(d.(ledger := Recover(d.ledger, g.position, action.batch)), g.position);
    } else if action.ImportTrade? {
      ImportGrows(history, s, d, g, lookup);
      OpenTouches(d, action.payload);
      SettlingKeepsLedger(d.(ledger := Recover(Open(d.ledger, action.payload), g.position, action.trade)), g.position);
    }
  }

  lemma SettlingKeepsLedger(d: Durable, p: string)
    ensures Settled(d, p).ledger == d.ledger
  {}

  lemma {:induction false} GroupsAreTold(
      history: set<BrokerDeal>, d: Durable, s: Settings, groups: seq<Group>, lookup: string -> seq<BrokerDeal>, n: nat)
    requires PassGroups(history, s, groups, lookup) && n <= |groups|
    requires UniqueIds(d.ledger.deals) && RowsOk(history, d.ledger.deals)
    ensures PassTo(history, d, s, groups, lookup, n, AfterGroups(d, s, groups, lookup, n))
  {
    hide AfterGroup, UniqueIds, RowsOk, Verdict, Quiet, ValidHistory, GroupOk, FromHistory;
    if n == 0 {
      EverythingQuiet(d);
    } else {
      GroupsAreTold(history, d, s, groups, lookup, n - 1);
      var before := AfterGroups(d, s, groups, lookup, n - 1);
      if before.ok {
        var g := groups[n - 1];
        var after := AfterGroup(before.durable, s, g, lookup(g.position));
        assert GroupOk(history, g) by { GroupsOkAt(history, groups, n - 1); }
        GroupIsOfPosition(history, g);
        assert forall k | 0 <= k < n - 1 :: groups[k].position != g.position;
        StepKeepsTable(history, before.durable, s, g, lookup(g.position));
        OwnStep(history, d, s, g, lookup(g.position), before.durable);
        forall k | 0 <= k < n - 1
          ensures Verdict(d, s, groups[k], lookup(groups[k].position), after.durable.ledger, after.ok)
        {
          assert GroupOk(history, groups[k]) by { GroupsOkAt(history, groups, k); }
          GroupIsOfPosition(history, groups[k]);
          OthersAreQuiet(history, before.durable, s, g, lookup(g.position), groups[k].position);
          VerdictStays(d, s, groups[k], lookup(groups[k].position), before.durable.ledger, after.durable.ledger, after.ok);
        }
        forall p | forall k | 0 <= k < n :: groups[k].position != p
          ensures Quiet(d.ledger, p, after.durable.ledger) && SameCache(d, p, after.durable)
        {
          assert groups[n - 1].position != p;
          OthersAreQuiet(history, before.durable, s, g, lookup(g.position), p);
          QuietTransitive(d.ledger, before.durable.ledger, after.durable.ledger, p);
        }
      } else {
        RefusedVerdict(d, s, groups[n - 1], lookup(groups[n - 1].position), before.durable.ledger, groups, n);
      }
    }
  }

  /** A group that comes after a refused one is left alone. */
  lemma RefusedVerdict(d: Durable, s: Settings, g: Group, lookup: seq<BrokerDeal>, l: LedgerState, groups: seq<Group>, n: nat)
    requires Quiet(d.ledger, g.position, l)
    ensures Verdict(d, s, g, lookup, l, false)
  {}

  lemma GroupsOkAt(history: set<BrokerDeal>, groups: seq<Group>, k: nat)
    requires GroupsOk(history, groups) && k < |groups|
    ensures GroupOk(history, groups[k])
  {}

  lemma EverythingQuiet(d: Durable)
    ensures forall p: string :: Quiet(d.ledger, p, d.ledger)
  {}

  lemma {:induction false} OthersAreQuiet(history: set<BrokerDeal>, d: Durable, s: Settings, g: Group, lookup: seq<BrokerDeal>, p: string)
    requires UniqueIds(d.ledger.deals) && RowsOk(history, d.ledger.deals) && GroupOk(history, g) && FromHistory(history, lookup)
    requires p != g.position
    ensures var a := AfterGroup(d, s, g, lookup).durable; Quiet(d.ledger, p, a.ledger) && SameCache(d, p, a)
  {
    GroupKeepsOthers(history, d, s, g, lookup, p);
  }

  // ---------- every run ----------

  /** The ledger row of a close is the broker's deal, column by column; every row has its trade. */
  ghost predicate Sound(history: set<BrokerDeal>, l: LedgerState) {
    && UniqueIds(l.deals) && RowsHaveTrades(l)
    && forall r | r in l.deals && r.kind.Out? :: exists c :: c in history && IsClose(c) && r == BrokerRow(c, Out)
  }

  lemma {:induction false} UpsertsKeepSound(history: set<BrokerDeal>, l: LedgerState, batch: seq<Deal>, after: LedgerState)
    requires Sound(history, l) && after.deals == UpsertDeals(l.deals, batch) && l.trades.Keys <= after.trades.Keys
    requires forall b | b in batch ::
               b.position in after.trades && (b.kind.Out? ==> exists c :: c in history && IsClose(c) && b == BrokerRow(c, Out))
    ensures Sound(history, after)
  {
    UpsertIsTold(l.deals, batch);
    UpsertKeepsIdsUnique(l.deals, batch);
    forall r | r in after.deals
      ensures r.position in after.trades
      ensures r.kind.Out? ==> exists c :: c in history && IsClose(c) && r == BrokerRow(c, Out)
    {
      if !(r in l.deals) {
        var k: nat :| LastVersion(batch, k) && batch[k] == r;
        assert r in batch;
      }
    }
  }

  lemma {:induction false} GroupKeepsSound(history: set<BrokerDeal>, d: Durable, s: Settings, g: Group, lookup: seq<BrokerDeal>)
    requires Sound(history, d.ledger) && GroupOk(history, g)
    ensures Sound(history, AfterGroup(d, s, g, lookup).durable.ledger)
  {
    hide AfterGroup, Sound;
    GroupIsOfPosition(history, g);
    GroupClosesAreCloses(history, g);
    var batch := GroupTouches(d, s, g, lookup);
    var after := AfterGroup(d, s, g, lookup).durable;
    UpsertsKeepSound(history, d.ledger, batch, after.ledger);
  }

  /** The open row, with its entry deal if it names one. */
  lemma {:induction false} OpenKeepsSound(history: set<BrokerDeal>, l: LedgerState, p: OpenPayload)
    requires Sound(history, l)
    ensures Sound(history, Open(l, p))
  {
    hide Sound, UpsertDeals;
    if p.position !in l.trades {
      var entry := EntryRow(p);
      OpenIsUpsert(l, p);
      UpsertsKeepSound(history, l, entry, Open(l, p));
    }
  }

  lemma OpenIsUpsert(l: LedgerState, p: OpenPayload)
    requires p.position !in l.trades
    ensures Open(l, p).deals == UpsertDeals(l.deals, EntryRow(p))
  {
    if p.dealId.Some? {
      assert EntryRow(p)[..0] == [];
      assert UpsertDeals(l.deals, EntryRow(p)[..0]) == l.deals;
    }
  }

  lemma {:induction false} StepKeepsSound(history: set<BrokerDeal>, s: Settings, sys: System, step: Step)
    requires Sound(history, sys.durable.ledger) && Inv(history, s, sys)
    ensures Sound(history, After(sys, s, step).durable.ledger)
  {
    hide Sound, AfterGroup, Recover, Open, ActionFor, NoGap, RowsOk, Write, Unfinished, OwnedPositions, GroupsOf, MergeDeals;
    var d, ph := sys.durable, sys.phase;
    if ph.Grouping? && |ph.groups| > 0 {
      assert GroupOk(history, ph.groups[0]);
    }
    match step {
      case HandleGroup(lookup) =>
        if ph.Grouping? && |ph.groups| > 0 {
          GroupKeepsSound(history, d, s, ph.groups[0], lookup);
          WriteIsGroupStep(d, s, ph.groups[0], lookup);
        }
      case CrashInImport(lookup) =>
        if ph.Grouping? && |ph.groups| > 0 {
          UnfinishedIsOpen(d, ActionFor(d, s, ph.groups[0], lookup));
          if ActionFor(d, s, ph.groups[0], lookup).ImportTrade? {
            OpenKeepsSound(history, d.ledger, ActionFor(d, s, ph.groups[0], lookup).payload);
          }
        }
      case ExecutorOpens(payload, entry) =>
        OpenKeepsSound(history, d.ledger, payload);
      case RowClosed(position, trade) =>
        if position in d.ledger.trades {
          TradesKeepSound(history, d.ledger, position, trade);
        }
      case Begin(_, _, _) =>
      case Drop =>
      case Compare(_) =>
      case ClearOne =>
      case Decide =>
      case Stop =>
    }
  }

  lemma WriteIsGroupStep(d: Durable, s: Settings, g: Group, lookup: seq<BrokerDeal>)
    ensures var action, after := ActionFor(d, s, g, lookup), AfterGroup(d, s, g, lookup).durable;
            match Write(d, g, action)
            case None => after == Unfinished(d, action)
            case Some(w) => after.ledger == w.ledger
  {
    hide ActionFor, Write, Unfinished;
  }

  lemma UnfinishedIsOpen(d: Durable, a: GroupAction)
    ensures Unfinished(d, a).ledger == d.ledger || (a.ImportTrade? && Unfinished(d, a).ledger == Open(d.ledger, a.payload))
  {
    hide Open;
  }

  lemma TradesKeepSound(history: set<BrokerDeal>, l: LedgerState, position: string, trade: Trade)
    requires Sound(history, l) && position in l.trades
    ensures Sound(history, l.(trades := l.trades[position := trade]))
  {}

  /** In every reachable state the ledger's closing rows mirror the broker's deals, and no row is an orphan. */
  lemma {:induction false} LedgerMirrorsBroker(history: set<BrokerDeal>, s: Settings, steps: seq<Step>)
    requires ValidHistory(history, s.overlap) && PossibleRun(history, s, INITIAL, steps)
    ensures Sound(history, Execute(s, INITIAL, steps).durable.ledger)
  {
    hide After, Inv, Sound, Possible, ValidHistory;
    if |steps| == 0 {
      assert Sound(history, INITIAL.durable.ledger) by { NothingIsSound(history); }
    } else {
      var front := steps[..|steps| - 1];
      RunIsPossible(history, s, steps);
      LedgerMirrorsBroker(history, s, front);
      RunHasInv(history, s, front);
      StepKeepsSound(history, s, Execute(s, INITIAL, front), steps[|steps| - 1]);
    }
  }

  lemma NothingIsSound(history: set<BrokerDeal>)
    ensures Sound(history, INITIAL.durable.ledger)
  {}

  lemma {:induction false} RunIsPossible(history: set<BrokerDeal>, s: Settings, steps: seq<Step>)
    requires PossibleRun(history, s, INITIAL, steps) && |steps| > 0
    ensures PossibleRun(history, s, INITIAL, steps[..|steps| - 1])
  {
    hide Possible, Execute;
    var front := steps[..|steps| - 1];
    forall k | 0 <= k < |front|
      ensures Possible(history, s, Execute(s, INITIAL, front[..k]), front[k])
    {
      assert front[..k] == steps[..k];
    }
  }

  lemma {:induction false} RunHasInv(history: set<BrokerDeal>, s: Settings, steps: seq<Step>)
    requires ValidHistory(history, s.overlap) && PossibleRun(history, s, INITIAL, steps)
    ensures Inv(history, s, Execute(s, INITIAL, steps))
  {
    InitialInv(history, s);
    RunKeepsInv(history, s, INITIAL, steps);
  }

  // ---------- a whole pass ----------

  /** A row that a pass adds: side, order and time of the earliest of the entries, the risk from the cache,
      and the volume of its entry rows. */
  ghost predicate AddedRow(d: Durable, s: Settings, p: string, entries: seq<BrokerDeal>, l: LedgerState) {
    && p in l.trades
    && var t := l.trades[p];
       && t.strategy == s.strategy && t.riskUsd == (if p in d.cache then d.cache[p].riskUsd else None)
       && (exists first ::
             IsEarliest(entries, first)
             && (if first.buy then t.side == Buy else t.side == Sell) && t.orderId == first.order && t.entryTime == first.time)
       && (Total(l.deals, p, Some(In), VolumeOf()) != 0.0 ==> t.entryVolume == Total(l.deals, p, Some(In), VolumeOf()))
  }

  /** Its deals are exactly the rows of its own entries and closes, with the broker's columns; none at all if
      the batch was refused after the row was opened. */
  ghost predicate AddedRows(p: string, entries: seq<BrokerDeal>, closes: seq<BrokerDeal>, l: LedgerState) {
    || (forall r: Deal | r.position == p ::
          r in l.deals <==> (exists e | e in entries :: r == BrokerRow(e, In)) || (exists c | c in closes :: r == BrokerRow(c, Out)))
    || (forall r | r in l.deals :: r.position != p)
  }

  lemma {:induction false} ToldIsAdded(d: Durable, s: Settings, p: string, entries: seq<BrokerDeal>, closes: seq<BrokerDeal>, l: LedgerState)
    requires PositionTold(d, s, p, entries, closes, l) && p !in d.ledger.trades && RowsHaveTrades(d.ledger)
    requires forall e | e in entries :: e.position == p
    requires forall c | c in closes :: c.position == p
    ensures AddedRow(d, s, p, entries, l) && AddedRows(p, entries, closes, l)
  {
    hide Total, PriceIs, EarliestAt, LatestAt, LatestIs, EarliestIs, MoneyIs, ExitIs;
    var start, last :| ToldBy(d, s, p, entries, closes, l, start, last);
    var first := OpeningEntry(d, s, p, entries, start);
    FirstIsAmongThem(entries, first);
    assert Counts(BrokerRow(first, In), p, Some(In));
    assert Has(l.deals, p, In);
    EntryTimeIsFirst(d, p, entries, closes, l, first, l.trades[p].entryTime);
    ExactlyTheirRows(d, p, entries, closes, l);
  }

  lemma OpeningEntry(d: Durable, s: Settings, p: string, entries: seq<BrokerDeal>, start: Trade) returns (first: BrokerDeal)
    requires OpenedFrom(d, s, p, entries, start)
    ensures IsEarliest(entries, first) && start.side == (if first.buy then Buy else Sell) && start.orderId == first.order
    ensures start.entryTime == first.time && start.strategy == s.strategy
    ensures start.riskUsd == if p in d.cache then d.cache[p].riskUsd else None
  {
    hide IsEarliest;
    first :|
      && IsEarliest(entries, first)
      && JustOpened(OpenPayload(position := p, strategy := s.strategy, side := if first.buy then Buy else Sell,
                                riskUsd := if p in d.cache then d.cache[p].riskUsd else None, entryTime := first.time,
                                entryVolume := VolumeSum(entries),
                                entryPrice := if p in d.cache then d.cache[p].actualEntry else Some(first.price),
                                orderId := first.order, dealId := None), start);
  }

  lemma FirstIsAmongThem(entries: seq<BrokerDeal>, first: BrokerDeal)
    requires IsEarliest(entries, first)
    ensures first in entries && forall e | e in entries :: e.time >= first.time
  {
    var i: nat :| EarliestAt(entries, i) && entries[i] == first;
    forall e | e in entries
      ensures e.time >= first.time
    {
      var j :| 0 <= j < |entries| && entries[j] == e;
      assert j < i || j == i || i < j;
    }
  }

  lemma EntryTimeIsFirst(
      d: Durable, p: string, entries: seq<BrokerDeal>, closes: seq<BrokerDeal>, l: LedgerState, first: BrokerDeal, t: int)
    requires RowsFrom(d.ledger.deals, p, entries, closes, l.deals) && p !in d.ledger.trades && RowsHaveTrades(d.ledger)
    requires first in entries && first.position == p && (forall e | e in entries :: e.time >= first.time)
    requires EarliestIs(l.deals, p, In, t)
    ensures t == first.time
  {
    var r :| r in l.deals && Counts(r, p, Some(In)) && r.time == t;
    assert !(r in d.ledger.deals);
    assert BrokerRow(first, In) in l.deals && Counts(BrokerRow(first, In), p, Some(In));
  }

  lemma ExactlyTheirRows(d: Durable, p: string, entries: seq<BrokerDeal>, closes: seq<BrokerDeal>, l: LedgerState)
    requires RowsFrom(d.ledger.deals, p, entries, closes, l.deals) && p !in d.ledger.trades && RowsHaveTrades(d.ledger)
    ensures AddedRows(p, entries, closes, l)
  {
    forall r: Deal | r.position == p
      ensures r in l.deals <==> (exists e | e in entries :: r == BrokerRow(e, In)) || (exists c | c in closes :: r == BrokerRow(c, Out))
    {
      assert !(r in d.ledger.deals);
    }
  }

  lemma {:induction false} HalfOpenedIsAdded(d: Durable, s: Settings, p: string, entries: seq<BrokerDeal>, closes: seq<BrokerDeal>, l: LedgerState)
    requires HalfOpened(d, s, p, entries, l) && RowsHaveTrades(d.ledger)
    ensures AddedRow(d, s, p, entries, l) && AddedRows(p, entries, closes, l)
  {
    hide IsEarliest;
    var first := OpeningEntry(d, s, p, entries, l.trades[p]);
    forall r | r in l.deals
      ensures r.position != p
    {
      assert r.position == p ==> r in d.ledger.deals;
    }
    NoRowsNoTotal(l.deals, p, Some(In), VolumeOf());
  }

  lemma {:induction false} NoRowsNoTotal(deals: seq<Deal>, p: string, kind: Option<EntryType>, amount: Deal -> real)
    requires forall r | r in deals :: r.position != p
    ensures Total(deals, p, kind, amount) == 0.0
    decreases |deals|
  {
    if |deals| > 0 {
      assert deals[0] in deals;
      NoRowsNoTotal(deals[1..], p, kind, amount);
    }
  }

  /** The deals a pass goes by for a position: entries of the response, else of the position's lookup. */
  function EntriesSeen(deals: seq<BrokerDeal>, lookup: seq<BrokerDeal>, p: string): seq<BrokerDeal> {
    if Keep(deals, EntryOf(p)) != [] then Keep(deals, EntryOf(p)) else Keep(lookup, EntryOf(p))
  }

  /** What a pass leaves of position p. */
  ghost predicate PositionAfter(d: Durable, s: Settings, deals: seq<BrokerDeal>, owned: set<string>, lookup: seq<BrokerDeal>, p: string, l: LedgerState) {
    && (p in l.trades && p !in d.ledger.trades ==>
          AddedRow(d, s, p, EntriesSeen(deals, lookup, p), l)
          && AddedRows(p, EntriesSeen(deals, lookup, p), Keep(deals, CloseOf(p, owned)), l))
    && (p in d.ledger.trades && Keep(deals, CloseOf(p, owned)) == [] ==> p in l.trades && l.trades[p] == d.ledger.trades[p])
  }

  /** Every closing deal of a recordable position is in the ledger, and its row is recomputed over them. */
  ghost predicate PositionComplete(d: Durable, s: Settings, deals: seq<BrokerDeal>, owned: set<string>, lookup: seq<BrokerDeal>, p: string, l: LedgerState) {
    var closes := Keep(deals, CloseOf(p, owned));
    var entries := if p in d.ledger.trades then Keep(deals, EntryOf(p)) else EntriesSeen(deals, lookup, p);
    closes != [] && (forall c | c in closes :: c.entry == EntryOut) && (p in d.ledger.trades || entries != []) ==>
      PositionTold(d, s, p, entries, closes, l)
  }

  lemma {:induction false} GroupsArePass(history: set<BrokerDeal>, s: Settings, deals: seq<BrokerDeal>, owned: set<string>, lookup: string -> seq<BrokerDeal>)
    requires ValidHistory(history, s.overlap) && FromHistory(history, deals) && forall p :: FromHistory(history, lookup(p))
    ensures PassGroups(history, s, GroupsOf(deals, owned), lookup)
  {
    hide Keep, ValidHistory, FromHistory, GroupTold;
    GroupingIsTold(deals, owned);
    GroupingIsOk(history, deals, owned);
    var groups := GroupsOf(deals, owned);
    forall k | 0 <= k < |groups|
      ensures forall e | e in groups[k].opens :: e.entry.EntryIn?
    {
      assert GroupOk(history, groups[k]);
    }
  }

  lemma {:induction false} GroupVerdict(
      d: Durable, s: Settings, deals: seq<BrokerDeal>, owned: set<string>, lookup: seq<BrokerDeal>, g: Group, l: LedgerState, ok: bool)
    requires RowsHaveTrades(d.ledger) && GroupTold(deals, owned, g) && Verdict(d, s, g, lookup, l, ok)
    ensures PositionAfter(d, s, deals, owned, lookup, g.position, l)
    ensures ok ==> PositionComplete(d, s, deals, owned, lookup, g.position, l)
  {
    hide Keep, RowsHaveTrades, PositionTold, HalfOpened, AddedRow, AddedRows;
    var p := g.position;
    KeptFrom(deals, EntryOf(p));
    KeptFrom(deals, CloseOf(p, owned));
    KeptFrom(lookup, EntryOf(p));
    var entries := EntriesFor(d, g, lookup);
    if p !in d.ledger.trades {
      if PositionTold(d, s, p, entries, g.closes, l) {
        ToldIsAdded(d, s, p, entries, g.closes, l);
      }
      if HalfOpened(d, s, p, entries, l) {
        HalfOpenedIsAdded(d, s, p, entries, g.closes, l);
      }
    }
    if forall c | c in g.closes :: c.entry == EntryOut {
      assert !g.reversal;
    }
  }

  /** A pass, position by position: what it adds is what the position's own deals say; what has no closing
      deal keeps its row; and unless a write was refused, every position with closes, without a reversal
      and with a known row or an entry, is complete. */
  lemma {:induction false} PassIsTold(
      history: set<BrokerDeal>, s: Settings, d: Durable, deals: seq<BrokerDeal>, owned: set<string>, lookup: string -> seq<BrokerDeal>)
    requires ValidHistory(history, s.overlap) && FromHistory(history, deals) && forall p :: FromHistory(history, lookup(p))
    requires Sound(history, d.ledger) && RowsOk(history, d.ledger.deals)
    ensures var r := AfterGroups(d, s, GroupsOf(deals, owned), lookup, |GroupsOf(deals, owned)|);
            && (forall p :: PositionAfter(d, s, deals, owned, lookup(p), p, r.durable.ledger))
            && (r.ok ==> forall p :: PositionComplete(d, s, deals, owned, lookup(p), p, r.durable.ledger))
  {
    hide Keep, ValidHistory, FromHistory, AfterGroups, GroupsOf, Verdict, PositionAfter, PositionComplete, GroupTold, RowsOk, Quiet;
    var groups := GroupsOf(deals, owned);
    GroupsArePass(history, s, deals, owned, lookup);
    GroupingIsTold(deals, owned);
    GroupsAreTold(history, d, s, groups, lookup, |groups|);
    var r := AfterGroups(d, s, groups, lookup, |groups|);
    forall p
      ensures PositionAfter(d, s, deals, owned, lookup(p), p, r.durable.ledger)
      ensures r.ok ==> PositionComplete(d, s, deals, owned, lookup(p), p, r.durable.ledger)
    {
      if k :| 0 <= k < |groups| && groups[k].position == p {
        GroupVerdict(d, s, deals, owned, lookup(p), groups[k], r.durable.ledger, r.ok);
      } else {
        assert Quiet(d.ledger, p, r.durable.ledger);
        QuietPosition(d, s, deals, owned, lookup(p), p, r.durable.ledger);
      }
    }
  }

  lemma QuietPosition(d: Durable, s: Settings, deals: seq<BrokerDeal>, owned: set<string>, lookup: seq<BrokerDeal>, p: string, l: LedgerState)
    requires Quiet(d.ledger, p, l) && Keep(deals, CloseOf(p, owned)) == []
    ensures PositionAfter(d, s, deals, owned, lookup, p, l) && PositionComplete(d, s, deals, owned, lookup, p, l)
  {}
}
