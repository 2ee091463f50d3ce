/** No gap behind the watermark: in every reachable state, every own close between the first completed
    pass's start and the watermark minus the overlap is in the ledger. */
module WatermarkSafety {
  import opened Options
  import opened Ledger
  import opened Reconciliation

  // ---------- rows agree with the broker ----------

  ghost predicate RowOk(history: set<BrokerDeal>, row: Deal) {
    && (row.kind.Out? ==> exists d | d in history :: d.id == row.id && IsClose(d))
    && (forall d | d in history && d.id == row.id :: d.position == row.position && (IsClose(d) <==> row.kind.Out?))
  }

  ghost predicate RowsOk(history: set<BrokerDeal>, rows: seq<Deal>) {
    forall k | 0 <= k < |rows| :: RowOk(history, rows[k])
  }

  /** Every exit row of the earlier table is still an exit row of the same position. */
  ghost predicate ExitsStay(earlier: seq<Deal>, later: seq<Deal>) {
    forall k | 0 <= k < |earlier| && earlier[k].kind.Out? ::
      exists j :: 0 <= j < |later| && later[j].kind.Out? && later[j].id == earlier[k].id && later[j].position == earlier[k].position
  }

  lemma UpsertKeepsExits(history: set<BrokerDeal>, rows: seq<Deal>, row: Deal)
    requires RowsOk(history, rows) && RowOk(history, row)
    ensures RowsOk(history, UpsertDeal(rows, row)) && ExitsStay(rows, UpsertDeal(rows, row))
  {
    var r := UpsertDeal(rows, row);
    forall k | 0 <= k < |rows| && rows[k].kind.Out?
      ensures exists j :: 0 <= j < |r| && r[j].kind.Out? && r[j].id == rows[k].id && r[j].position == rows[k].position
    {
      assert r[k] == rows[k] || (r[k] == row && row.id == rows[k].id);
      var d :| d in history && d.id == rows[k].id && IsClose(d);
      assert r[k].kind.Out? && r[k].position == rows[k].position;
    }
  }

  lemma ExitsStayTransitive(a: seq<Deal>, b: seq<Deal>, c: seq<Deal>)
    requires ExitsStay(a, b) && ExitsStay(b, c)
    ensures ExitsStay(a, c)
  {
    forall k | 0 <= k < |a| && a[k].kind.Out?
      ensures exists j :: 0 <= j < |c| && c[j].kind.Out? && c[j].id == a[k].id && c[j].position == a[k].position
    {
      var i :| 0 <= i < |b| && b[i].kind.Out? && b[i].id == a[k].id && b[i].position == a[k].position;
    }
  }

  lemma {:induction false} BatchKeepsExits(history: set<BrokerDeal>, rows: seq<Deal>, batch: seq<Deal>)
    requires RowsOk(history, rows) && RowsOk(history, batch)
    ensures RowsOk(history, UpsertDeals(rows, batch)) && ExitsStay(rows, UpsertDeals(rows, batch))
  {
    hide RowOk, UpsertDeal;
    if |batch| > 0 {
      var front := batch[..|batch| - 1];
      BatchKeepsExits(history, rows, front);
      UpsertKeepsExits(history, UpsertDeals(rows, front), batch[|batch| - 1]);
      ExitsStayTransitive(rows, UpsertDeals(rows, front), UpsertDeals(rows, batch));
    }
  }

  // ---------- ledgers only gain ----------

  ghost predicate Grows(a: LedgerState, b: LedgerState) {
    && ExitsStay(a.deals, b.deals)
    && a.trades.Keys <= b.trades.Keys
    && forall p | p in a.trades :: b.trades[p].strategy == a.trades[p].strategy
  }

  lemma GrowingKeepsOutIds(a: LedgerState, b: LedgerState, strategy: string)
    requires Grows(a, b)
    ensures OutIds(a, strategy) <= OutIds(b, strategy)
  {
    forall id | id in OutIds(a, strategy)
      ensures id in OutIds(b, strategy)
    {
      var k :| 0 <= k < |a.deals| && OutRowOf(a, a.deals[k], strategy) && a.deals[k].id == id;
      var j :| 0 <= j < |b.deals| && b.deals[j].kind.Out? && b.deals[j].id == id && b.deals[j].position == a.deals[k].position;
      assert OutRowOf(b, b.deals[j], strategy);
    }
  }

  lemma RecoverGrows(history: set<BrokerDeal>, l: LedgerState, position: string, batch: Batch)
    requires position in l.trades && RowsOk(history, l.deals) && RowsOk(history, AttachedTo(position, batch.deals))
    ensures Grows(l, Recover(l, position, batch)) && RowsOk(history, Recover(l, position, batch).deals)
  {
    hide RowOk, UpsertDeals;
    BatchKeepsExits(history, l.deals, AttachedTo(position, batch.deals));
  }

  lemma OpenGrows(history: set<BrokerDeal>, l: LedgerState, p: OpenPayload)
    requires RowsOk(history, l.deals) && NamesAnEntry(history, p)
    ensures Grows(l, Open(l, p)) && RowsOk(history, Open(l, p).deals)
  {
    hide UpsertDeal;
    if p.position !in l.trades && p.dealId.Some? {
      UpsertKeepsExits(history, l.deals,
                       Deal(p.dealId.value, p.position, In, p.entryTime, p.entryVolume, p.entryPrice, 0.0, 0.0, 0.0));
    }
  }

  lemma GrowsTransitive(a: LedgerState, b: LedgerState, c: LedgerState)
    requires Grows(a, b) && Grows(b, c)
    ensures Grows(a, c)
  {
    ExitsStayTransitive(a.deals, b.deals, c.deals);
  }

  // ---------- groups come from the broker ----------

  ghost predicate GroupOk(history: set<BrokerDeal>, g: Group) {
    && (forall k | 0 <= k < |g.opens| :: g.opens[k] in history && g.opens[k].entry.EntryIn? && g.opens[k].position == g.position)
    && (forall k | 0 <= k < |g.closes| :: g.closes[k] in history && IsClose(g.closes[k]) && g.closes[k].position == g.position)
  }

  ghost predicate GroupsOk(history: set<BrokerDeal>, groups: seq<Group>) {
    forall k | 0 <= k < |groups| :: GroupOk(history, groups[k])
  }

  lemma {:induction false} GroupingIsOk(history: set<BrokerDeal>, deals: seq<BrokerDeal>, owned: set<string>)
    requires FromHistory(history, deals)
    ensures GroupsOk(history, GroupsOf(deals, owned))
  {
    if |deals| > 0 {
      GroupingIsOk(history, deals[..|deals| - 1], owned);
    }
  }

  lemma {:induction false} MergingIsOk(history: set<BrokerDeal>, fetched: seq<BrokerDeal>, extra: seq<BrokerDeal>)
    requires FromHistory(history, fetched) && FromHistory(history, extra)
    ensures FromHistory(history, MergeDeals(fetched, extra))
    ensures |fetched| <= |MergeDeals(fetched, extra)| && MergeDeals(fetched, extra)[..|fetched|] == fetched
  {
    if |extra| > 0 {
      MergingIsOk(history, fetched, extra[..|extra| - 1]);
    }
  }

  lemma RowsOfDealsAreOk(history: set<BrokerDeal>, overlap: int, deals: seq<BrokerDeal>, kind: EntryType, position: string)
    requires ValidHistory(history, overlap)
    requires forall k | 0 <= k < |deals| ::
               deals[k] in history && (IsClose(deals[k]) <==> kind.Out?) && deals[k].position == position
    ensures RowsOk(history, AttachedTo(position, Rows(deals, kind)))
    ensures AttachedTo(position, Rows(deals, kind)) == Rows(deals, kind)
  {
    assert AttachedTo(position, Rows(deals, kind)) == Rows(deals, kind);
  }

  ghost predicate EntriesOk(history: set<BrokerDeal>, deals: seq<BrokerDeal>, position: string) {
    forall k | 0 <= k < |deals| :: deals[k] in history && deals[k].entry.EntryIn? && deals[k].position == position
  }

  lemma {:induction false} FallbackEntriesAreOk(history: set<BrokerDeal>, candidates: seq<BrokerDeal>, position: string)
    requires FromHistory(history, candidates)
    ensures EntriesOk(history, EntriesFrom(candidates, position), position)
  {
    if |candidates| > 0 {
      assert candidates[|candidates| - 1] in history;
      FallbackEntriesAreOk(history, candidates[..|candidates| - 1], position);
    }
  }

  lemma ImportRowsAreOk(
      history: set<BrokerDeal>, overlap: int, opens: seq<BrokerDeal>, closes: seq<BrokerDeal>, position: string)
    requires ValidHistory(history, overlap) && EntriesOk(history, opens, position)
    requires forall k | 0 <= k < |closes| :: closes[k] in history && IsClose(closes[k]) && closes[k].position == position
    ensures RowsOk(history, AttachedTo(position, Rows(opens, In) + Rows(closes, Out)))
  {
    hide RowOk;
    RowsOfDealsAreOk(history, overlap, opens, In, position);
    RowsOfDealsAreOk(history, overlap, closes, Out, position);
    var a, b := Rows(opens, In), Rows(closes, Out);
    assert AttachedTo(position, a + b) == AttachedTo(position, a) + AttachedTo(position, b);
  }

  /** Whatever a group leads to, the ledger only gains. */
  lemma {:induction false} WriteGrows(
      history: set<BrokerDeal>, s: Settings, d: Durable, g: Group, lookup: seq<BrokerDeal>)
    requires ValidHistory(history, s.overlap) && GroupOk(history, g) && FromHistory(history, lookup)
    requires RowsOk(history, d.ledger.deals)
    ensures var w := Write(d, g, ActionFor(d, s, g, lookup));
            w.Some? ==> Grows(d.ledger, w.value.ledger) && RowsOk(history, w.value.ledger.deals)
                        && w.value.watermark == d.watermark && w.value.cache == d.cache
  {
    hide RowOk, Recover, Open, ValidHistory, Grows, GroupOk, PayloadFor, Rows;
    GrowsReflexive(d.ledger);
    match ActionFor(d, s, g, lookup) {
      case NothingToDo =>
      case RaiseIssue(issue) =>
      case AttachCloses(batch) =>
        AttachGrows(history, s, d, g, lookup);
      case ImportTrade(payload, batch) =>
        ImportGrows(history, s, d, g, lookup);
    }
  }

  lemma AttachGrows(history: set<BrokerDeal>, s: Settings, d: Durable, g: Group, lookup: seq<BrokerDeal>)
    requires ValidHistory(history, s.overlap) && GroupOk(history, g) && RowsOk(history, d.ledger.deals)
    requires ActionFor(d, s, g, lookup).AttachCloses?
    ensures var l := Recover(d.ledger, g.position, ActionFor(d, s, g, lookup).batch);
            Grows(d.ledger, l) && RowsOk(history, l.deals)
  {
    hide RowOk, Recover, Grows;
    RowsOfDealsAreOk(history, s.overlap, g.closes, Out, g.position);
    RecoverGrows(history, d.ledger, g.position, ActionFor(d, s, g, lookup).batch);
  }

  lemma {:induction false} ImportGrows(history: set<BrokerDeal>, s: Settings, d: Durable, g: Group, lookup: seq<BrokerDeal>)
    requires ValidHistory(history, s.overlap) && GroupOk(history, g) && FromHistory(history, lookup)
    requires RowsOk(history, d.ledger.deals)
    requires ActionFor(d, s, g, lookup).ImportTrade?
    ensures var a := ActionFor(d, s, g, lookup);
            a.payload.position == g.position && a.payload.dealId.None?
            && g.position in Open(d.ledger, a.payload).trades
            && var l := Recover(Open(d.ledger, a.payload), g.position, a.trade);
               Grows(d.ledger, l) && RowsOk(history, l.deals)
  {
    hide RowOk, Recover, Open, Grows, ValidHistory;
    var a := ActionFor(d, s, g, lookup);
    var opens := if |g.opens| == 0 then EntriesFrom(lookup, g.position) else g.opens;
    FallbackEntriesAreOk(history, lookup, g.position);
    assert EntriesOk(history, g.opens, g.position);
    ImportRowsAreOk(history, s.overlap, opens, g.closes, g.position);
    OpenGrows(history, d.ledger, a.payload);
    OpenAdds(d.ledger, a.payload);
    var mid := Open(d.ledger, a.payload);
    RecoverGrows(history, mid, g.position, a.trade);
    GrowsTransitive(d.ledger, mid, Recover(mid, g.position, a.trade));
  }

  lemma OpenAdds(l: LedgerState, p: OpenPayload)
    ensures p.position in Open(l, p).trades
  {}

  lemma GrowsReflexive(l: LedgerState)
    ensures Grows(l, l)
  {}

  // ---------- the invariant ----------

  /** Own closes of the pass's window that were visible when it fetched. */
  ghost predicate HoldsWindow(history: set<BrokerDeal>, s: Settings, d: Durable, end: int, closeIds: set<string>) {
    forall c | c in history && OwnClose(c) && FetchStart(d, s, end) <= c.time <= end && c.visibleAt <= end :: c.id in closeIds
  }

  /** Every fetched close is in the ledger or named by a standing parity issue. */
  ghost predicate AccountedFor(d: Durable, s: Settings, closeIds: set<string>) {
    closeIds <= OutIds(d.ledger, s.strategy)
    || (PARITY in d.issues && d.issues[PARITY].reason.ParityMismatch?
        && closeIds - OutIds(d.ledger, s.strategy) <= d.issues[PARITY].ids)
  }

  ghost predicate PhaseOk(history: set<BrokerDeal>, s: Settings, d: Durable, ph: Phase)
    decreases ph
  {
    match ph
    case Idle => true
    case Grouping(start, end, groups, closeIds) =>
      GroupsOk(history, groups) && HoldsWindow(history, s, d, end, closeIds)
    case Dropping(_, next) => !next.Dropping? && !next.Clearing? && !next.Deciding? && PhaseOk(history, s, d, next)
    case Comparing(start, end, closeIds) => HoldsWindow(history, s, d, end, closeIds)
    case Clearing(end, _, closeIds) => HoldsWindow(history, s, d, end, closeIds) && AccountedFor(d, s, closeIds)
    case Deciding(end, closeIds) => HoldsWindow(history, s, d, end, closeIds) && AccountedFor(d, s, closeIds)
  }

  /** The guarantee. */
  ghost predicate NoGap(history: set<BrokerDeal>, s: Settings, sys: System) {
    && (sys.durable.watermark.Some? <==> sys.origin.Some?)
    && (sys.durable.watermark.Some? ==>
          forall c | c in history && OwnClose(c) && sys.origin.value <= c.time <= sys.durable.watermark.value - s.overlap ::
            c.id in OutIds(sys.durable.ledger, s.strategy))
  }

  ghost predicate Inv(history: set<BrokerDeal>, s: Settings, sys: System) {
    && NoGap(history, s, sys)
    && RowsOk(history, sys.durable.ledger.deals)
    && PhaseOk(history, s, sys.durable, sys.phase)
  }

  /** A durable change that keeps the watermark and only grows the ledger keeps everything before the
      comparison, and everything after it too if the parity issue stays. */
  lemma GrowthKeepsPhase(history: set<BrokerDeal>, s: Settings, d: Durable, e: Durable, ph: Phase)
    requires PhaseOk(history, s, d, ph) && Grows(d.ledger, e.ledger) && d.watermark == e.watermark
    requires ph.Clearing? || ph.Deciding? ==> d.issues == e.issues
    ensures PhaseOk(history, s, e, ph)
    decreases ph
  {
    GrowingKeepsOutIds(d.ledger, e.ledger, s.strategy);
    if ph.Dropping? {
      GrowthKeepsPhase(history, s, d, e, ph.next);
    }
  }

  lemma GrowthKeepsNoGap(history: set<BrokerDeal>, s: Settings, sys: System, after: System)
    requires NoGap(history, s, sys) && Grows(sys.durable.ledger, after.durable.ledger)
    requires after.durable.watermark == sys.durable.watermark && after.origin == sys.origin
    ensures NoGap(history, s, after)
  {
    GrowingKeepsOutIds(sys.durable.ledger, after.durable.ledger, s.strategy);
  }

  // ---------- steps ----------

  lemma BeginKeepsInv(history: set<BrokerDeal>, s: Settings, sys: System, now: int, fetched: seq<BrokerDeal>, extra: seq<BrokerDeal>)
    requires Inv(history, s, sys) && Possible(history, s, sys, Begin(now, fetched, extra))
    ensures Inv(history, s, After(sys, s, Begin(now, fetched, extra)))
  {
    hide NoGap, RowsOk, GroupsOf, OwnedPositions;
    if sys.phase.Idle? {
      var d := sys.durable;
      var deals := MergeDeals(fetched, extra);
      var owned := OwnedPositions(d, s.strategy, deals);
      MergingIsOk(history, fetched, extra);
      GroupingIsOk(history, deals, owned);
      FetchedClosesAreCounted(history, s, d, now, fetched, extra, owned);
      SameDurableKeepsNoGap(history, s, sys, After(sys, s, Begin(now, fetched, extra)));
    }
  }

  lemma FetchedClosesAreCounted(
      history: set<BrokerDeal>, s: Settings, d: Durable, now: int, fetched: seq<BrokerDeal>, extra: seq<BrokerDeal>, owned: set<string>)
    requires FetchAnswers(history, fetched, FetchStart(d, s, now), now) && FromHistory(history, extra)
    ensures HoldsWindow(history, s, d, now, CloseIdsOf(MergeDeals(fetched, extra), owned))
  {
    var deals := MergeDeals(fetched, extra);
    MergingIsOk(history, fetched, extra);
    forall c | c in history && OwnClose(c) && FetchStart(d, s, now) <= c.time <= now && c.visibleAt <= now
      ensures c.id in CloseIdsOf(deals, owned)
    {
      var k :| 0 <= k < |fetched| && fetched[k] == c;
      assert deals[k] == deals[..|fetched|][k] == c;
    }
  }

  lemma {:induction false} GroupKeepsInv(history: set<BrokerDeal>, s: Settings, sys: System, lookup: seq<BrokerDeal>)
    requires Inv(history, s, sys) && ValidHistory(history, s.overlap) && FromHistory(history, lookup)
    ensures Inv(history, s, After(sys, s, HandleGroup(lookup)))
  {
    hide NoGap, RowsOk, Write, ActionFor, HoldsWindow, Grows, GroupOk;
    var d, ph := sys.durable, sys.phase;
    if ph.Grouping? && |ph.groups| > 0 {
      var g := ph.groups[0];
      var next := Resume(ph.start, ph.end, ph.groups[1..], ph.closeIds);
      assert GroupsOk(history, ph.groups[1..]);
      assert PhaseOk(history, s, d, next);
      WriteGrows(history, s, d, g, lookup);
      var w := Write(d, g, ActionFor(d, s, g, lookup));
      if w.Some? {
        var after := After(sys, s, HandleGroup(lookup));
        GrowthKeepsPhase(history, s, d, w.value, next);
        GrowthKeepsNoGap(history, s, sys, after);
      } else {
        ImportsNameNoDeal(d, s, g, lookup);
        UnfinishedKeepsInv(history, s, sys, ActionFor(d, s, g, lookup));
      }
    }
  }

  lemma ImportsNameNoDeal(d: Durable, s: Settings, g: Group, lookup: seq<BrokerDeal>)
    ensures var a := ActionFor(d, s, g, lookup); a.ImportTrade? ==> a.payload.dealId.None?
  {}

  /** Stopping after the first transaction of an import leaves at most a new trade row. */
  lemma UnfinishedKeepsInv(history: set<BrokerDeal>, s: Settings, sys: System, action: GroupAction)
    requires Inv(history, s, sys) && (action.ImportTrade? ==> action.payload.dealId.None?)
    ensures Inv(history, s, sys.(durable := Unfinished(sys.durable, action), phase := Idle))
  {
    hide RowsOk, Grows, Open, NoGap, PhaseOk;
    GrowsReflexive(sys.durable.ledger);
    if action.ImportTrade? {
      OpenGrows(history, sys.durable.ledger, action.payload);
    }
    GrowthKeepsInv(history, s, sys, sys.(durable := Unfinished(sys.durable, action), phase := Idle));
  }

  lemma CrashKeepsInv(history: set<BrokerDeal>, s: Settings, sys: System, lookup: seq<BrokerDeal>)
    requires Inv(history, s, sys)
    ensures Inv(history, s, After(sys, s, CrashInImport(lookup)))
  {
    hide Inv, Unfinished, ActionFor;
    if sys.phase.Grouping? && |sys.phase.groups| > 0 {
      ImportsNameNoDeal(sys.durable, s, sys.phase.groups[0], lookup);
      UnfinishedKeepsInv(history, s, sys, ActionFor(sys.durable, s, sys.phase.groups[0], lookup));
    }
  }

  lemma SameDurableKeepsNoGap(history: set<BrokerDeal>, s: Settings, sys: System, after: System)
    requires NoGap(history, s, sys) && after.origin == sys.origin
    requires after.durable.ledger == sys.durable.ledger && after.durable.watermark == sys.durable.watermark
    ensures NoGap(history, s, after)
  {}

  lemma DropKeepsInv(history: set<BrokerDeal>, s: Settings, sys: System)
    requires Inv(history, s, sys)
    ensures Inv(history, s, After(sys, s, Drop))
  {
    hide RowsOk, Grows;
    if sys.phase.Dropping? {
      GrowsReflexive(sys.durable.ledger);
      GrowthKeepsPhase(history, s, sys.durable, Settled(sys.durable, sys.phase.position), sys.phase.next);
    }
  }

  lemma WindowIsPartOfLedger(l: LedgerState, strategy: string, start: int, end: int)
    ensures OutIdsBetween(l, strategy, start, end) <= OutIds(l, strategy)
  {}

  lemma ParityAccounts(d: Durable, s: Settings, start: int, end: int, closeIds: set<string>)
    ensures AccountedFor(ParityChecked(d, s, start, end, closeIds), s, closeIds)
  {
    hide OutIds, OutIdsBetween;
    WindowIsPartOfLedger(d.ledger, s.strategy, start, end + 1);
    var e := ParityChecked(d, s, start, end, closeIds);
    var inWindow, all := OutIdsBetween(d.ledger, s.strategy, start, end + 1), OutIds(d.ledger, s.strategy);
    assert closeIds - all <= closeIds - inWindow;
    if closeIds - inWindow == {} {
      forall id | id in closeIds
        ensures id in all
      {
        assert id !in closeIds - inWindow;
      }
    } else {
      assert e.issues[PARITY] == Issue(ParityMismatch, closeIds - inWindow);
    }
  }

  lemma CompareKeepsInv(history: set<BrokerDeal>, s: Settings, sys: System, order: seq<string>)
    requires Inv(history, s, sys)
    ensures Inv(history, s, After(sys, s, Compare(order)))
  {
    hide RowsOk, NoGap;
    var ph := sys.phase;
    if ph.Comparing? {
      var l := sys.durable.ledger;
      ParityAccounts(sys.durable, s, ph.start, ph.end, ph.closeIds);
      SameDurableKeepsNoGap(history, s, sys, After(sys, s, Compare(order)));
    }
  }

  lemma ClearKeepsInv(history: set<BrokerDeal>, s: Settings, sys: System)
    requires Inv(history, s, sys)
    ensures Inv(history, s, After(sys, s, ClearOne))
  {
    hide RowsOk;
  }

  lemma NoIssueMeansRecorded(d: Durable, s: Settings, closeIds: set<string>)
    requires AccountedFor(d, s, closeIds) && d.issues == map[]
    ensures closeIds <= OutIds(d.ledger, s.strategy)
  {}

  lemma DecideKeepsInv(history: set<BrokerDeal>, s: Settings, sys: System)
    requires Inv(history, s, sys) && ValidHistory(history, s.overlap)
    ensures Inv(history, s, After(sys, s, Decide))
  {
    hide RowsOk, OutIds;
    var d, ph := sys.durable, sys.phase;
    if ph.Deciding? && d.issues == map[] {
      NoIssueMeansRecorded(d, s, ph.closeIds);
      var after := After(sys, s, Decide);
      forall c | c in history && OwnClose(c) && after.origin.value <= c.time <= ph.end - s.overlap
        ensures c.id in OutIds(d.ledger, s.strategy)
      {
        assert c.visibleAt <= c.time + s.overlap;
        if FetchStart(d, s, ph.end) <= c.time {
          assert c.id in ph.closeIds;
        }
      }
    }
  }

  /** A growing ledger, with watermark, issues and origin untouched, keeps the invariant. */
  lemma GrowthKeepsInv(history: set<BrokerDeal>, s: Settings, sys: System, after: System)
    requires Inv(history, s, sys) && Grows(sys.durable.ledger, after.durable.ledger)
    requires RowsOk(history, after.durable.ledger.deals)
    requires after.durable.watermark == sys.durable.watermark && after.durable.issues == sys.durable.issues
    requires after.origin == sys.origin && (after.phase == sys.phase || after.phase.Idle?)
    ensures Inv(history, s, after)
  {
    hide RowsOk, Grows, NoGap;
    GrowthKeepsNoGap(history, s, sys, after);
    if !after.phase.Idle? {
      GrowthKeepsPhase(history, s, sys.durable, after.durable, sys.phase);
    }
  }

  lemma ExecutorOpensKeepsInv(history: set<BrokerDeal>, s: Settings, sys: System, payload: OpenPayload, entry: CacheEntry)
    requires Inv(history, s, sys) && NamesAnEntry(history, payload)
    ensures Inv(history, s, After(sys, s, ExecutorOpens(payload, entry)))
  {
    hide RowsOk, Grows, Open, NoGap, PhaseOk;
    OpenGrows(history, sys.durable.ledger, payload);
    GrowsReflexive(sys.durable.ledger);
    GrowthKeepsInv(history, s, sys, After(sys, s, ExecutorOpens(payload, entry)));
  }

  lemma RowClosedKeepsInv(history: set<BrokerDeal>, s: Settings, sys: System, position: string, trade: Trade)
    requires Inv(history, s, sys) && Possible(history, s, sys, RowClosed(position, trade))
    ensures Inv(history, s, After(sys, s, RowClosed(position, trade)))
  {
    hide RowsOk, NoGap, PhaseOk;
    GrowthKeepsInv(history, s, sys, After(sys, s, RowClosed(position, trade)));
  }

  lemma StopKeepsInv(history: set<BrokerDeal>, s: Settings, sys: System)
    requires Inv(history, s, sys)
    ensures Inv(history, s, After(sys, s, Stop))
  {
    hide RowsOk, Grows, NoGap, PhaseOk;
    GrowsReflexive(sys.durable.ledger);
    GrowthKeepsInv(history, s, sys, After(sys, s, Stop));
  }

  lemma StepKeepsInv(history: set<BrokerDeal>, s: Settings, sys: System, step: Step)
    requires Inv(history, s, sys) && ValidHistory(history, s.overlap) && Possible(history, s, sys, step)
    ensures Inv(history, s, After(sys, s, step))
  {
    hide Inv, After;
    match step {
      case Begin(now, fetched, extra) => BeginKeepsInv(history, s, sys, now, fetched, extra);
      case HandleGroup(lookup) => GroupKeepsInv(history, s, sys, lookup);
      case CrashInImport(lookup) => CrashKeepsInv(history, s, sys, lookup);
      case Drop => DropKeepsInv(history, s, sys);
      case Compare(order) => CompareKeepsInv(history, s, sys, order);
      case ClearOne => ClearKeepsInv(history, s, sys);
      case Decide => DecideKeepsInv(history, s, sys);
      case Stop => StopKeepsInv(history, s, sys);
      case ExecutorOpens(payload, entry) => ExecutorOpensKeepsInv(history, s, sys, payload, entry);
      case RowClosed(position, trade) => RowClosedKeepsInv(history, s, sys, position, trade);
    }
  }

  // ---------- what a group's write achieves ----------

  lemma {:induction false} UpsertsContainBatch(rows: seq<Deal>, batch: seq<Deal>, id: string)
    requires (exists k :: 0 <= k < |rows| && rows[k].id == id) || (exists k :: 0 <= k < |batch| && batch[k].id == id)
    ensures exists k :: 0 <= k < |UpsertDeals(rows, batch)| && UpsertDeals(rows, batch)[k].id == id
  {
    if |batch| == 0 {
      assert UpsertDeals(rows, batch) == rows;
    } else {
      var front, last := batch[..|batch| - 1], batch[|batch| - 1];
      var before, after := UpsertDeals(rows, front), UpsertDeals(rows, batch);
      if last.id == id {
        match FindDeal(before, id, 0) {
          case Some(j) => assert after[j] == last;
          case None => assert after[|before|] == last;
        }
      } else {
        if k :| 0 <= k < |batch| && batch[k].id == id {
          assert front[k].id == id;
        }
        UpsertsContainBatch(rows, front, id);
        var j :| 0 <= j < |before| && before[j].id == id;
        assert after[j].id == id;
      }
    }
  }

  /** Handling a group that has entry evidence records every one of its closes for the strategy, unless
      the position's trade row belongs to another strategy. */
  lemma {:induction false} EvidencedGroupIsRecorded(history: set<BrokerDeal>, s: Settings, d: Durable, g: Group, lookup: seq<BrokerDeal>)
    requires ValidHistory(history, s.overlap) && GroupOk(history, g) && FromHistory(history, lookup)
    requires RowsOk(history, d.ledger.deals)
    requires g.position in d.ledger.trades ==> d.ledger.trades[g.position].strategy == s.strategy
    requires WritesLedger(ActionFor(d, s, g, lookup)) && Write(d, g, ActionFor(d, s, g, lookup)).Some?
    ensures IdsOf(g.closes) <= OutIds(Write(d, g, ActionFor(d, s, g, lookup)).value.ledger, s.strategy)
  {
    var action := ActionFor(d, s, g, lookup);
    var l := Write(d, g, action).value.ledger;
    WriteGrows(history, s, d, g, lookup);
    forall id | id in IdsOf(g.closes)
      ensures id in OutIds(l, s.strategy)
    {
      var k :| 0 <= k < |g.closes| && g.closes[k].id == id;
      CloseIsWritten(s, d, g, lookup, k);
      var j :| 0 <= j < |l.deals| && l.deals[j].id == id;
      assert RowOk(history, l.deals[j]);
      assert OutRowOf(l, l.deals[j], s.strategy);
    }
  }

  lemma CloseIsWritten(s: Settings, d: Durable, g: Group, lookup: seq<BrokerDeal>, k: nat)
    requires k < |g.closes|
    requires WritesLedger(ActionFor(d, s, g, lookup)) && Write(d, g, ActionFor(d, s, g, lookup)).Some?
    ensures var l := Write(d, g, ActionFor(d, s, g, lookup)).value.ledger;
            g.position in l.trades && exists j :: 0 <= j < |l.deals| && l.deals[j].id == g.closes[k].id
    ensures var l := Write(d, g, ActionFor(d, s, g, lookup)).value.ledger;
            (g.position in d.ledger.trades ==> l.trades[g.position].strategy == d.ledger.trades[g.position].strategy)
            && (g.position !in d.ledger.trades ==> l.trades[g.position].strategy == s.strategy)
  {
    hide UpsertDeals;
    match ActionFor(d, s, g, lookup) {
      case AttachCloses(batch) =>
        assert AttachedTo(g.position, batch.deals)[k].id == g.closes[k].id;
        UpsertsContainBatch(d.ledger.deals, AttachedTo(g.position, batch.deals), g.closes[k].id);
      case ImportTrade(payload, trade) =>
        var opens := |trade.deals| - |g.closes|;
        assert AttachedTo(g.position, trade.deals)[opens + k].id == g.closes[k].id;
        UpsertsContainBatch(Open(d.ledger, payload).deals, AttachedTo(g.position, trade.deals), g.closes[k].id);
    }
  }

  // ---------- whole runs ----------

  function Execute(s: Settings, sys: System, steps: seq<Step>): System {
    if |steps| == 0 then sys else After(Execute(s, sys, steps[..|steps| - 1]), s, steps[|steps| - 1])
  }

  /** Every step was possible when it was taken. */
  ghost predicate PossibleRun(history: set<BrokerDeal>, s: Settings, sys: System, steps: seq<Step>) {
    forall k | 0 <= k < |steps| :: Possible(history, s, Execute(s, sys, steps[..k]), steps[k])
  }

  lemma {:induction false} RunKeepsInv(history: set<BrokerDeal>, s: Settings, sys: System, steps: seq<Step>)
    requires ValidHistory(history, s.overlap) && Inv(history, s, sys) && PossibleRun(history, s, sys, steps)
    ensures Inv(history, s, Execute(s, sys, steps))
  {
    hide Inv, After, Possible, ValidHistory;
    if |steps| > 0 {
      var front := steps[..|steps| - 1];
      forall k | 0 <= k < |front|
        ensures Possible(history, s, Execute(s, sys, front[..k]), front[k])
      {
        assert front[..k] == steps[..k];
      }
      RunKeepsInv(history, s, sys, front);
      StepKeepsInv(history, s, Execute(s, sys, front), steps[|steps| - 1]);
    }
  }

  /** No gap behind the watermark, in every reachable state: passes may stop at any step, fetch late or
      nothing, find incomplete entry data or reversals, and interleave with the executor. */
  lemma {:induction false} NoGapBehindTheWatermark(history: set<BrokerDeal>, s: Settings, steps: seq<Step>)
    requires ValidHistory(history, s.overlap) && PossibleRun(history, s, INITIAL, steps)
    ensures var sys := Execute(s, INITIAL, steps);
            sys.durable.watermark.Some? ==>
              sys.origin.Some?
              && forall c | c in history && OwnClose(c)
                            && sys.origin.value <= c.time <= sys.durable.watermark.value - s.overlap ::
                   c.id in OutIds(sys.durable.ledger, s.strategy)
  {
    assert Inv(history, s, INITIAL);
    RunKeepsInv(history, s, INITIAL, steps);
  }

  /** The key step: in every reachable state, a pass about to move the watermark has every close it
      fetched in the ledger, also those outside the parity window, and every own close of its window that
      was visible to it is among them. */
  lemma CompletedPassHasAllCloses(history: set<BrokerDeal>, s: Settings, steps: seq<Step>)
    requires ValidHistory(history, s.overlap) && PossibleRun(history, s, INITIAL, steps)
    ensures var sys := Execute(s, INITIAL, steps);
            var after := After(sys, s, Decide);
            sys.phase.Deciding? && sys.durable.issues == map[] ==>
              && after.durable.watermark == Some(sys.phase.end)
              && sys.phase.closeIds <= OutIds(after.durable.ledger, s.strategy)
              && HoldsWindow(history, s, sys.durable, sys.phase.end, sys.phase.closeIds)
  {
    hide Execute, PossibleRun, OutIds, RowsOk, HoldsWindow, Inv;
    InitialInv(history, s);
    RunKeepsInv(history, s, INITIAL, steps);
    var sys := Execute(s, INITIAL, steps);
    if sys.phase.Deciding? && sys.durable.issues == map[] {
      DecidingPhase(history, s, sys);
    }
  }

  lemma InitialInv(history: set<BrokerDeal>, s: Settings)
    ensures Inv(history, s, INITIAL)
  {}

  lemma DecidingPhase(history: set<BrokerDeal>, s: Settings, sys: System)
    requires Inv(history, s, sys) && sys.phase.Deciding? && sys.durable.issues == map[]
    ensures sys.phase.closeIds <= OutIds(sys.durable.ledger, s.strategy)
    ensures HoldsWindow(history, s, sys.durable, sys.phase.end, sys.phase.closeIds)
  {
    hide OutIds, RowsOk, NoGap, HoldsWindow;
    NoIssueMeansRecorded(sys.durable, s, sys.phase.closeIds);
  }
}
