/** Broker-history reconciliation as a state machine: each step is one durable write or one decision
    of a pass, a pass may stop at any step, and the executor may open trades in between. Times are
    microseconds. */
module Reconciliation {
  import opened Market
  import opened Options
  import opened Ledger

  // ---------- the broker's side ----------

  datatype DealEntry = EntryIn | EntryOut | EntryReversal | EntryOther

  /** A deal as the broker reports it. It becomes visible some time after its stamp. */
  datatype BrokerDeal = BrokerDeal(
    id: string, position: string, order: Option<string>, ownSymbol: bool, ownMagic: bool, entry: DealEntry, buy: bool,
    time: int, visibleAt: int, volume: real, price: real, commission: real, swap: real, profit: real, reason: string)

  predicate IsClose(d: BrokerDeal) { d.entry.EntryOut? || d.entry.EntryReversal? }

  /** A close that the strategy's own magic identifies. */
  predicate OwnClose(d: BrokerDeal) { d.ownSymbol && d.ownMagic && IsClose(d) }

  /** The whole append-only history: one deal per id, own closes visible within the overlap. */
  ghost predicate ValidHistory(history: set<BrokerDeal>, overlap: int) {
    && (forall a, b | a in history && b in history && a.id == b.id :: a == b)
    && (forall d | d in history && OwnClose(d) :: d.visibleAt <= d.time + overlap)
  }

  // ---------- settings and durable state ----------

  datatype Settings = Settings(strategy: string, bootstrap: nat, overlap: nat)

  datatype CacheEntry = CacheEntry(riskUsd: Option<real>, actualEntry: Option<real>)

  datatype IssueReason = ReversalNeedsSplit | EntryUnavailable | ParityMismatch

  datatype Issue = Issue(reason: IssueReason, ids: set<string>)

  const PARITY: string := "__parity__"

  datatype Durable = Durable(
    ledger: LedgerState, issues: map<string, Issue>, watermark: Option<int>, cache: map<string, CacheEntry>)

  // ---------- grouping ----------

  datatype Group = Group(position: string, opens: seq<BrokerDeal>, closes: seq<BrokerDeal>, reversal: bool)

  datatype DealClass = Ignored | Opening | Closing | Reversing

  function ClassOf(d: BrokerDeal, owned: set<string>): DealClass {
    if !d.ownSymbol then Ignored
    else if d.entry.EntryIn? then (if d.ownMagic then Opening else Ignored)
    else if d.entry.EntryOut? then (if d.ownMagic || d.position in owned then Closing else Ignored)
    else if d.entry.EntryReversal? then (if d.ownMagic || d.position in owned then Reversing else Ignored)
    else Ignored
  }

  function FindGroup(groups: seq<Group>, position: string, from: nat): (r: Option<nat>)
    requires from <= |groups|
    ensures r.Some? ==> from <= r.value < |groups| && groups[r.value].position == position
    ensures r.None? ==> forall k | from <= k < |groups| :: groups[k].position != position
    decreases |groups| - from
  {
    if from == |groups| then None
    else if groups[from].position == position then Some(from)
    else FindGroup(groups, position, from + 1)
  }

  function AddToGroup(g: Group, d: BrokerDeal, c: DealClass): Group {
    match c
    case Opening => g.(opens := g.opens + [d])
    case Closing => g.(closes := g.closes + [d])
    case Reversing => g.(closes := g.closes + [d], reversal := true)
    case Ignored => g
  }

  function AddDeal(groups: seq<Group>, d: BrokerDeal, owned: set<string>): seq<Group> {
    var c := ClassOf(d, owned);
    if c.Ignored? then groups
    else
      match FindGroup(groups, d.position, 0)
      case Some(k) => groups[k := AddToGroup(groups[k], d, c)]
      case None => groups + [AddToGroup(Group(d.position, [], [], false), d, c)]
  }

  function GroupsOf(deals: seq<BrokerDeal>, owned: set<string>): seq<Group> {
    if |deals| == 0 then [] else AddDeal(GroupsOf(deals[..|deals| - 1], owned), deals[|deals| - 1], owned)
  }

  function CloseIdsOf(deals: seq<BrokerDeal>, owned: set<string>): set<string> {
    set k | 0 <= k < |deals| && (ClassOf(deals[k], owned).Closing? || ClassOf(deals[k], owned).Reversing?) :: deals[k].id
  }

  /** Cached tickets, open ledger positions, and positions with an own entry deal in the response. */
  function OwnedPositions(d: Durable, strategy: string, deals: seq<BrokerDeal>): set<string> {
    d.cache.Keys
    + (set p | p in d.ledger.trades && d.ledger.trades[p].strategy == strategy && !d.ledger.trades[p].closed)
    + (set k | 0 <= k < |deals| && deals[k].ownSymbol && deals[k].ownMagic && deals[k].entry.EntryIn? :: deals[k].position)
  }

  // ---------- one group ----------

  function RowOf(d: BrokerDeal, kind: EntryType): Deal {
    Deal(d.id, d.position, kind, d.time, d.volume, Some(d.price), d.commission, d.swap, d.profit)
  }

  function Rows(deals: seq<BrokerDeal>, kind: EntryType): (r: seq<Deal>)
    ensures |r| == |deals| && forall k | 0 <= k < |r| :: r[k] == RowOf(deals[k], kind)
  {
    seq(|deals|, k requires 0 <= k < |deals| => RowOf(deals[k], kind))
  }

  /** The reason of the latest close; the last one among equals. */
  function Latest(closes: seq<BrokerDeal>): BrokerDeal
    requires |closes| > 0
  {
    if |closes| == 1 then closes[0]
    else
      var rest := Latest(closes[..|closes| - 1]);
      if closes[|closes| - 1].time >= rest.time then closes[|closes| - 1] else rest
  }

  function Earliest(opens: seq<BrokerDeal>): BrokerDeal
    requires |opens| > 0
  {
    if |opens| == 1 then opens[0]
    else
      var rest := Earliest(opens[..|opens| - 1]);
      if opens[|opens| - 1].time < rest.time then opens[|opens| - 1] else rest
  }

  function TotalVolume(deals: seq<BrokerDeal>): real {
    if |deals| == 0 then 0.0 else TotalVolume(deals[..|deals| - 1]) + deals[|deals| - 1].volume
  }

  function IdsOf(deals: seq<BrokerDeal>): set<string> { set k | 0 <= k < |deals| :: deals[k].id }

  function PayloadFor(d: Durable, s: Settings, position: string, opens: seq<BrokerDeal>): OpenPayload
    requires |opens| > 0
  {
    var first := Earliest(opens);
    var cached := position in d.cache;
    OpenPayload(
      position, s.strategy, if first.buy then Buy else Sell,
      if cached then d.cache[position].riskUsd else None, first.time, TotalVolume(opens),
      if cached then d.cache[position].actualEntry else Some(first.price), first.order, None)
  }

  /** Position-specific fallback candidates that really are entries of this position. */
  function EntriesFrom(candidates: seq<BrokerDeal>, position: string): seq<BrokerDeal> {
    if |candidates| == 0 then []
    else
      var rest := EntriesFrom(candidates[..|candidates| - 1], position);
      var c := candidates[|candidates| - 1];
      if c.position == position && c.entry.EntryIn? && c.ownSymbol && c.ownMagic then rest + [c] else rest
  }

  datatype GroupAction =
    | NothingToDo
    | RaiseIssue(issue: Issue)
    | AttachCloses(batch: Batch)
    | ImportTrade(payload: OpenPayload, trade: Batch)

  /** What the pass does with one position's deals. */
  function ActionFor(d: Durable, s: Settings, g: Group, lookup: seq<BrokerDeal>): GroupAction {
    if |g.closes| == 0 then NothingToDo
    else if g.reversal then RaiseIssue(Issue(ReversalNeedsSplit, IdsOf(g.closes)))
    else
      var reason := Some(Latest(g.closes).reason);
      if |g.opens| == 0 && g.position in d.ledger.trades then
        AttachCloses(Batch(Rows(g.closes, Out), reason))
      else
        var opens := if |g.opens| == 0 then EntriesFrom(lookup, g.position) else g.opens;
        if |opens| == 0 then RaiseIssue(Issue(EntryUnavailable, IdsOf(g.closes)))
        else
          ImportTrade(PayloadFor(d, s, g.position, opens), Batch(Rows(opens, In) + Rows(g.closes, Out), reason))
  }

  /** The durable write of an action; a refused batch ends the pass. */
  function Write(d: Durable, g: Group, a: GroupAction): Option<Durable> {
    match a
    case NothingToDo => Some(d)
    case RaiseIssue(issue) => Some(d.(issues := d.issues[g.position := issue]))
    case AttachCloses(batch) =>
      if g.position !in d.ledger.trades || !Admissible(batch.deals) then None
      else Some(d.(ledger := Recover(d.ledger, g.position, batch)))
    case ImportTrade(payload, batch) =>
      if OpenRefused(d.ledger, payload) || !Admissible(batch.deals) then None
      else Some(d.(ledger := Recover(Open(d.ledger, payload), payload.position, batch)))
  }

  /** What stays behind of a write that does not complete: an import opens its trade row in a
      transaction of its own, unless that one is refused. */
  function Unfinished(d: Durable, a: GroupAction): Durable {
    if a.ImportTrade? && !OpenRefused(d.ledger, a.payload) then d.(ledger := Open(d.ledger, a.payload)) else d
  }

  /** After a ledger write the cache entry and the position's issue are dropped. */
  function Settled(d: Durable, position: string): Durable {
    d.(cache := d.cache - {position}, issues := d.issues - {position})
  }

  predicate WritesLedger(a: GroupAction) { a.AttachCloses? || a.ImportTrade? }

  // ---------- parity and clearing ----------

  /** Compare every fetched close with the ledger window; the window includes the end instant. */
  function ParityChecked(d: Durable, s: Settings, start: int, end: int, closeIds: set<string>): Durable {
    if closeIds == {} then d
    else
      var missing := closeIds - OutIdsBetween(d.ledger, s.strategy, start, end + 1);
      if missing != {} then d.(issues := d.issues[PARITY := Issue(ParityMismatch, missing)])
      else d.(issues := d.issues - {PARITY})
  }

  /** An issue is resolved when the ledger holds every id it names; a reversal never is. */
  predicate Resolved(d: Durable, s: Settings, issue: Issue) {
    !issue.reason.ReversalNeedsSplit? && issue.ids != {} && issue.ids <= OutIds(d.ledger, s.strategy)
  }

  function IssueCleared(d: Durable, s: Settings, position: string): Durable {
    if position in d.issues && Resolved(d, s, d.issues[position]) then d.(issues := d.issues - {position}) else d
  }

  /** Position histories are appended to the window response, each unseen, non-empty id once. */
  function MergeDeals(fetched: seq<BrokerDeal>, extra: seq<BrokerDeal>): seq<BrokerDeal> {
    if |extra| == 0 then fetched
    else
      var rest := MergeDeals(fetched, extra[..|extra| - 1]);
      var d := extra[|extra| - 1];
      if d.id == "" || (exists k | 0 <= k < |rest| :: rest[k].id == d.id) then rest else rest + [d]
  }

  // ---------- the pass as a process ----------

  datatype Phase =
    | Idle
    | Grouping(start: int, end: int, groups: seq<Group>, closeIds: set<string>)
    | Dropping(position: string, next: Phase)          // ledger written, cache and issue still there
    | Comparing(start: int, end: int, closeIds: set<string>)
    | Clearing(end: int, queue: seq<string>, closeIds: set<string>)
    | Deciding(end: int, closeIds: set<string>)

  datatype System = System(durable: Durable, phase: Phase, origin: Option<int>)

  const INITIAL: System := System(Durable(LedgerState([], map[]), map[], None, map[]), Idle, None)

  datatype Step =
    | Begin(now: int, fetched: seq<BrokerDeal>, extra: seq<BrokerDeal>)  // a window response plus position histories
    | HandleGroup(lookup: seq<BrokerDeal>)
    | CrashInImport(lookup: seq<BrokerDeal>)                            // between the two transactions of an import
    | Drop
    | Compare(order: seq<string>)                                      // the issue list is read in this order
    | ClearOne
    | Decide
    | Stop
    | ExecutorOpens(payload: OpenPayload, entry: CacheEntry)
    | RowClosed(position: string, trade: Trade)                          // the position manager rewrites a trade row

  function FetchStart(d: Durable, s: Settings, now: int): int {
    if d.watermark.Some? then d.watermark.value - s.overlap else now - s.bootstrap
  }

  /** The window response holds every own close stamped in the window and visible by now. */
  ghost predicate FetchAnswers(history: set<BrokerDeal>, fetched: seq<BrokerDeal>, start: int, now: int) {
    && (forall k | 0 <= k < |fetched| :: fetched[k] in history)
    && (forall d | d in history && OwnClose(d) && start <= d.time <= now && d.visibleAt <= now ::
          exists k :: 0 <= k < |fetched| && fetched[k] == d)
  }

  ghost predicate FromHistory(history: set<BrokerDeal>, deals: seq<BrokerDeal>) {
    forall k | 0 <= k < |deals| :: deals[k] in history
  }

  /** The executor journals the broker's entry deal, if it names one at all. */
  ghost predicate NamesAnEntry(history: set<BrokerDeal>, payload: OpenPayload) {
    payload.dealId.Some? ==>
      payload.entryVolume >= 0.0
      && forall d | d in history && d.id == payload.dealId.value :: !IsClose(d) && d.position == payload.position
  }

  /** What the environment guarantees of a step's parameters. */
  ghost predicate Possible(history: set<BrokerDeal>, s: Settings, sys: System, step: Step) {
    match step
    case Begin(now, fetched, extra) =>
      FetchAnswers(history, fetched, FetchStart(sys.durable, s, now), now) && FromHistory(history, extra)
    case HandleGroup(lookup) => FromHistory(history, lookup)
    case CrashInImport(lookup) => FromHistory(history, lookup)
    case Compare(order) =>
      sys.phase.Comparing? ==>
        var ph := sys.phase;
        forall p :: p in order <==> p in ParityChecked(sys.durable, s, ph.start, ph.end, ph.closeIds).issues
    case ExecutorOpens(payload, _) => NamesAnEntry(history, payload)
    case RowClosed(position, trade) =>
      position in sys.durable.ledger.trades && trade.strategy == sys.durable.ledger.trades[position].strategy
    case _ => true
  }

  function Resume(start: int, end: int, groups: seq<Group>, closeIds: set<string>): Phase {
    if |groups| == 0 then Comparing(start, end, closeIds) else Grouping(start, end, groups, closeIds)
  }

  function QueueOrDecide(end: int, queue: seq<string>, closeIds: set<string>): Phase {
    if |queue| == 0 then Deciding(end, closeIds) else Clearing(end, queue, closeIds)
  }

  /** The system after a step; a step of another phase changes nothing. */
  function After(sys: System, s: Settings, step: Step): System {
    var d, ph := sys.durable, sys.phase;
    match step
    case Begin(now, fetched, extra) =>
      if !ph.Idle? then sys
      else
        var deals := MergeDeals(fetched, extra);
        var owned := OwnedPositions(d, s.strategy, deals);
        sys.(phase := Resume(FetchStart(d, s, now), now, GroupsOf(deals, owned), CloseIdsOf(deals, owned)))
    case HandleGroup(lookup) =>
      if !ph.Grouping? || |ph.groups| == 0 then sys
      else
        var g := ph.groups[0];
        var action := ActionFor(d, s, g, lookup);
        var next := Resume(ph.start, ph.end, ph.groups[1..], ph.closeIds);
        (match Write(d, g, action)
         case None => sys.(durable := Unfinished(d, action), phase := Idle)
         case Some(w) =>
           sys.(durable := w, phase := if WritesLedger(action) then Dropping(g.position, next) else next))
    case CrashInImport(lookup) =>
      if !ph.Grouping? || |ph.groups| == 0 then sys
      else sys.(durable := Unfinished(d, ActionFor(d, s, ph.groups[0], lookup)), phase := Idle)
    case Drop =>
      if !ph.Dropping? then sys
      else sys.(durable := Settled(d, ph.position), phase := ph.next)
    case Compare(order) =>
      if !ph.Comparing? then sys
      else sys.(durable := ParityChecked(d, s, ph.start, ph.end, ph.closeIds),
                phase := QueueOrDecide(ph.end, order, ph.closeIds))
    case ClearOne =>
      if !ph.Clearing? || |ph.queue| == 0 then sys
      else sys.(durable := IssueCleared(d, s, ph.queue[0]), phase := QueueOrDecide(ph.end, ph.queue[1..], ph.closeIds))
    case Decide =>
      if !ph.Deciding? then sys
      else if d.issues != map[] then sys.(phase := Idle)
      else
        sys.(durable := d.(watermark := Some(ph.end)), phase := Idle,
             origin := if sys.origin.Some? then sys.origin else Some(FetchStart(d, s, ph.end)))
    case Stop => sys.(phase := Idle)
    case ExecutorOpens(payload, entry) =>
      if OpenRefused(d.ledger, payload) then sys
      else sys.(durable := d.(ledger := Open(d.ledger, payload), cache := d.cache[payload.position := entry]))
    case RowClosed(position, trade) =>
      if position !in d.ledger.trades then sys
      else sys.(durable := d.(ledger := d.ledger.(trades := d.ledger.trades[position := trade]), cache := d.cache - {position}))
  }
}
