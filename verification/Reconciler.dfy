/** The reconciliation pass as the code runs it, over the real ledger class. Each call is a run of the
    pass's state machine, so the watermark guarantee holds after every call. */
module Reconciler {
  import opened Options
  import opened Ledger
  import opened LedgerStore
  import opened Reconciliation
  import opened WatermarkSafety
  import opened ReconciliationPass
  import opened PassLaw
  import opened PassStory

  // ---------- the pass ----------

  class TradeReconciliation {
    const settings: Settings
    const store: TradeStore
    var issues: map<string, Issue>
    var watermark: Option<int>
    var cache: map<string, CacheEntry>
    ghost const history: set<BrokerDeal>
    ghost var trace: seq<Step>
    ghost var sys: System

    function Stored(): Durable
      reads this, store
    {
      Durable(store.State(), issues, watermark, cache)
    }

    /** A pass in progress: everything done so far was a possible run, and the fields hold its state. */
    ghost predicate Running()
      reads this, store
    {
      && ValidHistory(history, settings.overlap) && store.Valid()
      && sys == Execute(settings, INITIAL, trace) && PossibleRun(history, settings, INITIAL, trace)
      && sys.durable == Stored()
    }

    ghost predicate Valid()
      reads this, store
    {
      Running() && sys.phase.Idle?
    }

    constructor (settings: Settings, store: TradeStore, ghost history: set<BrokerDeal>)
      requires ValidHistory(history, settings.overlap)
      requires store.Valid() && store.State() == LedgerState([], map[])
      ensures Valid() && this.settings == settings && this.store == store && this.history == history
      ensures watermark.None? && trace == []
    {
      this.settings, this.store, this.history := settings, store, history;
      issues, watermark, cache := map[], None, map[];
      trace, sys := [], INITIAL;
    }

    /** The guarantee, as a fact about the fields. */
    lemma NoGapNow()
      requires Running()
      ensures watermark.Some? ==>
                sys.origin.Some?
                && forall c | c in history && OwnClose(c) && sys.origin.value <= c.time <= watermark.value - settings.overlap ::
                     c.id in OutIds(store.State(), settings.strategy)
    {
      NoGapBehindTheWatermark(history, settings, trace);
    }

    /** The ledger mirrors the broker after every call. */
    lemma SoundNow()
      requires Running()
      ensures Sound(history, store.State()) && RowsOk(history, store.deals)
    {
      LedgerMirrorsBroker(history, settings, trace);
      RunHasInv(history, settings, trace);
    }

    ghost method Note(step: Step)
      requires sys == Execute(settings, INITIAL, trace) && PossibleRun(history, settings, INITIAL, trace)
      requires Possible(history, settings, sys, step)
      modifies this`trace, this`sys
      ensures trace == old(trace) + [step] && sys == After(old(sys), settings, step)
      ensures sys == Execute(settings, INITIAL, trace) && PossibleRun(history, settings, INITIAL, trace)
    {
      hide After, Possible;
      ghost var before := trace;
      trace := trace + [step];
      assert trace[..|before|] == before;
      forall k | 0 <= k < |trace|
        ensures Possible(history, settings, Execute(settings, INITIAL, trace[..k]), trace[k])
      {
        assert trace[..k] == before[..k];
        assert k == |before| ==> before[..k] == before;
      }
      sys := After(sys, settings, step);
    }

    method BuildGroups(deals: seq<BrokerDeal>, owned: set<string>) returns (groups: seq<Group>, closeIds: set<string>)
      ensures groups == GroupsOf(deals, owned) && closeIds == CloseIdsOf(deals, owned)
      ensures GroupsTold(deals, owned, groups)
    {
      GroupingIsTold(deals, owned);
      groups, closeIds := [], {};
      for k := 0 to |deals|
        invariant groups == GroupsOf(deals[..k], owned)
        invariant closeIds == CloseIdsOf(deals[..k], owned)
      {
        assert deals[..k + 1][..k] == deals[..k];
        groups := AddDeal(groups, deals[k], owned);
        var c := ClassOf(deals[k], owned);
        if c.Closing? || c.Reversing? {
          closeIds := closeIds + {deals[k].id};
        }
      }
      assert deals[..|deals|] == deals;
    }

    /** The ledger or issue write of one group. */
    method WriteGroup(g: Group, action: GroupAction) returns (ok: bool)
      requires store.Valid() && (action.ImportTrade? ==> action.payload.dealId.None?)
      modifies this`issues, store
      ensures store.Valid()
      ensures match Write(old(Stored()), g, action)
              case Some(w) => ok && Stored() == w
              case None => !ok && Stored() == Unfinished(old(Stored()), action)
    {
      ok := true;
      match action {
        case NothingToDo =>
        case RaiseIssue(issue) =>
          issues := issues[g.position := issue];
        case AttachCloses(batch) =>
          var r := store.UpsertRecoveredClose(g.position, batch);
          ok := r.Success?;
        case ImportTrade(payload, trade) =>
          var r := store.UpsertRecoveredTrade(payload, trade);
          ok := r.Success?;
      }
    }

    /** Handles one group: its write, then dropping the cache entry and the position's issue. */
    method HandleOne(g: Group, lookup: seq<BrokerDeal>, ghost rest: seq<Group>) returns (ok: bool)
      requires Running() && FromHistory(history, lookup)
      requires sys.phase.Grouping? && sys.phase.groups == [g] + rest
      modifies this`issues, this`cache, this`trace, this`sys, store
      ensures Running()
      ensures sys.phase == if ok then Resume(old(sys).phase.start, old(sys).phase.end, rest, old(sys).phase.closeIds) else Idle
      ensures Progress(Stored(), ok) == AfterGroup(old(Stored()), settings, g, lookup) && watermark == old(watermark)
    {
      hide Execute, PossibleRun, ActionFor, Write, ValidHistory, FromHistory;
      var action := ActionFor(Stored(), settings, g, lookup);
      assert sys.phase.groups[0] == g && sys.phase.groups[1..] == rest;
      ImportsNameNoDeal(Stored(), settings, g, lookup);
      ok := WriteGroup(g, action);
      HandleGroupIsPossible(lookup);
      Note(HandleGroup(lookup));
      if ok && WritesLedger(action) {
        cache := cache - {g.position};
        issues := issues - {g.position};
        Note(Drop);
      }
    }

    lemma HandleGroupIsPossible(lookup: seq<BrokerDeal>)
      requires FromHistory(history, lookup)
      ensures Possible(history, settings, sys, HandleGroup(lookup))
    {}

    method IssuePositions() returns (order: seq<string>)
      ensures forall p :: p in order <==> p in issues
    {
      order := [];
      var left := issues.Keys;
      while left != {}
        invariant left <= issues.Keys
        invariant forall p :: p in order <==> p in issues && p !in left
        decreases |left|
      {
        var p :| p in left;
        order := order + [p];
        left := left - {p};
      }
    }

    method CompareParity(start: int, end: int, closeIds: set<string>)
      requires store.Valid()
      modifies this`issues
      ensures Stored() == ParityChecked(old(Stored()), settings, start, end, closeIds)
    {
      if closeIds != {} {
        var missing := closeIds - OutIdsBetween(store.State(), settings.strategy, start, end + 1);
        if missing != {} {
          issues := issues[PARITY := Issue(ParityMismatch, missing)];
        } else {
          issues := issues - {PARITY};
        }
      }
    }

    method ClearResolved(order: seq<string>, ghost end: int, ghost closeIds: set<string>)
      requires Running() && sys.phase == QueueOrDecide(end, order, closeIds)
      modifies this`issues, this`trace, this`sys
      requires forall p :: p in order <==> p in issues
      ensures Running() && sys.phase == Deciding(end, closeIds)
      ensures Stored() == AfterClearing(old(Stored()), settings)
    {
      hide Execute, PossibleRun, ValidHistory, OutIds;
      ghost var before := Stored();
      for k := 0 to |order|
        invariant Running() && sys.phase == QueueOrDecide(end, order[k..], closeIds)
        invariant forall p :: p in issues <==> p in before.issues && !(p in order[..k] && Resolved(before, settings, before.issues[p]))
        invariant forall p | p in issues :: issues[p] == before.issues[p]
        invariant Stored() == before.(issues := issues)
      {
        assert order[..k + 1] == order[..k] + [order[k]];
        assert order[k..][0] == order[k] && order[k..][1..] == order[k + 1..];
        if order[k] in issues && Resolved(Stored(), settings, issues[order[k]]) {
          issues := issues - {order[k]};
        }
        Note(ClearOne);
      }
    }

    /** One pass. The watermark moves, to the pass's own end, only when no issue stands, and then
        every close the pass fetched is in the ledger. */
    method Reconcile(now: int, answers: Answers) returns (completed: bool)
      requires Valid()
      requires answers.fetched.Some? ==>
                 FetchAnswers(history, answers.fetched.value, FetchStart(Stored(), settings, now), now)
      requires FromHistory(history, answers.extra) && forall p :: FromHistory(history, answers.lookup(p))
      modifies this, store
      ensures Valid()
      ensures Stored() == AfterPass(old(Stored()), settings, now, answers)
      ensures watermark == if completed then Some(now) else old(watermark)
      ensures completed ==> answers.fetched.Some?
      ensures watermark.Some? ==>
                sys.origin.Some?
                && forall c | c in history && OwnClose(c) && sys.origin.value <= c.time <= watermark.value - settings.overlap ::
                     c.id in OutIds(store.State(), settings.strategy)
      ensures completed ==>
                var deals := MergeDeals(answers.fetched.value, answers.extra);
                issues == map[]
                && CloseIdsOf(deals, OwnedPositions(old(Stored()), settings.strategy, deals)) <= OutIds(store.State(), settings.strategy)
      // position by position, the ledger says what the broker's deals say
      ensures Sound(history, store.State())
      ensures answers.fetched.Some? ==>
                var deals := MergeDeals(answers.fetched.value, answers.extra);
                var owned := OwnedPositions(old(Stored()), settings.strategy, deals);
                && (forall p :: PositionAfter(old(Stored()), settings, deals, owned, answers.lookup(p), p, store.State()))
                && (completed ==> forall p :: PositionComplete(old(Stored()), settings, deals, owned, answers.lookup(p), p, store.State()))
    {
      hide Execute, PossibleRun, Possible, ValidHistory, FromHistory, FetchAnswers, AfterGroups, AfterGroup, AfterFinish, Sound, RowsOk,
           PositionAfter, PositionComplete, GroupsTold, OutIds, MergeDeals, OwnedPositions, CloseIdsOf, GroupsOf, FetchStart;
      completed := false;
      NoGapNow();
      SoundNow();
      if answers.fetched.None? {
        return;
      }
      var start := FetchStart(Stored(), settings, now);
      var deals := MergeDeals(answers.fetched.value, answers.extra);
      var owned := OwnedPositions(Stored(), settings.strategy, deals);
      var groups, closeIds := BuildGroups(deals, owned);
      AllFromHistory(answers.fetched.value, answers.extra, now);
      PassIsTold(history, settings, Stored(), deals, owned, answers.lookup);
      BeginIsPossible(now, answers.fetched.value, answers.extra);
      Note(Begin(now, answers.fetched.value, answers.extra));
      ghost var before := Stored();
      NoGroups(before, settings, groups, answers.lookup);
      for k := 0 to |groups|
        invariant Running() && sys.phase == Resume(start, now, groups[k..], closeIds)
        invariant watermark == old(watermark)
        invariant AfterGroups(before, settings, groups, answers.lookup, k) == Progress(Stored(), true)
      {
        assert groups[k..] == [groups[k]] + groups[k + 1..];
        OneMoreGroup(before, settings, groups, answers.lookup, k);
        var ok := HandleOne(groups[k], answers.lookup(groups[k].position), groups[k + 1..]);
        if !ok {
          RefusalStands(before, settings, groups, answers.lookup, k + 1, |groups|);
          NoGapNow();
          SoundNow();
          return;
        }
      }
      completed := FinishPass(start, now, closeIds);
      NoGapNow();
      SoundNow();
    }

    lemma AllFromHistory(fetched: seq<BrokerDeal>, extra: seq<BrokerDeal>, now: int)
      requires FetchAnswers(history, fetched, FetchStart(Stored(), settings, now), now) && FromHistory(history, extra)
      ensures FromHistory(history, MergeDeals(fetched, extra))
    {
      MergingIsOk(history, fetched, extra);
    }

    lemma BeginIsPossible(now: int, fetched: seq<BrokerDeal>, extra: seq<BrokerDeal>)
      requires Running() && FetchAnswers(history, fetched, FetchStart(Stored(), settings, now), now)
      requires FromHistory(history, extra)
      ensures Possible(history, settings, sys, Begin(now, fetched, extra))
    {}

    method FinishPass(start: int, end: int, closeIds: set<string>) returns (completed: bool)
      requires Running() && sys.phase == Comparing(start, end, closeIds)
      modifies this`issues, this`watermark, this`trace, this`sys
      ensures Valid() && watermark == if completed then Some(end) else old(watermark)
      ensures completed ==> closeIds <= OutIds(store.State(), settings.strategy) && issues == map[]
      ensures !completed ==> issues != map[]
      ensures Stored() == AfterFinish(old(Stored()), settings, start, end, closeIds)
      ensures EndsAs(old(Stored()), settings, start, end, closeIds, Stored())
    {
      PassEndsAs(Stored(), settings, start, end, closeIds);
      hide Execute, PossibleRun, Possible, ValidHistory, EndsAs;
      CompareParity(start, end, closeIds);
      var order := IssuePositions();
      CompareIsPossible(start, end, closeIds, order);
      Note(Compare(order));
      ClearResolved(order, end, closeIds);
      DecidingIsAccounted(end, closeIds);
      DecideIsPossible();
      completed := issues == map[];
      if completed {
        watermark := Some(end);
      }
      Note(Decide);
    }

    lemma CompareIsPossible(start: int, end: int, closeIds: set<string>, order: seq<string>)
      requires sys.phase == Comparing(start, end, closeIds)
      requires forall p :: p in order <==> p in ParityChecked(sys.durable, settings, start, end, closeIds).issues
      ensures Possible(history, settings, sys, Compare(order))
    {}

    lemma DecideIsPossible()
      ensures Possible(history, settings, sys, Decide)
    {}

    lemma DecidingIsAccounted(end: int, closeIds: set<string>)
      requires Running() && sys.phase == Deciding(end, closeIds)
      ensures issues == map[] ==> closeIds <= OutIds(store.State(), settings.strategy)
    {
      CompletedPassHasAllCloses(history, settings, trace);
    }
  }
}
