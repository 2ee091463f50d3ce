/** The order executor: preparation of a request, then journal and broker calls in sequence.
    Its calls are runs of the submission protocol, so the protocol's guarantees hold of it. */
module OrderExecutor {
  import opened Market
  import opened Options
  import opened IntentStore
  import opened IntentProtocol
  import opened IntentSolo
  import opened SubmissionLaw

  // ---------- preparing a request ----------

  datatype ExecutorConfig = ExecutorConfig(
    account: string, strategy: string, takeProfitNone: bool, customStop: bool, maxSlippageFraction: real)

  datatype TradeSignal = TradeSignal(
    id: string, side: Side, expectedEntry: real, stopDistance: real,
    tpDistance: Option<real>, stopPrice: Option<real>)

  datatype Tick = Tick(bid: real, ask: real)

  /** What the executor reads around a submission: positions, quote, sizing (by entry and stop),
      margin check, and the broker's answers. */
  datatype Surroundings = Surroundings(
    hasPosition: bool, tick: Option<Tick>, lot: (real, real) -> Option<real>, marginOk: (real, real, real) -> bool,
    answer: Answer, sight: Sight)

  datatype Request = Request(volume: real, sl: real, tp: Option<real>, marketPrice: real)

  /** Cancelled before anything, rejected, skipped for slippage, or ready to submit. */
  datatype Preparation = AlreadyOpen | Refuse | TooFar | Submit(request: Request)

  /** The stop level and distance, unless the stop specification is inconsistent. */
  function StopFor(cfg: ExecutorConfig, s: TradeSignal, market: real): Option<(real, real)> {
    if cfg.customStop then
      if s.stopPrice.None? then None
      else
        var sl := s.stopPrice.value;
        if (s.side.Buy? && sl < market) || (s.side.Sell? && sl > market)
        then Some((sl, AbsR(s.expectedEntry - sl))) else None
    else if s.stopPrice.Some? then None
    else Some((if s.side.Buy? then market - s.stopDistance else market + s.stopDistance, s.stopDistance))
  }

  function Prepare(cfg: ExecutorConfig, s: TradeSignal, env: Surroundings): Preparation {
    if env.hasPosition then AlreadyOpen
    else if env.tick.None? then Refuse
    else if s.tpDistance.None? != cfg.takeProfitNone then Refuse
    else if s.tpDistance.Some? && s.tpDistance.value <= 0.0 then Refuse
    else
      var market := if s.side.Buy? then env.tick.value.ask else env.tick.value.bid;
      match StopFor(cfg, s, market)
      case None => Refuse
      case Some((sl, distance)) =>
        if distance <= 0.0 then Refuse
        else if AbsR(market - s.expectedEntry) > distance * cfg.maxSlippageFraction then TooFar
        else
          match env.lot(market, sl)
          case None => Refuse
          case Some(volume) =>
            if !env.marginOk(volume, market, sl) then Refuse
            else
              var tp := if s.tpDistance.None? then None
                        else Some(if s.side.Buy? then market + s.tpDistance.value else market - s.tpDistance.value);
              Submit(Request(volume, sl, tp, market))
  }

  /** A submitted request is protected: its stop is on the losing side of the market, its target (present
      exactly when the strategy uses one) on the winning side, the market has not moved too far from the
      signal relative to the stop distance, and no position was open. */
  lemma SubmittedRequestIsProtected(cfg: ExecutorConfig, s: TradeSignal, env: Surroundings)
    requires Prepare(cfg, s, env).Submit?
    ensures var r := Prepare(cfg, s, env).request;
            && !env.hasPosition && env.tick.Some?
            && r.marketPrice == (if s.side.Buy? then env.tick.value.ask else env.tick.value.bid)
            && (if s.side.Buy? then r.sl < r.marketPrice else r.sl > r.marketPrice)
            && (r.tp.None? <==> cfg.takeProfitNone)
            && (r.tp.Some? ==> if s.side.Buy? then r.tp.value > r.marketPrice else r.tp.value < r.marketPrice)
            && env.lot(r.marketPrice, r.sl) == Some(r.volume) && env.marginOk(r.volume, r.marketPrice, r.sl)
            && AbsR(r.marketPrice - s.expectedEntry)
               <= (if cfg.customStop then AbsR(s.expectedEntry - r.sl) else s.stopDistance) * cfg.maxSlippageFraction
  {}

  // ---------- when a request is ready ----------

  /** The stop level the strategy asks for; strategies place it themselves or give a distance, never both. */
  predicate StopAsked(cfg: ExecutorConfig, s: TradeSignal, market: real, sl: real, distance: real) {
    && cfg.customStop == s.stopPrice.Some?
    && (if cfg.customStop then
          && sl == s.stopPrice.value
          && (if s.side.Buy? then sl < market else market < sl)
          && (if s.expectedEntry > sl then distance == s.expectedEntry - sl else distance == sl - s.expectedEntry)
        else
          distance == s.stopDistance && market - sl == (if s.side.Buy? then distance else -distance))
  }

  /** Nothing is open, there is a quote, and the signal's target and stop are consistent. */
  predicate WellPosed(cfg: ExecutorConfig, s: TradeSignal, env: Surroundings, market: real, sl: real, distance: real) {
    && !env.hasPosition && env.tick.Some? && cfg.takeProfitNone == s.tpDistance.None?
    && (s.tpDistance.Some? ==> s.tpDistance.value > 0.0)
    && market == (if s.side.Buy? then env.tick.value.ask else env.tick.value.bid)
    && StopAsked(cfg, s, market, sl, distance) && distance > 0.0
  }

  /** The market is within the allowed part of the stop distance from the expected entry. */
  predicate CloseEnough(cfg: ExecutorConfig, s: TradeSignal, market: real, distance: real) {
    -distance * cfg.maxSlippageFraction <= market - s.expectedEntry <= distance * cfg.maxSlippageFraction
  }

  predicate Affordable(env: Surroundings, market: real, sl: real) {
    env.lot(market, sl).Some? && env.marginOk(env.lot(market, sl).value, market, sl)
  }

  /** A well-posed signal is skipped for slippage, submitted with exactly this request, or refused. */
  lemma WellPosedIsPrepared(cfg: ExecutorConfig, s: TradeSignal, env: Surroundings, market: real, sl: real, distance: real)
    requires WellPosed(cfg, s, env, market, sl, distance)
    ensures var r := Prepare(cfg, s, env);
            && (r.TooFar? <==> !CloseEnough(cfg, s, market, distance))
            && (r.Submit? <==> CloseEnough(cfg, s, market, distance) && Affordable(env, market, sl))
            && (r.Refuse? <==> CloseEnough(cfg, s, market, distance) && !Affordable(env, market, sl))
            && (r.Submit? ==>
                  && r.request.marketPrice == market && r.request.sl == sl && r.request.volume == env.lot(market, sl).value
                  && r.request.tp.Some? == s.tpDistance.Some?
                  && (s.tpDistance.Some? ==>
                        r.request.tp.value - market == (if s.side.Buy? then s.tpDistance.value else -s.tpDistance.value)))
  {
    hide StopFor, StopAsked;
    StopIsAsked(cfg, s, market);
    var bound := distance * cfg.maxSlippageFraction;
    assert -distance * cfg.maxSlippageFraction == -bound;
  }

  /** Every other signal is refused, or cancelled because a position is open. */
  lemma IllPosedIsRefused(cfg: ExecutorConfig, s: TradeSignal, env: Surroundings)
    requires forall market, sl, distance :: !WellPosed(cfg, s, env, market, sl, distance)
    ensures Prepare(cfg, s, env) == if env.hasPosition then AlreadyOpen else Refuse
  {
    if !env.hasPosition && env.tick.Some? {
      var market := if s.side.Buy? then env.tick.value.ask else env.tick.value.bid;
      StopIsAsked(cfg, s, market);
      hide StopFor, StopAsked;
      var stop := StopFor(cfg, s, market);
      if stop.Some? {
        assert !WellPosed(cfg, s, env, market, stop.value.0, stop.value.1);
      }
    }
  }

  lemma StopIsAsked(cfg: ExecutorConfig, s: TradeSignal, market: real)
    ensures forall sl, distance :: StopAsked(cfg, s, market, sl, distance) <==> StopFor(cfg, s, market) == Some((sl, distance))
  {}

  // ---------- one call as protocol steps ----------

  function SignalKey(cfg: ExecutorConfig, s: TradeSignal): Key { Key(cfg.account, cfg.strategy, s.id) }

  /** After the broker answered: settle the row, and look for the position of an accepted order. A step
      the process no longer stands at, because the store refused the one before, changes nothing. */
  function AfterSettling(sys: System, env: Surroundings): System {
    var settled := After(sys, SettleStep(0));
    if env.answer.AcceptedCode? then After(settled, SightStep(0, env.sight)) else settled
  }

  function AfterSubmission(sys: System, request: Request, env: Surroundings): System {
    AfterSettling(After(After(After(sys, RequestStep(0, request.volume)), SubmitStep(0)), SendStep(0, env.answer)), env)
  }

  function AfterPrepared(sys: System, preparation: Preparation, env: Surroundings): System {
    match preparation
    case AlreadyOpen => After(sys, GiveUpStep(0, true))
    case TooFar => After(sys, GiveUpStep(0, true))
    case Refuse => After(sys, GiveUpStep(0, false))
    case Submit(request) => AfterSubmission(sys, request, env)
  }

  function AfterSignal(sys: System, cfg: ExecutorConfig, s: TradeSignal, env: Surroundings, probe: Probe): System {
    var claimed := After(sys, ClaimStep(0, SignalKey(cfg, s), s.side));
    if ClaimResult(sys.rows, SignalKey(cfg, s)).claimed
    then AfterPrepared(claimed, Prepare(cfg, s, env), env)
    else After(claimed, ProbeStep(0, probe))
  }

  function AfterProbes(sys: System, ids: seq<nat>, probes: nat -> Probe, n: nat): System
    requires n <= |ids|
  {
    if n == 0 then sys else After(AfterProbes(sys, ids, probes, n - 1), ProbeStep(0, probes(ids[n - 1])))
  }

  /** The strategy's pending flag after a call whose row was resolved in the journal. */
  function PendingAfter(before: bool, preparation: Preparation, env: Surroundings): bool {
    match preparation
    case AlreadyOpen => before
    case Submit(_) => !(env.answer.RefusedCode? || (env.answer.AcceptedCode? && env.sight.Visible?))
    case _ => false
  }

  /** The claimed row after a call: cancelled or rejected unsent, or submitted and settled. */
  predicate ConcludedAs(claimed: Row, preparation: Preparation, env: Surroundings, after: Row) {
    match preparation
    case AlreadyOpen => after == claimed.(status := Cancelled)
    case TooFar => after == claimed.(status := Cancelled)
    case Refuse => after == claimed.(status := Rejected)
    case Submit(request) =>
      SettledAs(claimed.(status := Submitting, requestedVolume := Some(request.volume)), env.answer, env.sight, after)
  }

  /** The two journals differ in one row at most. */
  predicate SameBut(rows: seq<Row>, before: seq<Row>, id: nat) {
    |rows| == |before| && forall k | 0 <= k < |rows| && k != id :: rows[k] == before[k]
  }

  lemma RequestRecords(rows: seq<Row>, id: nat, volume: real)
    requires id < |rows|
    ensures AfterRequest(rows, id, volume) == rows[id := rows[id].(requestedVolume := Some(volume))]
  {}

  lemma Concludes(claimed: Row, request: Request, env: Surroundings, after: Row)
    requires SettledAs(claimed.(requestedVolume := Some(request.volume)).(status := Submitting), env.answer, env.sight, after)
    ensures ConcludedAs(claimed, Submit(request), env, after)
  {}

  lemma ClaimAppends(rows: seq<Row>, key: Key, side: Side)
    ensures ClaimResult(rows, key).claimed ==> AfterClaim(rows, key, side) == rows + [Row(key, side, Created, None, None, None, None)]
    ensures !ClaimResult(rows, key).claimed ==> AfterClaim(rows, key, side) == rows
  {}

  lemma ListingHasEachOnce(rows: seq<Row>, account: Option<string>, ids: seq<nat>)
    requires IsListing(rows, account, ids)
    ensures forall j, k | 0 <= j < k < |ids| :: ids[j] != ids[k]
  {}

  lemma GiveUpIsMove(sys: System, cancel: bool)
    requires PcOf(sys, 0).Owns?
    ensures After(sys, GiveUpStep(0, cancel))
            == Moved(sys, 0, PcOf(sys, 0).id, if cancel then Cancelled else Rejected, NO_PATCH, Idle)
  {}

  lemma ListingQueues(sys: System, account: Option<string>, ids: seq<nat>)
    requires PcOf(sys, 0).Idle? && IsListing(sys.rows, account, ids)
    ensures var listed := After(sys, ListStep(0, account, ids));
            && listed.rows == sys.rows && listed.sends == sys.sends
            && PcOf(listed, 0) == CheckOrRest(Snapshots(sys.rows, ids))
  {}

  /** Probes of a process that has already stopped checking do nothing. */
  lemma {:induction false} RestIsIdle(sys: System, ids: seq<nat>, probes: nat -> Probe, k: nat, n: nat)
    requires k <= n <= |ids| && PcOf(AfterProbes(sys, ids, probes, k), 0).Idle?
    ensures AfterProbes(sys, ids, probes, n) == AfterProbes(sys, ids, probes, k)
    decreases n - k
  {
    if k < n {
      RestIsIdle(sys, ids, probes, k, n - 1);
    }
  }

  lemma ClaimStepIs(sys: System, key: Key, side: Side)
    requires PcOf(sys, 0).Idle?
    ensures var a, c := After(sys, ClaimStep(0, key, side)), ClaimResult(sys.rows, key);
            && a.rows == AfterClaim(sys.rows, key, side) && a.sends == sys.sends
            && (if c.claimed then PcOf(a, 0) == Owns(c.id)
                else a.rows == sys.rows && PcOf(a, 0) == Checks([Snapshot(c.id, sys.rows[c.id])]))
  {}

  lemma NoProbes(sys: System, ids: seq<nat>, probes: nat -> Probe)
    ensures AfterProbes(sys, ids, probes, 0) == sys
  {}

  lemma OneMoreProbe(sys: System, ids: seq<nat>, probes: nat -> Probe, k: nat)
    requires k < |ids|
    ensures AfterProbes(sys, ids, probes, k + 1) == After(AfterProbes(sys, ids, probes, k), ProbeStep(0, probes(ids[k])))
  {}

  /** A move that writes no broker id cannot clash with another row. */
  lemma PlainMoveSucceeds(rows: seq<Row>, id: nat, to: Status)
    requires ValidRows(rows) && id < |rows| && Legal(rows[id].status, to)
    ensures TransitionError(rows, id, to, NO_PATCH).None?
  {
    var row := Patched(rows[id], to, NO_PATCH);
    forall j | 0 <= j < |rows| && j != id
      ensures NoIdClash(rows[j], row) && NoIdClash(row, rows[j])
    {
      assert if j < id then NoIdClash(rows[j], rows[id]) else NoIdClash(rows[id], rows[j]);
    }
  }

  /** The submission of a freshly claimed row always reaches the broker, once. */
  lemma SubmissionSends(sys: System, id: nat, request: Request, env: Surroundings)
    requires Solo(sys) && PcOf(sys, 0) == Owns(id)
    ensures AfterSubmission(sys, request, env).sends == sys.sends + [id]
  {
    hide OneToken, OneActive, ValidRows, TransitionError, SettledPatch, SightPatch;
    var requested := After(sys, RequestStep(0, request.volume));
    StepKeepsSolo(sys, RequestStep(0, request.volume));
    assert PcOf(requested, 0) == Requested(id) && requested.sends == sys.sends;
    assert ValidRows(requested.rows) by { TokenIsValid(requested); }
    assert requested.rows[id].status.Created?;
    PlainMoveSucceeds(requested.rows, id, Submitting);
    var submitting := After(requested, SubmitStep(0));
    assert PcOf(submitting, 0) == Submits(id);
  }

  lemma TokenIsValid(sys: System)
    requires OneToken(sys)
    ensures ValidRows(sys.rows)
  {}

  /** One call sends exactly when it claims the signal and its request is ready, and then its own row. */
  lemma {:induction false} CallsBrokerExactlyWhen(sys: System, cfg: ExecutorConfig, s: TradeSignal, env: Surroundings, probe: Probe)
    requires Solo(sys) && PcOf(sys, 0).Idle?
    ensures AfterSignal(sys, cfg, s, env, probe).sends
            == sys.sends + if ClaimResult(sys.rows, SignalKey(cfg, s)).claimed && Prepare(cfg, s, env).Submit?
                           then [|sys.rows|] else []
  {
    hide Solo, Prepare, AfterSubmission, ProbeMove, TransitionError;
    var claimed := After(sys, ClaimStep(0, SignalKey(cfg, s), s.side));
    StepKeepsSolo(sys, ClaimStep(0, SignalKey(cfg, s), s.side));
    if ClaimResult(sys.rows, SignalKey(cfg, s)).claimed && Prepare(cfg, s, env).Submit? {
      SubmissionSends(claimed, |sys.rows|, Prepare(cfg, s, env).request, env);
    }
  }

  // ---------- the executor ----------

  datatype Outcome =
    | Existing(id: nat)              // the key or the strategy already had an intent; it was reconciled
    | Resolved(id: nat, status: Status)
    | StoreFailed(error: StoreError)

  /** The broker boundary: every order that ever crossed it, by row. The order book behind it and
      its answers are outside the model. */
  class BrokerLink {
    var received: seq<nat>

    constructor ()
      ensures received == []
    {
      received := [];
    }

    method SendMarketOrder(id: nat, scripted: Answer) returns (answer: Answer)
      modifies this
      ensures received == old(received) + [id] && answer == scripted
    {
      received := received + [id];
      return scripted;
    }
  }

  class Executor {
    const cfg: ExecutorConfig
    const store: IntentRepository
    const broker: BrokerLink
    /** The strategy's own "order pending" flag. */
    var orderPending: bool
    /** Everything the executor has done, as protocol steps, and the system they lead to. */
    ghost var trace: seq<Step>
    ghost var sys: System

    ghost predicate Valid()
      reads this, store, broker
    {
      Running() && PcOf(sys, 0).Idle?
    }

    /** A call in progress: as Valid, with the process somewhere inside the executor. */
    ghost predicate Running()
      reads this, store, broker
    {
      && sys == Execute(INITIAL, trace) && ByOneProcess(trace)
      && sys.rows == store.rows && sys.sends == broker.received
    }

    constructor (cfg: ExecutorConfig, store: IntentRepository, broker: BrokerLink)
      requires store.rows == [] && broker.received == []
      ensures Valid() && this.cfg == cfg && this.store == store && this.broker == broker
      ensures trace == [] && !orderPending
    {
      this.cfg, this.store, this.broker := cfg, store, broker;
      orderPending := false;
      trace, sys := [], INITIAL;
    }

    ghost method Note(step: Step)
      requires sys == Execute(INITIAL, trace) && ByOneProcess(trace) && step.p == 0
      modifies this`trace, this`sys
      ensures trace == old(trace) + [step] && sys == After(old(sys), step)
      ensures sys == Execute(INITIAL, trace) && ByOneProcess(trace)
    {
      var before := trace;
      trace := trace + [step];
      assert trace[..|trace| - 1] == before;
      sys := After(sys, step);
    }

    /** Every reachable journal has at most one unresolved row per strategy. */
    lemma JournalIsSafe()
      requires Running()
      ensures OneActive(store.rows) && ValidRows(store.rows) && Solo(sys)
    {
      RunKeepsSolo(trace);
    }

    /** One journal transition of the process's own row. */
    method Move(id: nat, to: Status, patch: Patch, ghost step: Step, ghost next: Pc)
      returns (r: Result<Row, StoreError>)
      requires Running() && step.p == 0
      requires After(sys, step) == Moved(sys, 0, id, to, patch, next)
      modifies this`trace, this`sys, store
      ensures Running() && trace == old(trace) + [step] && sys == After(old(sys), step)
      ensures sys.sends == old(sys).sends && sys.claims == old(sys).claims
      ensures r.Success? ==> id < |store.rows| && r.value == store.rows[id] && r.value.status == to && PcOf(sys, 0) == next
      ensures r.Failure? ==> PcOf(sys, 0).Idle? && store.rows == old(store.rows)
      ensures r.Success? ==> id < |old(store.rows)| && store.rows == old(store.rows)[id := Patched(old(store.rows)[id], to, patch)]
    {
      JournalIsSafe();
      r := store.Transition(id, to, patch);
      Note(step);
    }

    method ReconcileOne(id: nat, row: Row, probe: Probe, ghost rest: seq<Snapshot>) returns (r: Option<StoreError>)
      requires Running() && PcOf(sys, 0) == Checks([Snapshot(id, row)] + rest)
      modifies this`trace, this`sys, store
      ensures Running() && trace == old(trace) + [ProbeStep(0, probe)] && sys.sends == old(sys).sends
      ensures sys == After(old(sys), ProbeStep(0, probe))
      ensures PcOf(sys, 0) == if r.None? then CheckOrRest(rest) else Idle
      ensures SameBut(store.rows, old(store.rows), id)
      ensures r.None? && id < |old(store.rows)| && old(store.rows)[id] == row ==>
                SameBut(store.rows, old(store.rows), id) && ReconciledAs(row, probe, store.rows[id])
    {
      ReconcilingWrites(row, probe);
      ghost var queue := [Snapshot(id, row)] + rest;
      assert queue[0] == Snapshot(id, row) && queue[1..] == rest;
      match ProbeMove(row, probe) {
        case Stay =>
          Note(ProbeStep(0, probe));
          r := None;
        case MoveTo(status, patch) =>
          var moved := Move(id, status, patch, ProbeStep(0, probe), CheckOrRest(rest));
          r := if moved.Failure? then Some(moved.error) else None;
      }
    }

    /** Claims the signal, prepares, journals, calls the broker at most once, and settles. */
    method ExecuteSignal(s: TradeSignal, env: Surroundings, probe: Probe) returns (r: Outcome)
      requires Valid()
      modifies this, store, broker
      ensures Valid() && OneActive(store.rows)
      ensures sys == AfterSignal(old(sys), cfg, s, env, probe)
      // the broker is called exactly when this call claims the signal and the request is ready
      ensures broker.received == old(broker.received)
                + if ClaimResult(old(store.rows), SignalKey(cfg, s)).claimed && Prepare(cfg, s, env).Submit?
                  then [|old(store.rows)|] else []
      // an intent that stays unresolved leaves the strategy marked as pending
      ensures r.Resolved? && Active(r.status) ==> orderPending
      ensures r.Resolved? ==> orderPending == PendingAfter(old(orderPending), Prepare(cfg, s, env), env)
      ensures r.Resolved? ==> r.id < |store.rows| && store.rows[r.id].status == r.status
      ensures r.Existing? ==> orderPending == old(orderPending)
      // a new row is appended and concluded as the preparation, the answer and the sight say ...
      ensures r.Resolved? ==>
                r.id == |old(store.rows)| && |store.rows| == r.id + 1 && store.rows[..r.id] == old(store.rows)
                && ConcludedAs(Row(Key(account := cfg.account, strategy := cfg.strategy, signal := s.id), s.side, Created, None, None, None, None), Prepare(cfg, s, env), env, store.rows[r.id])
      // ... or an existing one is reconciled, and nothing else changes
      ensures r.Existing? ==>
                r.id < |old(store.rows)| && SameBut(store.rows, old(store.rows), r.id)
                && ReconciledAs(old(store.rows)[r.id], probe, store.rows[r.id])
    {
      hide Prepare, Moved, Execute, ClaimResult, AfterClaim;
      var key := SignalKey(cfg, s);
      JournalIsSafe();
      CallsBrokerExactlyWhen(sys, cfg, s, env, probe);
      ClaimStepIs(sys, key, s.side);
      ClaimAppends(store.rows, key, s.side);
      var claim := store.ClaimSignal(key, s.side);
      Note(ClaimStep(0, key, s.side));
      if !claim.claimed {
        var failed := ReconcileOne(claim.id, store.rows[claim.id], probe, []);
        JournalIsSafe();
        return if failed.Some? then StoreFailed(failed.value) else Existing(claim.id);
      }
      r := SubmitClaimed(claim.id, s, env);
      JournalIsSafe();
    }

    method SubmitClaimed(id: nat, s: TradeSignal, env: Surroundings) returns (r: Outcome)
      requires Running() && PcOf(sys, 0) == Owns(id)
      modifies this, store, broker
      ensures Valid() && sys == AfterPrepared(old(sys), Prepare(cfg, s, env), env)
      ensures r.Resolved? && Active(r.status) ==> orderPending
      ensures r.Resolved? ==> orderPending == PendingAfter(old(orderPending), Prepare(cfg, s, env), env)
      ensures r.Resolved? ==> r.id < |store.rows| && store.rows[r.id].status == r.status
      ensures r.Resolved? ==> r.id == id < |old(store.rows)| && ConcludedAs(old(store.rows)[id], Prepare(cfg, s, env), env, store.rows[id])
      ensures SameBut(store.rows, old(store.rows), id)
      ensures !r.Existing?
    {
      hide Prepare, Moved, Execute, After, AfterSubmission;
      var preparation := Prepare(cfg, s, env);
      if !preparation.AlreadyOpen? {
        orderPending := true;
      }
      if preparation.Submit? {
        r := SubmitRequest(id, preparation.request, env);
      } else {
        if !preparation.AlreadyOpen? {
          orderPending := false;
        }
        var cancel := !preparation.Refuse?;
        GiveUpIsMove(sys, cancel);
        var given := Move(id, if cancel then Cancelled else Rejected, NO_PATCH, GiveUpStep(0, cancel), Idle);
        r := Report(id, given);
      }
    }

    /** Records the request, marks the row SUBMITTING, and only then crosses the broker boundary, once. */
    method SubmitRequest(id: nat, request: Request, env: Surroundings) returns (r: Outcome)
      requires Running() && PcOf(sys, 0) == Owns(id) && orderPending
      modifies this, store, broker
      ensures Valid() && sys == AfterSubmission(old(sys), request, env)
      ensures r.Resolved? && Active(r.status) ==> orderPending
      ensures r.Resolved? ==> orderPending == PendingAfter(old(orderPending), Submit(request), env)
      ensures r.Resolved? ==> r.id < |store.rows| && store.rows[r.id].status == r.status
      ensures r.Resolved? ==> r.id == id < |old(store.rows)| && ConcludedAs(old(store.rows)[id], Submit(request), env, store.rows[id])
      ensures SameBut(store.rows, old(store.rows), id)
      ensures !r.Existing?
    {
      hide Moved, Execute, AfterRequest, ConcludedAs;
      JournalIsSafe();
      RequestRecords(store.rows, id, request.volume);
      var recorded := store.SetRequest(id, request.volume);
      Note(RequestStep(0, request.volume));
      var submitting := Move(id, Submitting, NO_PATCH, SubmitStep(0), Submits(id));
      if submitting.Failure? {
        return StoreFailed(submitting.error);
      }
      var answer := broker.SendMarketOrder(id, env.answer);
      Note(SendStep(0, answer));
      r := Settle(id, env);
      if r.Resolved? {
        Concludes(old(store.rows)[id], request, env, store.rows[id]);
      }
    }

    function Report(id: nat, moved: Result<Row, StoreError>): Outcome {
      if moved.Failure? then StoreFailed(moved.error) else Resolved(id, moved.value.status)
    }

    method Settle(id: nat, env: Surroundings) returns (r: Outcome)
      requires Running() && PcOf(sys, 0) == Answered(id, env.answer) && orderPending
      modifies this, store, broker
      ensures Valid() && sys == AfterSettling(old(sys), env)
      ensures broker.received == old(broker.received)
      ensures r.Resolved? && Active(r.status) ==> orderPending
      ensures r.Resolved? ==> orderPending == !(env.answer.RefusedCode? || (env.answer.AcceptedCode? && env.sight.Visible?))
      ensures r.Resolved? ==> r.id < |store.rows| && store.rows[r.id].status == r.status
      // the row as the broker's answer, and the look for an accepted order, leave it
      ensures r.Resolved? ==>
                r.id == id < |old(store.rows)| && SettledAs(old(store.rows)[id], env.answer, env.sight, store.rows[id])
      ensures SameBut(store.rows, old(store.rows), id)
      ensures !r.Existing?
    {
      hide Moved, Execute, SettledPatch, SightPatch;
      if env.answer.RefusedCode? {
        orderPending := false;
      }
      ghost var accepted := env.answer.AcceptedCode?;
      ghost var before := if id < |store.rows| then Some(store.rows[id]) else None;
      if before.Some? {
        SettlingWrites(before.value, env.answer, env.sight);
      }
      var settled := Move(id, SettledStatus(env.answer), SettledPatch(env.answer), SettleStep(0),
                          if accepted then Looks(id) else Idle);
      if settled.Failure? || !env.answer.AcceptedCode? {
        return Report(id, settled);
      }
      var requested := store.rows[id].requestedVolume;
      var seen := Move(id, SightStatus(env.sight, requested), SightPatch(env.sight), SightStep(0, env.sight), Idle);
      if seen.Success? && env.sight.Visible? {
        orderPending := false;
      }
      return Report(id, seen);
    }

    /** Re-checks every unresolved row of the account, in the order the journal lists them; submits nothing. */
    method ReconcilePendingIntents(probes: nat -> Probe) returns (failed: Option<StoreError>, ids: seq<nat>)
      requires Valid()
      modifies this`trace, this`sys, store
      ensures Valid() && OneActive(store.rows)
      ensures IsListing(old(store.rows), Some(cfg.account), ids)
      ensures sys == AfterProbes(After(old(sys), ListStep(0, Some(cfg.account), ids)), ids, probes, |ids|)
      ensures broker.received == old(broker.received)
      // each listed row as its own lookup says, unless a failed write stopped the call; no other row changes
      ensures |store.rows| == |old(store.rows)|
      ensures forall i | 0 <= i < |store.rows| && i !in ids :: store.rows[i] == old(store.rows)[i]
      ensures failed.None? ==> forall k | 0 <= k < |ids| :: ids[k] < |store.rows| && ReconciledAs(old(store.rows)[ids[k]], probes(ids[k]), store.rows[ids[k]])
    {
      hide Moved, Execute, IsListing, After, AfterProbes, Snapshots, OneActive, ValidRows, Solo, ReconciledAs;
      ids := store.ListReconcilable(Some(cfg.account));
      ListingIsInRange(store.rows, Some(cfg.account), ids);
      ListingHasEachOnce(store.rows, Some(cfg.account), ids);
      var rows := store.rows;
      ghost var queue := Snapshots(rows, ids);
      ListingQueues(sys, Some(cfg.account), ids);
      Note(ListStep(0, Some(cfg.account), ids));
      ghost var listed := sys;
      assert AfterProbes(listed, ids, probes, 0) == sys by { NoProbes(listed, ids, probes); }
      failed := None;
      var k := 0;
      while k < |ids|
        invariant 0 <= k <= |ids| && Running() && PcOf(sys, 0) == CheckOrRest(queue[k..])
        invariant sys == AfterProbes(listed, ids, probes, k)
        invariant sys.sends == old(sys).sends
        invariant |store.rows| == |rows| && failed.None?
        invariant forall i | 0 <= i < |rows| && i !in ids[..k] :: store.rows[i] == rows[i]
        invariant forall j | 0 <= j < k :: ReconciledAs(rows[ids[j]], probes(ids[j]), store.rows[ids[j]])
      {
        assert ids[..k + 1] == ids[..k] + [ids[k]];
        assert queue[k..] == [Snapshot(ids[k], rows[ids[k]])] + queue[k + 1..];
        failed := ReconcileOne(ids[k], rows[ids[k]], probes(ids[k]), queue[k + 1..]);
        OneMoreProbe(listed, ids, probes, k);
        k := k + 1;
        if failed.Some? {
          RestIsIdle(listed, ids, probes, k, |ids|);
          break;
        }
      }
      JournalIsSafe();
    }
  }
}
