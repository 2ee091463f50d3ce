/** Order submission as a state machine: any number of processes run the executor against one
    journal, each step is one transaction or one broker call, and any process may stop at any step.
    The broker is an adversary: its answers are step parameters. */
module IntentProtocol {
  import opened Market
  import opened Options
  import opened IntentStore

  // ---------- broker answers ----------

  datatype Answer = Raised | NoResult | RefusedCode(orderId: Option<int>) | AcceptedCode(orderId: Option<int>)

  datatype Sight = SightFailed | NotVisible | Visible(ticket: int, volume: real)

  datatype Probe =
    | ProbeFailed
    | FoundNothing
    | FoundInHistory(historyOrder: Option<int>, historyPosition: Option<int>, historyVolume: real)
    | FoundPosition(ticket: int, positionVolume: real)

  // ---------- one process ----------

  /** Where a process is inside the executor. */
  datatype Pc =
    | Idle
    | Owns(id: nat)                          // claimed a new row
    | Requested(id: nat)                     // its request is recorded
    | Submits(id: nat)                       // its row is SUBMITTING, the broker call comes next
    | Answered(id: nat, answer: Answer)      // the broker call returned or raised
    | Looks(id: nat)                         // the order was accepted, the position lookup comes next
    | Checks(queue: seq<Snapshot>)           // rows to reconcile, as read

  datatype Snapshot = Snapshot(id: nat, row: Row)

  datatype System = System(rows: seq<Row>, pcs: map<nat, Pc>, sends: seq<nat>, claims: seq<nat>)

  const INITIAL: System := System([], map[], [], [])

  function PcOf(sys: System, p: nat): Pc { if p in sys.pcs then sys.pcs[p] else Idle }

  function Goto(sys: System, p: nat, pc: Pc): System { sys.(pcs := sys.pcs[p := pc]) }

  // ---------- statuses the executor moves to ----------

  function SettledStatus(answer: Answer): Status {
    match answer
    case Raised => Unknown
    case NoResult => Unknown
    case RefusedCode(_) => Rejected
    case AcceptedCode(_) => Accepted
  }

  function SettledPatch(answer: Answer): Patch {
    match answer
    case RefusedCode(id) => NO_PATCH.(setOrder := true, orderId := id)
    case AcceptedCode(id) => NO_PATCH.(setOrder := true, orderId := id)
    case _ => NO_PATCH
  }

  /** A nonzero volume below the requested one is a partial fill. */
  function FillStatus(volume: real, requested: Option<real>): Status {
    if volume != 0.0 && requested.Some? && requested.value != 0.0 && volume < requested.value
    then PartiallyFilled else Filled
  }

  function SightStatus(sight: Sight, requested: Option<real>): Status {
    match sight
    case SightFailed => Unknown
    case NotVisible => Reconciling
    case Visible(_, volume) => FillStatus(volume, requested)
  }

  function SightPatch(sight: Sight): Patch {
    match sight
    case Visible(ticket, volume) => Patch(false, None, true, Some(ticket), true, Some(volume))
    case _ => NO_PATCH
  }

  /** A history match without a volume counts as the whole request. */
  function HistoryVolume(volume: real, requested: Option<real>): Option<real> {
    if volume != 0.0 then Some(volume) else requested
  }

  datatype Move = Stay | MoveTo(status: Status, patch: Patch)

  /** What reconciling one snapshot writes, if anything. */
  function ProbeMove(row: Row, probe: Probe): Move {
    if !Reconcilable(row.status) then Stay
    else
      match probe
      case ProbeFailed => MoveTo(Unknown, NO_PATCH)
      case FoundNothing => if row.status.Reconciling? then Stay else MoveTo(Reconciling, NO_PATCH)
      case FoundInHistory(order, position, volume) =>
        var v := HistoryVolume(volume, row.requestedVolume);
        MoveTo(if v.Some? then FillStatus(v.value, row.requestedVolume) else Filled,
               Patch(true, order, true, position, true, v))
      case FoundPosition(ticket, volume) =>
        MoveTo(FillStatus(volume, row.requestedVolume), Patch(false, None, true, Some(ticket), true, Some(volume)))
  }

  // ---------- steps ----------

  datatype Step =
    | ClaimStep(p: nat, key: Key, side: Side)
    | GiveUpStep(p: nat, cancel: bool)
    | RequestStep(p: nat, volume: real)
    | SubmitStep(p: nat)
    | SendStep(p: nat, answer: Answer)
    | SettleStep(p: nat)
    | SightStep(p: nat, sight: Sight)
    | ListStep(p: nat, account: Option<string>, ids: seq<nat>)      // read in this order
    | ProbeStep(p: nat, probe: Probe)
    | StopStep(p: nat)

  function Snapshots(rows: seq<Row>, ids: seq<nat>): (r: seq<Snapshot>)
    requires forall k | 0 <= k < |ids| :: ids[k] < |rows|
    ensures |r| == |ids| && forall k | 0 <= k < |r| :: r[k] == Snapshot(ids[k], rows[ids[k]])
  {
    seq(|ids|, k requires 0 <= k < |ids| => Snapshot(ids[k], rows[ids[k]]))
  }

  function CheckOrRest(queue: seq<Snapshot>): Pc { if queue == [] then Idle else Checks(queue) }

  /** A transition by process p, which goes on to `next`; a store error ends its call. */
  function Moved(sys: System, p: nat, id: nat, to: Status, patch: Patch, next: Pc): System {
    if TransitionError(sys.rows, id, to, patch).Some? then Goto(sys, p, Idle)
    else Goto(sys, p, next).(rows := AfterTransition(sys.rows, id, to, patch))
  }

  /** The system after a step; a step the process is not at changes nothing. */
  function After(sys: System, step: Step): System {
    var p := step.p;
    var pc := PcOf(sys, p);
    match step
    case ClaimStep(_, key, side) =>
      if !pc.Idle? then sys
      else
        var c := ClaimResult(sys.rows, key);
        if c.claimed then
          Goto(sys, p, Owns(c.id)).(rows := AfterClaim(sys.rows, key, side), claims := sys.claims + [c.id])
        else
          Goto(sys, p, Checks([Snapshot(c.id, sys.rows[c.id])]))
    case GiveUpStep(_, cancel) =>
      if !pc.Owns? then sys
      else Moved(sys, p, pc.id, if cancel then Cancelled else Rejected, NO_PATCH, Idle)
    case RequestStep(_, volume) =>
      if !pc.Owns? then sys
      else Goto(sys, p, Requested(pc.id)).(rows := AfterRequest(sys.rows, pc.id, volume))
    case SubmitStep(_) =>
      if !pc.Requested? then sys
      else Moved(sys, p, pc.id, Submitting, NO_PATCH, Submits(pc.id))
    case SendStep(_, answer) =>
      if !pc.Submits? then sys
      else Goto(sys, p, Answered(pc.id, answer)).(sends := sys.sends + [pc.id])
    case SettleStep(_) =>
      if !pc.Answered? then sys
      else Moved(sys, p, pc.id, SettledStatus(pc.answer), SettledPatch(pc.answer),
                 if pc.answer.AcceptedCode? then Looks(pc.id) else Idle)
    case SightStep(_, sight) =>
      if !pc.Looks? || pc.id >= |sys.rows| then sys
      else Moved(sys, p, pc.id, SightStatus(sight, sys.rows[pc.id].requestedVolume), SightPatch(sight), Idle)
    case ListStep(_, account, ids) =>
      if !pc.Idle? || !IsListing(sys.rows, account, ids) then sys
      else Goto(sys, p, CheckOrRest(Snapshots(sys.rows, ids)))
    case ProbeStep(_, probe) =>
      if !pc.Checks? || pc.queue == [] then sys
      else
        var head, next := pc.queue[0], CheckOrRest(pc.queue[1..]);
        (match ProbeMove(head.row, probe)
         case Stay => Goto(sys, p, next)
         case MoveTo(status, patch) => Moved(sys, p, head.id, status, patch, next))
    case StopStep(_) => Goto(sys, p, Idle)
  }

  function Execute(sys: System, steps: seq<Step>): System {
    if |steps| == 0 then sys else After(Execute(sys, steps[..|steps| - 1]), steps[|steps| - 1])
  }

  lemma {:induction false} ExecuteConcat(sys: System, a: seq<Step>, b: seq<Step>)
    ensures Execute(sys, a + b) == Execute(Execute(sys, a), b)
  {
    if |b| == 0 {
      assert a + b == a;
    } else {
      assert (a + b)[..|a + b| - 1] == a + b[..|b| - 1];
      ExecuteConcat(sys, a, b[..|b| - 1]);
    }
  }

  // ---------- at most once, under every interleaving ----------

  predicate Unsent(pc: Pc) { pc.Owns? || pc.Requested? || pc.Submits? }

  /** The right to submit a row is held by at most one process, is never regained, and is spent by
      the one broker call. */
  ghost predicate OneToken(sys: System) {
    && ValidRows(sys.rows)
    && (forall k | 0 <= k < |sys.claims| :: sys.claims[k] < |sys.rows|)
    && (forall j, k | 0 <= j < k < |sys.claims| :: sys.claims[j] != sys.claims[k])
    && (forall j, k | 0 <= j < k < |sys.sends| :: sys.sends[j] != sys.sends[k])
    && (forall k | 0 <= k < |sys.sends| :: sys.sends[k] in sys.claims)
    && (forall p | p in sys.pcs && Unsent(sys.pcs[p]) :: sys.pcs[p].id in sys.claims && sys.pcs[p].id !in sys.sends)
    && (forall p, q | p in sys.pcs && q in sys.pcs && p != q && Unsent(sys.pcs[p]) && Unsent(sys.pcs[q]) ::
          sys.pcs[p].id != sys.pcs[q].id)
  }

  lemma MovedKeepsToken(sys: System, p: nat, id: nat, to: Status, patch: Patch, next: Pc)
    requires OneToken(sys)
    requires Unsent(next) ==> p in sys.pcs && Unsent(sys.pcs[p]) && sys.pcs[p].id == next.id
    ensures OneToken(Moved(sys, p, id, to, patch, next))
  {
    hide ClashFree, UniqueKeys, UniqueBrokerIds;
    TransitionKeepsConstraints(sys.rows, id, to, patch);
  }

  lemma GotoKeepsToken(sys: System, p: nat, next: Pc)
    requires OneToken(sys)
    requires Unsent(next) ==> p in sys.pcs && Unsent(sys.pcs[p]) && sys.pcs[p].id == next.id
    ensures OneToken(Goto(sys, p, next))
  {}

  lemma RequestKeepsConstraints(rows: seq<Row>, id: nat, volume: real)
    requires ValidRows(rows)
    ensures ValidRows(AfterRequest(rows, id, volume))
  {}

  lemma {:induction false} ClaimKeepsToken(sys: System, p: nat, key: Key, side: Side)
    requires OneToken(sys)
    ensures OneToken(After(sys, ClaimStep(p, key, side)))
  {
    ClaimKeepsConstraints(sys.rows, key, side);
  }

  lemma SendKeepsToken(sys: System, p: nat, answer: Answer)
    requires OneToken(sys)
    ensures OneToken(After(sys, SendStep(p, answer)))
  {}

  lemma {:induction false} StepKeepsToken(sys: System, step: Step)
    requires OneToken(sys)
    ensures OneToken(After(sys, step))
  {
    hide OneToken, Moved, ProbeMove, AfterRequest, Snapshots, IsListing, TransitionError;
    var p := step.p;
    var pc := PcOf(sys, p);
    match step {
      case ClaimStep(_, key, side) =>
        ClaimKeepsToken(sys, p, key, side);
      case GiveUpStep(_, cancel) =>
        if pc.Owns? {
          MovedKeepsToken(sys, p, pc.id, if cancel then Cancelled else Rejected, NO_PATCH, Idle);
        }
      case RequestStep(_, volume) =>
        RequestStepKeepsToken(sys, p, volume);
      case SubmitStep(_) =>
        if pc.Requested? {
          MovedKeepsToken(sys, p, pc.id, Submitting, NO_PATCH, Submits(pc.id));
        }
      case SendStep(_, answer) =>
        SendKeepsToken(sys, p, answer);
      case SettleStep(_) =>
        if pc.Answered? {
          MovedKeepsToken(sys, p, pc.id, SettledStatus(pc.answer), SettledPatch(pc.answer),
                          if pc.answer.AcceptedCode? then Looks(pc.id) else Idle);
        }
      case SightStep(_, sight) =>
        if pc.Looks? && pc.id < |sys.rows| {
          MovedKeepsToken(sys, p, pc.id, SightStatus(sight, sys.rows[pc.id].requestedVolume), SightPatch(sight), Idle);
        }
      case ListStep(_, account, ids) =>
        if pc.Idle? && IsListing(sys.rows, account, ids) {
          ListingIsInRange(sys.rows, account, ids);
          GotoKeepsToken(sys, p, CheckOrRest(Snapshots(sys.rows, ids)));
        }
      case ProbeStep(_, probe) =>
        if pc.Checks? && pc.queue != [] {
          var head, next := pc.queue[0], CheckOrRest(pc.queue[1..]);
          match ProbeMove(head.row, probe) {
            case Stay => GotoKeepsToken(sys, p, next);
            case MoveTo(status, patch) => MovedKeepsToken(sys, p, head.id, status, patch, next);
          }
        }
      case StopStep(_) =>
        GotoKeepsToken(sys, p, Idle);
    }
  }

  lemma ListingIsInRange(rows: seq<Row>, account: Option<string>, ids: seq<nat>)
    requires IsListing(rows, account, ids)
    ensures forall k | 0 <= k < |ids| :: ids[k] < |rows|
  {}

  lemma RequestStepKeepsToken(sys: System, p: nat, volume: real)
    requires OneToken(sys)
    ensures OneToken(After(sys, RequestStep(p, volume)))
  {
    var pc := PcOf(sys, p);
    if pc.Owns? {
      RequestKeepsConstraints(sys.rows, pc.id, volume);
    }
  }

  lemma {:induction false} RunKeepsToken(steps: seq<Step>)
    ensures OneToken(Execute(INITIAL, steps))
  {
    hide After, OneToken;
    if |steps| == 0 {
      InitialToken();
    } else {
      RunKeepsToken(steps[..|steps| - 1]);
      StepKeepsToken(Execute(INITIAL, steps[..|steps| - 1]), steps[|steps| - 1]);
    }
  }

  lemma InitialToken()
    ensures OneToken(INITIAL)
  {}

  /** At-most-once submission: whatever processes interleave, stop and restart, and whatever the broker
      answers, each signal has at most one row, each row is claimed at most once, and the broker is
      called at most once per row and therefore at most once per signal. */
  lemma AtMostOnceSubmission(steps: seq<Step>)
    ensures var sys := Execute(INITIAL, steps);
            && UniqueKeys(sys.rows)
            && (forall j, k | 0 <= j < k < |sys.claims| :: sys.claims[j] != sys.claims[k])
            && (forall k | 0 <= k < |sys.sends| :: sys.sends[k] < |sys.rows| && sys.sends[k] in sys.claims)
            && (forall j, k | 0 <= j < k < |sys.sends| ::
                  sys.sends[j] != sys.sends[k] && sys.rows[sys.sends[j]].key != sys.rows[sys.sends[k]].key)
  {
    RunKeepsToken(steps);
    var sys := Execute(INITIAL, steps);
    forall j, k | 0 <= j < k < |sys.sends|
      ensures sys.rows[sys.sends[j]].key != sys.rows[sys.sends[k]].key
    {
      var a, b := sys.sends[j], sys.sends[k];
      assert a in sys.claims && b in sys.claims && a != b;
    }
  }
}
