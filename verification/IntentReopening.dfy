/** Exactly which steps cost a strategy its single unresolved row, in runs of any number of processes. */
module IntentReopening {
  import opened Market
  import opened Options
  import opened IntentStore
  import opened IntentProtocol
  import opened IntentSolo

  // ---------- one transition ----------

  /** A resolved row becomes unresolved again while another row of its strategy is. */
  predicate Reopens(rows: seq<Row>, id: nat, to: Status) {
    && id < |rows| && Active(to) && !Active(rows[id].status)
    && exists j | 0 <= j < |rows| :: j != id && OfStrategy(rows[j], rows[id].key.account, rows[id].key.strategy) && Active(rows[j].status)
  }

  /** An applied transition keeps one active row per strategy exactly when it does not reopen. */
  lemma TransitionKeepsOneActiveExactlyWhen(rows: seq<Row>, id: nat, to: Status, patch: Patch)
    requires OneActive(rows) && TransitionError(rows, id, to, patch).None?
    ensures OneActive(AfterTransition(rows, id, to, patch)) <==> !Reopens(rows, id, to)
  {
    var r := AfterTransition(rows, id, to, patch);
    MovedRow(rows, id, to, patch);
    KeysStay(rows, id, to, patch);
    hide AfterTransition, TransitionError;
    if Reopens(rows, id, to) {
      var j :| 0 <= j < |rows| && j != id && OfStrategy(rows[j], rows[id].key.account, rows[id].key.strategy) && Active(rows[j].status);
      assert Active(r[id].status) && Active(r[j].status);
      assert OfStrategy(r[j], r[id].key.account, r[id].key.strategy) && OfStrategy(r[id], r[j].key.account, r[j].key.strategy);
    } else {
      forall i, j | 0 <= i < j < |r| && OfStrategy(r[j], r[i].key.account, r[i].key.strategy)
        ensures !(Active(r[i].status) && Active(r[j].status))
      {
        assert OfStrategy(rows[j], rows[i].key.account, rows[i].key.strategy);
        assert OfStrategy(rows[i], rows[j].key.account, rows[j].key.strategy);
      }
    }
  }

  lemma KeysStay(rows: seq<Row>, id: nat, to: Status, patch: Patch)
    ensures forall k | 0 <= k < |rows| :: AfterTransition(rows, id, to, patch)[k].key == rows[k].key
  {}

  /** The table's only ways back from resolved to unresolved. */
  lemma ReopeningPairs(from: Status, to: Status)
    requires Legal(from, to)
    ensures !Active(from) && Active(to)
            <==> (from.PartiallyFilled? && (to.Reconciling? || to.Unknown?)) || (from.Rejected? && to.Submitting?)
  {}

  // ---------- one step of a run ----------

  function AttemptedPatch(sys: System, step: Step): Patch {
    var pc := PcOf(sys, step.p);
    match step
    case SettleStep(_) => if pc.Answered? then SettledPatch(pc.answer) else NO_PATCH
    case SightStep(_, sight) => SightPatch(sight)
    case ProbeStep(_, probe) =>
      if pc.Checks? && pc.queue != [] && ProbeMove(pc.queue[0].row, probe).MoveTo?
      then ProbeMove(pc.queue[0].row, probe).patch else NO_PATCH
    case _ => NO_PATCH
  }

  /** The step's transition is applied and reopens a row. */
  predicate StepReopens(sys: System, step: Step) {
    var a := Attempted(sys, step);
    && a.Attempt? && Reopens(sys.rows, a.id, a.to)
    && TransitionError(sys.rows, a.id, a.to, AttemptedPatch(sys, step)).None?
  }

  /** What a step writes to the journal besides claims and requests is its attempted transition. */
  lemma StepWritesItsAttempt(sys: System, step: Step)
    requires !step.ClaimStep? && !step.RequestStep?
    ensures var a := Attempted(sys, step);
            After(sys, step).rows == if a.Attempt? then AfterTransition(sys.rows, a.id, a.to, AttemptedPatch(sys, step)) else sys.rows
  {
    hide TransitionError, SettledPatch, SightPatch, ProbeMove, Snapshots, IsListing, SettledStatus, SightStatus;
  }

  lemma ClaimKeepsOneActive(rows: seq<Row>, key: Key, side: Side)
    requires OneActive(rows)
    ensures OneActive(AfterClaim(rows, key, side))
  {}

  lemma RequestKeepsOneActive(rows: seq<Row>, id: nat, volume: real)
    requires OneActive(rows)
    ensures OneActive(AfterRequest(rows, id, volume))
  {}

  lemma StepKeepsOneActiveExactlyWhen(sys: System, step: Step)
    requires OneActive(sys.rows)
    ensures OneActive(After(sys, step).rows) <==> !StepReopens(sys, step)
  {
    hide OneActive, AfterTransition, TransitionError, Reopens, AfterClaim, AfterRequest;
    if step.ClaimStep? {
      ClaimKeepsOneActive(sys.rows, step.key, step.side);
      ClaimWrites(sys, step.p, step.key, step.side);
    } else if step.RequestStep? {
      if PcOf(sys, step.p).Owns? {
        RequestKeepsOneActive(sys.rows, PcOf(sys, step.p).id, step.volume);
      }
    } else {
      AttemptKeepsOneActiveExactlyWhen(sys, step);
    }
  }

  lemma AttemptKeepsOneActiveExactlyWhen(sys: System, step: Step)
    requires OneActive(sys.rows) && !step.ClaimStep? && !step.RequestStep?
    ensures OneActive(After(sys, step).rows) <==> !StepReopens(sys, step)
  {
    hide OneActive, AfterTransition, TransitionError, Reopens, Attempted, AttemptedPatch, After;
    StepWritesItsAttempt(sys, step);
    var a := Attempted(sys, step);
    if a.Attempt? {
      if TransitionError(sys.rows, a.id, a.to, AttemptedPatch(sys, step)).None? {
        TransitionKeepsOneActiveExactlyWhen(sys.rows, a.id, a.to, AttemptedPatch(sys, step));
      } else {
        RefusedTransition(sys.rows, a.id, a.to, AttemptedPatch(sys, step));
      }
    }
  }

  lemma ClaimWrites(sys: System, p: nat, key: Key, side: Side)
    ensures After(sys, ClaimStep(p, key, side)).rows == sys.rows
            || After(sys, ClaimStep(p, key, side)).rows == AfterClaim(sys.rows, key, side)
  {}

  lemma RefusedTransition(rows: seq<Row>, id: nat, to: Status, patch: Patch)
    requires TransitionError(rows, id, to, patch).Some?
    ensures AfterTransition(rows, id, to, patch) == rows
  {}

  // ---------- whole runs ----------

  /** No step of the run reopens a row. */
  ghost predicate NeverReopens(steps: seq<Step>) {
    forall k | 0 <= k < |steps| :: !StepReopens(Execute(INITIAL, steps[..k]), steps[k])
  }

  ghost predicate AlwaysOneActive(steps: seq<Step>) {
    forall k | 0 <= k <= |steps| :: OneActive(Execute(INITIAL, steps[..k]).rows)
  }

  /** Exactly when the journal keeps one active row per strategy under any number of processes: at every
      moment of a run, if and only if no step of the run reopens a row. */
  lemma {:induction false} OneActiveExactlyWhen(steps: seq<Step>)
    ensures AlwaysOneActive(steps) <==> NeverReopens(steps)
  {
    hide OneActive, StepReopens, After;
    if |steps| == 0 {
      NothingActive();
      assert steps[..0] == [];
    } else {
      var n, front := |steps| - 1, steps[..|steps| - 1];
      OneActiveExactlyWhen(front);
      PrefixesOfFront(steps);
      assert steps[..|steps|] == steps;
      if AlwaysOneActive(front) {
        assert OneActive(Execute(INITIAL, front[..n]).rows) && front[..n] == front;
        StepKeepsOneActiveExactlyWhen(Execute(INITIAL, front), steps[n]);
      }
    }
  }

  lemma NothingActive()
    ensures OneActive(Execute(INITIAL, []).rows)
  {}

  lemma PrefixesOfFront(steps: seq<Step>)
    requires |steps| > 0
    ensures var front := steps[..|steps| - 1];
            && (AlwaysOneActive(steps) <==> AlwaysOneActive(front) && OneActive(Execute(INITIAL, steps).rows))
            && (NeverReopens(steps) <==> NeverReopens(front) && !StepReopens(Execute(INITIAL, front), steps[|steps| - 1]))
  {
    hide OneActive, StepReopens, Execute;
    var n, front := |steps| - 1, steps[..|steps| - 1];
    assert forall k | 0 <= k <= n :: front[..k] == steps[..k];
    assert steps[..|steps|] == steps;
    if AlwaysOneActive(front) && OneActive(Execute(INITIAL, steps).rows) {
      forall k | 0 <= k <= |steps|
        ensures OneActive(Execute(INITIAL, steps[..k]).rows)
      {
        assert k <= n ==> OneActive(Execute(INITIAL, front[..k]).rows);
      }
    }
    if AlwaysOneActive(steps) {
      forall k | 0 <= k <= n
        ensures OneActive(Execute(INITIAL, front[..k]).rows)
      {
        assert OneActive(Execute(INITIAL, steps[..k]).rows);
      }
      assert OneActive(Execute(INITIAL, steps[..|steps|]).rows);
    }
    if NeverReopens(steps) {
      forall k | 0 <= k < n
        ensures !StepReopens(Execute(INITIAL, front[..k]), front[k])
      {
        assert !StepReopens(Execute(INITIAL, steps[..k]), steps[k]);
      }
      assert !StepReopens(Execute(INITIAL, steps[..n]), steps[n]);
    }
    if NeverReopens(front) && !StepReopens(Execute(INITIAL, front), steps[n]) {
      forall k | 0 <= k < |steps|
        ensures !StepReopens(Execute(INITIAL, steps[..k]), steps[k])
      {
        assert k < n ==> !StepReopens(Execute(INITIAL, front[..k]), front[k]);
      }
    }
  }

  // ---------- what can be reopened ----------

  /** Only its owner moves a CREATED row: rows that other calls act on have left that status. */
  ghost predicate PcOwns(rows: seq<Row>, pc: Pc) {
    match pc
    case Idle => true
    case Owns(id) => id < |rows| && rows[id].status.Created?
    case Requested(id) => id < |rows| && rows[id].status.Created?
    case Submits(id) => id < |rows| && !rows[id].status.Created?
    case Answered(id, _) => id < |rows| && !rows[id].status.Created?
    case Looks(id) => id < |rows| && !rows[id].status.Created?
    case Checks(queue) =>
      forall k | 0 <= k < |queue| :: queue[k].id < |rows| && (Reconcilable(queue[k].row.status) ==> !rows[queue[k].id].status.Created?)
  }

  ghost predicate Owned(sys: System) {
    OneToken(sys) && forall p | p in sys.pcs :: PcOwns(sys.rows, sys.pcs[p])
  }

  /** Journals that differ in one row, which is not one that another process owns. */
  lemma OthersKeepTheirRows(rows: seq<Row>, after: seq<Row>, id: nat, pc: Pc)
    requires |rows| <= |after| && PcOwns(rows, pc)
    requires forall k | 0 <= k < |rows| && k != id :: after[k].status.Created? == rows[k].status.Created?
    requires id < |rows| ==> !after[id].status.Created?
    requires Unsent(pc) && !pc.Submits? ==> pc.id != id
    ensures PcOwns(after, pc)
  {}

  lemma MovedKeepsOwned(sys: System, p: nat, id: nat, to: Status, patch: Patch, next: Pc)
    requires Owned(sys) && !to.Created?
    requires Unsent(next) ==> p in sys.pcs && Unsent(sys.pcs[p]) && sys.pcs[p].id == next.id
    requires id < |sys.rows| && (sys.rows[id].status.Created? ==> p in sys.pcs && Unsent(sys.pcs[p]) && sys.pcs[p].id == id)
    requires TransitionError(sys.rows, id, to, patch).None? ==> PcOwns(AfterTransition(sys.rows, id, to, patch), next)
    ensures Owned(Moved(sys, p, id, to, patch, next))
  {
    hide TransitionError, OneToken, AfterTransition, PcOwns;
    MovedKeepsToken(sys, p, id, to, patch, next);
    var after := AfterTransition(sys.rows, id, to, patch);
    IdleOwnsNothing(sys.rows);
    if TransitionError(sys.rows, id, to, patch).None? {
      MovedRow(sys.rows, id, to, patch);
      forall q | q in sys.pcs && q != p
        ensures PcOwns(after, sys.pcs[q])
      {
        if Unsent(sys.pcs[q]) && !sys.pcs[q].Submits? && sys.pcs[q].id == id {
          OwnerIsCreated(sys.rows, sys.pcs[q]);
          TokensAreApart(sys, p, q);
        }
        OthersKeepTheirRows(sys.rows, after, id, sys.pcs[q]);
      }
    }
  }

  lemma IdleOwnsNothing(rows: seq<Row>)
    ensures PcOwns(rows, Idle)
  {}

  lemma OwnerIsCreated(rows: seq<Row>, pc: Pc)
    requires PcOwns(rows, pc) && Unsent(pc) && !pc.Submits?
    ensures pc.id < |rows| && rows[pc.id].status.Created?
  {}

  lemma TokensAreApart(sys: System, p: nat, q: nat)
    requires OneToken(sys) && p in sys.pcs && q in sys.pcs && p != q && Unsent(sys.pcs[p]) && Unsent(sys.pcs[q])
    ensures sys.pcs[p].id != sys.pcs[q].id
  {}

  lemma ClaimKeepsOwned(sys: System, p: nat, key: Key, side: Side)
    requires Owned(sys)
    ensures Owned(After(sys, ClaimStep(p, key, side)))
  {
    hide OneToken;
    ClaimKeepsToken(sys, p, key, side);
    var rows, after := sys.rows, AfterClaim(sys.rows, key, side);
    forall q | q in sys.pcs
      ensures PcOwns(after, sys.pcs[q])
    {
      OthersKeepTheirRows(rows, after, |rows|, sys.pcs[q]);
    }
  }

  lemma RequestKeepsOwned(sys: System, p: nat, volume: real)
    requires Owned(sys)
    ensures Owned(After(sys, RequestStep(p, volume)))
  {
    hide OneToken;
    RequestStepKeepsToken(sys, p, volume);
  }

  lemma GotoKeepsOwned(sys: System, p: nat, next: Pc)
    requires Owned(sys) && PcOwns(sys.rows, next) && !Unsent(next)
    ensures Owned(Goto(sys, p, next))
  {
    hide OneToken, PcOwns;
    GotoKeepsToken(sys, p, next);
  }

  lemma SendKeepsOwned(sys: System, p: nat, answer: Answer)
    requires Owned(sys)
    ensures Owned(After(sys, SendStep(p, answer)))
  {
    hide OneToken;
    SendKeepsToken(sys, p, answer);
  }

  /** The call of process p that ends, settles or looks up its own row. */
  lemma OwnMoveKeepsOwned(sys: System, step: Step)
    requires Owned(sys) && (step.GiveUpStep? || step.SubmitStep? || step.SettleStep? || step.SightStep?)
    ensures Owned(After(sys, step))
  {
    hide OneToken, TransitionError, SettledPatch, SightPatch;
    var a := Attempted(sys, step);
    if a.Attempt? {
      var patch := AttemptedPatch(sys, step);
      if TransitionError(sys.rows, a.id, a.to, patch).None? {
        MovedRow(sys.rows, a.id, a.to, patch);
      }
      hide AfterTransition;
      var next := match step
                  case SubmitStep(_) => Submits(a.id)
                  case SettleStep(p) => if PcOf(sys, p).answer.AcceptedCode? then Looks(a.id) else Idle
                  case _ => Idle;
      MovedKeepsOwned(sys, step.p, a.id, a.to, patch, next);
    }
  }

  lemma ProbeKeepsOwned(sys: System, p: nat, probe: Probe)
    requires Owned(sys)
    ensures Owned(After(sys, ProbeStep(p, probe)))
  {
    hide OneToken, TransitionError, Moved;
    var pc := PcOf(sys, p);
    if pc.Checks? && pc.queue != [] {
      var head, rest := pc.queue[0], pc.queue[1..];
      assert PcOwns(sys.rows, CheckOrRest(rest));
      match ProbeMove(head.row, probe) {
        case Stay => GotoKeepsOwned(sys, p, CheckOrRest(rest));
        case MoveTo(status, patch) =>
          if TransitionError(sys.rows, head.id, status, patch).None? {
            MovedRow(sys.rows, head.id, status, patch);
            hide AfterTransition;
            OthersKeepTheirRows(sys.rows, AfterTransition(sys.rows, head.id, status, patch), head.id, CheckOrRest(rest));
          }
          MovedKeepsOwned(sys, p, head.id, status, patch, CheckOrRest(rest));
      }
    }
  }

  lemma StepKeepsOwned(sys: System, step: Step)
    requires Owned(sys)
    ensures Owned(After(sys, step))
  {
    match step {
      case ClaimStep(p, key, side) => hide *; ClaimKeepsOwned(sys, p, key, side);
      case RequestStep(p, volume) => hide *; RequestKeepsOwned(sys, p, volume);
      case SendStep(p, answer) => hide *; SendKeepsOwned(sys, p, answer);
      case ProbeStep(p, probe) => hide *; ProbeKeepsOwned(sys, p, probe);
      case ListStep(p, account, ids) => hide OneToken, Owned; ListKeepsOwned(sys, p, account, ids);
      case StopStep(p) => hide OneToken; GotoKeepsOwned(sys, p, Idle);
      case _ => hide *; OwnMoveKeepsOwned(sys, step);
    }
  }

  lemma ListKeepsOwned(sys: System, p: nat, account: Option<string>, ids: seq<nat>)
    requires Owned(sys)
    ensures Owned(After(sys, ListStep(p, account, ids)))
  {
    hide OneToken;
    if PcOf(sys, p).Idle? && IsListing(sys.rows, account, ids) {
      GotoKeepsOwned(sys, p, CheckOrRest(Snapshots(sys.rows, ids)));
    }
  }

  lemma {:induction false} RunKeepsOwned(steps: seq<Step>)
    ensures Owned(Execute(INITIAL, steps))
  {
    hide After, OneToken;
    if |steps| == 0 {
      InitialToken();
    } else {
      RunKeepsOwned(steps[..|steps| - 1]);
      StepKeepsOwned(Execute(INITIAL, steps[..|steps| - 1]), steps[|steps| - 1]);
    }
  }

  /** Of the table's two ways back the executor takes only one: whatever processes interleave, a step that
      reopens a row reopens a partially filled one. A rejected row is never submitted again. */
  lemma OnlyPartialFillsReopen(steps: seq<Step>, next: Step)
    requires StepReopens(Execute(INITIAL, steps), next)
    ensures var sys := Execute(INITIAL, steps);
            var a := Attempted(sys, next);
            sys.rows[a.id].status.PartiallyFilled? && (a.to.Reconciling? || a.to.Unknown?)
  {
    hide Execute, OneToken;
    var sys := Execute(INITIAL, steps);
    RunKeepsOwned(steps);
    var a := Attempted(sys, next);
    assert Legal(sys.rows[a.id].status, a.to) by { AppliedIsLegal(sys.rows, a.id, a.to, AttemptedPatch(sys, next)); }
    ReopeningPairs(sys.rows[a.id].status, a.to);
    SubmitsOnlyCreated(sys, next);
  }

  lemma SubmitsOnlyCreated(sys: System, step: Step)
    requires Owned(sys)
    ensures var a := Attempted(sys, step); a.Attempt? && a.to.Submitting? ==> a.id < |sys.rows| && sys.rows[a.id].status.Created?
  {
    hide OneToken;
  }

  lemma AppliedIsLegal(rows: seq<Row>, id: nat, to: Status, patch: Patch)
    requires TransitionError(rows, id, to, patch).None?
    ensures id < |rows| && Legal(rows[id].status, to)
  {}
}
