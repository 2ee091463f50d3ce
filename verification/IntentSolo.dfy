/** One executor process, stopped and restarted at will: a strategy never has two unresolved
    submissions. With a second process this fails, and a run shows how. */
module IntentSolo {
  import opened Market
  import opened Options
  import opened IntentStore
  import opened IntentProtocol

  ghost predicate OneActive(rows: seq<Row>) {
    forall i, j | 0 <= i < j < |rows| && OfStrategy(rows[j], rows[i].key.account, rows[i].key.strategy) ::
      !(Active(rows[i].status) && Active(rows[j].status))
  }

  /** The status the single process knows its row to have at each point of the executor. */
  ghost predicate PcMatchesRow(rows: seq<Row>, pc: Pc) {
    match pc
    case Idle => true
    case Owns(id) => id < |rows| && rows[id].status.Created?
    case Requested(id) => id < |rows| && rows[id].status.Created?
    case Submits(id) => id < |rows| && rows[id].status.Submitting?
    case Answered(id, _) => id < |rows| && rows[id].status.Submitting?
    case Looks(id) => id < |rows| && rows[id].status.Accepted?
    case Checks(queue) => FreshSnapshots(rows, queue)
  }

  ghost predicate FreshSnapshots(rows: seq<Row>, queue: seq<Snapshot>) {
    && (forall k | 0 <= k < |queue| :: queue[k].id < |rows| && rows[queue[k].id] == queue[k].row)
    && (forall j, k | 0 <= j < k < |queue| :: queue[j].id != queue[k].id)
  }

  ghost predicate Solo(sys: System) {
    && OneToken(sys)
    && OneActive(sys.rows)
    && (forall k | 0 <= k < |sys.sends| :: sys.sends[k] < |sys.rows| && !sys.rows[sys.sends[k]].status.Created?)
    && (forall p | p in sys.pcs :: p == 0)
    && PcMatchesRow(sys.rows, PcOf(sys, 0))
  }

  predicate ByOneProcess(steps: seq<Step>) { forall k | 0 <= k < |steps| :: steps[k].p == 0 }

  // ---------- the transition a step attempts ----------

  datatype Attempt = NoAttempt | Attempt(id: nat, to: Status)

  function Attempted(sys: System, step: Step): Attempt {
    var pc := PcOf(sys, step.p);
    match step
    case GiveUpStep(_, cancel) =>
      if pc.Owns? then Attempt(pc.id, if cancel then Cancelled else Rejected) else NoAttempt
    case SubmitStep(_) => if pc.Requested? then Attempt(pc.id, Submitting) else NoAttempt
    case SettleStep(_) => if pc.Answered? then Attempt(pc.id, SettledStatus(pc.answer)) else NoAttempt
    case SightStep(_, sight) =>
      if pc.Looks? && pc.id < |sys.rows|
      then Attempt(pc.id, SightStatus(sight, sys.rows[pc.id].requestedVolume)) else NoAttempt
    case ProbeStep(_, probe) =>
      if pc.Checks? && pc.queue != [] then
        match ProbeMove(pc.queue[0].row, probe)
        case Stay => NoAttempt
        case MoveTo(status, _) => Attempt(pc.queue[0].id, status)
      else NoAttempt
    case _ => NoAttempt
  }

  lemma AttemptsAreLegal(sys: System, step: Step)
    requires Solo(sys) && step.p == 0 && Attempted(sys, step).Attempt?
    ensures var a := Attempted(sys, step);
            && a.id < |sys.rows| && Active(sys.rows[a.id].status)
            && Legal(sys.rows[a.id].status, a.to) && !a.to.Created?
  {
    hide OneToken, OneActive;
  }

  // ---------- steps keep the invariant ----------

  lemma MoveKeepsOneActive(rows: seq<Row>, id: nat, to: Status, patch: Patch)
    requires OneActive(rows) && id < |rows| && Active(rows[id].status)
    ensures OneActive(AfterTransition(rows, id, to, patch))
  {
    hide TransitionError;
    var r := AfterTransition(rows, id, to, patch);
    assert forall k | 0 <= k < |rows| :: r[k].key == rows[k].key && (k != id ==> r[k] == rows[k]);
  }

  lemma {:induction false} MovedKeepsSolo(sys: System, id: nat, to: Status, patch: Patch, next: Pc)
    requires Solo(sys) && id < |sys.rows| && Active(sys.rows[id].status) && !to.Created?
    requires Unsent(next) ==> 0 in sys.pcs && Unsent(sys.pcs[0]) && sys.pcs[0].id == next.id
    requires match next
             case Idle => true
             case Submits(i) => i == id && to.Submitting?
             case Looks(i) => i == id && to.Accepted?
             case Checks(queue) =>
               FreshSnapshots(sys.rows, queue) && forall k | 0 <= k < |queue| :: queue[k].id != id
             case _ => false
    ensures Solo(Moved(sys, 0, id, to, patch, next))
  {
    hide TransitionError, OneToken, OneActive, AfterTransition, Patched;
    MovedKeepsToken(sys, 0, id, to, patch, next);
    MoveKeepsOneActive(sys.rows, id, to, patch);
    if TransitionError(sys.rows, id, to, patch).None? {
      MovedRow(sys.rows, id, to, patch);
    }
  }

  lemma MovedRow(rows: seq<Row>, id: nat, to: Status, patch: Patch)
    requires id < |rows| && TransitionError(rows, id, to, patch).None?
    ensures AfterTransition(rows, id, to, patch)[id].status == to
    ensures forall k | 0 <= k < |rows| && k != id :: AfterTransition(rows, id, to, patch)[k] == rows[k]
  {
    hide TransitionError;
  }

  lemma ClaimKeepsSolo(sys: System, key: Key, side: Side)
    requires Solo(sys)
    ensures Solo(After(sys, ClaimStep(0, key, side)))
  {
    hide OneToken;
    ClaimKeepsToken(sys, 0, key, side);
  }

  lemma RequestKeepsSolo(sys: System, volume: real)
    requires Solo(sys)
    ensures Solo(After(sys, RequestStep(0, volume)))
  {
    hide OneToken;
    RequestStepKeepsToken(sys, 0, volume);
  }

  lemma SendKeepsSolo(sys: System, answer: Answer)
    requires Solo(sys)
    ensures Solo(After(sys, SendStep(0, answer)))
  {
    hide OneToken, OneActive;
    SendKeepsToken(sys, 0, answer);
  }

  lemma ListKeepsSolo(sys: System, account: Option<string>, ids: seq<nat>)
    requires Solo(sys)
    ensures Solo(After(sys, ListStep(0, account, ids)))
  {
    hide OneToken, OneActive;
    StepKeepsToken(sys, ListStep(0, account, ids));
  }

  lemma GotoKeepsSolo(sys: System, next: Pc)
    requires Solo(sys) && !Unsent(next) && PcMatchesRow(sys.rows, next)
    ensures Solo(Goto(sys, 0, next))
  {
    hide OneToken, OneActive;
    GotoKeepsToken(sys, 0, next);
  }

  lemma {:induction false} ProbeKeepsSolo(sys: System, probe: Probe)
    requires Solo(sys)
    ensures Solo(After(sys, ProbeStep(0, probe)))
  {
    hide OneToken, OneActive, Moved;
    var pc := PcOf(sys, 0);
    if pc.Checks? && pc.queue != [] {
      var head, rest := pc.queue[0], pc.queue[1..];
      assert FreshSnapshots(sys.rows, rest);
      match ProbeMove(head.row, probe) {
        case Stay => GotoKeepsSolo(sys, CheckOrRest(rest));
        case MoveTo(status, patch) => MovedKeepsSolo(sys, head.id, status, patch, CheckOrRest(rest));
      }
    }
  }

  lemma {:induction false} StepKeepsSolo(sys: System, step: Step)
    requires Solo(sys) && step.p == 0
    ensures Solo(After(sys, step))
  {
    hide OneToken, OneActive, Moved;
    var pc := PcOf(sys, 0);
    match step {
      case ClaimStep(_, key, side) => ClaimKeepsSolo(sys, key, side);
      case GiveUpStep(_, cancel) =>
        if pc.Owns? {
          MovedKeepsSolo(sys, pc.id, if cancel then Cancelled else Rejected, NO_PATCH, Idle);
        }
      case RequestStep(_, volume) => RequestKeepsSolo(sys, volume);
      case SubmitStep(_) =>
        if pc.Requested? {
          MovedKeepsSolo(sys, pc.id, Submitting, NO_PATCH, Submits(pc.id));
        }
      case SendStep(_, answer) => SendKeepsSolo(sys, answer);
      case SettleStep(_) =>
        if pc.Answered? {
          MovedKeepsSolo(sys, pc.id, SettledStatus(pc.answer), SettledPatch(pc.answer),
                         if pc.answer.AcceptedCode? then Looks(pc.id) else Idle);
        }
      case SightStep(_, sight) =>
        if pc.Looks? && pc.id < |sys.rows| {
          MovedKeepsSolo(sys, pc.id, SightStatus(sight, sys.rows[pc.id].requestedVolume), SightPatch(sight), Idle);
        }
      case ListStep(_, account, ids) => ListKeepsSolo(sys, account, ids);
      case ProbeStep(_, probe) => ProbeKeepsSolo(sys, probe);
      case StopStep(_) => GotoKeepsSolo(sys, Idle);
    }
  }

  lemma InitialSolo()
    ensures Solo(INITIAL)
  {
    InitialToken();
  }

  lemma {:induction false} RunKeepsSolo(steps: seq<Step>)
    requires ByOneProcess(steps)
    ensures Solo(Execute(INITIAL, steps))
  {
    hide Solo, After;
    if |steps| == 0 {
      InitialSolo();
    } else {
      RunKeepsSolo(steps[..|steps| - 1]);
      StepKeepsSolo(Execute(INITIAL, steps[..|steps| - 1]), steps[|steps| - 1]);
    }
  }

  /** Single-process safety, for every run with stops and restarts anywhere and any broker answers:
      at most one active row per account and strategy, no CREATED row has been sent, the next
      transition is legal in the table, and an order goes out only when all earlier orders of its
      strategy sit in resolved rows. */
  lemma OneUnresolvedSubmission(steps: seq<Step>, next: Step)
    requires ByOneProcess(steps) && next.p == 0
    ensures var sys := Execute(INITIAL, steps);
            && OneActive(sys.rows)
            && (forall k | 0 <= k < |sys.sends| :: sys.sends[k] < |sys.rows| && !sys.rows[sys.sends[k]].status.Created?)
            && (Attempted(sys, next).Attempt? ==>
                  var a := Attempted(sys, next);
                  a.id < |sys.rows| && Legal(sys.rows[a.id].status, a.to))
            && (next.SendStep? && PcOf(sys, 0).Submits? ==>
                  PcOf(sys, 0).id < |sys.rows| &&
                  var row := sys.rows[PcOf(sys, 0).id];
                  forall k | 0 <= k < |sys.sends| :: OfStrategy(sys.rows[sys.sends[k]], row.key.account, row.key.strategy)
                                                     ==> !Active(sys.rows[sys.sends[k]].status))
  {
    RunKeepsSolo(steps);
    var sys := Execute(INITIAL, steps);
    if Attempted(sys, next).Attempt? {
      AttemptsAreLegal(sys, next);
    }
    if next.SendStep? && PcOf(sys, 0).Submits? {
      var id := PcOf(sys, 0).id;
      forall k | 0 <= k < |sys.sends| && OfStrategy(sys.rows[sys.sends[k]], sys.rows[id].key.account, sys.rows[id].key.strategy)
        ensures !Active(sys.rows[sys.sends[k]].status)
      {
        assert sys.sends[k] != id;
      }
    }
  }

  // ---------- two processes ----------

  /** Process 0 submits and is accepted; process 1 lists the accepted row; process 0 sees a partial
      fill, which resolves the row, and claims the next signal; process 1, acting on its stale
      snapshot, reopens the first row. The table allows that, so the strategy now has two active rows. */
  function StaleReaderRun(account: string, strategy: string): seq<Step> {
    Submission(Key(account, strategy, "first")) + [ListStep(1, Some(account), [0]), SightStep(0, Visible(7, 1.0))]
    + [ClaimStep(0, Key(account, strategy, "second"), Buy), ProbeStep(1, FoundNothing)]
  }

  function Submission(key: Key): seq<Step> {
    [ClaimStep(0, key, Buy), RequestStep(0, 2.0), SubmitStep(0)] + [SendStep(0, AcceptedCode(None)), SettleStep(0)]
  }

  function AcceptedRow(key: Key): Row { Row(key, Buy, Accepted, Some(2.0), None, None, None) }

  function PartialRow(key: Key): Row { Row(key, Buy, PartiallyFilled, Some(2.0), None, Some(7), Some(1.0)) }

  /** The journal with the first order prepared for sending. */
  function ReadyToSend(key: Key): System {
    System([Row(key, Buy, Submitting, Some(2.0), None, None, None)], map[0 := Submits(0)], [], [0])
  }

  lemma PrepareRun(key: Key)
    ensures Execute(INITIAL, [ClaimStep(0, key, Buy), RequestStep(0, 2.0), SubmitStep(0)]) == ReadyToSend(key)
  {
    hide Execute;
    var steps := [ClaimStep(0, key, Buy), RequestStep(0, 2.0), SubmitStep(0)];
    var row := Row(key, Buy, Created, None, None, None, None);
    var s1 := System([row], map[0 := Owns(0)], [], [0]);
    var s2 := System([row.(requestedVolume := Some(2.0))], map[0 := Requested(0)], [], [0]);
    assert After(INITIAL, steps[0]) == s1;
    assert After(s1, steps[1]) == s2;
    assert After(s2, steps[2]) == ReadyToSend(key);
    ExecuteTriple(INITIAL, steps);
  }

  lemma SendRun(key: Key)
    ensures Execute(ReadyToSend(key), [SendStep(0, AcceptedCode(None)), SettleStep(0)])
            == System([AcceptedRow(key)], map[0 := Looks(0)], [0], [0])
  {
    hide Execute;
    var steps := [SendStep(0, AcceptedCode(None)), SettleStep(0)];
    var sent := ReadyToSend(key).(pcs := map[0 := Answered(0, AcceptedCode(None))], sends := [0]);
    assert After(ReadyToSend(key), steps[0]) == sent;
    assert After(sent, steps[1]) == System([AcceptedRow(key)], map[0 := Looks(0)], [0], [0]);
    ExecutePair(ReadyToSend(key), steps);
  }

  lemma SubmissionRun(key: Key)
    ensures Execute(INITIAL, Submission(key)) == System([AcceptedRow(key)], map[0 := Looks(0)], [0], [0])
  {
    hide Execute, After;
    PrepareRun(key);
    SendRun(key);
    ExecuteConcat(INITIAL, [ClaimStep(0, key, Buy), RequestStep(0, 2.0), SubmitStep(0)],
                  [SendStep(0, AcceptedCode(None)), SettleStep(0)]);
  }

  /** Process 1 has listed the accepted row. */
  function ListedOnce(key: Key): System {
    System([AcceptedRow(key)], map[0 := Looks(0), 1 := Checks([Snapshot(0, AcceptedRow(key))])], [0], [0])
  }

  lemma ListReadsTheRow(key: Key)
    ensures After(System([AcceptedRow(key)], map[0 := Looks(0)], [0], [0]), ListStep(1, Some(key.account), [0])) == ListedOnce(key)
  {
    var sys := System([AcceptedRow(key)], map[0 := Looks(0)], [0], [0]);
    assert IsListing(sys.rows, Some(key.account), [0]);
    assert Snapshots(sys.rows, [0]) == [Snapshot(0, AcceptedRow(key))];
    assert PcOf(sys, 1) == Idle;
  }

  lemma PartialFillResolves(key: Key)
    ensures After(ListedOnce(key), SightStep(0, Visible(7, 1.0)))
            == System([PartialRow(key)], map[0 := Idle, 1 := Checks([Snapshot(0, AcceptedRow(key))])], [0], [0])
  {
    assert ClashFree([AcceptedRow(key)], 0, PartialRow(key));
    assert AfterTransition([AcceptedRow(key)], 0, PartiallyFilled, SightPatch(Visible(7, 1.0))) == [PartialRow(key)];
  }

  lemma ListThenPartialFill(key: Key)
    ensures Execute(System([AcceptedRow(key)], map[0 := Looks(0)], [0], [0]),
                    [ListStep(1, Some(key.account), [0]), SightStep(0, Visible(7, 1.0))])
            == System([PartialRow(key)], map[0 := Idle, 1 := Checks([Snapshot(0, AcceptedRow(key))])], [0], [0])
  {
    hide After, Execute;
    ListReadsTheRow(key);
    PartialFillResolves(key);
    ExecutePair(System([AcceptedRow(key)], map[0 := Looks(0)], [0], [0]),
                [ListStep(1, Some(key.account), [0]), SightStep(0, Visible(7, 1.0))]);
  }

  lemma StaleProbeReopens(key: Key, second: Key)
    requires second != key && OfStrategy(AcceptedRow(second), key.account, key.strategy)
    ensures Execute(System([PartialRow(key)], map[0 := Idle, 1 := Checks([Snapshot(0, AcceptedRow(key))])], [0], [0]),
                    [ClaimStep(0, second, Buy), ProbeStep(1, FoundNothing)]).rows
            == [PartialRow(key).(status := Reconciling), Row(second, Buy, Created, None, None, None, None)]
  {
    var stale := Checks([Snapshot(0, AcceptedRow(key))]);
    var s7 := System([PartialRow(key)], map[0 := Idle, 1 := stale], [0], [0]);
    var steps := [ClaimStep(0, second, Buy), ProbeStep(1, FoundNothing)];
    var newRow := Row(second, Buy, Created, None, None, None, None);
    var s8 := System([PartialRow(key), newRow], map[0 := Owns(1), 1 := stale], [0], [0, 1]);
    assert FindActive(s7.rows, second.account, second.strategy, 0).None?;
    assert After(s7, steps[0]) == s8;
    assert After(s8, steps[1]).rows == [PartialRow(key).(status := Reconciling), newRow];
    ExecutePair(s7, steps);
  }

  lemma ExecutePair(sys: System, steps: seq<Step>)
    requires |steps| == 2
    ensures Execute(sys, steps) == After(After(sys, steps[0]), steps[1])
  {
    hide After;
    var first := steps[..1];
    assert first[..0] == [] && Execute(sys, []) == sys;
    assert Execute(sys, first) == After(Execute(sys, first[..0]), first[0]);
    assert first == steps[..|steps| - 1];
  }

  lemma {:induction false} ExecuteTriple(sys: System, steps: seq<Step>)
    requires |steps| == 3
    ensures Execute(sys, steps) == After(After(After(sys, steps[0]), steps[1]), steps[2])
  {
    hide After;
    ExecutePair(sys, steps[..2]);
  }

  /** With two processes the journal alone does not keep one active row per strategy. */
  lemma StaleReaderBreaksOneActive(account: string, strategy: string)
    ensures !OneActive(Execute(INITIAL, StaleReaderRun(account, strategy)).rows)
  {
    hide Execute, After;
    var key, second := Key(account, strategy, "first"), Key(account, strategy, "second");
    var a, b, c := Submission(key), [ListStep(1, Some(account), [0]), SightStep(0, Visible(7, 1.0))],
                   [ClaimStep(0, second, Buy), ProbeStep(1, FoundNothing)];
    ExecuteConcat(INITIAL, a + b, c);
    ExecuteConcat(INITIAL, a, b);
    SubmissionRun(key);
    ListThenPartialFill(key);
    assert key.signal[0] != second.signal[0];
    StaleProbeReopens(key, second);
    var rows := Execute(INITIAL, StaleReaderRun(account, strategy)).rows;
    assert Active(rows[0].status) && Active(rows[1].status);
  }
}
