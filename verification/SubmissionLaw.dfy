/** What becomes of an order that went out, read from the broker's answers alone: it is rejected only if it
    was refused, and it stays unresolved until it was refused or found. Holds for any number of processes. */
module SubmissionLaw {
  import opened Options
  import opened IntentStore
  import opened IntentProtocol

  // ---------- what a step tells about a row ----------

  predicate SendsRow(sys: System, step: Step, id: nat) { step.SendStep? && PcOf(sys, step.p) == Submits(id) }

  /** The broker refused the row's order when it was sent. */
  predicate RefusesRow(sys: System, step: Step, id: nat) { SendsRow(sys, step, id) && step.answer.RefusedCode? }

  /** The lookup after an accepted order saw its position, or reconciliation found the order. */
  predicate FindsRow(sys: System, step: Step, id: nat) {
    || (step.SightStep? && PcOf(sys, step.p) == Looks(id) && step.sight.Visible?)
    || (step.ProbeStep? && PcOf(sys, step.p).Checks? && PcOf(sys, step.p).queue != [] && PcOf(sys, step.p).queue[0].id == id
        && (step.probe.FoundInHistory? || step.probe.FoundPosition?))
  }

  ghost predicate Refused(steps: seq<Step>, id: nat) {
    exists k | 0 <= k < |steps| :: RefusesRow(Execute(INITIAL, steps[..k]), steps[k], id)
  }

  ghost predicate Found(steps: seq<Step>, id: nat) {
    exists k | 0 <= k < |steps| :: FindsRow(Execute(INITIAL, steps[..k]), steps[k], id)
  }

  lemma OneMoreStep(steps: seq<Step>, id: nat)
    requires |steps| > 0
    ensures var front, sys := steps[..|steps| - 1], Execute(INITIAL, steps[..|steps| - 1]);
            && (Refused(steps, id) <==> Refused(front, id) || RefusesRow(sys, steps[|steps| - 1], id))
            && (Found(steps, id) <==> Found(front, id) || FindsRow(sys, steps[|steps| - 1], id))
  {
    hide RefusesRow, FindsRow, Execute;
    var n := |steps| - 1;
    var front := steps[..n];
    assert forall k | 0 <= k < n :: front[..k] == steps[..k] && front[k] == steps[k];
    if k :| 0 <= k < |front| && RefusesRow(Execute(INITIAL, front[..k]), front[k], id) {
      assert RefusesRow(Execute(INITIAL, steps[..k]), steps[k], id);
    }
    if k :| 0 <= k < |front| && FindsRow(Execute(INITIAL, front[..k]), front[k], id) {
      assert FindsRow(Execute(INITIAL, steps[..k]), steps[k], id);
    }
    if k :| 0 <= k < |steps| && RefusesRow(Execute(INITIAL, steps[..k]), steps[k], id) {
      if k < n {
        assert RefusesRow(Execute(INITIAL, front[..k]), front[k], id);
      }
    }
    if k :| 0 <= k < |steps| && FindsRow(Execute(INITIAL, steps[..k]), steps[k], id) {
      if k < n {
        assert FindsRow(Execute(INITIAL, front[..k]), front[k], id);
      }
    }
  }

  // ---------- the invariant ----------

  predicate Holds(sys: System, id: nat) { exists p | p in sys.pcs :: Unsent(sys.pcs[p]) && sys.pcs[p].id == id }

  /** Given up before it was sent: no process can send it any more. */
  predicate GivenUp(sys: System, id: nat)
    requires id < |sys.rows|
  {
    (sys.rows[id].status.Rejected? || sys.rows[id].status.Cancelled?) && id !in sys.sends && !Holds(sys, id)
  }

  predicate Answers(sys: System, id: nat) { exists p | p in sys.pcs :: (sys.pcs[p].Answered? || sys.pcs[p].Looks?) && sys.pcs[p].id == id }

  /** What holds of row id, given whether it was refused and whether it was found. */
  ghost predicate RowTold(sys: System, id: nat, refused: bool, found: bool)
    requires id < |sys.rows|
  {
    && (sys.rows[id].status.Rejected? ==> refused || GivenUp(sys, id))
    && (Active(sys.rows[id].status) || refused || found || GivenUp(sys, id))
    && (forall p | p in sys.pcs && (sys.pcs[p].Answered? || sys.pcs[p].Looks?) && sys.pcs[p].id == id :: id in sys.sends)
    && (forall p | p in sys.pcs && sys.pcs[p].Answered? && sys.pcs[p].id == id && sys.pcs[p].answer.RefusedCode? :: refused)
    && (forall j | id < j < |sys.rows| && OfStrategy(sys.rows[j], sys.rows[id].key.account, sys.rows[id].key.strategy) ::
          refused || found || GivenUp(sys, id))
  }

  ghost predicate AllTold(sys: System, steps: seq<Step>) {
    forall id: nat | id < |sys.rows| :: RowTold(sys, id, Refused(steps, id), Found(steps, id))
  }

  // ---------- one step ----------

  lemma LaterFactsKeep(sys: System, row: nat, refused: bool, found: bool, refused': bool, found': bool)
    requires row < |sys.rows| && RowTold(sys, row, refused, found) && (refused ==> refused') && (found ==> found')
    ensures RowTold(sys, row, refused', found')
  {}

  /** A process goes on without touching the journal. */
  lemma GotoTold(sys: System, p: nat, next: Pc, row: nat, refused: bool, found: bool)
    requires row < |sys.rows| && RowTold(sys, row, refused, found)
    requires Unsent(next) && next.id == row ==> p in sys.pcs && Unsent(sys.pcs[p]) && sys.pcs[p].id == row
    requires (next.Answered? || next.Looks?) && next.id == row ==> row in sys.sends
    requires next.Answered? && next.id == row && next.answer.RefusedCode? ==> refused
    ensures RowTold(Goto(sys, p, next), row, refused, found)
    ensures GivenUp(sys, row) ==> GivenUp(Goto(sys, p, next), row)
  {
    var r := Goto(sys, p, next);
    if Holds(r, row) {
      var q :| q in r.pcs && Unsent(r.pcs[q]) && r.pcs[q].id == row;
      assert q in sys.pcs && Unsent(sys.pcs[q]) && sys.pcs[q].id == row;
    }
  }

  /** The journal changes one row's status, keys aside. */
  lemma RowsTold(sys: System, rows: seq<Row>, id: nat, row: nat, refused: bool, found: bool)
    requires row < |sys.rows| && RowTold(sys, row, refused, found) && |rows| == |sys.rows|
    requires forall k | 0 <= k < |rows| :: rows[k].key == sys.rows[k].key && (k != id ==> rows[k].status == sys.rows[k].status)
    requires row == id ==>
               var s, gone := rows[id].status, id !in sys.sends && !Holds(sys, id);
               && (GivenUp(sys, id) ==> s == sys.rows[id].status)
               && (s.Rejected? ==> refused || gone)
               && (Active(s) || refused || found || (gone && (s.Rejected? || s.Cancelled?)))
    ensures RowTold(sys.(rows := rows), row, refused, found)
  {
    var r := sys.(rows := rows);
    assert Holds(r, row) == Holds(sys, row);
    assert GivenUp(sys, row) ==> GivenUp(r, row);
  }

  /** A transition with what it means for the row it is about. */
  lemma MovedTold(sys: System, p: nat, id: nat, to: Status, patch: Patch, next: Pc, row: nat, refused: bool, found: bool)
    requires row < |sys.rows| && RowTold(sys, row, refused, found)
    requires !next.Answered? && (Unsent(next) || next.Looks? ==> next.id == id)
    requires Unsent(next) ==> p in sys.pcs && Unsent(sys.pcs[p]) && sys.pcs[p].id == id
    requires next.Looks? ==> id in sys.sends
    requires row == id ==>
               var gone := id !in sys.sends && !Holds(Goto(sys, p, next), id);
               && (to.Submitting? ==> Unsent(next))
               && (to.Rejected? ==> refused || gone)
               && (Active(to) || refused || found || (gone && (to.Rejected? || to.Cancelled?)))
    ensures row < |Moved(sys, p, id, to, patch, next).rows|
    ensures RowTold(Moved(sys, p, id, to, patch, next), row, refused, found)
  {
    hide RowTold, ClashFree;
    GotoTold(sys, p, Idle, row, refused, found);
    GotoTold(sys, p, next, row, refused, found);
    if TransitionError(sys.rows, id, to, patch).None? {
      var g := Goto(sys, p, next);
      var rows := AfterTransition(sys.rows, id, to, patch);
      assert forall k | 0 <= k < |rows| :: rows[k].key == sys.rows[k].key && (k != id ==> rows[k] == sys.rows[k]);
      assert rows[id].status == to;
      if to.Submitting? && row == id {
        assert p in g.pcs && Unsent(g.pcs[p]) && g.pcs[p].id == id;
      }
      RowsTold(g, rows, id, row, refused, found);
    }
  }

  // ---------- every step ----------

  lemma ClaimTold(sys: System, step: Step, row: nat, refused: bool, found: bool)
    requires step.ClaimStep? && row < |sys.rows| && OneToken(sys) && RowTold(sys, row, refused, found)
    ensures var r := After(sys, step); row < |r.rows| && RowTold(r, row, refused, found)
  {
    hide RowTold;
    var c := ClaimResult(sys.rows, step.key);
    if PcOf(sys, step.p).Idle? {
      if c.claimed {
        GotoTold(sys, step.p, Owns(c.id), row, refused, found);
        ClaimKeepsConstraints(sys.rows, step.key, step.side);
        RowAppended(Goto(sys, step.p, Owns(c.id)), Row(step.key, step.side, Created, None, None, None, None), c.id, row, refused, found);
      } else {
        GotoTold(sys, step.p, Checks([Snapshot(c.id, sys.rows[c.id])]), row, refused, found);
      }
    }
  }

  /** A new row of the strategy comes only when the strategy has no active one. */
  lemma RowAppended(sys: System, added: Row, id: nat, row: nat, refused: bool, found: bool)
    requires row < |sys.rows| && RowTold(sys, row, refused, found)
    requires OfStrategy(added, sys.rows[row].key.account, sys.rows[row].key.strategy) ==> !Active(sys.rows[row].status)
    ensures RowTold(sys.(rows := sys.rows + [added], claims := sys.claims + [id]), row, refused, found)
  {
    var r := sys.(rows := sys.rows + [added], claims := sys.claims + [id]);
    assert GivenUp(sys, row) ==> GivenUp(r, row);
  }

  /** The claimed row itself. */
  lemma NewRowTold(sys: System, step: Step, row: nat)
    requires step.ClaimStep? && OneToken(sys) && row == |sys.rows| < |After(sys, step).rows|
    requires forall p | p in sys.pcs && (sys.pcs[p].Answered? || sys.pcs[p].Looks?) :: sys.pcs[p].id < |sys.rows|
    ensures RowTold(After(sys, step), row, false, false)
  {
    var r := After(sys, step);
    assert r.rows[row].status.Created?;
  }

  lemma SendTold(sys: System, step: Step, row: nat, refused: bool, found: bool)
    requires step.SendStep? && row < |sys.rows| && OneToken(sys) && RowTold(sys, row, refused, found)
    ensures var r := After(sys, step);
            row < |r.rows| && RowTold(r, row, refused || RefusesRow(sys, step, row), found)
  {
    var pc := PcOf(sys, step.p);
    if pc.Submits? {
      var r := After(sys, step);
      assert r.sends == sys.sends + [pc.id];
      if row == pc.id {
        assert Holds(sys, row);
      } else {
        GotoTold(sys, step.p, Answered(pc.id, step.answer), row, refused, found);
        assert GivenUp(sys, row) ==> GivenUp(r, row);
      }
    }
  }

  /** Transitions: what the broker said decides where a sent row may go. */
  lemma TransitionTold(sys: System, step: Step, row: nat, refused: bool, found: bool)
    requires step.GiveUpStep? || step.SubmitStep? || step.SettleStep? || step.SightStep? || step.ProbeStep?
    requires row < |sys.rows| && OneToken(sys) && PcsTold(sys) && RowTold(sys, row, refused, found)
    ensures var r := After(sys, step);
            row < |r.rows| && RowTold(r, row, refused, found || FindsRow(sys, step, row))
  {
    hide RowTold, Moved, UniqueKeys, UniqueBrokerIds;
    var p, f := step.p, found || FindsRow(sys, step, row);
    var pc := PcOf(sys, p);
    LaterFactsKeep(sys, row, refused, found, refused, f);
    match step {
      case GiveUpStep(_, cancel) =>
        if pc.Owns? {
          MovedTold(sys, p, pc.id, if cancel then Cancelled else Rejected, NO_PATCH, Idle, row, refused, f);
        }
      case SubmitStep(_) =>
        if pc.Requested? {
          MovedTold(sys, p, pc.id, Submitting, NO_PATCH, Submits(pc.id), row, refused, f);
        }
      case SettleStep(_) =>
        if pc.Answered? {
          if pc.id == row {
            RefusalIsKnown(sys, p, row, refused, found);
          }
          MovedTold(sys, p, pc.id, SettledStatus(pc.answer), SettledPatch(pc.answer),
                    if pc.answer.AcceptedCode? then Looks(pc.id) else Idle, row, refused, f);
        }
      case SightStep(_, sight) =>
        if pc.Looks? && pc.id < |sys.rows| {
          MovedTold(sys, p, pc.id, SightStatus(sight, sys.rows[pc.id].requestedVolume), SightPatch(sight), Idle, row, refused, f);
        }
      case ProbeStep(_, probe) =>
        if pc.Checks? && pc.queue != [] {
          var head, next := pc.queue[0], CheckOrRest(pc.queue[1..]);
          match ProbeMove(head.row, probe) {
            case Stay => GotoTold(sys, p, next, row, refused, f);
            case MoveTo(status, patch) => MovedTold(sys, p, head.id, status, patch, next, row, refused, f);
          }
        }
    }
  }

  /** A process that was answered, or looks for its position, has sent its row. */
  ghost predicate PcsTold(sys: System) {
    forall p | p in sys.pcs && (sys.pcs[p].Answered? || sys.pcs[p].Looks?) :: sys.pcs[p].id in sys.sends
  }

  lemma RefusalIsKnown(sys: System, p: nat, row: nat, refused: bool, found: bool)
    requires row < |sys.rows| && RowTold(sys, row, refused, found) && PcOf(sys, p).Answered? && PcOf(sys, p).id == row
    ensures PcOf(sys, p).answer.RefusedCode? ==> refused
  {}

  lemma QuietTold(sys: System, step: Step, row: nat, refused: bool, found: bool)
    requires step.RequestStep? || step.ListStep? || step.StopStep?
    requires row < |sys.rows| && OneToken(sys) && RowTold(sys, row, refused, found)
    ensures var r := After(sys, step); row < |r.rows| && RowTold(r, row, refused, found)
  {
    hide RowTold, IsListing, UniqueKeys, UniqueBrokerIds;
    var p := step.p;
    var pc := PcOf(sys, p);
    match step {
      case RequestStep(_, volume) =>
        if pc.Owns? {
          GotoTold(sys, p, Requested(pc.id), row, refused, found);
          SameStatuses(Goto(sys, p, Requested(pc.id)), AfterRequest(sys.rows, pc.id, volume), row, refused, found);
        }
      case ListStep(_, account, ids) =>
        if pc.Idle? && IsListing(sys.rows, account, ids) {
          ListingIsInRange(sys.rows, account, ids);
          GotoTold(sys, p, CheckOrRest(Snapshots(sys.rows, ids)), row, refused, found);
        }
      case StopStep(_) =>
        GotoTold(sys, p, Idle, row, refused, found);
    }
  }

  lemma SameStatuses(sys: System, rows: seq<Row>, row: nat, refused: bool, found: bool)
    requires row < |sys.rows| && RowTold(sys, row, refused, found) && |rows| == |sys.rows|
    requires forall k | 0 <= k < |rows| :: rows[k].key == sys.rows[k].key && rows[k].status == sys.rows[k].status
    ensures RowTold(sys.(rows := rows), row, refused, found)
  {
    var r := sys.(rows := rows);
    assert Holds(r, row) == Holds(sys, row);
    assert GivenUp(sys, row) == GivenUp(r, row);
  }

  lemma PcsStayTold(sys: System, step: Step)
    requires OneToken(sys) && PcsTold(sys)
    ensures PcsTold(After(sys, step))
  {
    hide ProbeMove, IsListing, TransitionError, ClaimResult, AfterClaim, Snapshots;
  }

  lemma {:induction false} StepTold(sys: System, step: Step, row: nat, refused: bool, found: bool)
    requires row < |sys.rows| && OneToken(sys) && PcsTold(sys) && RowTold(sys, row, refused, found)
    ensures var r := After(sys, step);
            row < |r.rows| && RowTold(r, row, refused || RefusesRow(sys, step, row), found || FindsRow(sys, step, row))
  {
    hide RowTold, OneToken, PcsTold, After;
    if step.ClaimStep? {
      ClaimTold(sys, step, row, refused, found);
    } else if step.SendStep? {
      SendTold(sys, step, row, refused, found);
    } else if step.RequestStep? || step.ListStep? || step.StopStep? {
      QuietTold(sys, step, row, refused, found);
    } else {
      TransitionTold(sys, step, row, refused, found);
    }
  }

  lemma RowsOnlyGrow(sys: System, step: Step)
    requires OneToken(sys)
    ensures |sys.rows| <= |After(sys, step).rows| <= |sys.rows| + 1
    ensures |After(sys, step).rows| > |sys.rows| ==> step.ClaimStep?
  {
    hide ProbeMove, IsListing, TransitionError, ClaimResult, Snapshots, OneToken;
  }

  // ---------- whole runs ----------

  lemma {:induction false} RunTold(steps: seq<Step>)
    ensures PcsTold(Execute(INITIAL, steps)) && AllTold(Execute(INITIAL, steps), steps)
  {
    hide After, RowTold, RefusesRow, FindsRow, OneToken, Refused, Found, PcsTold;
    if |steps| == 0 {
      assert PcsTold(INITIAL) by { NobodyAnswered(); }
    } else {
      var front, step := steps[..|steps| - 1], steps[|steps| - 1];
      var sys := Execute(INITIAL, front);
      RunTold(front);
      RunKeepsToken(front);
      PcsStayTold(sys, step);
      RowsOnlyGrow(sys, step);
      var r := After(sys, step);
      forall id: nat | id < |r.rows|
        ensures RowTold(r, id, Refused(steps, id), Found(steps, id))
      {
        OneMoreStep(steps, id);
        if id < |sys.rows| {
          StepTold(sys, step, id, Refused(front, id), Found(front, id));
        } else {
          SentRowsExist(sys);
          NewRowTold(sys, step, id);
          LaterFactsKeep(r, id, false, false, Refused(steps, id), Found(steps, id));
        }
      }
    }
  }

  lemma NobodyAnswered()
    ensures PcsTold(INITIAL)
  {}

  lemma SentRowsExist(sys: System)
    requires OneToken(sys) && PcsTold(sys)
    ensures forall p | p in sys.pcs && (sys.pcs[p].Answered? || sys.pcs[p].Looks?) :: sys.pcs[p].id < |sys.rows|
  {}

  /** What became of every order, for any processes, stops and answers: a row that was sent is REJECTED only
      if the broker refused it; it stays unresolved until it was refused or found; and of two rows of a
      strategy that were both sent, the earlier one was refused or found. */
  lemma SentUntilAnswered(steps: seq<Step>, id: nat)
    requires id in Execute(INITIAL, steps).sends
    ensures var sys := Execute(INITIAL, steps);
            && id < |sys.rows|
            && (sys.rows[id].status.Rejected? ==> Refused(steps, id))
            && (!Active(sys.rows[id].status) ==> Refused(steps, id) || Found(steps, id))
            && (forall j | id < j < |sys.rows| && j in sys.sends
                           && OfStrategy(sys.rows[j], sys.rows[id].key.account, sys.rows[id].key.strategy) ::
                  Refused(steps, id) || Found(steps, id))
  {
    hide Execute, Refused, Found;
    RunTold(steps);
    RunKeepsToken(steps);
    assert RowTold(Execute(INITIAL, steps), id, Refused(steps, id), Found(steps, id));
  }

  // ---------- what one call writes ----------

  function BrokerNumber(id: Option<int>): Option<int> {
    match id
    case Some(n) => if n > 0 then Some(n) else None
    case None => None
  }

  /** Part of the requested volume was filled: less than it, but some. */
  predicate OnlyPart(filled: real, requested: Option<real>) {
    requested.Some? && requested.value != 0.0 && filled != 0.0 && filled < requested.value
  }

  predicate FilledAs(status: Status, filled: real, requested: Option<real>) {
    if OnlyPart(filled, requested) then status == PartiallyFilled else status == Filled
  }

  /** The row of a submitted order after its answer and, when it was accepted, the first look for it. */
  predicate SettledAs(before: Row, answer: Answer, sight: Sight, after: Row) {
    match answer
    case Raised => after == before.(status := Unknown)
    case NoResult => after == before.(status := Unknown)
    case RefusedCode(order) => after == before.(status := Rejected, orderId := BrokerNumber(order))
    case AcceptedCode(order) =>
      match sight
      case SightFailed => after == before.(status := Unknown, orderId := BrokerNumber(order))
      case NotVisible => after == before.(status := Reconciling, orderId := BrokerNumber(order))
      case Visible(ticket, volume) =>
        && FilledAs(after.status, volume, before.requestedVolume)
        && after == before.(status := after.status, orderId := BrokerNumber(order),
                            positionId := BrokerNumber(Some(ticket)), filledVolume := Some(volume))
  }

  /** The row after reconciliation looked for its order. */
  predicate ReconciledAs(before: Row, probe: Probe, after: Row) {
    if before.status.Created? || before.status.PartiallyFilled? || before.status.Filled? || before.status.Rejected?
       || before.status.Cancelled? || before.status.Closed?
    then after == before
    else
      match probe
      case ProbeFailed => after == before.(status := Unknown)
      case FoundNothing => after == before.(status := Reconciling)
      case FoundInHistory(order, position, volume) =>
        var filled := if volume != 0.0 then Some(volume) else before.requestedVolume;
        && (if filled.Some? then FilledAs(after.status, filled.value, before.requestedVolume) else after.status == Filled)
        && after == before.(status := after.status, orderId := BrokerNumber(order), positionId := BrokerNumber(position),
                            filledVolume := filled)
      case FoundPosition(ticket, volume) =>
        && FilledAs(after.status, volume, before.requestedVolume)
        && after == before.(status := after.status, positionId := BrokerNumber(Some(ticket)), filledVolume := Some(volume))
  }

  lemma SettlingWrites(before: Row, answer: Answer, sight: Sight)
    ensures var settled := Patched(before, SettledStatus(answer), SettledPatch(answer));
            SettledAs(before, answer, sight,
                      if answer.AcceptedCode? then Patched(settled, SightStatus(sight, before.requestedVolume), SightPatch(sight))
                      else settled)
  {}

  lemma ReconcilingWrites(before: Row, probe: Probe)
    ensures ReconciledAs(before, probe,
              match ProbeMove(before, probe)
              case Stay => before
              case MoveTo(status, patch) => Patched(before, status, patch))
  {}
}
