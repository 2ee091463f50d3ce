/** Account risk state: one row per account and an append-only reset audit, changed by short
    transactions, and what any serial run of them leaves behind. */
module AccountRisk {
  import opened Options

  datatype RiskState = RiskState(
    starting: Option<real>, peak: Option<real>, last: Option<real>,
    halted: bool, reason: Option<string>, breachAt: Option<int>, lastResetId: Option<string>, version: nat)

  datatype AuditRow = AuditRow(id: string, why: string, at: int, before: Option<RiskState>, after: RiskState)

  datatype Store = Store(state: Option<RiskState>, audit: seq<AuditRow>)

  const CLEAN: Store := Store(None, [])

  // ---------- operations ----------

  datatype Op =
    | RecordEquity(equity: real, configured: Option<real>)
    | Halt(cause: string, now: int)
    | Reset(id: string, why: string, equity: real, configured: Option<real>, balance: Option<real>, now: int)

  datatype Reply = Refused | Recorded | HaltReply(newlyHalted: bool) | ResetReply(effective: bool)

  /** The white space that a text strip removes, by code point. */
  predicate IsBlank(c: char) {
    var n := c as int;
    || 0x09 <= n <= 0x0D || 0x1C <= n <= 0x20 || n == 0x85 || n == 0xA0 || n == 0x1680
    || 0x2000 <= n <= 0x200A || n == 0x2028 || n == 0x2029 || n == 0x202F || n == 0x205F || n == 0x3000
  }

  function StripLeft(s: string): string
    decreases |s|
  {
    if |s| > 0 && IsBlank(s[0]) then StripLeft(s[1..]) else s
  }

  function StripRight(s: string): string
    decreases |s|
  {
    if |s| > 0 && IsBlank(s[|s| - 1]) then StripRight(s[..|s| - 1]) else s
  }

  function Strip(s: string): string { StripRight(StripLeft(s)) }

  predicate PositiveOrAbsent(x: Option<real>) { x.Some? ==> x.value > 0.0 }

  /** Inputs the operation accepts; `secret` recognises credentials in a reset reason. */
  predicate Accepted(op: Op, secret: string -> bool) {
    match op
    case RecordEquity(equity, configured) => equity > 0.0 && PositiveOrAbsent(configured)
    case Halt(cause, _) => cause != ""
    case Reset(id, why, equity, configured, balance, _) =>
      && Strip(id) != "" && |id| <= 128 && Strip(why) != "" && |why| <= 512 && !secret(Strip(why))
      && equity > 0.0 && PositiveOrAbsent(configured) && PositiveOrAbsent(balance)
  }

  function OrElse(x: Option<real>, y: real): real { if x.Some? then x.value else y }

  predicate Audited(audit: seq<AuditRow>, id: string) { exists k | 0 <= k < |audit| :: audit[k].id == id }

  function AfterEquity(st: Option<RiskState>, equity: real, configured: Option<real>): RiskState {
    match st
    case None => RiskState(Some(OrElse(configured, equity)), Some(equity), Some(equity), false, None, None, None, 1)
    case Some(s) =>
      s.(peak := if s.peak.None? || equity > s.peak.value then Some(equity) else s.peak,
         starting := if s.starting.Some? then s.starting else Some(OrElse(configured, equity)),
         last := Some(equity), version := s.version + 1)
  }

  function AfterHalt(st: Option<RiskState>, cause: string, now: int): RiskState {
    match st
    case None => RiskState(None, None, None, true, Some(cause), Some(now), None, 1)
    case Some(s) =>
      s.(halted := true,
         reason := if s.halted then s.reason else Some(cause),
         breachAt := if s.halted then s.breachAt else Some(now),
         version := s.version + 1)
  }

  function AfterReset(st: Option<RiskState>, id: string, starting: real, equity: real): RiskState {
    RiskState(Some(starting), Some(equity), Some(equity), false, None, None, Some(id),
              if st.None? then 1 else st.value.version + 1)
  }

  function Apply(store: Store, op: Op, secret: string -> bool): Store {
    if !Accepted(op, secret) then store
    else
      match op
      case RecordEquity(equity, configured) => store.(state := Some(AfterEquity(store.state, equity, configured)))
      case Halt(cause, now) => store.(state := Some(AfterHalt(store.state, cause, now)))
      case Reset(id, why, equity, configured, balance, now) =>
        if Audited(store.audit, Strip(id)) then store
        else
          var after := AfterReset(store.state, Strip(id), OrElse(configured, OrElse(balance, equity)), equity);
          Store(Some(after), store.audit + [AuditRow(Strip(id), Strip(why), now, store.state, after)])
  }

  function ReplyTo(store: Store, op: Op, secret: string -> bool): Reply {
    if !Accepted(op, secret) then Refused
    else
      match op
      case RecordEquity(_, _) => Recorded
      case Halt(_, _) => HaltReply(store.state.None? || !store.state.value.halted)
      case Reset(id, _, _, _, _, _) => ResetReply(!Audited(store.audit, Strip(id)))
  }

  class AccountStateStore {
    var state: Option<RiskState>
    var audit: seq<AuditRow>
    const secret: string -> bool

    function Contents(): Store reads this { Store(state, audit) }

    constructor (secret: string -> bool)
      ensures Contents() == CLEAN && this.secret == secret
    {
      state, audit := None, [];
      this.secret := secret;
    }

    method RecordEquity(equity: real, configured: Option<real>) returns (reply: Reply)
      modifies this
      ensures Contents() == Apply(old(Contents()), Op.RecordEquity(equity, configured), secret)
      ensures reply == ReplyTo(old(Contents()), Op.RecordEquity(equity, configured), secret)
      ensures reply.Recorded? ==> state.Some? && state.value.last == Some(equity) && state.value.peak.Some?
                                  && state.value.peak.value >= equity
    {
      if equity <= 0.0 || (configured.Some? && configured.value <= 0.0) {
        return Refused;
      }
      state := Some(AfterEquity(state, equity, configured));
      return Recorded;
    }

    method Halt(cause: string, now: int) returns (reply: Reply)
      modifies this
      ensures Contents() == Apply(old(Contents()), Op.Halt(cause, now), secret)
      ensures reply == ReplyTo(old(Contents()), Op.Halt(cause, now), secret)
      ensures !reply.Refused? ==> state.Some? && state.value.halted
    {
      if cause == "" {
        return Refused;
      }
      var wasHalted := state.Some? && state.value.halted;
      state := Some(AfterHalt(state, cause, now));
      return HaltReply(!wasHalted);
    }

    method ResetIfNew(id: string, why: string, equity: real, configured: Option<real>, balance: Option<real>, now: int)
      returns (reply: Reply)
      modifies this
      ensures Contents() == Apply(old(Contents()), Op.Reset(id, why, equity, configured, balance, now), secret)
      ensures reply == ReplyTo(old(Contents()), Op.Reset(id, why, equity, configured, balance, now), secret)
      ensures reply == ResetReply(true) ==> state.Some? && !state.value.halted && state.value.peak == Some(equity)
    {
      var op := Op.Reset(id, why, equity, configured, balance, now);
      if !Accepted(op, secret) {
        return Refused;
      }
      var key := Strip(id);
      if Audited(audit, key) {
        return ResetReply(false);
      }
      var before := state;
      state := Some(AfterReset(state, key, OrElse(configured, OrElse(balance, equity)), equity));
      audit := audit + [AuditRow(key, Strip(why), now, before, state.value)];
      return ResetReply(true);
    }
  }

  // ---------- what one operation does ----------

  /** The code points of white space. */
  const BLANKS: set<int> :=
    {9, 10, 11, 12, 13, 28, 29, 30, 31, 32, 133, 160, 5760,
     8192, 8193, 8194, 8195, 8196, 8197, 8198, 8199, 8200, 8201, 8202, 8232, 8233, 8239, 8287, 12288}

  lemma BlanksAre(c: char)
    ensures IsBlank(c) <==> c as int in BLANKS
  {}

  /** The part of s between its first and its last character that is not blank. */
  ghost predicate Bare(s: string, t: string) {
    exists i, j | 0 <= i <= j <= |s| ::
      t == s[i..j] && (forall k | 0 <= k < i || j <= k < |s| :: s[k] as int in BLANKS)
      && (i < j ==> s[i] as int !in BLANKS && s[j - 1] as int !in BLANKS)
  }

  lemma {:induction false} StripLeftIs(s: string) returns (i: nat)
    ensures i <= |s| && StripLeft(s) == s[i..] && (forall k | 0 <= k < i :: s[k] as int in BLANKS)
    ensures i < |s| ==> s[i] as int !in BLANKS
    decreases |s|
  {
    hide IsBlank;
    i := 0;
    if |s| > 0 {
      BlanksAre(s[0]);
      if IsBlank(s[0]) {
        var n := StripLeftIs(s[1..]);
        i := n + 1;
      }
    }
  }

  lemma {:induction false} StripRightIs(s: string) returns (j: nat)
    ensures j <= |s| && StripRight(s) == s[..j] && (forall k | j <= k < |s| :: s[k] as int in BLANKS)
    ensures j > 0 ==> s[j - 1] as int !in BLANKS
    decreases |s|
  {
    hide IsBlank;
    j := |s|;
    if |s| > 0 {
      BlanksAre(s[|s| - 1]);
      if IsBlank(s[|s| - 1]) {
        j := StripRightIs(s[..|s| - 1]);
      }
    }
  }

  lemma StripIsBare(s: string)
    ensures Bare(s, Strip(s))
  {
    var i := StripLeftIs(s);
    var j := StripRightIs(s[i..]);
    assert Strip(s) == s[i..i + j];
    assert forall k | i <= k < |s| :: s[k] == s[i..][k - i];
  }

  predicate AllBlank(s: string) { forall k | 0 <= k < |s| :: s[k] as int in BLANKS }

  lemma EmptyWhenBlank(s: string)
    ensures Strip(s) == "" <==> AllBlank(s)
  {
    var i := StripLeftIs(s);
    var j := StripRightIs(s[i..]);
    assert forall k | i <= k < |s| :: s[k] == s[i..][k - i];
  }

  /** No amount that is given is zero or less. */
  predicate NoneBelow(a: Option<real>, b: Option<real>) { !(a.Some? && a.value <= 0.0) && !(b.Some? && b.value <= 0.0) }

  /** Which inputs are turned away: amounts that are not positive, an empty reason, and for a reset a blank
      or overlong id or reason, or a reason that holds a secret. */
  lemma RefusedExactlyWhen(op: Op, secret: string -> bool)
    ensures match op
            case RecordEquity(equity, configured) => !Accepted(op, secret) <==> equity <= 0.0 || !NoneBelow(configured, None)
            case Halt(cause, _) => !Accepted(op, secret) <==> |cause| == 0
            case Reset(id, why, equity, configured, balance, _) =>
              !Accepted(op, secret) <==>
                || AllBlank(id) || AllBlank(why) || |id| > 128 || |why| > 512 || secret(Strip(why))
                || equity <= 0.0 || !NoneBelow(configured, balance)
  {
    if op.Reset? {
      EmptyWhenBlank(op.id);
      EmptyWhenBlank(op.why);
      hide Strip;
    }
  }

  /** The configured amount if there is one, else the other. */
  predicate Starts(starting: Option<real>, configured: Option<real>, other: real) {
    starting.Some? && (if configured.Some? then starting == configured else starting.value == other)
  }

  predicate NextVersion(before: Option<RiskState>, after: RiskState) {
    after.version == (match before case Some(s) => s.version + 1 case None => 1)
  }

  /** An accepted equity: it is the last one, the peak if nothing was higher, and the starting one if there
      was none and none is configured; halt and reset columns stay. */
  lemma EquityIsRecorded(store: Store, equity: real, configured: Option<real>, secret: string -> bool)
    requires Accepted(RecordEquity(equity, configured), secret)
    ensures var r := Apply(store, RecordEquity(equity, configured), secret);
            && r.audit == store.audit && r.state.Some?
            && var s := r.state.value;
               && s.last == Some(equity) && NextVersion(store.state, s) && s.peak.Some? && s.peak.value >= equity
               && (match store.state
                   case None => s.peak.value == equity && Starts(s.starting, configured, equity)
                                && !s.halted && s.reason.None? && s.breachAt.None? && s.lastResetId.None?
                   case Some(b) =>
                     && (if b.peak.None? then s.peak.value == equity
                         else s.peak.value >= b.peak.value && (s.peak == b.peak || s.peak.value == equity))
                     && (if b.starting.Some? then s.starting == b.starting else Starts(s.starting, configured, equity))
                     && s.halted == b.halted && s.reason == b.reason && s.breachAt == b.breachAt && s.lastResetId == b.lastResetId)
  {}

  /** An accepted halt: a first one sets reason and time, a further one leaves them; amounts stay. */
  lemma HaltIsSticky(store: Store, cause: string, now: int, secret: string -> bool)
    requires cause != ""
    ensures var r := Apply(store, Halt(cause, now), secret);
            && r.audit == store.audit && r.state.Some?
            && var s := r.state.value;
               && s.halted && NextVersion(store.state, s)
               && (match store.state
                   case None => s.reason == Some(cause) && s.breachAt == Some(now)
                                && s.starting.None? && s.peak.None? && s.last.None? && s.lastResetId.None?
                   case Some(b) =>
                     && s.reason == (if b.halted then b.reason else Some(cause)) && s.breachAt == (if b.halted then b.breachAt else Some(now))
                     && s.starting == b.starting && s.peak == b.peak && s.last == b.last && s.lastResetId == b.lastResetId)
  {}

  /** An accepted reset under a new id: equity, peak and last are the given equity, the starting one is
      configured, else the balance, else the equity, and one audit row holds both states. */
  lemma ResetStartsOver(store: Store, op: Op, secret: string -> bool)
    requires op.Reset? && Accepted(op, secret) && forall row | row in store.audit :: row.id != Strip(op.id)
    ensures var r := Apply(store, op, secret);
            && r.state.Some?
            && var s := r.state.value;
               && s.peak == Some(op.equity) && s.last == Some(op.equity) && NextVersion(store.state, s)
               && (if op.configured.None? && op.balance.Some? then s.starting == op.balance else Starts(s.starting, op.configured, op.equity))
               && !s.halted && s.reason.None? && s.breachAt.None? && s.lastResetId == Some(Strip(op.id))
               && r.audit == store.audit + [AuditRow(id := Strip(op.id), why := Strip(op.why), at := op.now, before := store.state, after := s)]
  {}

  // ---------- runs, and their direct reading ----------

  function Run(ops: seq<Op>, secret: string -> bool): Store {
    if |ops| == 0 then CLEAN else Apply(Run(ops[..|ops| - 1], secret), ops[|ops| - 1], secret)
  }

  predicate IsBreach(ops: seq<Op>, k: nat, secret: string -> bool) {
    k < |ops| && ops[k].Halt? && Accepted(ops[k], secret)
  }

  predicate IsReset(ops: seq<Op>, k: nat, secret: string -> bool) {
    k < |ops| && ops[k].Reset? && Accepted(ops[k], secret)
  }

  /** A reset takes effect when no accepted reset before it had the same id. */
  ghost predicate TakesEffect(ops: seq<Op>, k: nat, secret: string -> bool) {
    IsReset(ops, k, secret)
    && forall j: nat | j < k && IsReset(ops, j, secret) :: Strip(ops[j].id) != Strip(ops[k].id)
  }

  /** No reset takes effect in [from, to). */
  ghost predicate SameEpoch(ops: seq<Op>, from: nat, to: nat, secret: string -> bool) {
    forall k: nat | from <= k < to :: !TakesEffect(ops, k, secret)
  }

  /** The equity that operation k reports, if it reports one: an observation or an effective reset. */
  ghost predicate ReportsEquity(ops: seq<Op>, k: nat, secret: string -> bool) {
    k < |ops| && ((ops[k].RecordEquity? && Accepted(ops[k], secret)) || TakesEffect(ops, k, secret))
  }

  function EquityOf(op: Op): real { if op.Halt? then 0.0 else op.equity }

  // ---------- prefixes ----------

  lemma PrefixReading(ops: seq<Op>, n: nat, k: nat, secret: string -> bool)
    requires k < n <= |ops|
    ensures IsBreach(ops[..n], k, secret) <==> IsBreach(ops, k, secret)
    ensures IsReset(ops[..n], k, secret) <==> IsReset(ops, k, secret)
    ensures TakesEffect(ops[..n], k, secret) <==> TakesEffect(ops, k, secret)
    ensures ReportsEquity(ops[..n], k, secret) <==> ReportsEquity(ops, k, secret)
  {
    assert forall j: nat | j <= k :: ops[..n][j] == ops[j];
    assert forall j: nat | j <= k :: IsReset(ops[..n], j, secret) <==> IsReset(ops, j, secret);
  }

  // ---------- resets and the audit ----------

  /** The audit holds exactly the ids of accepted resets, each once. */
  lemma {:induction false} AuditIsResetHistory(ops: seq<Op>, secret: string -> bool)
    ensures var audit := Run(ops, secret).audit;
            && (forall i, j | 0 <= i < j < |audit| :: audit[i].id != audit[j].id)
            && (forall k: nat | IsReset(ops, k, secret) :: Audited(audit, Strip(ops[k].id)))
            && (forall i | 0 <= i < |audit| :: exists k: nat :: IsReset(ops, k, secret) && Strip(ops[k].id) == audit[i].id)
  {
    hide AfterEquity, AfterHalt, AfterReset, Strip, Accepted, OrElse, TakesEffect, ReportsEquity;
    if |ops| > 0 {
      var n := |ops| - 1;
      var front := ops[..n];
      AuditIsResetHistory(front, secret);
      var before, after := Run(front, secret).audit, Run(ops, secret).audit;
      assert before <= after;
      forall k: nat | IsReset(ops, k, secret)
        ensures Audited(after, Strip(ops[k].id))
      {
        if k < n {
          PrefixReading(ops, n, k, secret);
          assert front[k] == ops[k];
          var i :| 0 <= i < |before| && before[i].id == Strip(ops[k].id);
          assert after[i] == before[i];
        } else if Audited(before, Strip(ops[n].id)) {
          var i :| 0 <= i < |before| && before[i].id == Strip(ops[n].id);
          assert after[i] == before[i];
        } else {
          assert after[|before|].id == Strip(ops[n].id);
        }
      }
      forall i | 0 <= i < |after|
        ensures exists k: nat :: IsReset(ops, k, secret) && Strip(ops[k].id) == after[i].id
      {
        if i < |before| {
          assert after[i] == before[i];
          var k: nat :| IsReset(front, k, secret) && Strip(front[k].id) == before[i].id;
          PrefixReading(ops, n, k, secret);
          assert front[k] == ops[k];
        } else {
          assert IsReset(ops, n, secret);
        }
      }
    }
  }

  /** Reset number k reports itself effective exactly when its id is new, and then, and only then, it
      adds one audit row, whose old values are the state just before it. */
  lemma EachResetIdOnce(ops: seq<Op>, k: nat, secret: string -> bool)
    requires IsReset(ops, k, secret)
    ensures var before, after := Run(ops[..k], secret), Run(ops[..k + 1], secret);
            && (ReplyTo(before, ops[k], secret) == ResetReply(true) <==> TakesEffect(ops, k, secret))
            && (TakesEffect(ops, k, secret) ==>
                  |after.audit| == |before.audit| + 1 && after.audit[..|before.audit|] == before.audit
                  && after.audit[|before.audit|].before == before.state
                  && after.state == Some(after.audit[|before.audit|].after))
            && (!TakesEffect(ops, k, secret) ==> after == before)
  {
    var before := Run(ops[..k], secret);
    AuditIsResetHistory(ops[..k], secret);
    assert ops[..k + 1][..k] == ops[..k];
    assert forall j: nat | j < k :: ops[..k][j] == ops[j];
    assert forall j: nat | j < k :: IsReset(ops[..k], j, secret) <==> IsReset(ops, j, secret);
    if Audited(before.audit, Strip(ops[k].id)) {
      var i :| 0 <= i < |before.audit| && before.audit[i].id == Strip(ops[k].id);
      var j: nat :| IsReset(ops[..k], j, secret) && Strip(ops[..k][j].id) == before.audit[i].id;
      assert j < k;
    }
  }

  // ---------- halts ----------

  /** halted means: a breach since the last effective reset; and the reason is that of the first one. */
  ghost predicate HaltReading(ops: seq<Op>, st: Option<RiskState>, secret: string -> bool) {
    && (st.Some? && st.value.halted <==>
          exists k: nat :: IsBreach(ops, k, secret) && SameEpoch(ops, k, |ops|, secret))
    && (st.Some? && st.value.halted ==>
          exists k: nat :: IsBreach(ops, k, secret) && SameEpoch(ops, k, |ops|, secret)
                           && st.value.reason == Some(ops[k].cause) && st.value.breachAt == Some(ops[k].now)
                           && forall j: nat | j < k && IsBreach(ops, j, secret) :: !SameEpoch(ops, j, |ops|, secret))
  }

  lemma SameEpochSnoc(ops: seq<Op>, from: nat, secret: string -> bool)
    requires from < |ops|
    ensures SameEpoch(ops, from, |ops|, secret)
            <==> SameEpoch(ops[..|ops| - 1], from, |ops| - 1, secret) && !TakesEffect(ops, |ops| - 1, secret)
  {
    var n := |ops| - 1;
    forall k: nat | from <= k < n
      ensures TakesEffect(ops[..n], k, secret) <==> TakesEffect(ops, k, secret)
    {
      PrefixReading(ops, n, k, secret);
    }
  }

  lemma LastResetTakesEffect(ops: seq<Op>, secret: string -> bool)
    requires |ops| > 0
    ensures TakesEffect(ops, |ops| - 1, secret)
            <==> IsReset(ops, |ops| - 1, secret) && !Audited(Run(ops[..|ops| - 1], secret).audit, Strip(ops[|ops| - 1].id))
  {
    var n := |ops| - 1;
    if IsReset(ops, n, secret) {
      EachResetIdOnce(ops, n, secret);
    }
  }

  lemma {:induction false} HaltIsHistory(ops: seq<Op>, secret: string -> bool)
    ensures HaltReading(ops, Run(ops, secret).state, secret)
  {
    if |ops| > 0 {
      var n, front := |ops| - 1, ops[..|ops| - 1];
      HaltIsHistory(front, secret);
      LastResetTakesEffect(ops, secret);
      HaltStep(ops, Run(front, secret), secret);
    }
  }

  lemma HaltStep(ops: seq<Op>, before: Store, secret: string -> bool)
    requires |ops| > 0 && HaltReading(ops[..|ops| - 1], before.state, secret)
    requires TakesEffect(ops, |ops| - 1, secret)
             <==> IsReset(ops, |ops| - 1, secret) && !Audited(before.audit, Strip(ops[|ops| - 1].id))
    ensures HaltReading(ops, Apply(before, ops[|ops| - 1], secret).state, secret)
  {
    hide TakesEffect, Audited, SameEpoch;
    var n, front := |ops| - 1, ops[..|ops| - 1];
    forall k: nat | k < n
      ensures front[k] == ops[k] && (IsBreach(front, k, secret) <==> IsBreach(ops, k, secret))
      ensures SameEpoch(ops, k, |ops|, secret) <==> SameEpoch(front, k, n, secret) && !TakesEffect(ops, n, secret)
    {
      PrefixReading(ops, n, k, secret);
      SameEpochSnoc(ops, k, secret);
    }
    LastAlone(ops, secret);
    if TakesEffect(ops, n, secret) {
      NoBreachAfterReset(ops, secret);
    } else if IsBreach(ops, n, secret) {
      FreshBreach(ops, before.state, secret);
    } else if before.state.Some? && before.state.value.halted {
      var k: nat :| IsBreach(front, k, secret) && SameEpoch(front, k, n, secret)
                    && before.state.value.reason == Some(front[k].cause) && before.state.value.breachAt == Some(front[k].now)
                    && forall j: nat | j < k && IsBreach(front, j, secret) :: !SameEpoch(front, j, n, secret);
      assert SameEpoch(ops, k, |ops|, secret);
    }
  }

  lemma LastAlone(ops: seq<Op>, secret: string -> bool)
    requires |ops| > 0
    ensures SameEpoch(ops, |ops| - 1, |ops|, secret) <==> !TakesEffect(ops, |ops| - 1, secret)
  {}

  lemma NoBreachAfterReset(ops: seq<Op>, secret: string -> bool)
    requires |ops| > 0 && TakesEffect(ops, |ops| - 1, secret)
    ensures !exists k: nat :: IsBreach(ops, k, secret) && SameEpoch(ops, k, |ops|, secret)
  {}

  /** The last operation is a breach: it is the first of its epoch exactly when nothing was halted. */
  lemma FreshBreach(ops: seq<Op>, st: Option<RiskState>, secret: string -> bool)
    requires |ops| > 0 && IsBreach(ops, |ops| - 1, secret) && HaltReading(ops[..|ops| - 1], st, secret)
    requires !TakesEffect(ops, |ops| - 1, secret)
    ensures HaltReading(ops, Some(AfterHalt(st, ops[|ops| - 1].cause, ops[|ops| - 1].now)), secret)
  {
    hide TakesEffect, SameEpoch;
    var n, front := |ops| - 1, ops[..|ops| - 1];
    forall k: nat | k < n
      ensures front[k] == ops[k] && (IsBreach(front, k, secret) <==> IsBreach(ops, k, secret))
      ensures SameEpoch(ops, k, |ops|, secret) <==> SameEpoch(front, k, n, secret)
    {
      PrefixReading(ops, n, k, secret);
      SameEpochSnoc(ops, k, secret);
    }
    LastAlone(ops, secret);
    assert SameEpoch(ops, n, |ops|, secret);
    if st.Some? && st.value.halted {
      var k: nat :| IsBreach(front, k, secret) && SameEpoch(front, k, n, secret)
                    && st.value.reason == Some(front[k].cause) && st.value.breachAt == Some(front[k].now)
                    && forall j: nat | j < k && IsBreach(front, j, secret) :: !SameEpoch(front, j, n, secret);
      assert SameEpoch(ops, k, |ops|, secret);
    }
  }

  /** Exactly the first breach of each epoch is reported as newly halted. */
  lemma OneNewHaltPerEpoch(ops: seq<Op>, k: nat, secret: string -> bool)
    requires IsBreach(ops, k, secret)
    ensures ReplyTo(Run(ops[..k], secret), ops[k], secret)
            == HaltReply(!exists j: nat :: j < k && IsBreach(ops, j, secret) && SameEpoch(ops, j, k, secret))
  {
    hide TakesEffect;
    var front := ops[..k];
    HaltIsHistory(front, secret);
    forall j: nat | j < k
      ensures IsBreach(front, j, secret) <==> IsBreach(ops, j, secret)
      ensures SameEpoch(front, j, k, secret) <==> SameEpoch(ops, j, k, secret)
    {
      PrefixReading(ops, k, j, secret);
      forall i: nat | j <= i < k
        ensures TakesEffect(front, i, secret) <==> TakesEffect(ops, i, secret)
      {
        PrefixReading(ops, k, i, secret);
      }
    }
  }

  // ---------- peak equity ----------

  /** No effective reset strictly after k. */
  ghost predicate Current(ops: seq<Op>, k: nat, secret: string -> bool) {
    ReportsEquity(ops, k, secret) && SameEpoch(ops, k + 1, |ops|, secret)
  }

  /** The peak is the largest equity reported since (and by) the last effective reset. */
  ghost predicate PeakReading(ops: seq<Op>, st: Option<RiskState>, secret: string -> bool) {
    var peak := if st.None? then None else st.value.peak;
    && (peak.None? <==> !exists k: nat :: Current(ops, k, secret))
    && (peak.Some? ==>
          && (forall k: nat | Current(ops, k, secret) :: EquityOf(ops[k]) <= peak.value)
          && (exists k: nat :: Current(ops, k, secret) && EquityOf(ops[k]) == peak.value))
  }

  lemma CurrentSnoc(ops: seq<Op>, k: nat, secret: string -> bool)
    requires |ops| > 0
    ensures k < |ops| - 1 ==>
              (Current(ops, k, secret) <==> Current(ops[..|ops| - 1], k, secret) && !TakesEffect(ops, |ops| - 1, secret))
    ensures k == |ops| - 1 ==> (Current(ops, k, secret) <==> ReportsEquity(ops, k, secret))
    ensures k >= |ops| ==> !Current(ops, k, secret)
  {
    var n := |ops| - 1;
    if k < n {
      PrefixReading(ops, n, k, secret);
      if k + 1 < |ops| {
        SameEpochSnoc(ops, k + 1, secret);
      }
    }
  }

  lemma {:induction false} PeakStep(ops: seq<Op>, before: Store, secret: string -> bool)
    requires |ops| > 0 && PeakReading(ops[..|ops| - 1], before.state, secret)
    requires TakesEffect(ops, |ops| - 1, secret)
             <==> IsReset(ops, |ops| - 1, secret) && !Audited(before.audit, Strip(ops[|ops| - 1].id))
    ensures PeakReading(ops, Apply(before, ops[|ops| - 1], secret).state, secret)
  {
    hide TakesEffect, Audited, Current;
    var n, front := |ops| - 1, ops[..|ops| - 1];
    forall k: nat
      ensures k < n ==> front[k] == ops[k]
                        && (Current(ops, k, secret) <==> Current(front, k, secret) && !TakesEffect(ops, n, secret))
      ensures k == n ==> (Current(ops, k, secret) <==> ReportsEquity(ops, n, secret))
      ensures k >= |ops| ==> !Current(ops, k, secret)
    {
      CurrentSnoc(ops, k, secret);
    }
    forall k: nat | Current(front, k, secret)
      ensures k < n
    {
      CurrentIsInRange(front, k, secret);
    }
    var old_ := if before.state.None? then None else before.state.value.peak;
    if ReportsEquity(ops, n, secret) {
      assert Current(ops, n, secret);
      if !TakesEffect(ops, n, secret) && old_.Some? {
        var k: nat :| Current(front, k, secret) && EquityOf(front[k]) == old_.value;
        assert Current(ops, k, secret);
      }
    } else if old_.Some? {
      var k: nat :| Current(front, k, secret) && EquityOf(front[k]) == old_.value;
      assert Current(ops, k, secret);
    }
  }

  lemma CurrentIsInRange(ops: seq<Op>, k: nat, secret: string -> bool)
    requires Current(ops, k, secret)
    ensures k < |ops|
  {}

  lemma {:induction false} PeakIsHistory(ops: seq<Op>, secret: string -> bool)
    ensures PeakReading(ops, Run(ops, secret).state, secret)
  {
    if |ops| > 0 {
      PeakIsHistory(ops[..|ops| - 1], secret);
      LastResetTakesEffect(ops, secret);
      PeakStep(ops, Run(ops[..|ops| - 1], secret), secret);
    }
  }

  /** Every serial run from a clean account: the halt flag, its first reason and the peak are exactly
      what the operations since the last effective reset say. */
  lemma RiskStateIsItsHistory(ops: seq<Op>, secret: string -> bool)
    ensures HaltReading(ops, Run(ops, secret).state, secret) && PeakReading(ops, Run(ops, secret).state, secret)
  {
    HaltIsHistory(ops, secret);
    PeakIsHistory(ops, secret);
  }
}
