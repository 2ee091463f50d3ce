/** The strategy loss guard: one decision, the class that announces it, and what it keeps over
    every run of one-position-at-a-time trading. */
module LossGuard {
  import opened Options
  import opened Market
  import L = Ledger

  // ---------- UTC windows ----------

  datatype Period = Daily | Weekly

  /** Half-open window of the UTC day, or of the Monday-based UTC week, that holds `now`. */
  function WindowStart(period: Period, now: int): int {
    match period
    case Daily => DayOf(now) * DAY
    case Weekly => (DayOf(now) - WeekdayOf(now)) * DAY
  }

  function WindowEnd(period: Period, now: int): int {
    WindowStart(period, now) + (if period.Daily? then DAY else 7 * DAY)
  }

  predicate InWindow(period: Period, now: int, t: int) { WindowStart(period, now) <= t < WindowEnd(period, now) }

  /** Realized profit of one strategy's closed trades that exited inside the window. */
  function Pnl(trades: seq<L.Trade>, strategy: string, period: Period, now: int): real {
    if |trades| == 0 then 0.0
    else
      Pnl(trades[..|trades| - 1], strategy, period, now)
      + if Counts(trades[|trades| - 1], strategy, period, now) then trades[|trades| - 1].profit else 0.0
  }

  predicate Counts(t: L.Trade, strategy: string, period: Period, now: int) {
    t.closed && t.strategy == strategy && t.exitTime.Some? && InWindow(period, now, t.exitTime.value)
  }

  // ---------- the guard ----------

  datatype Reason =
    | InvalidTolerance(period: Period) | LossLimit(period: Period) | LossLimitProjected(period: Period)
    | Unreadable(why: string) | Earlier(name: string)

  datatype Guard = Guard(
    blocked: bool, reason: Option<Reason>, period: Period, realizedLoss: real, potential: real,
    projected: real, limit: real, tolerance: real, effectiveLimit: real, fallback: bool)

  function Unblocked(period: Period): Guard { Guard(false, None, period, 0.0, 0.0, 0.0, 0.0, 0.0, 0.0, false) }

  function LossOf(pnl: real): real { AbsR(MinR(pnl, 0.0)) }

  /** A limit, a per-trade risk and a tolerance in R; an absent tolerance stands for a non-finite one. */
  datatype Limits = Limits(limit: Option<real>, risk: Option<real>, toleranceR: Option<real>)

  predicate KnowsRisk(l: Limits) { l.risk.Some? && l.risk.value > 0.0 }

  predicate ToleranceValid(l: Limits) { l.toleranceR.Some? && l.toleranceR.value >= 0.0 }

  function CheckSlGuard(l: Limits, pnl: real, period: Period): Guard {
    if l.limit.None? then Unblocked(period)
    else
      var limit, loss := AbsR(l.limit.value), LossOf(pnl);
      var base := Unblocked(period).(limit := limit, realizedLoss := loss);
      if !ToleranceValid(l) then base.(blocked := true, reason := Some(InvalidTolerance(period)))
      else if !KnowsRisk(l) then
        var g := base.(fallback := true, projected := loss, effectiveLimit := limit);
        if loss >= limit then g.(blocked := true, reason := Some(LossLimit(period))) else g
      else
        var tolerance := l.risk.value * l.toleranceR.value;
        var g := base.(potential := l.risk.value, projected := loss + l.risk.value,
                       tolerance := tolerance, effectiveLimit := limit + tolerance);
        if g.projected > g.effectiveLimit then g.(blocked := true, reason := Some(LossLimitProjected(period))) else g
  }

  /** What was lost, without a sign. */
  predicate LossIs(pnl: real, loss: real) { if pnl < 0.0 then loss + pnl == 0.0 else loss == 0.0 }

  predicate Size(x: real, size: real) { size >= 0.0 && (size == x || size + x == 0.0) }

  /** The guard's whole answer: without a limit nothing; a bad tolerance blocks; with a known risk the loss
      with one more worst trade must stay within limit and tolerance; else the loss must stay below the limit. */
  lemma GuardIs(l: Limits, pnl: real, period: Period)
    ensures var g := CheckSlGuard(l, pnl, period);
            && g.period == period && (g.blocked <==> g.reason.Some?)
            && (l.limit.None? ==>
                  !g.blocked && !g.fallback && g.limit == g.realizedLoss == g.potential == g.projected == g.tolerance == g.effectiveLimit == 0.0)
            && (l.limit.Some? ==> Size(l.limit.value, g.limit) && LossIs(pnl, g.realizedLoss))
            && (l.limit.Some? && (l.toleranceR.None? || l.toleranceR.value < 0.0) ==>
                  g.reason == Some(InvalidTolerance(period)) && !g.fallback
                  && g.potential == g.projected == g.tolerance == g.effectiveLimit == 0.0)
            && (l.limit.Some? && l.toleranceR.Some? && l.toleranceR.value >= 0.0 ==>
                  && g.projected == g.realizedLoss + g.potential && g.effectiveLimit == g.limit + g.tolerance
                  && (if l.risk.Some? && l.risk.value > 0.0 then
                        && !g.fallback && g.potential == l.risk.value && g.tolerance == l.toleranceR.value * l.risk.value
                        && g.reason == (if g.realizedLoss + g.potential - g.limit > g.tolerance then Some(LossLimitProjected(period)) else None)
                      else
                        && g.fallback && g.potential == g.tolerance == 0.0
                        && g.reason == (if g.realizedLoss < g.limit then None else Some(LossLimit(period)))))
  {}

  // ---------- the order-capable check ----------

  datatype LockState = Running | DailyLocked | WeeklyLocked

  datatype Settings = Settings(strategy: string, daily: Limits, weekly: Limits)

  function LimitsOf(s: Settings, period: Period): Limits { if period.Daily? then s.daily else s.weekly }

  function GuardAt(s: Settings, trades: seq<L.Trade>, now: int, period: Period): Guard {
    CheckSlGuard(LimitsOf(s, period), Pnl(trades, s.strategy, period, now), period)
  }

  /** Both loss guards let a new position through. */
  predicate LossPermits(s: Settings, trades: seq<L.Trade>, now: int) {
    !GuardAt(s, trades, now, Daily).blocked && !GuardAt(s, trades, now, Weekly).blocked
  }

  datatype Alert = Warning(reason: Reason) | LockAnnounced(state: LockState, guard: Guard)

  class RiskManager {
    const settings: Settings
    var lockState: LockState
    var announced: set<Reason>
    var alerts: seq<Alert>

    constructor (settings: Settings)
      ensures this.settings == settings && lockState == Running && announced == {} && alerts == []
    {
      this.settings := settings;
      lockState, announced, alerts := Running, {}, [];
    }

    /** Each blocking reason warns once until trading is allowed again. */
    method EmitBlockWarning(reason: Reason)
      modifies this`announced, this`alerts
      ensures announced == old(announced) + {reason}
      ensures alerts == old(alerts) + if reason in old(announced) then [] else [Warning(reason)]
    {
      if reason !in announced {
        announced := announced + {reason};
        alerts := alerts + [Warning(reason)];
      }
    }

    /** A daily or weekly lock is announced when it is entered, not while it lasts. */
    method TransitionStrategyLock(guard: Guard)
      modifies this`lockState, this`alerts
      ensures lockState == if guard.period.Daily? then DailyLocked else WeeklyLocked
      ensures alerts == old(alerts) + if lockState == old(lockState) then [] else [LockAnnounced(lockState, guard)]
    {
      var state := if guard.period.Daily? then DailyLocked else WeeklyLocked;
      if lockState == state {
        return;
      }
      lockState := state;
      alerts := alerts + [LockAnnounced(state, guard)];
    }

    /** `earlier` is the first account, position-cap or margin guard that blocks, if any; an unknown
        strategy id or a failed ledger read blocks with its own reason. */
    method CanOpenNewTrade(earlier: Option<string>, ledger: Result<seq<L.Trade>, string>, now: int)
        returns (allowed: bool, reason: Option<Reason>)
      modifies this
      ensures allowed <==> earlier.None? && ledger.Success? && LossPermits(settings, ledger.value, now)
      ensures allowed ==> reason == None && lockState == Running && announced == {} && alerts == old(alerts)
      ensures earlier.Some? ==> reason == Some(Earlier(earlier.value))
      ensures earlier.None? && ledger.Failure? ==> reason == Some(Unreadable(ledger.error))
      ensures earlier.Some? || ledger.Failure? ==>
                && reason.Some? && lockState == old(lockState) && announced == old(announced) + {reason.value}
                && alerts == old(alerts) + if reason.value in old(announced) then [] else [Warning(reason.value)]
      ensures !allowed && earlier.None? && ledger.Success? ==>
                var daily, weekly := GuardAt(settings, ledger.value, now, Daily), GuardAt(settings, ledger.value, now, Weekly);
                var guard := if daily.blocked then daily else weekly;
                && reason == guard.reason && announced == old(announced)
                && lockState == (if daily.blocked then DailyLocked else WeeklyLocked)
                && alerts == old(alerts) + if lockState == old(lockState) then [] else [LockAnnounced(lockState, guard)]
    {
      hide Pnl, CheckSlGuard;
      if earlier.Some? {
        EmitBlockWarning(Earlier(earlier.value));
        return false, Some(Earlier(earlier.value));
      }
      if ledger.Failure? {
        EmitBlockWarning(Unreadable(ledger.error));
        return false, Some(Unreadable(ledger.error));
      }
      var trades := ledger.value;
      GuardKeepsPeriod(settings, trades, now, Daily);
      GuardKeepsPeriod(settings, trades, now, Weekly);
      var daily := CheckSlGuard(settings.daily, Pnl(trades, settings.strategy, Daily, now), Daily);
      if daily.blocked {
        TransitionStrategyLock(daily);
        return false, daily.reason;
      }
      var weekly := CheckSlGuard(settings.weekly, Pnl(trades, settings.strategy, Weekly, now), Weekly);
      if weekly.blocked {
        TransitionStrategyLock(weekly);
        return false, weekly.reason;
      }
      lockState := Running;
      announced := {};
      return true, None;
    }
  }

  lemma GuardKeepsPeriod(s: Settings, trades: seq<L.Trade>, now: int, period: Period)
    ensures GuardAt(s, trades, now, period).period == period
    ensures GuardAt(s, trades, now, period).blocked <==> GuardAt(s, trades, now, period).reason.Some?
  {}

  // ---------- runs ----------

  /** One strategy with so many positions in flight; anything else may happen to other strategies. */
  datatype State = State(now: int, trades: seq<L.Trade>, inFlight: nat)

  datatype Event =
    | Wait(until: int)            // time passes, across any number of windows
    | Grant                       // the check passed and a position is opened
    | Settle(trade: L.Trade)      // the position closes now and its row is recorded
    | Foreign(trade: L.Trade)     // a row of another strategy, or one that is still open

  /** `worst` is the most that one close can lose, `cap` the number of positions the strategy may hold. */
  predicate Enabled(s: Settings, worst: real, cap: nat, st: State, e: Event) {
    match e
    case Wait(until) => until >= st.now
    case Grant => st.inFlight < cap && LossPermits(s, st.trades, st.now)
    case Settle(t) =>
      st.inFlight > 0 && t.closed && t.strategy == s.strategy && t.exitTime == Some(st.now) && t.profit >= -worst
    case Foreign(t) => !t.closed || t.strategy != s.strategy
  }

  function Apply(st: State, e: Event): State {
    match e
    case Wait(until) => st.(now := until)
    case Grant => st.(inFlight := st.inFlight + 1)
    case Settle(t) => st.(trades := st.trades + [t], inFlight := if st.inFlight > 0 then st.inFlight - 1 else 0)
    case Foreign(t) => st.(trades := st.trades + [t])
  }

  function Run(st: State, events: seq<Event>): State {
    if |events| == 0 then st else Apply(Run(st, events[..|events| - 1]), events[|events| - 1])
  }

  predicate Possible(s: Settings, worst: real, cap: nat, st: State, events: seq<Event>) {
    |events| > 0 ==>
      && Possible(s, worst, cap, st, events[..|events| - 1])
      && Enabled(s, worst, cap, Run(st, events[..|events| - 1]), events[|events| - 1])
  }

  /** What one window may lose: limit plus tolerance when the risk is known; without it the guard looks
      only at realized loss, so one more close can come on top of the limit. */
  function Bound(l: Limits, worst: real): real
    requires l.limit.Some? && ToleranceValid(l)
  {
    AbsR(l.limit.value) + if KnowsRisk(l) then l.risk.value * l.toleranceR.value else worst
  }

  /** n worst closes. */
  function Worsts(worst: real, n: nat): real { if n == 0 then 0.0 else Worsts(worst, n - 1) + worst }

  /** With several positions in flight, all but one of them may have passed a guard that did not see the others. */
  function OverlapBound(l: Limits, worst: real, cap: nat): real
    requires l.limit.Some? && ToleranceValid(l) && cap >= 1
  {
    Bound(l, worst) + Worsts(worst, cap - 1)
  }

  predicate Guarded(l: Limits, worst: real) {
    l.limit.Some? && ToleranceValid(l) && worst >= 0.0 && (KnowsRisk(l) ==> worst <= l.risk.value)
  }

  // ---------- windows ----------

  /** Two windows of one period are the same or disjoint. */
  lemma WindowsAgree(period: Period, t: int, u: int)
    ensures InWindow(period, t, t)
    ensures InWindow(period, t, u) ==>
              WindowStart(period, t) == WindowStart(period, u) && WindowEnd(period, t) == WindowEnd(period, u)
  {
    WindowByLabel(period, t, u);
    WindowByLabel(period, t, t);
  }

  /** A window holds exactly the times with its day or week number. */
  lemma WindowByLabel(period: Period, t: int, u: int)
    ensures InWindow(period, t, u) <==> if period.Daily? then DayOf(t) == DayOf(u) else WeekOf(t) == WeekOf(u)
    ensures period.Weekly? ==> WindowStart(period, t) == (7 * WeekOf(t) - 3) * DAY
  {
    DayBounds(u);
    var d, e := DayOf(t), DayOf(u);
    assert WeekdayOf(t) == (d + 3) - 7 * WeekOf(t);
    if period.Weekly? {
      var m := 7 * WeekOf(t) - 3;
      assert WindowStart(period, t) == m * DAY;
      assert InWindow(period, t, u) <==> m <= e < m + 7;
    }
  }

  lemma DayBounds(u: int)
    ensures DayOf(u) * DAY <= u < DayOf(u) * DAY + DAY
  {}

  lemma {:induction false} SameWindowSamePnl(trades: seq<L.Trade>, strategy: string, period: Period, t: int, u: int)
    requires InWindow(period, t, u)
    ensures Pnl(trades, strategy, period, t) == Pnl(trades, strategy, period, u)
  {
    WindowsAgree(period, t, u);
    hide WindowStart, WindowEnd;
    if |trades| > 0 {
      SameWindowSamePnl(trades[..|trades| - 1], strategy, period, t, u);
    }
  }

  /** A window that starts after every recorded exit is still empty. */
  lemma {:induction false} LaterWindowIsEmpty(trades: seq<L.Trade>, strategy: string, period: Period, last: int, t: int)
    requires RecordedBy(trades, strategy, last) && last < WindowStart(period, t)
    ensures Pnl(trades, strategy, period, t) == 0.0
  {
    hide WindowStart, WindowEnd;
    if |trades| > 0 {
      assert trades[|trades| - 1] in trades;
      LaterWindowIsEmpty(trades[..|trades| - 1], strategy, period, last, t);
    }
  }

  /** The strategy's recorded exits are not in the future. */
  ghost predicate RecordedBy(trades: seq<L.Trade>, strategy: string, now: int) {
    forall t | t in trades && t.closed && t.strategy == strategy && t.exitTime.Some? :: t.exitTime.value <= now
  }

  // ---------- the safety argument ----------

  /** A passed guard leaves room for the worst close. */
  lemma GuardLeavesRoom(l: Limits, pnl: real, period: Period, worst: real)
    requires Guarded(l, worst) && !CheckSlGuard(l, pnl, period).blocked
    ensures pnl - worst >= -Bound(l, worst) && worst <= Bound(l, worst)
  {}

  lemma {:induction false} WorstsAscend(worst: real, m: nat, n: nat)
    requires worst >= 0.0 && m <= n
    ensures 0.0 <= Worsts(worst, m) <= Worsts(worst, n)
    decreases n
  {
    if m < n {
      WorstsAscend(worst, m, n - 1);
    } else if n > 0 {
      WorstsAscend(worst, n - 1, n - 1);
    }
  }

  ghost predicate WithinBound(s: Settings, period: Period, worst: real, cap: nat, trades: seq<L.Trade>)
    requires Guarded(LimitsOf(s, period), worst) && cap >= 1
  {
    forall t: int :: Pnl(trades, s.strategy, period, t) >= -OverlapBound(LimitsOf(s, period), worst, cap)
  }

  /** While positions are in flight, their worst closes together still fit the current window. */
  ghost predicate Inv(s: Settings, period: Period, worst: real, cap: nat, st: State)
    requires Guarded(LimitsOf(s, period), worst) && cap >= 1
  {
    && st.inFlight <= cap
    && RecordedBy(st.trades, s.strategy, st.now)
    && WithinBound(s, period, worst, cap, st.trades)
    && (st.inFlight > 0 ==>
          && worst <= Bound(LimitsOf(s, period), worst)
          && Pnl(st.trades, s.strategy, period, st.now) - Worsts(worst, st.inFlight)
             >= -OverlapBound(LimitsOf(s, period), worst, cap))
  }

  lemma PnlOfOneMore(trades: seq<L.Trade>, row: L.Trade, strategy: string, period: Period, t: int)
    ensures Pnl(trades + [row], strategy, period, t)
            == Pnl(trades, strategy, period, t) + if Counts(row, strategy, period, t) then row.profit else 0.0
  {
    assert (trades + [row])[..|trades|] == trades;
  }

  lemma WaitKeepsInv(s: Settings, period: Period, worst: real, cap: nat, st: State, until: int)
    requires Guarded(LimitsOf(s, period), worst) && cap >= 1 && Inv(s, period, worst, cap, st) && until >= st.now
    ensures Inv(s, period, worst, cap, st.(now := until))
  {
    hide WindowStart, WindowEnd, Bound;
    WindowsAgree(period, until, st.now);
    WindowsAgree(period, until, until);
    WorstsAscend(worst, st.inFlight, cap);
    if InWindow(period, until, st.now) {
      SameWindowSamePnl(st.trades, s.strategy, period, until, st.now);
    } else {
      LaterWindowIsEmpty(st.trades, s.strategy, period, st.now, until);
    }
  }

  lemma GrantKeepsInv(s: Settings, period: Period, worst: real, cap: nat, st: State)
    requires Guarded(LimitsOf(s, period), worst) && cap >= 1 && Inv(s, period, worst, cap, st)
    requires Enabled(s, worst, cap, st, Grant)
    ensures Inv(s, period, worst, cap, Apply(st, Grant))
  {
    hide Pnl, Bound, CheckSlGuard;
    GuardLeavesRoom(LimitsOf(s, period), Pnl(st.trades, s.strategy, period, st.now), period, worst);
    WorstsAscend(worst, st.inFlight, cap - 1);
  }

  lemma SettleKeepsInv(s: Settings, period: Period, worst: real, cap: nat, st: State, row: L.Trade)
    requires Guarded(LimitsOf(s, period), worst) && cap >= 1 && Inv(s, period, worst, cap, st)
    requires Enabled(s, worst, cap, st, Settle(row))
    ensures Inv(s, period, worst, cap, Apply(st, Settle(row)))
  {
    hide InWindow, Bound, OverlapBound, LossPermits;
    WorstsAscend(worst, 0, st.inFlight - 1);
    forall t: int
      ensures Pnl(st.trades + [row], s.strategy, period, t) >= -OverlapBound(LimitsOf(s, period), worst, cap)
    {
      PnlOfOneMore(st.trades, row, s.strategy, period, t);
      if InWindow(period, t, st.now) {
        SameWindowSamePnl(st.trades, s.strategy, period, t, st.now);
      }
    }
    PnlOfOneMore(st.trades, row, s.strategy, period, st.now);
  }

  lemma ForeignKeepsInv(s: Settings, period: Period, worst: real, cap: nat, st: State, row: L.Trade)
    requires Guarded(LimitsOf(s, period), worst) && cap >= 1 && Inv(s, period, worst, cap, st)
    requires !row.closed || row.strategy != s.strategy
    ensures Inv(s, period, worst, cap, Apply(st, Foreign(row)))
  {
    hide Bound, OverlapBound, InWindow;
    forall t: int
      ensures Pnl(st.trades + [row], s.strategy, period, t) == Pnl(st.trades, s.strategy, period, t)
    {
      PnlOfOneMore(st.trades, row, s.strategy, period, t);
    }
  }

  lemma StepKeepsInv(s: Settings, period: Period, worst: real, cap: nat, st: State, e: Event)
    requires Guarded(LimitsOf(s, period), worst) && cap >= 1 && Inv(s, period, worst, cap, st)
    requires Enabled(s, worst, cap, st, e)
    ensures Inv(s, period, worst, cap, Apply(st, e))
  {
    hide Pnl, Bound, CheckSlGuard, Inv;
    match e
    case Wait(until) => WaitKeepsInv(s, period, worst, cap, st, until);
    case Grant => GrantKeepsInv(s, period, worst, cap, st);
    case Settle(row) => SettleKeepsInv(s, period, worst, cap, st, row);
    case Foreign(row) => ForeignKeepsInv(s, period, worst, cap, st, row);
  }

  lemma {:induction false} RunKeepsInv(s: Settings, period: Period, worst: real, cap: nat, st: State, events: seq<Event>)
    requires Guarded(LimitsOf(s, period), worst) && cap >= 1 && Inv(s, period, worst, cap, st)
    requires Possible(s, worst, cap, st, events)
    ensures Inv(s, period, worst, cap, Run(st, events))
  {
    hide Inv, Enabled, Apply;
    if |events| > 0 {
      var front := events[..|events| - 1];
      RunKeepsInv(s, period, worst, cap, st, front);
      StepKeepsInv(s, period, worst, cap, Run(st, front), events[|events| - 1]);
    }
  }

  /** With up to `cap` positions at a time, no UTC day or week of the strategy realizes a loss beyond limit
      plus tolerance plus cap - 1 worst closes, whenever positions carry over a boundary. */
  lemma OverlapStaysWithin(s: Settings, period: Period, worst: real, cap: nat, start: int, events: seq<Event>, t: int)
    requires Guarded(LimitsOf(s, period), worst) && cap >= 1 && Possible(s, worst, cap, State(start, [], 0), events)
    ensures LossOf(Pnl(Run(State(start, [], 0), events).trades, s.strategy, period, t))
            <= OverlapBound(LimitsOf(s, period), worst, cap)
  {
    hide Run, Possible;
    var st := State(start, [], 0);
    WorstsAscend(worst, 0, cap - 1);
    assert Inv(s, period, worst, cap, st);
    RunKeepsInv(s, period, worst, cap, st, events);
  }

  /** Loss-limit safety over whole periods: one position at a time, whatever happens and whenever positions
      carry over a boundary, no UTC day or week realizes a loss beyond limit plus tolerance. */
  lemma NoWindowExceedsItsLimit(s: Settings, period: Period, worst: real, start: int, events: seq<Event>, t: int)
    requires Guarded(LimitsOf(s, period), worst) && Possible(s, worst, 1, State(start, [], 0), events)
    ensures LossOf(Pnl(Run(State(start, [], 0), events).trades, s.strategy, period, t))
            <= Bound(LimitsOf(s, period), worst)
  {
    hide Run, Possible, Bound;
    OverlapStaysWithin(s, period, worst, 1, start, events, t);
  }

  // ---------- the overlap bound is reached ----------

  /** So many grants, then so many of the positions settle with the given row. */
  function Overlapping(row: L.Trade, granted: nat, settled: nat): seq<Event> {
    if settled > 0 then Overlapping(row, granted, settled - 1) + [Settle(row)]
    else if granted > 0 then Overlapping(row, granted - 1, 0) + [Grant]
    else []
  }

  function Copies(row: L.Trade, n: nat): seq<L.Trade> { if n == 0 then [] else Copies(row, n - 1) + [row] }

  lemma {:induction false} LossOfCopies(row: L.Trade, strategy: string, now: int, n: nat)
    requires Counts(row, strategy, Daily, now)
    ensures Pnl(Copies(row, n), strategy, Daily, now) == -Worsts(-row.profit, n)
  {
    if n > 0 {
      LossOfCopies(row, strategy, now, n - 1);
      PnlOfOneMore(Copies(row, n - 1), row, strategy, Daily, now);
    }
  }

  lemma {:induction false} OverlappingRuns(s: Settings, worst: real, cap: nat, now: int, row: L.Trade, granted: nat, settled: nat)
    requires settled <= granted <= cap && LossPermits(s, [], now)
    requires row.closed && row.strategy == s.strategy && row.exitTime == Some(now) && row.profit >= -worst
    ensures Possible(s, worst, cap, State(now, [], 0), Overlapping(row, granted, settled))
    ensures Run(State(now, [], 0), Overlapping(row, granted, settled)) == State(now, Copies(row, settled), granted - settled)
    decreases granted + settled
  {
    hide LossPermits;
    if settled > 0 {
      OverlappingRuns(s, worst, cap, now, row, granted, settled - 1);
      var front := Overlapping(row, granted, settled - 1);
      assert (front + [Settle(row)])[..|front|] == front;
    } else if granted > 0 {
      OverlappingRuns(s, worst, cap, now, row, granted - 1, 0);
      var front := Overlapping(row, granted - 1, 0);
      assert (front + [Grant])[..|front|] == front;
    }
  }

  /** For every cap the overlap bound is reached: with a daily limit of one worst close, `cap` positions
      granted before any settles lose `cap` worst closes in one day. */
  lemma OverlapBoundIsReached(s: Settings, worst: real, cap: nat, now: int, row: L.Trade)
    requires cap >= 1 && worst > 0.0 && s.daily == Limits(Some(worst), Some(worst), Some(0.0)) && s.weekly.limit.None?
    requires row.closed && row.strategy == s.strategy && row.exitTime == Some(now) && row.profit == -worst
    ensures Guarded(s.daily, worst) && Possible(s, worst, cap, State(now, [], 0), Overlapping(row, cap, cap))
    ensures LossOf(Pnl(Run(State(now, [], 0), Overlapping(row, cap, cap)).trades, s.strategy, Daily, now))
            == OverlapBound(s.daily, worst, cap)
  {
    hide Possible, Run;
    OverlappingRuns(s, worst, cap, now, row, cap, cap);
    WindowsAgree(Daily, now, now);
    LossOfCopies(row, s.strategy, now, cap);
    WorstsAscend(worst, 0, cap - 1);
  }
}
