/** The replay's schedule told from outside, for any two frames: which execution bars belong to a candle,
    which bar fills its signal, and which bar carries its time exit. */
module ScheduleLaw {
  import opened Market
  import opened Backtester
  import opened Replay
  import opened RunStory

  // ---------- the bars of a candle ----------

  ghost predicate Ascending(times: seq<int>) { forall i, j | 0 <= i < j < |times| :: times[i] <= times[j] }

  /** Exactly the bars of the execution frame before index x start before time t. */
  ghost predicate SplitsAt(times: seq<int>, x: nat, t: int) {
    x <= |times| && forall i | 0 <= i < |times| :: times[i] < t <==> i < x
  }

  /** The end of candle k: the next candle's start, or one interval after the last one's. */
  predicate EndsAt(times: seq<int>, k: nat, t: int)
    requires k < |times|
  {
    if k + 1 < |times| then t == times[k + 1] else t == times[k] + MinPositiveGap(times)
  }

  lemma {:induction false} NeighboursAscend(times: seq<int>)
    requires NonDecreasing(times)
    ensures Ascending(times)
  {
    if |times| > 0 {
      var front := times[..|times| - 1];
      NeighboursAscend(front);
      forall i, j | 0 <= i < j < |times|
        ensures times[i] <= times[j]
      {
        assert i < |front| && times[i] == front[i];
        assert j < |front| ==> times[j] == front[j];
        assert j == |front| && j - 1 > i ==> front[i] <= front[j - 1];
      }
    }
  }

  lemma LowerBoundSplits(times: seq<int>, t: int)
    requires Ascending(times)
    ensures SplitsAt(times, LowerBoundFrom(times, t, 0), t)
  {}

  /** The mapping is refused exactly for falling times or fewer than two distinct candle times; a candle's
      range holds exactly the execution bars from its start to its end. */
  lemma RangesHoldTheirBars(signalTimes: seq<int>, execTimes: seq<int>)
    ensures var r := ReplayBarRanges(signalTimes, execTimes);
            && (r.Success? <==> Ascending(signalTimes) && Ascending(execTimes)
                                && exists k | 0 < k < |signalTimes| :: Distance(signalTimes, k) > 0)
            && (r.Success? ==>
                  forall k | 0 <= k < |signalTimes| ::
                    && SplitsAt(execTimes, r.value[k].start, signalTimes[k])
                    && exists t :: EndsAt(signalTimes, k, t) && SplitsAt(execTimes, r.value[k].end, t))
  {
    hide MinPositiveGap, LowerBoundFrom;
    GapIsSmallest(signalTimes);
    NeighboursAscendIff(signalTimes);
    NeighboursAscendIff(execTimes);
    var r := ReplayBarRanges(signalTimes, execTimes);
    if r.Success? {
      forall k | 0 <= k < |signalTimes|
        ensures SplitsAt(execTimes, r.value[k].start, signalTimes[k])
        ensures exists t :: EndsAt(signalTimes, k, t) && SplitsAt(execTimes, r.value[k].end, t)
      {
        LowerBoundSplits(execTimes, Boundary(signalTimes, k));
        LowerBoundSplits(execTimes, Boundary(signalTimes, k + 1));
        assert EndsAt(signalTimes, k, Boundary(signalTimes, k + 1));
      }
    }
  }

  lemma NeighboursAscendIff(times: seq<int>)
    ensures NonDecreasing(times) <==> Ascending(times)
  {
    if NonDecreasing(times) {
      NeighboursAscend(times);
    }
  }

  // ---------- the history a signal asks for ----------

  /** From the first bar at or after the start on, the bars stand at start, start + interval, ... up to, not
      including, the end. */
  ghost predicate WindowHeld(times: seq<int>, start: int, end: int, interval: int) {
    exists first: nat ::
      && first <= |times| && (forall i | 0 <= i < first :: times[i] < start) && (first < |times| ==> times[first] >= start)
      && forall k: nat | start + k * interval < end :: first + k < |times| && times[first + k] == start + k * interval
  }

  predicate BadWindow(signal: Signal, interval: int) {
    && (signal.historyStart.Some? || signal.historyEnd.Some?)
    && (signal.historyStart.None? || signal.historyEnd.None? || signal.historyEnd.value <= signal.historyStart.value || interval <= 0)
  }

  ghost predicate HistoryHeld(signal: Signal, times: seq<int>, interval: int) {
    signal.historyStart.Some? && signal.historyEnd.Some? ==>
      WindowHeld(times, signal.historyStart.value, signal.historyEnd.value, interval)
  }

  lemma StepsBelow(start: int, end: int, interval: int, k: nat)
    requires start < end && interval > 0
    ensures k < ExpectedBars(start, end, interval) <==> start + k * interval < end
  {
    var n := ExpectedBars(start, end, interval);
    CeilingBounds(end - start, interval);
    hide ExpectedBars;
    if k < n {
      StepsOrder(k, n - 1, interval);
    } else {
      StepsOrder(n, k, interval);
    }
  }

  lemma CeilingBounds(span: int, interval: int)
    requires span > 0 && interval > 0
    ensures var n := (span + interval - 1) / interval; n >= 1 && n * interval >= span > (n - 1) * interval
  {
    var u := span + interval - 1;
    var n := u / interval;
    assert u == n * interval + u % interval;
  }

  lemma StepsOrder(a: int, b: int, interval: int)
    requires a <= b && interval > 0
    ensures a * interval <= b * interval
  {}

  lemma HistoryIsAsAsked(signal: Signal, times: seq<int>, interval: int)
    ensures var r := HistoryIsComplete(signal, times, interval);
            && (r.Failure? <==> BadWindow(signal, interval))
            && (r.Success? ==> r.value == HistoryHeld(signal, times, interval))
  {
    hide LowerBoundFrom, ExpectedBars;
    if !BadWindow(signal, interval) && signal.historyStart.Some? {
      WindowIsAsAsked(times, signal.historyStart.value, signal.historyEnd.value, interval);
    }
  }

  lemma WindowIsAsAsked(times: seq<int>, start: int, end: int, interval: int)
    requires start < end && interval > 0
    ensures WindowPresent(times, start, ExpectedBars(start, end, interval), interval) <==> WindowHeld(times, start, end, interval)
  {
    hide ExpectedBars;
    var n := ExpectedBars(start, end, interval);
    forall k: nat
      ensures k < n <==> start + k * interval < end
    {
      StepsBelow(start, end, interval, k);
    }
    var first := LowerBoundFrom(times, start, 0);
    if WindowHeld(times, start, end, interval) {
      var f: nat :| f <= |times| && (forall i | 0 <= i < f :: times[i] < start) && (f < |times| ==> times[f] >= start)
        && forall k: nat | start + k * interval < end :: f + k < |times| && times[f + k] == start + k * interval;
      assert f == first;
      assert start + 0 * interval < end;
      assert n > 0 ==> start + (n - 1) * interval < end;
    }
  }

  // ---------- which bar fills a signal ----------

  /** The bar trades at the price the trigger waits for. */
  predicate Reaches(trigger: Trigger, price: real, b: Bar) {
    if trigger.PriceAtOrAbove? then price <= b.high
    else if trigger.PriceAtOrBelow? then b.low <= price
    else trigger.PriceTouched? && b.low <= price <= b.high
  }

  /** A weekly candle that starts on a weekend may be filled on a Sunday or Monday, up to three days late. */
  predicate LateWeekOpen(expected: int, actual: int, signalGap: int) {
    && signalGap >= 6 * DAY && expected < actual <= expected + 3 * DAY
    && ((expected / DAY) % 7 == 2 || (expected / DAY) % 7 == 3)
    && ((actual / DAY) % 7 == 3 || (actual / DAY) % 7 == 4)
  }

  function TargetCandle(cfg: Config, n: nat): nat { if cfg.mode.OpenBar? then n else n + 1 }

  /** Candle n's signal may be filled from this bar of its target candle on. */
  predicate FillWindow(f: Frames, cfg: Config, n: nat, lo: nat, hi: nat)
    requires |f.ranges| == |f.signal|
  {
    && TargetCandle(cfg, n) < |f.signal|
    && lo == f.ranges[TargetCandle(cfg, n)].start + f.entryOffset && hi == f.ranges[TargetCandle(cfg, n)].end && lo < hi
  }

  /** Bar b of the execution frame fills the signal of candle n: in bar-close mode the first bar of the
      window, if it stands where it is expected, in trigger mode the first one that reaches the entry. */
  ghost predicate FillsOn(f: Frames, cfg: Config, n: nat, signal: Signal, b: nat)
    requires ValidFrames(f) && n < |f.signal|
  {
    exists lo: nat, hi: nat ::
      && FillWindow(f, cfg, n, lo, hi) && lo <= b < hi
      && if cfg.mode.NextBar? then b == lo && OnTime(f, cfg, n, b)
         else Reaches(signal.trigger, signal.entry, f.exec[b]) && forall k | lo <= k < b :: !Reaches(signal.trigger, signal.entry, f.exec[k])
  }

  predicate OnTime(f: Frames, cfg: Config, n: nat, b: nat)
    requires |f.ranges| == |f.signal| && TargetCandle(cfg, n) < |f.signal| && b < |f.exec|
  {
    var expected := f.signal[TargetCandle(cfg, n)].time + f.entryOffset * MinPositiveGap(TimesOf(f.exec));
    f.exec[b].time == expected || LateWeekOpen(expected, f.exec[b].time, MinPositiveGap(TimesOf(f.signal)))
  }

  lemma ReachesIsTouches(trigger: Trigger, price: real, b: Bar)
    ensures Touches(trigger, price, b) <==> Reaches(trigger, price, b)
  {}

  lemma LateOpenIsDelay(expected: int, actual: int, signalGap: int)
    ensures WeeklyOpenDelay(expected, actual, signalGap) <==> LateWeekOpen(expected, actual, signalGap)
  {
    Turn(expected / DAY);
    Turn(actual / DAY);
  }

  lemma Turn(day: int)
    ensures (day + 3) % 7 >= 5 <==> day % 7 == 2 || day % 7 == 3
    ensures (day + 3) % 7 == 6 <==> day % 7 == 3
    ensures (day + 3) % 7 == 0 <==> day % 7 == 4
  {}

  // ---------- the whole schedule ----------

  /** Candle n, from the warm-up on, has a signal whose declared history is there. */
  ghost predicate Ready(f: Frames, cfg: Config, s: Strategy, n: nat) {
    && n < |f.signal| && cfg.warmupBars <= n && s.onBar(f.signal, n).Some?
    && HistoryHeld(s.onBar(f.signal, n).value, TimesOf(f.exec), MinPositiveGap(TimesOf(f.exec)))
  }

  /** Candle n sends an order to bar b. */
  ghost predicate Sends(f: Frames, cfg: Config, s: Strategy, n: nat, b: nat)
    requires ValidFrames(f)
  {
    Ready(f, cfg, s, n) && FillsOn(f, cfg, n, s.onBar(f.signal, n).value, b)
  }

  function OrderOf(f: Frames, cfg: Config, s: Strategy, n: nat): ReplayOrder
    requires n < |f.signal| && s.onBar(f.signal, n).Some?
  {
    ReplayOrder(s.onBar(f.signal, n).value, f.signal[n].time, TargetCandle(cfg, n),
                if cfg.mode.OpenBar? then SameBarTrigger else NextBarOpen)
  }

  /** The orders that the candles below hi send to bar b, in the order of their candles. */
  ghost function SentTo(f: Frames, cfg: Config, s: Strategy, hi: nat, b: nat): seq<ReplayOrder>
    requires ValidFrames(f) && hi <= |f.signal|
  {
    if hi == 0 then []
    else SentTo(f, cfg, s, hi - 1, b) + if Sends(f, cfg, s, hi - 1, b) then [OrderOf(f, cfg, s, hi - 1)] else []
  }

  /** Bar b closes candle n for the time exit: so many bars before the candle's last, which another candle
      must follow. */
  predicate ExitsOn(f: Frames, cfg: Config, n: nat, b: nat)
    requires |f.ranges| == |f.signal|
  {
    && cfg.warmupBars <= n && n + 1 < |f.signal| && f.ranges[n].end == b + 1 + f.exitOffset && f.ranges[n].start <= b
  }

  /** The latest of these candles below hi. */
  ghost predicate LastExit(f: Frames, cfg: Config, hi: nat, b: nat, n: nat)
    requires |f.ranges| == |f.signal|
  {
    n < hi && ExitsOn(f, cfg, n, b) && forall m: nat | n < m < hi :: !ExitsOn(f, cfg, m, b)
  }

  /** A candle whose signal ends the replay with an error: a bad history window, or in trigger mode an
      unknown trigger once there is a bar to search. */
  ghost predicate Breaks(f: Frames, cfg: Config, s: Strategy, n: nat)
    requires |f.ranges| == |f.signal|
  {
    && n < |f.signal| && cfg.warmupBars <= n && s.onBar(f.signal, n).Some?
    && var signal := s.onBar(f.signal, n).value;
       || BadWindow(signal, MinPositiveGap(TimesOf(f.exec)))
       || (cfg.mode.OpenBar? && signal.trigger.UnsupportedTrigger? && Ready(f, cfg, s, n)
           && exists lo: nat, hi: nat :: FillWindow(f, cfg, n, lo, hi))
  }

  /** The first hi candles that signal without the history they declare. */
  ghost function WithoutHistory(f: Frames, cfg: Config, s: Strategy, hi: nat): nat
    requires hi <= |f.signal|
  {
    if hi == 0 then 0
    else
      WithoutHistory(f, cfg, s, hi - 1)
      + if cfg.warmupBars <= hi - 1 && s.onBar(f.signal, hi - 1).Some? && !Ready(f, cfg, s, hi - 1) then 1 else 0
  }

  /** Bar-close mode: the window of a ready candle begins with a bar that is not on time. */
  ghost predicate Late(f: Frames, cfg: Config, s: Strategy, n: nat)
    requires ValidFrames(f)
  {
    Ready(f, cfg, s, n) && IsLate(f, cfg, n)
  }

  ghost predicate IsLate(f: Frames, cfg: Config, n: nat)
    requires ValidFrames(f)
  {
    cfg.mode.NextBar? && exists lo: nat, hi: nat :: FillWindow(f, cfg, n, lo, hi) && !OnTime(f, cfg, n, lo)
  }

  ghost function LateCandles(f: Frames, cfg: Config, s: Strategy, hi: nat): nat
    requires ValidFrames(f) && hi <= |f.signal|
  {
    if hi == 0 then 0 else LateCandles(f, cfg, s, hi - 1) + if Late(f, cfg, s, hi - 1) then 1 else 0
  }

  ghost predicate PlanAsTold(f: Frames, cfg: Config, s: Strategy, hi: nat, plan: Plan)
    requires ValidFrames(f) && hi <= |f.signal|
  {
    && (forall b: nat :: OrdersAt(plan, b) == SentTo(f, cfg, s, hi, b))
    && (forall b: nat :: b in plan.exitBars <==> exists n: nat :: LastExit(f, cfg, hi, b, n))
    && (forall b: nat | b in plan.exitBars :: LastExit(f, cfg, hi, b, plan.exitBars[b]))
    && plan.skippedHistory == WithoutHistory(f, cfg, s, hi) && plan.skippedEntry == LateCandles(f, cfg, s, hi)
  }

  lemma PlaceIsAsTold(f: Frames, cfg: Config, n: nat, signal: Signal, plan: Plan)
    requires ValidFrames(f) && n < |f.signal|
    ensures var r := PlaceSignal(f, cfg, n, signal, plan);
            && (r.Failure? <==> cfg.mode.OpenBar? && signal.trigger.UnsupportedTrigger? && exists lo: nat, hi: nat :: FillWindow(f, cfg, n, lo, hi))
            && (r.Success? ==>
                  && r.value.exitBars == plan.exitBars && r.value.skippedHistory == plan.skippedHistory
                  && r.value.skippedEntry == plan.skippedEntry + (if IsLate(f, cfg, n) then 1 else 0)
                  && forall b: nat :: OrdersAt(r.value, b)
                       == OrdersAt(plan, b) + if FillsOn(f, cfg, n, signal, b)
                            then [ReplayOrder(signal, f.signal[n].time, TargetCandle(cfg, n), if cfg.mode.OpenBar? then SameBarTrigger else NextBarOpen)]
                            else [])
  {
    hide MinPositiveGap, TimesOf, WeeklyOpenDelay, LateWeekOpen, Touches, Reaches;
    var target := TargetCandle(cfg, n);
    if target < |f.signal| {
      var lo, hi := f.ranges[target].start + f.entryOffset, f.ranges[target].end;
      if lo < hi {
        assert FillWindow(f, cfg, n, lo, hi);
        forall k | lo <= k < hi
          ensures Touches(signal.trigger, signal.entry, f.exec[k]) <==> Reaches(signal.trigger, signal.entry, f.exec[k])
        {
          ReachesIsTouches(signal.trigger, signal.entry, f.exec[k]);
        }
        LateOpenIsDelay(f.signal[target].time + f.entryOffset * MinPositiveGap(TimesOf(f.exec)), f.exec[lo].time,
                        MinPositiveGap(TimesOf(f.signal)));
        FillBarIsUnique(f, cfg, n, signal, lo, hi);
      }
    }
  }

  /** Within its window a signal has at most one fill bar. */
  lemma FillBarIsUnique(f: Frames, cfg: Config, n: nat, signal: Signal, lo: nat, hi: nat)
    requires ValidFrames(f) && n < |f.signal| && FillWindow(f, cfg, n, lo, hi)
    ensures forall b: nat :: FillsOn(f, cfg, n, signal, b) <==>
              && lo <= b < hi
              && if cfg.mode.NextBar? then b == lo && OnTime(f, cfg, n, b)
                 else Reaches(signal.trigger, signal.entry, f.exec[b]) && forall k | lo <= k < b :: !Reaches(signal.trigger, signal.entry, f.exec[k])
  {
    hide Reaches, OnTime;
  }

  lemma ExitIsNoted(f: Frames, cfg: Config, s: Strategy, n: nat, next: nat, plan: Plan)
    requires ValidFrames(f) && n < |f.signal| && next == n + 1 && cfg.warmupBars <= n && PlanAsTold(f, cfg, s, n, plan)
    ensures var noted := NoteExit(f, n, plan);
            && (forall b: nat :: OrdersAt(noted, b) == OrdersAt(plan, b))
            && noted.skippedHistory == plan.skippedHistory && noted.skippedEntry == plan.skippedEntry
            && (forall b: nat :: b in noted.exitBars <==> exists m: nat :: LastExit(f, cfg, next, b, m))
            && (forall b: nat | b in noted.exitBars :: LastExit(f, cfg, next, b, noted.exitBars[b]))
  {
    hide SentTo;
    var noted := NoteExit(f, n, plan);
    forall b: nat
      ensures b in noted.exitBars <==> exists m: nat :: LastExit(f, cfg, next, b, m)
      ensures b in noted.exitBars ==> LastExit(f, cfg, next, b, noted.exitBars[b])
    {
      if ExitsOn(f, cfg, n, b) {
        assert LastExit(f, cfg, next, b, n);
        assert noted.exitBars[b] == n;
      } else {
        forall m: nat
          ensures LastExit(f, cfg, next, b, m) <==> LastExit(f, cfg, n, b, m)
        {}
        assert b in noted.exitBars <==> b in plan.exitBars;
      }
    }
  }

  lemma SkipsAside(plan: Plan)
    ensures var skipped := plan.(skippedHistory := plan.skippedHistory + 1);
            skipped.exitBars == plan.exitBars && forall b: nat :: OrdersAt(skipped, b) == OrdersAt(plan, b)
  {}

  lemma PlanOneIsTold(f: Frames, cfg: Config, s: Strategy, n: nat, next: nat, plan: Plan)
    requires ValidFrames(f) && n < |f.signal| && next == n + 1 && cfg.warmupBars <= n && PlanAsTold(f, cfg, s, n, plan)
    ensures var r := PlanOne(f, cfg, s, n, plan);
            && (r.Failure? <==> Breaks(f, cfg, s, n))
            && (r.Success? ==> PlanAsTold(f, cfg, s, next, r.value))
  {
    hide PlaceSignal, NoteExit, FillsOn, HistoryHeld, HistoryIsComplete, LastExit, OrdersAt, MinPositiveGap, TimesOf, BadWindow, IsLate;
    ExitIsNoted(f, cfg, s, n, next, plan);
    var noted := NoteExit(f, n, plan);
    var signal := s.onBar(f.signal, n);
    if signal.Some? {
      HistoryIsAsAsked(signal.value, TimesOf(f.exec), MinPositiveGap(TimesOf(f.exec)));
      PlaceIsAsTold(f, cfg, n, signal.value, noted);
    }
    var r := PlanOne(f, cfg, s, n, plan);
    SkipsAside(noted);
    if r.Success? {
      forall b: nat
        ensures OrdersAt(r.value, b) == SentTo(f, cfg, s, next, b)
      {
        assert OrdersAt(noted, b) == SentTo(f, cfg, s, n, b);
      }
    }
  }

  /** Nothing is scheduled before the warm-up. */
  lemma {:induction false} NothingSent(f: Frames, cfg: Config, s: Strategy, hi: nat, b: nat)
    requires ValidFrames(f) && hi <= |f.signal| && (hi == 0 || hi <= cfg.warmupBars)
    ensures SentTo(f, cfg, s, hi, b) == []
  {
    if hi > 0 {
      NothingSent(f, cfg, s, hi - 1, b);
    }
  }

  /** The schedule is as told: each execution bar receives exactly the orders of the candles whose signals it
      fills, in candle order, and the time exit of the last candle it closes; it fails exactly when some
      candle's signal is broken. */
  lemma {:induction false} PlanIsTold(f: Frames, cfg: Config, s: Strategy, hi: nat)
    requires ValidFrames(f) && hi <= |f.signal|
    ensures var r := PlanUpTo(f, cfg, s, hi);
            && (r.Failure? <==> exists n: nat | n < hi :: Breaks(f, cfg, s, n))
            && (r.Success? ==> PlanAsTold(f, cfg, s, hi, r.value))
  {
    hide PlanOne, Breaks;
    if hi == 0 || hi <= cfg.warmupBars {
      forall b: nat
        ensures SentTo(f, cfg, s, hi, b) == []
      {
        NothingSent(f, cfg, s, hi, b);
      }
      NothingSkipped(f, cfg, s, hi);
      NothingBreaks(f, cfg, s, hi);
    } else {
      hide PlanAsTold;
      PlanIsTold(f, cfg, s, hi - 1);
      var before := PlanUpTo(f, cfg, s, hi - 1);
      if before.Success? {
        PlanOneIsTold(f, cfg, s, hi - 1, hi, before.value);
      }
    }
  }

  lemma {:induction false} NothingSkipped(f: Frames, cfg: Config, s: Strategy, hi: nat)
    requires ValidFrames(f) && hi <= |f.signal| && (hi == 0 || hi <= cfg.warmupBars)
    ensures WithoutHistory(f, cfg, s, hi) == 0 && LateCandles(f, cfg, s, hi) == 0
  {
    if hi > 0 {
      NothingSkipped(f, cfg, s, hi - 1);
    }
  }

  lemma NothingBreaks(f: Frames, cfg: Config, s: Strategy, hi: nat)
    requires ValidFrames(f) && (hi == 0 || hi <= cfg.warmupBars)
    ensures forall n: nat | n < hi :: !Breaks(f, cfg, s, n)
  {}
}
