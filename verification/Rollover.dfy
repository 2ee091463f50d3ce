/** Overnight rollovers charged to a position, counted day by day as the cost model does, in a local
    calendar whose days may have any positive length. Times are absolute seconds. */
module Rollover {
  import opened Market

  /** The local calendar: the instant of each local midnight, and the local day that holds an instant.
      The timezone tables behind it are a parameter; days of 23 or 25 hours are allowed. */
  datatype Zone = Zone(midnight: int -> int, day: int -> int)

  ghost predicate ValidZone(z: Zone) {
    && (forall d: int, e: int | d < e :: z.midnight(d) < z.midnight(e))
    && (forall t: int :: z.midnight(z.day(t)) <= t < z.midnight(z.day(t) + 1))
  }

  /** Seconds from local midnight to the rollover, and the weekday that is charged three times. */
  datatype Schedule = Schedule(second: int, tripleWeekday: int)

  predicate ValidSchedule(s: Schedule) { 0 <= s.second < DAY && 0 <= s.tripleWeekday < 7 }

  /** Monday is 0. */
  function DayWeekday(day: int): int { (day + 3) % 7 }

  predicate IsWorkday(day: int) { DayWeekday(day) <= 4 }

  function RolloverAt(z: Zone, s: Schedule, day: int): int { z.midnight(day) + s.second }

  function Weight(s: Schedule, day: int): nat {
    if !IsWorkday(day) then 0 else if DayWeekday(day) == s.tripleWeekday then 3 else 1
  }

  /** What one day contributes to a span that is open at the left. */
  function DayUnits(z: Zone, s: Schedule, day: int, openTime: int, closeTime: int): nat {
    if openTime < RolloverAt(z, s, day) <= closeTime then Weight(s, day) else 0
  }

  /** The contributions of the days a, ..., b - 1. */
  function SumUnits(z: Zone, s: Schedule, a: int, b: int, openTime: int, closeTime: int): nat
    decreases b - a
  {
    if b <= a then 0 else SumUnits(z, s, a, b - 1, openTime, closeTime) + DayUnits(z, s, b - 1, openTime, closeTime)
  }

  /** Units of a span: the days from the opening to the closing one are looked at. */
  function SpanUnits(z: Zone, s: Schedule, openTime: int, closeTime: int): nat {
    SumUnits(z, s, z.day(openTime), z.day(closeTime) + 1, openTime, closeTime)
  }

  method RolloverUnits(z: Zone, s: Schedule, openTime: int, closeTime: int) returns (total: nat)
    ensures total == SpanUnits(z, s, openTime, closeTime)
  {
    total := 0;
    var first, last := z.day(openTime), z.day(closeTime);
    var day := first;
    while day <= last
      invariant first <= day && (day <= last + 1 || day == first)
      invariant total == SumUnits(z, s, first, day, openTime, closeTime)
    {
      var rollover := RolloverAt(z, s, day);
      if openTime < rollover <= closeTime && DayWeekday(day) <= 4 {
        total := total + if DayWeekday(day) == s.tripleWeekday then 3 else 1;
      }
      day := day + 1;
    }
  }

  /** The epoch began on a Thursday, and weekdays follow each other; Saturdays and Sundays are free, the
      triple day counts three times and every other workday once. */
  lemma WeekdaysFollow(s: Schedule, day: int)
    ensures DayWeekday(0) == 3 && DayWeekday(day + 1) == (if DayWeekday(day) == 6 then 0 else DayWeekday(day) + 1)
    ensures Weight(s, day) == (if DayWeekday(day) == 5 || DayWeekday(day) == 6 then 0
                               else if DayWeekday(day) == s.tripleWeekday then 3 else 1)
  {}

  // ---------- which days matter ----------

  lemma {:induction false} SumSplits(z: Zone, s: Schedule, a: int, m: int, b: int, openTime: int, closeTime: int)
    requires a <= m <= b
    ensures SumUnits(z, s, a, b, openTime, closeTime)
            == SumUnits(z, s, a, m, openTime, closeTime) + SumUnits(z, s, m, b, openTime, closeTime)
    decreases b - m
  {
    if m < b {
      SumSplits(z, s, a, m, b - 1, openTime, closeTime);
    }
  }

  lemma {:induction false} SilentDays(z: Zone, s: Schedule, a: int, b: int, openTime: int, closeTime: int)
    requires forall d | a <= d < b :: DayUnits(z, s, d, openTime, closeTime) == 0
    ensures SumUnits(z, s, a, b, openTime, closeTime) == 0
    decreases b - a
  {
    if a < b {
      SilentDays(z, s, a, b - 1, openTime, closeTime);
    }
  }

  /** Days after the closing day never count. */
  lemma LaterDaysAreSilent(z: Zone, s: Schedule, openTime: int, closeTime: int, b: int)
    requires ValidZone(z) && ValidSchedule(s)
    ensures SumUnits(z, s, z.day(closeTime) + 1, b, openTime, closeTime) == 0
  {
    var next := z.day(closeTime) + 1;
    forall d | next <= d < b
      ensures DayUnits(z, s, d, openTime, closeTime) == 0
    {
      assert next < d ==> z.midnight(next) < z.midnight(d);
    }
    SilentDays(z, s, next, b, openTime, closeTime);
  }

  lemma DaysAreOrdered(z: Zone, t: int, u: int)
    requires ValidZone(z) && t <= u
    ensures z.day(t) <= z.day(u)
  {
    assert z.day(u) + 1 < z.day(t) ==> z.midnight(z.day(u) + 1) < z.midnight(z.day(t));
  }

  // ---------- additivity, exactly ----------

  /** Day by day, a span counts what its two halves count. */
  lemma {:induction false} HalvesSum(z: Zone, s: Schedule, a: int, b: int, openTime: int, mid: int, closeTime: int)
    requires openTime <= mid <= closeTime
    ensures SumUnits(z, s, a, b, openTime, closeTime) == SumUnits(z, s, a, b, openTime, mid) + SumUnits(z, s, a, b, mid, closeTime)
    decreases b - a
  {
    hide Weight, RolloverAt;
    if a < b {
      HalvesSum(z, s, a, b - 1, openTime, mid, closeTime);
    }
  }

  /** Rollovers of days before the split that happen only after it: the second half, which starts
      looking at the day of the split, does not see them. */
  function Overlooked(z: Zone, s: Schedule, openTime: int, mid: int, closeTime: int): nat {
    SumUnits(z, s, z.day(openTime), z.day(mid), mid, closeTime)
  }

  lemma SplitLosesTheOverlooked(z: Zone, s: Schedule, openTime: int, mid: int, closeTime: int)
    requires ValidZone(z) && ValidSchedule(s) && openTime <= mid <= closeTime
    ensures SpanUnits(z, s, openTime, closeTime)
            == SpanUnits(z, s, openTime, mid) + SpanUnits(z, s, mid, closeTime) + Overlooked(z, s, openTime, mid, closeTime)
  {
    hide ValidZone, ValidSchedule;
    var a, m, b := z.day(openTime), z.day(mid), z.day(closeTime) + 1;
    DaysAreOrdered(z, openTime, mid);
    DaysAreOrdered(z, mid, closeTime);
    HalvesSum(z, s, a, b, openTime, mid, closeTime);
    SumSplits(z, s, a, m + 1, b, openTime, mid);
    LaterDaysAreSilent(z, s, openTime, mid, b);
    SumSplits(z, s, a, m, b, mid, closeTime);
  }

  /** Every workday's rollover happens by the end of that local day. */
  ghost predicate RollsWithinTheDay(z: Zone, s: Schedule) {
    forall d: int | IsWorkday(d) :: RolloverAt(z, s, d) <= z.midnight(d + 1)
  }

  ghost predicate Additive(z: Zone, s: Schedule, openTime: int, mid: int, closeTime: int) {
    SpanUnits(z, s, openTime, closeTime) == SpanUnits(z, s, openTime, mid) + SpanUnits(z, s, mid, closeTime)
  }

  /** A position held through `mid` is charged what its two halves would be charged. */
  lemma RolloverIsAdditive(z: Zone, s: Schedule, openTime: int, mid: int, closeTime: int)
    requires ValidZone(z) && ValidSchedule(s) && RollsWithinTheDay(z, s)
    requires openTime <= mid <= closeTime
    ensures SpanUnits(z, s, openTime, closeTime) == SpanUnits(z, s, openTime, mid) + SpanUnits(z, s, mid, closeTime)
  {
    hide SpanUnits;
    SplitLosesTheOverlooked(z, s, openTime, mid, closeTime);
    var m := z.day(mid);
    forall d | z.day(openTime) <= d < m
      ensures DayUnits(z, s, d, mid, closeTime) == 0
    {
      assert d + 1 < m ==> z.midnight(d + 1) < z.midnight(m);
    }
    SilentDays(z, s, z.day(openTime), m, mid, closeTime);
  }

  /** A workday whose rollover falls into the next day is lost by a split at its closing midnight. */
  lemma LateRolloverIsLost(z: Zone, s: Schedule, d: int)
    requires ValidZone(z) && ValidSchedule(s) && IsWorkday(d) && RolloverAt(z, s, d) > z.midnight(d + 1)
    ensures !Additive(z, s, z.midnight(d), z.midnight(d + 1), RolloverAt(z, s, d))
  {
    hide SpanUnits;
    var openTime, mid, closeTime := z.midnight(d), z.midnight(d + 1), RolloverAt(z, s, d);
    DayOfMidnight(z, d);
    DayOfMidnight(z, d + 1);
    SplitLosesTheOverlooked(z, s, openTime, mid, closeTime);
    assert SumUnits(z, s, d, d, mid, closeTime) == 0;
    assert Overlooked(z, s, openTime, mid, closeTime) == Weight(s, d);
  }

  lemma DayOfMidnight(z: Zone, d: int)
    requires ValidZone(z)
    ensures z.day(z.midnight(d)) == d
  {
    var e := z.day(z.midnight(d));
    assert d < e ==> z.midnight(d) < z.midnight(e);
    assert e + 1 < d ==> z.midnight(e + 1) < z.midnight(d);
  }

  /** Additivity holds for every span and split exactly when no workday is shorter than its rollover
      time; a 23-hour day still is unless the rollover comes after 23:00. */
  lemma AdditiveExactlyWhen(z: Zone, s: Schedule)
    requires ValidZone(z) && ValidSchedule(s)
    ensures (forall openTime, mid, closeTime | openTime <= mid <= closeTime :: Additive(z, s, openTime, mid, closeTime))
            <==> RollsWithinTheDay(z, s)
  {
    hide SpanUnits, ValidZone;
    if RollsWithinTheDay(z, s) {
      forall openTime, mid, closeTime | openTime <= mid <= closeTime
        ensures Additive(z, s, openTime, mid, closeTime)
      {
        RolloverIsAdditive(z, s, openTime, mid, closeTime);
      }
    } else {
      var d: int :| IsWorkday(d) && RolloverAt(z, s, d) > z.midnight(d + 1);
      LateRolloverIsLost(z, s, d);
      MidnightsAscend(z, d);
    }
  }

  /** UTC but for day e, which a clock change cuts to 23 hours. */
  function ShortDay(e: int): Zone {
    Zone(d => d * DAY - (if d > e then 3600 else 0), t => if t < (e + 1) * DAY - 3600 then t / DAY else (t + 3600) / DAY)
  }

  /** Such a calendar is additive unless the short day is a workday that rolls over after 23:00; then the
      split at its closing midnight loses the rollover. */
  lemma ShortDayExactlyWhen(e: int, s: Schedule)
    requires ValidSchedule(s)
    ensures ValidZone(ShortDay(e))
    ensures RollsWithinTheDay(ShortDay(e), s) <==> !IsWorkday(e) || s.second <= 82800
    ensures !RollsWithinTheDay(ShortDay(e), s) ==>
              !Additive(ShortDay(e), s, e * DAY, (e + 1) * DAY - 3600, e * DAY + s.second)
  {
    hide IsWorkday, Additive;
    var z := ShortDay(e);
    ShortDayIsValid(e);
    forall d: int
      ensures RolloverAt(z, s, d) > z.midnight(d + 1) <==> d == e && s.second > 82800
    {
      assert z.midnight(d + 1) - z.midnight(d) == if d == e then DAY - 3600 else DAY;
    }
    if IsWorkday(e) && s.second > 82800 {
      LateRolloverIsLost(z, s, e);
    }
  }

  lemma ShortDayIsValid(e: int)
    ensures ValidZone(ShortDay(e))
  {
    var z := ShortDay(e);
    forall t: int
      ensures z.midnight(z.day(t)) <= t < z.midnight(z.day(t) + 1)
    {
      var u := if t < (e + 1) * DAY - 3600 then t else t + 3600;
      var q := u / DAY;
      assert q * DAY <= u < (q + 1) * DAY;
    }
  }

  lemma MidnightsAscend(z: Zone, d: int)
    requires ValidZone(z)
    ensures z.midnight(d) < z.midnight(d + 1)
  {}

  /** Within such a calendar the looked-at days hold every rollover of the span: looking further, on
      either side, finds nothing more. */
  lemma UnitsAreAllRollovers(z: Zone, s: Schedule, openTime: int, closeTime: int, a: int, b: int)
    requires ValidZone(z) && ValidSchedule(s) && RollsWithinTheDay(z, s) && openTime <= closeTime
    requires a <= z.day(openTime) && z.day(closeTime) < b
    ensures SumUnits(z, s, a, b, openTime, closeTime) == SpanUnits(z, s, openTime, closeTime)
  {
    var m, n := z.day(openTime), z.day(closeTime) + 1;
    DaysAreOrdered(z, openTime, closeTime);
    forall d | a <= d < m
      ensures DayUnits(z, s, d, openTime, closeTime) == 0
    {
      assert d + 1 < m ==> z.midnight(d + 1) < z.midnight(m);
    }
    SilentDays(z, s, a, m, openTime, closeTime);
    LaterDaysAreSilent(z, s, openTime, closeTime, b);
    SumSplits(z, s, a, m, b, openTime, closeTime);
    SumSplits(z, s, m, n, b, openTime, closeTime);
  }

  // ---------- whole weeks ----------

  function WeightSum(s: Schedule, a: int, b: int): nat
    decreases b - a
  {
    if b <= a then 0 else WeightSum(s, a, b - 1) + Weight(s, b - 1)
  }

  lemma {:induction false} WeightSumSplits(s: Schedule, a: int, m: int, b: int)
    requires a <= m <= b
    ensures WeightSum(s, a, b) == WeightSum(s, a, m) + WeightSum(s, m, b)
    decreases b - m
  {
    if m < b {
      WeightSumSplits(s, a, m, b - 1);
    }
  }

  function WeekUnits(s: Schedule): nat { if s.tripleWeekday <= 4 then 7 else 5 }

  lemma OneWeek(s: Schedule, a: int)
    requires ValidSchedule(s)
    ensures WeightSum(s, a, a + 7) == WeekUnits(s)
  {
    var r := DayWeekday(a);
    forall d | a <= d < a + 7
      ensures DayWeekday(d) == if r + d - a < 7 then r + d - a else r + d - a - 7
    {
      WeekdayShift(a, d - a);
    }
    hide DayWeekday;
    assert WeightSum(s, a, a) == 0;
    assert WeightSum(s, a, a + 1) == Weight(s, a);
    assert WeightSum(s, a, a + 2) == WeightSum(s, a, a + 1) + Weight(s, a + 1);
    assert WeightSum(s, a, a + 3) == WeightSum(s, a, a + 2) + Weight(s, a + 2);
    assert WeightSum(s, a, a + 4) == WeightSum(s, a, a + 3) + Weight(s, a + 3);
    assert WeightSum(s, a, a + 5) == WeightSum(s, a, a + 4) + Weight(s, a + 4);
    assert WeightSum(s, a, a + 6) == WeightSum(s, a, a + 5) + Weight(s, a + 5);
    assert WeightSum(s, a, a + 7) == WeightSum(s, a, a + 6) + Weight(s, a + 6);
    WeekdayRange(a);
  }

  lemma WeekdayRange(a: int)
    ensures 0 <= DayWeekday(a) < 7
  {}

  lemma WeekdayShift(a: int, k: int)
    requires 0 <= k < 7
    ensures DayWeekday(a + k) == var r := DayWeekday(a); if r + k < 7 then r + k else r + k - 7
  {}

  lemma {:induction false} WholeWeeks(s: Schedule, a: int, n: nat)
    requires ValidSchedule(s)
    ensures WeightSum(s, a, a + 7 * n) == n * WeekUnits(s)
  {
    if n > 0 {
      WholeWeeks(s, a, n - 1);
      OneWeek(s, a + 7 * (n - 1));
      WeightSumSplits(s, a, a + 7 * (n - 1), a + 7 * n);
    }
  }

  /** Days that all roll over inside the span contribute their weights. */
  lemma {:induction false} CountedDays(z: Zone, s: Schedule, a: int, b: int, openTime: int, closeTime: int)
    requires forall d | a <= d < b :: openTime < RolloverAt(z, s, d) <= closeTime
    ensures SumUnits(z, s, a, b, openTime, closeTime) == WeightSum(s, a, b)
    decreases b - a
  {
    hide RolloverAt;
    if a < b {
      CountedDays(z, s, a, b - 1, openTime, closeTime);
    }
  }

  /** From a local time of day to the same local time n weeks later costs 7n units, or 5n when the triple
      day falls on the weekend, whatever clock changes lie between. */
  lemma WholeWeekUnits(z: Zone, s: Schedule, day: int, x: int, n: nat)
    requires ValidZone(z) && ValidSchedule(s) && 0 <= x
    requires z.midnight(day) + x < z.midnight(day + 1) && z.midnight(day + 7 * n) + x < z.midnight(day + 7 * n + 1)
    requires forall d: int | day <= d < day + 7 * n :: RolloverAt(z, s, d) <= z.midnight(d + 1)
    ensures SpanUnits(z, s, z.midnight(day) + x, z.midnight(day + 7 * n) + x)
            == if s.tripleWeekday <= 4 then 7 * n else 5 * n
  {
    hide SumUnits, WeightSum, ValidZone, RolloverAt;
    var last := day + 7 * n;
    var openTime, closeTime := z.midnight(day) + x, z.midnight(last) + x;
    DayOfInstant(z, openTime, day);
    DayOfInstant(z, closeTime, last);
    assert SpanUnits(z, s, openTime, closeTime) == SumUnits(z, s, day, last + 1, openTime, closeTime);
    if x < s.second {
      WeekFromOwnDay(z, s, day, x, last);
      WholeWeeks(s, day, n);
    } else {
      WeekFromNextDay(z, s, day, x, last);
      WholeWeeks(s, day + 1, n);
      assert day + 1 + 7 * n == last + 1;
    }
  }

  lemma DayOfInstant(z: Zone, t: int, d: int)
    requires ValidZone(z) && z.midnight(d) <= t < z.midnight(d + 1)
    ensures z.day(t) == d
  {
    var e := z.day(t);
    assert d + 1 < e ==> z.midnight(d + 1) < z.midnight(e);
    assert e + 1 < d ==> z.midnight(e + 1) < z.midnight(d);
  }

  /** Opened before the rollover of its day: the days up to, not including, the last one count. */
  lemma WeekFromOwnDay(z: Zone, s: Schedule, day: int, x: int, last: int)
    requires ValidZone(z) && ValidSchedule(s) && 0 <= x < s.second && day <= last
    requires forall d: int | day <= d < last :: RolloverAt(z, s, d) <= z.midnight(d + 1)
    ensures SumUnits(z, s, day, last + 1, z.midnight(day) + x, z.midnight(last) + x) == WeightSum(s, day, last)
  {
    var openTime, closeTime := z.midnight(day) + x, z.midnight(last) + x;
    forall d | day <= d < last
      ensures openTime < RolloverAt(z, s, d) <= closeTime
    {
      assert day < d ==> z.midnight(day) < z.midnight(d);
      assert d + 1 < last ==> z.midnight(d + 1) < z.midnight(last);
    }
    CountedDays(z, s, day, last, openTime, closeTime);
  }

  /** Opened at or after it: the days from the next one, including the last one, count. */
  lemma WeekFromNextDay(z: Zone, s: Schedule, day: int, x: int, last: int)
    requires ValidZone(z) && ValidSchedule(s) && s.second <= x && day <= last
    requires z.midnight(day) + x < z.midnight(day + 1)
    requires forall d: int | day <= d < last :: RolloverAt(z, s, d) <= z.midnight(d + 1)
    ensures SumUnits(z, s, day, last + 1, z.midnight(day) + x, z.midnight(last) + x) == WeightSum(s, day + 1, last + 1)
  {
    var openTime, closeTime := z.midnight(day) + x, z.midnight(last) + x;
    forall d | day + 1 <= d < last + 1
      ensures openTime < RolloverAt(z, s, d) <= closeTime
    {
      assert day + 1 < d ==> z.midnight(day + 1) < z.midnight(d);
      assert d < last ==> z.midnight(d) < z.midnight(last) && (d + 1 < last ==> z.midnight(d + 1) < z.midnight(last));
    }
    CountedDays(z, s, day + 1, last + 1, openTime, closeTime);
    SumSplits(z, s, day, day + 1, last + 1, openTime, closeTime);
    assert SumUnits(z, s, day, day, openTime, closeTime) == 0;
  }

  // ---------- a fixed offset ----------

  /** Local time at a fixed offset from UTC. */
  function FixedOffset(offset: int): Zone { Zone(d => d * DAY - offset, t => (t + offset) / DAY) }

  lemma FixedOffsetIsValid(offset: int, s: Schedule)
    requires ValidSchedule(s)
    ensures ValidZone(FixedOffset(offset)) && RollsWithinTheDay(FixedOffset(offset), s)
    ensures forall d: int :: RolloverAt(FixedOffset(offset), s, d) <= FixedOffset(offset).midnight(d + 1)
  {
    var z := FixedOffset(offset);
    forall t: int
      ensures z.midnight(z.day(t)) <= t < z.midnight(z.day(t) + 1)
    {
      var q := (t + offset) / DAY;
      assert q * DAY <= t + offset < (q + 1) * DAY;
    }
  }

  /** At a fixed offset any span of n whole weeks costs 7n units, or 5n. */
  lemma FixedOffsetWeeks(offset: int, s: Schedule, openTime: int, n: nat)
    requires ValidSchedule(s)
    ensures SpanUnits(FixedOffset(offset), s, openTime, openTime + 7 * n * DAY)
            == if s.tripleWeekday <= 4 then 7 * n else 5 * n
  {
    hide SpanUnits, FixedOffset, ValidZone, RollsWithinTheDay, RolloverAt;
    var z := FixedOffset(offset);
    FixedOffsetIsValid(offset, s);
    var day := z.day(openTime);
    var x := openTime - z.midnight(day);
    var last := day + 7 * n;
    DayBounds(offset, openTime);
    WeeksLater(offset, day, n);
    MidnightShift(offset, last);
    MidnightShift(offset, day);
    WholeWeekUnits(z, s, day, x, n);
  }

  lemma DayBounds(offset: int, t: int)
    ensures var z := FixedOffset(offset); z.midnight(z.day(t)) <= t < z.midnight(z.day(t)) + DAY
  {
    var q := (t + offset) / DAY;
    assert q * DAY <= t + offset < (q + 1) * DAY;
  }

  lemma MidnightShift(offset: int, d: int)
    ensures FixedOffset(offset).midnight(d + 1) == FixedOffset(offset).midnight(d) + DAY
  {}

  lemma WeeksLater(offset: int, d: int, n: nat)
    ensures FixedOffset(offset).midnight(d + 7 * n) == FixedOffset(offset).midnight(d) + 7 * n * DAY
  {}

  // ---------- swap ----------

  /** Swap in R of a position: signed price units per rollover, over its risk. */
  function Swap(unitsPerRoll: real, units: nat, priceUnit: real, risk: real): real
    requires risk > 0.0
  {
    unitsPerRoll * units as real * priceUnit / risk
  }

  /** Swap times risk is price: so many units, each worth the price unit, for every rollover. */
  lemma SwapIs(unitsPerRoll: real, units: nat, priceUnit: real, risk: real)
    requires risk > 0.0
    ensures Swap(unitsPerRoll, units, priceUnit, risk) * risk == unitsPerRoll * priceUnit * units as real
  {
    var x := unitsPerRoll * units as real * priceUnit;
    assert x / risk * risk == x;
  }

  lemma SwapIsLinear(unitsPerRoll: real, a: nat, b: nat, priceUnit: real, risk: real)
    requires risk > 0.0
    ensures Swap(unitsPerRoll, a + b, priceUnit, risk) == Swap(unitsPerRoll, a, priceUnit, risk) + Swap(unitsPerRoll, b, priceUnit, risk)
  {
    var per := unitsPerRoll * priceUnit;
    assert unitsPerRoll * (a + b) as real * priceUnit == per * a as real + per * b as real;
    assert unitsPerRoll * a as real * priceUnit == per * a as real;
    assert unitsPerRoll * b as real * priceUnit == per * b as real;
    SumOverRisk(per * a as real, per * b as real, risk);
  }

  lemma SumOverRisk(x: real, y: real, risk: real)
    requires risk > 0.0
    ensures (x + y) / risk == x / risk + y / risk
  {}

  /** The swap of a whole holding period is the sum of the swaps of its parts. */
  lemma SwapIsAdditive(
      z: Zone, s: Schedule, unitsPerRoll: real, priceUnit: real, risk: real, openTime: int, mid: int, closeTime: int)
    requires ValidZone(z) && ValidSchedule(s) && RollsWithinTheDay(z, s)
    requires risk > 0.0 && openTime <= mid <= closeTime
    ensures Swap(unitsPerRoll, SpanUnits(z, s, openTime, closeTime), priceUnit, risk)
            == Swap(unitsPerRoll, SpanUnits(z, s, openTime, mid), priceUnit, risk)
               + Swap(unitsPerRoll, SpanUnits(z, s, mid, closeTime), priceUnit, risk)
  {
    hide SpanUnits, Swap;
    RolloverIsAdditive(z, s, openTime, mid, closeTime);
    SwapIsLinear(unitsPerRoll, SpanUnits(z, s, openTime, mid), SpanUnits(z, s, mid, closeTime), priceUnit, risk);
  }
}
