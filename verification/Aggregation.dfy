/** Intraday bars built from M1, anchored to session starts: grouping means what it says, and
    aggregating in two steps is the same as aggregating in one. */
module Aggregation {
  import opened Market

  datatype Candle = Candle(time: int, open: real, high: real, low: real, close: real, volume: real)

  predicate ValidCandle(c: Candle) { c.low <= c.open <= c.high && c.low <= c.close <= c.high }

  // ---------- bar starts ----------

  /** Start of the trading session that holds a time; the timezone rules behind it are a parameter. */
  type SessionMap = int -> int

  ghost predicate ValidSessions(s: SessionMap) {
    && (forall t: int :: s(t) <= t && s(s(t)) == s(t))
    && (forall t: int, u: int | t <= u :: s(t) <= s(u))
  }

  /** Whole intervals since the session start. */
  function BarStart(s: SessionMap, interval: int, t: int): int
    requires interval > 0
  {
    s(t) + (t - s(t)) / interval * interval
  }

  // ---------- grouping ----------

  /** first open, max high, min low, last close, summed volume */
  function Merge(a: Candle, b: Candle): Candle {
    Candle(a.time, a.open, MaxR(a.high, b.high), MinR(a.low, b.low), b.close, a.volume + b.volume)
  }

  /** The next source bar either extends the last group or starts the next one. */
  function AddTo(groups: seq<Candle>, key: int, c: Candle): seq<Candle> {
    if |groups| > 0 && groups[|groups| - 1].time == key
    then groups[|groups| - 1 := Merge(groups[|groups| - 1], c)]
    else groups + [c.(time := key)]
  }

  function Grouped(source: seq<Candle>, s: SessionMap, interval: int): seq<Candle>
    requires interval > 0
  {
    if |source| == 0 then []
    else
      var c := source[|source| - 1];
      AddTo(Grouped(source[..|source| - 1], s, interval), BarStart(s, interval, c.time), c)
  }

  predicate IsKept(c: Candle, interval: int, lo: int, hi: int) { lo <= c.time && c.time + interval <= hi }

  /** Only bars that lie completely inside the requested range. */
  function Kept(bars: seq<Candle>, interval: int, lo: int, hi: int): seq<Candle> {
    if |bars| == 0 then []
    else
      var rest := Kept(bars[..|bars| - 1], interval, lo, hi);
      if IsKept(bars[|bars| - 1], interval, lo, hi) then rest + [bars[|bars| - 1]] else rest
  }

  function BuildTimeframe(source: seq<Candle>, s: SessionMap, interval: int, lo: int, hi: int): seq<Candle>
    requires interval > 0
  {
    Kept(Grouped(source, s, interval), interval, lo, hi)
  }

  // ---------- bar-start arithmetic ----------

  lemma SessionOfBarStart(s: SessionMap, interval: int, t: int)
    requires ValidSessions(s) && interval > 0
    ensures s(t) <= BarStart(s, interval, t) <= t < BarStart(s, interval, t) + interval
    ensures s(BarStart(s, interval, t)) == s(t)
  {
    var u := t - s(t);
    assert 0 <= u / interval * interval <= u < u / interval * interval + interval by { FloorBounds(u, interval); }
    var b := BarStart(s, interval, t);
    assert s(s(t)) <= s(b) <= s(t);
  }

  lemma FloorBounds(u: int, d: int)
    requires u >= 0 && d > 0
    ensures 0 <= u / d * d <= u < u / d * d + d
  {
    assert u == u / d * d + u % d;
  }

  /** A quotient is pinned by its bounds. */
  lemma {:induction false} QuotientIs(u: int, d: int, q: int)
    requires d > 0 && q * d <= u < q * d + d
    ensures u / d == q
  {
    LessQuotient(q, u / d, u, d);
    StrictQuotient(u / d, q + 1, u, d);
  }

  /** Flooring to f first does not change flooring to k * f, and an f-bar never sticks out of its k*f-bar. */
  lemma {:induction false} NestedFloor(u: int, f: int, k: int, c: int)
    requires u >= 0 && f > 0 && k > 0 && c == k * f
    ensures c > 0 && (u / f * f) / c == u / c
    ensures u / f * f + f <= u / c * c + c
  {
    CoarseIsPositive(f, k);
    var q, a := u / c, u / f;
    var x := q * k;
    FloorBounds(u, c);
    FloorBounds(u, f);
    CoarseMultiple(q, k, f);
    LessQuotient(x, a, u, f);
    StrictQuotient(a, x + k, u, f);
    ScaleOrder(x, a, f);
    ScaleOrder(a + 1, x + k, f);
    OneMoreFine(a, f);
    QuotientIs(a * f, c, q);
  }

  lemma CoarseIsPositive(f: int, k: int)
    requires f > 0 && k > 0
    ensures k * f > 0
  {}

  /** A coarse multiple counted in fine units. */
  lemma CoarseMultiple(q: int, k: int, f: int)
    ensures (q * k) * f == q * (k * f) && (q * k + k) * f == q * (k * f) + k * f
  {}

  lemma OneMoreFine(a: int, f: int)
    ensures (a + 1) * f == a * f + f
  {}

  lemma ScaleOrder(x: int, y: int, f: int)
    requires x <= y && f > 0
    ensures x * f <= y * f
  {}

  lemma {:induction false} LessQuotient(x: int, a: int, u: int, f: int)
    requires f > 0 && a == u / f && x * f <= u
    ensures x <= a
  {
    assert u == a * f + u % f;
    if x > a {
      ScaleOrder(a + 1, x, f);
    }
  }

  lemma StrictQuotient(a: int, y: int, u: int, f: int)
    requires f > 0 && a == u / f && u < y * f
    ensures a < y
  {
    assert u == a * f + u % f;
    if a >= y {
      ScaleOrder(y, a, f);
    }
  }

  lemma {:induction false} NestedBars(s: SessionMap, f: int, k: int, t: int)
    requires ValidSessions(s) && f > 0 && k > 0
    ensures k * f > 0 && BarStart(s, k * f, BarStart(s, f, t)) == BarStart(s, k * f, t)
    ensures BarStart(s, f, t) + f <= BarStart(s, k * f, t) + k * f
  {
    SessionOfBarStart(s, f, t);
    NestedFloor(t - s(t), f, k, k * f);
    var b := BarStart(s, f, t);
    assert b - s(b) == (t - s(t)) / f * f;
  }

  /** Later times never get earlier bars. */
  lemma BarStartIsMonotone(s: SessionMap, interval: int, t: int, u: int)
    requires ValidSessions(s) && interval > 0 && t <= u
    ensures BarStart(s, interval, t) <= BarStart(s, interval, u)
  {
    SessionOfBarStart(s, interval, t);
    SessionOfBarStart(s, interval, u);
    if s(t) == s(u) {
      var x, y := t - s(t), u - s(u);
      FloorBounds(x, interval);
      LessQuotient(x / interval, y / interval, y, interval);
      ScaleOrder(x / interval, y / interval, interval);
    } else {
      assert s(s(u)) == s(u);
      assert s(u) <= t ==> s(s(u)) <= s(t);
    }
  }

  // ---------- grouping by its meaning ----------

  datatype Combined = Nothing | Just(bar: Candle)

  /** The aggregate of all source bars whose bar start is the key, whatever lies between them. */
  function CombinedAt(source: seq<Candle>, s: SessionMap, interval: int, key: int): Combined
    requires interval > 0
  {
    if |source| == 0 then Nothing
    else
      var rest := CombinedAt(source[..|source| - 1], s, interval, key);
      var c := source[|source| - 1];
      if BarStart(s, interval, c.time) != key then rest
      else match rest
        case Nothing => Just(c.(time := key))
        case Just(bar) => Just(Merge(bar, c))
  }

  ghost predicate SortedTimes(source: seq<Candle>) {
    forall i, j | 0 <= i < j < |source| :: source[i].time <= source[j].time
  }

  ghost predicate Ascending(bars: seq<Candle>) {
    forall i, j | 0 <= i < j < |bars| :: bars[i].time < bars[j].time
  }

  /** Bars come one per key, in order, each the aggregate of exactly the source bars of its key. */
  ghost predicate GroupsBy(bars: seq<Candle>, source: seq<Candle>, s: SessionMap, interval: int)
    requires interval > 0
  {
    && Ascending(bars)
    && (forall i | 0 <= i < |bars| :: CombinedAt(source, s, interval, bars[i].time) == Just(bars[i]))
    && (forall key: int :: CombinedAt(source, s, interval, key).Just? ==>
          exists i :: 0 <= i < |bars| && bars[i].time == key)
  }

  lemma AddToGroups(bars: seq<Candle>, source: seq<Candle>, s: SessionMap, interval: int)
    requires interval > 0 && |source| > 0
    requires GroupsBy(bars, source[..|source| - 1], s, interval)
    requires forall i | 0 <= i < |bars| :: bars[i].time <= BarStart(s, interval, source[|source| - 1].time)
    ensures GroupsBy(AddTo(bars, BarStart(s, interval, source[|source| - 1].time), source[|source| - 1]), source, s, interval)
  {
    hide BarStart;
    var c := source[|source| - 1];
    var front := source[..|source| - 1];
    var key := BarStart(s, interval, c.time);
    var r := AddTo(bars, key, c);
    if |bars| > 0 && bars[|bars| - 1].time == key {
      assert CombinedAt(front, s, interval, key) == Just(bars[|bars| - 1]);
    } else {
      assert CombinedAt(front, s, interval, key).Nothing?;
      assert r[|bars|] == c.(time := key);
    }
    forall k: int | CombinedAt(source, s, interval, k).Just?
      ensures exists i :: 0 <= i < |r| && r[i].time == k
    {
      if k == key {
        assert r[|r| - 1].time == key;
      } else {
        assert CombinedAt(front, s, interval, k).Just?;
        var i :| 0 <= i < |bars| && bars[i].time == k;
        assert r[i].time == k;
      }
    }
  }

  /** Grouping a time-ordered source yields exactly the bars that grouping by key defines. */
  lemma {:induction false} GroupingMatchesDefinition(source: seq<Candle>, s: SessionMap, interval: int)
    requires ValidSessions(s) && interval > 0 && SortedTimes(source)
    ensures GroupsBy(Grouped(source, s, interval), source, s, interval)
    ensures |source| > 0 ==>
              |Grouped(source, s, interval)| > 0
              && Grouped(source, s, interval)[|Grouped(source, s, interval)| - 1].time == BarStart(s, interval, source[|source| - 1].time)
  {
    hide BarStart, GroupsBy, ValidSessions;
    if |source| == 0 {
      NoGroups(s, interval);
    } else {
      var n, front := |source| - 1, source[..|source| - 1];
      GroupingMatchesDefinition(front, s, interval);
      var bars := Grouped(front, s, interval);
      GroupsAscend(bars, front, s, interval);
      if |bars| > 0 && n > 0 {
        BarStartIsMonotone(s, interval, front[n - 1].time, source[n].time);
      }
      assert n == 0 ==> bars == [];
      AddToGroups(bars, source, s, interval);
    }
  }

  lemma NoGroups(s: SessionMap, interval: int)
    requires interval > 0
    ensures GroupsBy([], [], s, interval)
  {}

  lemma GroupsAscend(bars: seq<Candle>, source: seq<Candle>, s: SessionMap, interval: int)
    requires interval > 0 && GroupsBy(bars, source, s, interval)
    ensures Ascending(bars)
  {}

  // ---------- what a combined bar keeps ----------

  /** Volume of the source bars of one key. */
  function VolumeAt(source: seq<Candle>, s: SessionMap, interval: int, key: int): real
    requires interval > 0
  {
    if |source| == 0 then 0.0
    else
      VolumeAt(source[..|source| - 1], s, interval, key)
      + if BarStart(s, interval, source[|source| - 1].time) == key then source[|source| - 1].volume else 0.0
  }

  lemma {:induction false} CombinedBarIsSound(source: seq<Candle>, s: SessionMap, interval: int, key: int)
    requires interval > 0 && forall i | 0 <= i < |source| :: ValidCandle(source[i])
    ensures match CombinedAt(source, s, interval, key)
            case Nothing => VolumeAt(source, s, interval, key) == 0.0
            case Just(bar) => bar.time == key && ValidCandle(bar) && bar.volume == VolumeAt(source, s, interval, key)
  {
    hide BarStart;
    if |source| > 0 {
      CombinedBarIsSound(source[..|source| - 1], s, interval, key);
    }
  }

  /** Source bar i belongs to the key's bar. */
  predicate InBar(source: seq<Candle>, s: SessionMap, interval: int, key: int, i: int)
    requires interval > 0 && 0 <= i < |source|
  {
    BarStart(s, interval, source[i].time) == key
  }

  /** The bar opens with its first source bar, closes with its last, and reaches exactly their extremes. */
  ghost predicate MadeOf(bar: Candle, source: seq<Candle>, s: SessionMap, interval: int, key: int, first: nat, last: nat)
    requires interval > 0
  {
    && first <= last < |source| && InBar(source, s, interval, key, first) && InBar(source, s, interval, key, last)
    && (forall i | 0 <= i < |source| && InBar(source, s, interval, key, i) :: first <= i <= last)
    && bar.open == source[first].open && bar.close == source[last].close
    && (forall i | 0 <= i < |source| && InBar(source, s, interval, key, i) :: bar.low <= source[i].low && source[i].high <= bar.high)
    && (exists i | 0 <= i < |source| :: InBar(source, s, interval, key, i) && source[i].high == bar.high)
    && (exists i | 0 <= i < |source| :: InBar(source, s, interval, key, i) && source[i].low == bar.low)
  }

  /** A combined bar is made of the source bars of its key, first to last. */
  lemma {:induction false} CombinedBarIsMadeOf(source: seq<Candle>, s: SessionMap, interval: int, key: int) returns (first: nat, last: nat)
    requires interval > 0
    ensures CombinedAt(source, s, interval, key).Nothing? <==> forall i | 0 <= i < |source| :: !InBar(source, s, interval, key, i)
    ensures CombinedAt(source, s, interval, key).Just? ==>
              MadeOf(CombinedAt(source, s, interval, key).bar, source, s, interval, key, first, last)
  {
    hide BarStart;
    first, last := 0, 0;
    if |source| > 0 {
      var n, front := |source| - 1, source[..|source| - 1];
      first, last := CombinedBarIsMadeOf(front, s, interval, key);
      assert forall i | 0 <= i < n :: InBar(front, s, interval, key, i) == InBar(source, s, interval, key, i);
      var before, after := CombinedAt(front, s, interval, key), CombinedAt(source, s, interval, key);
      if InBar(source, s, interval, key, n) {
        last := n;
        if before.Nothing? {
          first := n;
        }
      }
      if before.Just? {
        var h :| 0 <= h < n && InBar(front, s, interval, key, h) && front[h].high == before.bar.high;
        var l :| 0 <= l < n && InBar(front, s, interval, key, l) && front[l].low == before.bar.low;
        assert InBar(source, s, interval, key, h) && source[h].high == before.bar.high;
        assert InBar(source, s, interval, key, l) && source[l].low == before.bar.low;
      }
      if after.Just? {
        assert after.bar.high == source[n].high || (before.Just? && after.bar.high == before.bar.high);
        assert after.bar.low == source[n].low || (before.Just? && after.bar.low == before.bar.low);
      }
    }
  }

  /** Built bars start in strictly increasing order inside the range, have consistent OHLC, and carry
      exactly the volume of their source bars. */
  lemma BuiltBarsAreSound(source: seq<Candle>, s: SessionMap, interval: int, lo: int, hi: int)
    requires ValidSessions(s) && interval > 0 && SortedTimes(source)
    requires forall i | 0 <= i < |source| :: ValidCandle(source[i])
    ensures var bars := BuildTimeframe(source, s, interval, lo, hi);
            && Ascending(bars)
            && forall i | 0 <= i < |bars| ::
                 && lo <= bars[i].time && bars[i].time + interval <= hi && ValidCandle(bars[i])
                 && bars[i].volume == VolumeAt(source, s, interval, bars[i].time)
  {
    hide Grouped, CombinedAt;
    GroupingMatchesDefinition(source, s, interval);
    var groups, bars := Grouped(source, s, interval), BuildTimeframe(source, s, interval, lo, hi);
    KeptIsFilter(groups, interval, lo, hi);
    forall i | 0 <= i < |bars|
      ensures ValidCandle(bars[i]) && bars[i].volume == VolumeAt(source, s, interval, bars[i].time)
    {
      assert bars[i] in bars;
      var j :| 0 <= j < |groups| && groups[j] == bars[i];
      CombinedBarIsSound(source, s, interval, groups[j].time);
    }
    forall i | 0 <= i < |bars|
      ensures IsKept(bars[i], interval, lo, hi)
    {
      assert bars[i] in bars;
    }
  }

  /** Every bar of a occurs in b. */
  ghost predicate AllIn(a: seq<Candle>, b: seq<Candle>) {
    forall c | c in a :: c in b
  }

  /** Kept keeps order and exactly the bars inside the range. */
  lemma {:induction false} KeptIsFilter(bars: seq<Candle>, interval: int, lo: int, hi: int)
    requires Ascending(bars)
    ensures Ascending(Kept(bars, interval, lo, hi))
    ensures forall c :: c in Kept(bars, interval, lo, hi) <==> c in bars && IsKept(c, interval, lo, hi)
  {
    if |bars| > 0 {
      var front, last := bars[..|bars| - 1], bars[|bars| - 1];
      assert bars == front + [last];
      KeptIsFilter(front, interval, lo, hi);
      AscendsWithNext(Kept(front, interval, lo, hi), front, last);
    }
  }

  lemma AscendsWithNext(rest: seq<Candle>, front: seq<Candle>, last: Candle)
    requires Ascending(front + [last]) && Ascending(rest) && forall c | c in rest :: c in front
    ensures Ascending(rest + [last])
  {
    forall i | 0 <= i < |rest|
      ensures rest[i].time < last.time
    {
      assert rest[i] in front;
      var j :| 0 <= j < |front| && front[j] == rest[i];
      assert (front + [last])[j].time < (front + [last])[|front|].time;
    }
  }

  // ---------- composition ----------

  /** Coarse-grouping after one more source bar was fine-grouped is coarse-grouping of that source bar. */
  lemma {:induction false} CoarsenOneMore(fine: seq<Candle>, s: SessionMap, f: int, k: int, c: Candle)
    requires ValidSessions(s) && f > 0 && k > 0 && k * f > 0
    ensures Grouped(AddTo(fine, BarStart(s, f, c.time), c), s, k * f)
            == AddTo(Grouped(fine, s, k * f), BarStart(s, k * f, c.time), c)
  {
    hide BarStart, ValidSessions;
    var key, coarse := BarStart(s, f, c.time), BarStart(s, k * f, c.time);
    NestedBars(s, f, k, c.time);
    var next := AddTo(fine, key, c);
    var n := |fine|;
    if n > 0 && fine[n - 1].time == key {
      var before, last := fine[..n - 1], fine[n - 1];
      assert next[..|next| - 1] == before && next[|next| - 1] == Merge(last, c);
      var g := Grouped(before, s, k * f);
      assert Grouped(next, s, k * f) == AddTo(g, coarse, Merge(last, c));
      assert Grouped(fine, s, k * f) == AddTo(g, coarse, last);
      MergeInTwoSteps(g, coarse, last, c);
    } else {
      assert next[..|next| - 1] == fine && next[|next| - 1] == c.(time := key);
      assert AddTo(Grouped(fine, s, k * f), coarse, c.(time := key)) == AddTo(Grouped(fine, s, k * f), coarse, c);
    }
  }

  lemma MergeInTwoSteps(g: seq<Candle>, key: int, a: Candle, b: Candle)
    ensures AddTo(AddTo(g, key, a), key, b) == AddTo(g, key, Merge(a, b))
  {
    var n := |g|;
    if n > 0 && g[n - 1].time == key {
      assert Merge(Merge(g[n - 1], a), b) == Merge(g[n - 1], Merge(a, b));
    } else {
      assert AddTo(g, key, a)[n] == a.(time := key);
    }
  }

  lemma {:induction false} GroupingComposes(source: seq<Candle>, s: SessionMap, f: int, k: int)
    requires ValidSessions(s) && f > 0 && k > 0 && k * f > 0
    ensures Grouped(Grouped(source, s, f), s, k * f) == Grouped(source, s, k * f)
  {
    hide BarStart, AddTo, ValidSessions;
    if |source| > 0 {
      var front := source[..|source| - 1];
      GroupingComposes(front, s, f, k);
      CoarsenOneMore(Grouped(front, s, f), s, f, k, source[|source| - 1]);
    }
  }

  /** Dropping the fine bars outside the range does not touch any coarse bar inside it. */
  lemma {:induction false} DroppedBarsDoNotMatter(fine: seq<Candle>, s: SessionMap, f: int, k: int, lo: int, hi: int, key: int)
    requires ValidSessions(s) && f > 0 && k > 0 && k * f > 0
    requires OnBarStarts(fine, s, f)
    requires lo <= key && key + k * f <= hi
    ensures CombinedAt(Kept(fine, f, lo, hi), s, k * f, key) == CombinedAt(fine, s, k * f, key)
  {
    hide BarStart, ValidSessions;
    if |fine| > 0 {
      var front, last := fine[..|fine| - 1], fine[|fine| - 1];
      DroppedBarsDoNotMatter(front, s, f, k, lo, hi, key);
      NestedBars(s, f, k, last.time);
      SessionOfBarStart(s, k * f, last.time);
    }
  }

  lemma {:induction false} GroupTimesAreBarStarts(source: seq<Candle>, s: SessionMap, interval: int)
    requires ValidSessions(s) && interval > 0
    ensures OnBarStarts(Grouped(source, s, interval), s, interval)
  {
    hide BarStart, ValidSessions;
    if |source| > 0 {
      GroupTimesAreBarStarts(source[..|source| - 1], s, interval);
      BarStartIsFixed(s, interval, source[|source| - 1].time);
    }
  }

  ghost predicate OnBarStarts(bars: seq<Candle>, s: SessionMap, interval: int)
    requires interval > 0
  {
    forall i | 0 <= i < |bars| :: BarStart(s, interval, bars[i].time) == bars[i].time
  }

  lemma {:induction false} BarStartIsFixed(s: SessionMap, interval: int, t: int)
    requires ValidSessions(s) && interval > 0
    ensures BarStart(s, interval, BarStart(s, interval, t)) == BarStart(s, interval, t)
  {
    SessionOfBarStart(s, interval, t);
    var u := t - s(t);
    QuotientIs(u / interval * interval, interval, u / interval);
  }

  /** Two ascending bar lists with the same bars are the same list. */
  lemma {:induction false} SameBarsSameList(a: seq<Candle>, b: seq<Candle>)
    requires Ascending(a) && Ascending(b) && AllIn(a, b) && AllIn(b, a)
    ensures a == b
  {
    assert |a| > 0 ==> a[0] in b;
    assert |b| > 0 ==> b[0] in a;
    if |a| > 0 && |b| > 0 {
      var m, n := |a| - 1, |b| - 1;
      assert a[m] in b && b[n] in a;
      assert a[m].time <= b[n].time <= a[m].time;
      DropLast(a, b);
      DropLast(b, a);
      SameBarsSameList(a[..m], b[..n]);
      assert a == a[..m] + [a[m]] && b == b[..n] + [b[n]];
    }
  }

  lemma DropLast(a: seq<Candle>, b: seq<Candle>)
    requires |a| > 0 && |b| > 0 && Ascending(a) && Ascending(b) && AllIn(a, b)
    requires a[|a| - 1].time == b[|b| - 1].time
    ensures AllIn(a[..|a| - 1], b[..|b| - 1])
    ensures a[|a| - 1] == b[|b| - 1]
  {
    assert a[|a| - 1] in b;
    var front := a[..|a| - 1];
    forall c | c in front
      ensures c in b[..|b| - 1]
    {
      assert c in a && c in b;
      var j :| 0 <= j < |b| && b[j] == c;
      assert j < |b| - 1;
      assert b[..|b| - 1][j] == c;
    }
  }

  /** The groups of one source whose bars agree with another source on every kept key. */
  ghost predicate AgreeOnKept(a: seq<Candle>, b: seq<Candle>, s: SessionMap, interval: int, lo: int, hi: int)
    requires interval > 0
  {
    forall key | lo <= key && key + interval <= hi :: CombinedAt(a, s, interval, key) == CombinedAt(b, s, interval, key)
  }

  /** Kept bars of two groupings agree when the groups of every kept key agree. */
  lemma {:induction false} SameKept(a: seq<Candle>, x: seq<Candle>, b: seq<Candle>, y: seq<Candle>, s: SessionMap, interval: int, lo: int, hi: int)
    requires interval > 0 && GroupsBy(x, a, s, interval) && GroupsBy(y, b, s, interval)
    requires AgreeOnKept(a, b, s, interval, lo, hi)
    ensures Kept(x, interval, lo, hi) == Kept(y, interval, lo, hi)
  {
    hide CombinedAt, Kept;
    KeptIsFilter(x, interval, lo, hi);
    KeptIsFilter(y, interval, lo, hi);
    KeptWithin(a, x, b, y, s, interval, lo, hi);
    KeptWithin(b, y, a, x, s, interval, lo, hi);
    SameBarsSameList(Kept(x, interval, lo, hi), Kept(y, interval, lo, hi));
  }

  lemma {:induction false} KeptWithin(a: seq<Candle>, x: seq<Candle>, b: seq<Candle>, y: seq<Candle>, s: SessionMap, interval: int, lo: int, hi: int)
    requires interval > 0 && GroupsBy(x, a, s, interval) && GroupsBy(y, b, s, interval)
    requires AgreeOnKept(a, b, s, interval, lo, hi)
    ensures AllIn(Kept(x, interval, lo, hi), Kept(y, interval, lo, hi))
  {
    hide CombinedAt, Kept;
    KeptIsFilter(x, interval, lo, hi);
    KeptIsFilter(y, interval, lo, hi);
    forall c | c in Kept(x, interval, lo, hi)
      ensures c in Kept(y, interval, lo, hi)
    {
      var p :| 0 <= p < |x| && x[p] == c;
      assert CombinedAt(b, s, interval, c.time) == Just(c);
      var q :| 0 <= q < |y| && y[q].time == c.time;
      assert y[q] == c;
    }
  }

  /** Composition: for a fine interval that divides the coarse one, building coarse bars from fine bars
      equals building them directly from the source, for any gaps and any session map. */
  lemma AggregationComposes(source: seq<Candle>, s: SessionMap, f: int, k: int, lo: int, hi: int)
    requires ValidSessions(s) && f > 0 && k > 0 && k * f > 0 && SortedTimes(source)
    ensures BuildTimeframe(BuildTimeframe(source, s, f, lo, hi), s, k * f, lo, hi)
            == BuildTimeframe(source, s, k * f, lo, hi)
  {
    hide BarStart, ValidSessions, Grouped, CombinedAt, Kept, GroupsBy, OnBarStarts;
    var fine := Grouped(source, s, f);
    GroupingMatchesDefinition(source, s, f);
    GroupsAscend(fine, source, s, f);
    KeptIsFilter(fine, f, lo, hi);
    var part := Kept(fine, f, lo, hi);
    GroupTimesAreBarStarts(source, s, f);
    GroupingComposes(source, s, f, k);
    GroupingMatchesDefinition(fine, s, k * f);
    GroupingMatchesDefinition(part, s, k * f);
    forall key | lo <= key && key + k * f <= hi
      ensures CombinedAt(part, s, k * f, key) == CombinedAt(fine, s, k * f, key)
    {
      DroppedBarsDoNotMatter(fine, s, f, k, lo, hi, key);
    }
    SameKept(part, Grouped(part, s, k * f), fine, Grouped(fine, s, k * f), s, k * f, lo, hi);
  }
}
