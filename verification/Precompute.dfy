/** Feature columns computed once per dataset, and why none of them looks ahead. */
module Precompute {
  import opened Options
  import opened Market

  // ---------- window extrema ----------

  function MaxHigh(bars: seq<Bar>, lo: nat, hi: nat): real
    requires lo < hi <= |bars|
    decreases hi
  {
    if lo + 1 == hi then bars[lo].high else MaxR(MaxHigh(bars, lo, hi - 1), bars[hi - 1].high)
  }

  function MinLow(bars: seq<Bar>, lo: nat, hi: nat): real
    requires lo < hi <= |bars|
    decreases hi
  {
    if lo + 1 == hi then bars[lo].low else MinR(MinLow(bars, lo, hi - 1), bars[hi - 1].low)
  }

  /** The extrema are bounds of the window, and each is attained in it. */
  lemma {:induction false} ExtremaAreAttainedBounds(bars: seq<Bar>, lo: nat, hi: nat)
    requires lo < hi <= |bars|
    ensures forall k | lo <= k < hi :: MinLow(bars, lo, hi) <= bars[k].low && bars[k].high <= MaxHigh(bars, lo, hi)
    ensures exists k | lo <= k < hi :: bars[k].high == MaxHigh(bars, lo, hi)
    ensures exists k | lo <= k < hi :: bars[k].low == MinLow(bars, lo, hi)
    decreases hi
  {
    if lo + 1 == hi {
      assert bars[lo].high == MaxHigh(bars, lo, hi) && bars[lo].low == MinLow(bars, lo, hi);
    } else {
      ExtremaAreAttainedBounds(bars, lo, hi - 1);
      var h :| lo <= h < hi - 1 && bars[h].high == MaxHigh(bars, lo, hi - 1);
      var l :| lo <= l < hi - 1 && bars[l].low == MinLow(bars, lo, hi - 1);
      assert bars[h].high == MaxHigh(bars, lo, hi) || bars[hi - 1].high == MaxHigh(bars, lo, hi);
      assert bars[l].low == MinLow(bars, lo, hi) || bars[hi - 1].low == MinLow(bars, lo, hi);
    }
  }

  lemma {:induction false} ExtremaOfPrefix(bars: seq<Bar>, m: nat, lo: nat, hi: nat)
    requires lo < hi <= m <= |bars|
    ensures MaxHigh(bars[..m], lo, hi) == MaxHigh(bars, lo, hi)
    ensures MinLow(bars[..m], lo, hi) == MinLow(bars, lo, hi)
    decreases hi
  {
    if lo + 1 < hi {
      ExtremaOfPrefix(bars, m, lo, hi - 1);
    }
  }

  // ---------- swings ----------

  /** Bar i is at least as high as its w neighbours on each side. */
  ghost predicate IsSwingHigh(bars: seq<Bar>, i: int, w: nat) {
    w <= i && i + w < |bars|
    && forall k | i - w <= k <= i + w :: bars[k].high <= bars[i].high
  }

  ghost predicate IsSwingLow(bars: seq<Bar>, i: int, w: nat) {
    w <= i && i + w < |bars|
    && forall k | i - w <= k <= i + w :: bars[i].low <= bars[k].low
  }

  /** The flag of bar j tells of the swing at bar j - w, which bar j is the first to confirm. */
  ghost predicate SwingColumns(bars: seq<Bar>, w: nat, swingHigh: seq<bool>, swingLow: seq<bool>) {
    && |swingHigh| == |bars| && |swingLow| == |bars|
    && (forall j | 0 <= j < |bars| :: swingHigh[j] <==> IsSwingHigh(bars, j - w, w))
    && (forall j | 0 <= j < |bars| :: swingLow[j] <==> IsSwingLow(bars, j - w, w))
  }

  /** Comparing with the two window extrema is the same as comparing with every neighbour. */
  lemma SwingTest(bars: seq<Bar>, i: nat, w: nat)
    requires 1 <= w <= i && i + w < |bars|
    ensures IsSwingHigh(bars, i, w) <==>
            bars[i].high >= MaxHigh(bars, i - w, i) && bars[i].high >= MaxHigh(bars, i + 1, i + w + 1)
    ensures IsSwingLow(bars, i, w) <==>
            bars[i].low <= MinLow(bars, i - w, i) && bars[i].low <= MinLow(bars, i + 1, i + w + 1)
  {
    ExtremaAreAttainedBounds(bars, i - w, i);
    ExtremaAreAttainedBounds(bars, i + 1, i + w + 1);
  }

  method ComputeSwings(bars: seq<Bar>, w: nat) returns (swingHigh: array<bool>, swingLow: array<bool>)
    requires w >= 1
    ensures fresh(swingHigh) && fresh(swingLow)
    ensures SwingColumns(bars, w, swingHigh[..], swingLow[..])
  {
    var n := |bars|;
    swingHigh := new bool[n](_ => false);
    swingLow := new bool[n](_ => false);
    var i := w;
    while i < n - w
      invariant w <= i
      invariant i <= n - w || i == w
      invariant forall j | 0 <= j < n :: swingHigh[j] <==> j < i + w && IsSwingHigh(bars, j - w, w)
      invariant forall j | 0 <= j < n :: swingLow[j] <==> j < i + w && IsSwingLow(bars, j - w, w)
    {
      var topped := bars[i].high >= MaxHigh(bars, i - w, i) && bars[i].high >= MaxHigh(bars, i + 1, i + w + 1);
      var bottomed := bars[i].low <= MinLow(bars, i - w, i) && bars[i].low <= MinLow(bars, i + 1, i + w + 1);
      SwingTest(bars, i, w);
      var confirm := i + w;
      if topped && confirm < n {
        swingHigh[confirm] := true;
      }
      if bottomed && confirm < n {
        swingLow[confirm] := true;
      }
      i := i + 1;
    }
  }

  /** The swing columns of a prefix are the prefix of the swing columns. */
  lemma SwingsOfPrefix(bars: seq<Bar>, m: nat, w: nat, hi: seq<bool>, lo: seq<bool>, hiM: seq<bool>, loM: seq<bool>)
    requires m <= |bars|
    requires SwingColumns(bars, w, hi, lo) && SwingColumns(bars[..m], w, hiM, loM)
    ensures hiM == hi[..m] && loM == lo[..m]
  {
    forall j | 0 <= j < m
      ensures hiM[j] == hi[j] && loM[j] == lo[j]
    {
      assert IsSwingHigh(bars[..m], j - w, w) <==> IsSwingHigh(bars, j - w, w);
      assert IsSwingLow(bars[..m], j - w, w) <==> IsSwingLow(bars, j - w, w);
    }
  }

  // ---------- trend labels ----------

  datatype Trend = NoTrend | Bull | Bear

  /** The highs (or lows) of the flagged bars of [lo, hi), in order. */
  function Flagged(bars: seq<Bar>, flags: seq<bool>, high: bool, lo: nat, hi: nat): seq<real>
    requires lo <= hi <= |bars| && |flags| == |bars|
    decreases hi
  {
    if lo == hi then []
    else
      var rest := Flagged(bars, flags, high, lo, hi - 1);
      if flags[hi - 1] then rest + [if high then bars[hi - 1].high else bars[hi - 1].low] else rest
  }

  /** The label of bar i compares the last two flagged highs and lows of its lookback window. */
  function TrendAt(bars: seq<Bar>, swingHigh: seq<bool>, swingLow: seq<bool>, lookback: nat, i: nat): Trend
    requires i < |bars| && |swingHigh| == |bars| && |swingLow| == |bars|
  {
    if i < 200 || i < lookback then NoTrend
    else
      var hs := Flagged(bars, swingHigh, true, i - lookback, i);
      var ls := Flagged(bars, swingLow, false, i - lookback, i);
      if |hs| < 2 || |ls| < 2 then NoTrend
      else
        var sh1, sh2 := hs[|hs| - 2], hs[|hs| - 1];
        var sl1, sl2 := ls[|ls| - 2], ls[|ls| - 1];
        if sh2 >= sh1 && sl2 >= sl1 then Bull
        else if sh2 <= sh1 && sl2 <= sl1 then Bear
        else NoTrend
  }

  ghost predicate TrendColumn(bars: seq<Bar>, swingHigh: seq<bool>, swingLow: seq<bool>, lookback: nat, trend: seq<Trend>) {
    && |swingHigh| == |bars| && |swingLow| == |bars| && |trend| == |bars|
    && forall i | 0 <= i < |bars| :: trend[i] == TrendAt(bars, swingHigh, swingLow, lookback, i)
  }

  method ComputeTrendLabels(bars: seq<Bar>, swingHigh: seq<bool>, swingLow: seq<bool>, lookback: nat)
    returns (trend: array<Trend>)
    requires |swingHigh| == |bars| && |swingLow| == |bars|
    ensures fresh(trend) && TrendColumn(bars, swingHigh, swingLow, lookback, trend[..])
  {
    var n := |bars|;
    trend := new Trend[n](_ => NoTrend);
    var first := if lookback > 200 then lookback else 200;
    var i := first;
    while i < n
      invariant first <= i
      invariant forall k | 0 <= k < n ::
          trend[k] == if k < i then TrendAt(bars, swingHigh, swingLow, lookback, k) else NoTrend
    {
      var hs := Flagged(bars, swingHigh, true, i - lookback, i);
      var ls := Flagged(bars, swingLow, false, i - lookback, i);
      if |hs| >= 2 && |ls| >= 2 {
        var sh1, sh2 := hs[|hs| - 2], hs[|hs| - 1];
        var sl1, sl2 := ls[|ls| - 2], ls[|ls| - 1];
        if sh2 >= sh1 && sl2 >= sl1 {
          trend[i] := Bull;
        } else if sh2 <= sh1 && sl2 <= sl1 {
          trend[i] := Bear;
        }
      }
      i := i + 1;
    }
  }

  /** The values of a flagged list are those of exactly the flagged bars of the window, in order. */
  lemma {:induction false} FlaggedAreFlagged(bars: seq<Bar>, flags: seq<bool>, high: bool, lo: nat, hi: nat) returns (at: seq<nat>)
    requires lo <= hi <= |bars| && |flags| == |bars|
    ensures |at| == |Flagged(bars, flags, high, lo, hi)| && (forall i, j | 0 <= i < j < |at| :: at[i] < at[j])
    ensures forall k | 0 <= k < |at| :: lo <= at[k] < hi && flags[at[k]]
    ensures forall k | 0 <= k < |at| && high :: Flagged(bars, flags, high, lo, hi)[k] == bars[at[k]].high
    ensures forall k | 0 <= k < |at| && !high :: Flagged(bars, flags, high, lo, hi)[k] == bars[at[k]].low
    ensures forall i: nat | lo <= i < hi && flags[i] :: i in at
    decreases hi
  {
    at := [];
    if lo < hi {
      var before := FlaggedAreFlagged(bars, flags, high, lo, hi - 1);
      var rest, all := Flagged(bars, flags, high, lo, hi - 1), Flagged(bars, flags, high, lo, hi);
      if flags[hi - 1] {
        at := before + [hi - 1];
        var value := if high then bars[hi - 1].high else bars[hi - 1].low;
        assert all == rest + [value];
        hide Flagged;
        assert forall k | 0 <= k < |before| :: at[k] == before[k] && all[k] == rest[k];
        forall i: nat | lo <= i < hi && flags[i]
          ensures i in at
        {
          assert if i < hi - 1 then i in before else at[|before|] == i;
        }
      } else {
        at := before;
      }
    }
  }

  lemma {:induction false} FlaggedOfPrefix(
      bars: seq<Bar>, flags: seq<bool>, high: bool, m: nat, lo: nat, hi: nat)
    requires lo <= hi <= m <= |bars| && |flags| == |bars|
    ensures Flagged(bars[..m], flags[..m], high, lo, hi) == Flagged(bars, flags, high, lo, hi)
    decreases hi
  {
    if lo < hi {
      FlaggedOfPrefix(bars, flags, high, m, lo, hi - 1);
    }
  }

  /** Trend labels of a prefix, computed from the prefix's own swings, are the prefix of the labels. */
  lemma TrendOfPrefix(
      bars: seq<Bar>, m: nat, w: nat, lookback: nat,
      hi: seq<bool>, lo: seq<bool>, trend: seq<Trend>,
      hiM: seq<bool>, loM: seq<bool>, trendM: seq<Trend>)
    requires m <= |bars|
    requires SwingColumns(bars, w, hi, lo) && TrendColumn(bars, hi, lo, lookback, trend)
    requires SwingColumns(bars[..m], w, hiM, loM) && TrendColumn(bars[..m], hiM, loM, lookback, trendM)
    ensures trendM == trend[..m]
  {
    SwingsOfPrefix(bars, m, w, hi, lo, hiM, loM);
    forall i | 0 <= i < m
      ensures trendM[i] == trend[i]
    {
      if i >= lookback {
        FlaggedOfPrefix(bars, hi, true, m, i - lookback, i);
        FlaggedOfPrefix(bars, lo, false, m, i - lookback, i);
      }
    }
  }

  // ---------- average true range ----------

  function TrueRange(bars: seq<Bar>, k: nat): real
    requires k < |bars|
  {
    var range := bars[k].high - bars[k].low;
    if k == 0 then range
    else
      var prev := bars[k - 1].close;
      MaxR(range, MaxR(AbsR(bars[k].high - prev), AbsR(bars[k].low - prev)))
  }

  function RangeSum(bars: seq<Bar>, lo: nat, hi: nat): real
    requires lo <= hi <= |bars|
    decreases hi
  {
    if lo == hi then 0.0 else RangeSum(bars, lo, hi - 1) + TrueRange(bars, hi - 1)
  }

  /** Rolling mean of the true range; absent until a full window exists. */
  function AtrAt(bars: seq<Bar>, period: nat, i: nat): Option<real>
    requires period >= 1 && i < |bars|
  {
    if i + 1 < period then None else Some(RangeSum(bars, i + 1 - period, i + 1) / (period as real))
  }

  function ComputeAtr(bars: seq<Bar>, period: nat): (atr: seq<Option<real>>)
    requires period >= 1
    ensures |atr| == |bars|
  {
    seq(|bars|, i requires 0 <= i < |bars| => AtrAt(bars, period, i))
  }

  /** How far the price travelled on bar k, counted from the close before it. */
  function Travel(bars: seq<Bar>, k: nat): real
    requires k < |bars|
  {
    if k == 0 then bars[0].high - bars[0].low
    else
      var from := bars[k - 1].close;
      (if bars[k].high >= from then bars[k].high else from) - (if bars[k].low <= from then bars[k].low else from)
  }

  function TravelSum(bars: seq<Bar>, from: nat, count: nat): real
    requires from + count <= |bars|
    decreases count
  {
    if count == 0 then 0.0 else Travel(bars, from) + TravelSum(bars, from + 1, count - 1)
  }

  lemma TrueRangeIsTravel(bars: seq<Bar>, k: nat)
    requires k < |bars| && bars[k].low <= bars[k].high
    ensures TrueRange(bars, k) == Travel(bars, k)
  {}

  lemma {:induction false} TravelSumBack(bars: seq<Bar>, from: nat, count: nat)
    requires from + count < |bars|
    ensures TravelSum(bars, from, count + 1) == TravelSum(bars, from, count) + Travel(bars, from + count)
    decreases count
  {
    hide Travel;
    if count > 0 {
      TravelSumBack(bars, from + 1, count - 1);
    } else {
      assert TravelSum(bars, from + 1, 0) == 0.0;
    }
  }

  lemma {:induction false} RangeSumIsTravel(bars: seq<Bar>, lo: nat, hi: nat)
    requires lo <= hi <= |bars| && forall k | 0 <= k < |bars| :: bars[k].low <= bars[k].high
    ensures RangeSum(bars, lo, hi) == TravelSum(bars, lo, hi - lo)
    decreases hi
  {
    hide TrueRange, Travel;
    if lo < hi {
      RangeSumIsTravel(bars, lo, hi - 1);
      TrueRangeIsTravel(bars, hi - 1);
      TravelSumBack(bars, lo, hi - 1 - lo);
    }
  }

  /** The ATR of bar i is the mean travel of the last `period` bars, and absent before there are so many. */
  lemma AtrIsMeanTravel(bars: seq<Bar>, period: nat, i: nat)
    requires period >= 1 && i < |bars| && forall k | 0 <= k < |bars| :: bars[k].low <= bars[k].high
    ensures ComputeAtr(bars, period)[i].Some? <==> i >= period - 1
    ensures i >= period - 1 ==>
              ComputeAtr(bars, period)[i].value * period as real == TravelSum(bars, i - (period - 1), period)
  {
    hide RangeSum, TravelSum, TrueRange, Travel;
    if i >= period - 1 {
      var sum := RangeSum(bars, i + 1 - period, i + 1);
      RangeSumIsTravel(bars, i + 1 - period, i + 1);
      assert ComputeAtr(bars, period)[i] == Some(sum / period as real);
      MeanTimes(sum, period as real);
    }
  }

  lemma MeanTimes(x: real, d: real)
    requires d > 0.0
    ensures x / d * d == x
  {}

  lemma {:induction false} RangeSumOfPrefix(bars: seq<Bar>, m: nat, lo: nat, hi: nat)
    requires lo <= hi <= m <= |bars|
    ensures RangeSum(bars[..m], lo, hi) == RangeSum(bars, lo, hi)
    decreases hi
  {
    if lo < hi {
      RangeSumOfPrefix(bars, m, lo, hi - 1);
    }
  }

  lemma AtrOfPrefix(bars: seq<Bar>, m: nat, period: nat)
    requires m <= |bars| && period >= 1
    ensures ComputeAtr(bars[..m], period) == ComputeAtr(bars, period)[..m]
  {
    forall i: nat | i < m
      ensures AtrAt(bars[..m], period, i) == AtrAt(bars, period, i)
    {
      if i + 1 >= period {
        RangeSumOfPrefix(bars, m, i + 1 - period, i + 1);
      }
    }
  }
}
