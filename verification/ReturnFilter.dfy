/** The previous-period return filter: the research column, its live twin, and their agreement. */
module ReturnFilter {
  import opened Options
  import opened Market

  datatype FilterMode = Continuation | Reversion

  /** Trading days or weeks of the filter. The timezone rules behind them are parameters: `key` numbers
      the period of a time, `isStart` recognises a time at which a period opens. Both programs compare the
      local hour and minute and ignore seconds; here a period has one start, so a bar that opens within
      the minute but after the full minute is not recognised. Bars on whole minutes do not tell. */
  datatype Periods = Periods(key: int -> int, isStart: int -> bool)

  ghost predicate ValidPeriods(c: Periods) {
    && (forall t: int, u: int | t <= u :: c.key(t) <= c.key(u))
    && (forall t: int, u: int | c.isStart(t) && c.key(t) == c.key(u) :: t <= u)
  }

  // ---------- grouping and completed returns, common to both programs ----------

  datatype Group = Group(key: int, firstTime: int, open: real, close: real)

  /** The next bar extends the current period or begins another one. */
  function AddBar(c: Periods, groups: seq<Group>, b: Bar): seq<Group> {
    var n := |groups|;
    if n > 0 && groups[n - 1].key == c.key(b.time)
    then groups[n - 1 := groups[n - 1].(close := b.close)]
    else groups + [Group(c.key(b.time), b.time, b.open, b.close)]
  }

  function GroupsOf(c: Periods, bars: seq<Bar>): seq<Group> {
    if |bars| == 0 then [] else AddBar(c, GroupsOf(c, bars[..|bars| - 1]), bars[|bars| - 1])
  }

  /** log(close / open), kept as the pair of prices: only its sign is ever used, and for positive
      prices that is the sign of close - open. */
  datatype PeriodReturn = Undefined | Ratio(open: real, close: real)

  /** A history that begins inside a period has no return for that period. */
  function ReturnOf(c: Periods, groups: seq<Group>, k: nat): PeriodReturn
    requires k < |groups|
  {
    if k == 0 && !c.isStart(groups[0].firstTime) then Undefined else Ratio(groups[k].open, groups[k].close)
  }

  function Opposite(side: Side): Side { if side.Buy? then Sell else Buy }

  function SideFor(mode: FilterMode, r: PeriodReturn): Option<Side> {
    if r.Undefined? || r.close == r.open then None
    else
      var continuation := if r.close > r.open then Buy else Sell;
      if mode.Continuation? then Some(continuation) else Some(Opposite(continuation))
  }

  // ---------- research: one side per bar ----------

  /** The side of period k comes from the return of the group before it. */
  function PreviousReturn(c: Periods, groups: seq<Group>, k: nat): PeriodReturn
    requires k < |groups|
  {
    if k == 0 then Undefined else ReturnOf(c, groups, k - 1)
  }

  function SideTable(c: Periods, mode: FilterMode, groups: seq<Group>, n: nat): map<int, Option<Side>>
    requires n <= |groups|
  {
    if n == 0 then map[]
    else SideTable(c, mode, groups, n - 1)[groups[n - 1].key := SideFor(mode, PreviousReturn(c, groups, n - 1))]
  }

  function Lookup(table: map<int, Option<Side>>, key: int): Option<Side> {
    if key in table then table[key] else None
  }

  function SideColumn(c: Periods, mode: FilterMode, bars: seq<Bar>): (column: seq<Option<Side>>)
    ensures |column| == |bars|
  {
    var groups := GroupsOf(c, bars);
    var table := SideTable(c, mode, groups, |groups|);
    seq(|bars|, i requires 0 <= i < |bars| => Lookup(table, c.key(bars[i].time)))
  }

  /** A signal passes only when its side is the allowed one. */
  function Gate(signal: Option<Signal>, allowed: Option<Side>): Option<Signal> {
    if signal.Some? && allowed == Some(signal.value.side) then signal else None
  }

  // ---------- live: the latest completed period before now ----------

  datatype Completed = Completed(key: int, ret: PeriodReturn)

  function CompletedReturns(c: Periods, bars: seq<Bar>): seq<Completed> {
    var groups := GroupsOf(c, bars);
    seq(|groups|, k requires 0 <= k < |groups| => Completed(groups[k].key, ReturnOf(c, groups, k)))
  }

  /** The entry with the largest key below the given one. */
  function LatestBefore(table: seq<Completed>, key: int): Option<Completed> {
    if |table| == 0 then None
    else
      var rest, last := LatestBefore(table[..|table| - 1], key), table[|table| - 1];
      if last.key < key && (rest.None? || last.key > rest.value.key) then Some(last) else rest
  }

  datatype Permission = Both | Only(side: Side) | Neither

  function AllowedSide(useFilter: bool, mode: FilterMode, table: seq<Completed>, key: int): Permission {
    if !useFilter then Both
    else
      match LatestBefore(table, key)
      case None => Neither
      case Some(entry) =>
        match SideFor(mode, entry.ret)
        case None => Neither
        case Some(side) => Only(side)
  }

  function PermissionOf(side: Option<Side>): Permission {
    match side
    case None => Neither
    case Some(s) => Only(s)
  }

  // ---------- what both compute ----------

  /** How many leading bars belong to periods before the given one. */
  function EarlierCount(c: Periods, bars: seq<Bar>, key: int): (n: nat)
    ensures n <= |bars|
  {
    if |bars| == 0 then 0
    else if c.key(bars[|bars| - 1].time) < key then |bars|
    else EarlierCount(c, bars[..|bars| - 1], key)
  }

  lemma {:induction false} EarlierCountIs(c: Periods, bars: seq<Bar>, key: int, n: nat)
    requires n <= |bars| && (n > 0 ==> c.key(bars[n - 1].time) < key)
    requires forall i | n <= i < |bars| :: c.key(bars[i].time) >= key
    ensures EarlierCount(c, bars, key) == n
  {
    if n < |bars| {
      EarlierCountIs(c, bars[..|bars| - 1], key, n);
    }
  }

  lemma {:induction false} EarlierCountSplits(c: Periods, bars: seq<Bar>, key: int)
    requires ValidPeriods(c) && IncreasingTimes(bars)
    ensures forall i | 0 <= i < |bars| :: c.key(bars[i].time) < key <==> i < EarlierCount(c, bars, key)
  {
    if |bars| > 0 {
      var front := bars[..|bars| - 1];
      EarlierCountSplits(c, front, key);
      forall i | 0 <= i < |bars|
        ensures c.key(bars[i].time) < key <==> i < EarlierCount(c, bars, key)
      {
        if i < |front| {
          assert front[i] == bars[i];
          assert c.key(bars[i].time) <= c.key(bars[|bars| - 1].time);
        }
      }
    }
  }

  /** The first bar of the latest period before the given one. */
  function PreviousStart(c: Periods, bars: seq<Bar>, key: int): nat
    requires EarlierCount(c, bars, key) > 0
  {
    EarlierCount(c, bars, c.key(bars[EarlierCount(c, bars, key) - 1].time))
  }

  /** The definition: the side that the latest earlier period's first open and last close imply, if
      the history is known to hold that period from its start. */
  function PeriodSide(c: Periods, mode: FilterMode, bars: seq<Bar>, key: int): Option<Side> {
    var n := EarlierCount(c, bars, key);
    if n == 0 then None
    else
      var first := PreviousStart(c, bars, key);
      if first >= |bars| || (first == 0 && !c.isStart(bars[0].time)) then None
      else SideFor(mode, Ratio(bars[first].open, bars[n - 1].close))
  }

  // ---------- groups are runs of bars ----------

  /** Group p is the run of bars from cuts[p] up to cuts[p + 1]. */
  ghost predicate CutsMatch(c: Periods, bars: seq<Bar>, groups: seq<Group>, cuts: seq<nat>) {
    && |cuts| == |groups| + 1 && cuts[0] == 0 && cuts[|groups|] == |bars|
    && (forall p, q | 0 <= p < q <= |groups| :: cuts[p] < cuts[q])
    && (forall p | 0 <= p < |groups| :: GroupIsRun(c, bars, groups[p], cuts[p], cuts[p + 1]))
    && (forall p, q | 0 <= p < q < |groups| :: groups[p].key < groups[q].key)
  }

  ghost predicate GroupIsRun(c: Periods, bars: seq<Bar>, g: Group, lo: nat, hi: nat) {
    && lo < hi <= |bars|
    && g.firstTime == bars[lo].time && g.open == bars[lo].open && g.close == bars[hi - 1].close
    && g.key == c.key(bars[lo].time) && g.key == c.key(bars[hi - 1].time)
  }

  lemma {:induction false} GroupsAreRuns(c: Periods, bars: seq<Bar>) returns (cuts: seq<nat>)
    requires ValidPeriods(c) && IncreasingTimes(bars)
    ensures CutsMatch(c, bars, GroupsOf(c, bars), cuts)
  {
    if |bars| == 0 {
      cuts := [0];
    } else {
      var front, b := bars[..|bars| - 1], bars[|bars| - 1];
      var before := GroupsAreRuns(c, front);
      var groups := GroupsOf(c, front);
      var n := |groups|;
      LastKeyIsNotLater(c, bars, groups, before);
      if n > 0 && groups[n - 1].key == c.key(b.time) {
        cuts := before[..n] + [|bars|];
        ExtendLastRun(c, bars, groups, before);
      } else {
        cuts := before + [|bars|];
        BeginRun(c, bars, groups, before);
      }
    }
  }

  lemma LastKeyIsNotLater(c: Periods, bars: seq<Bar>, groups: seq<Group>, before: seq<nat>)
    requires ValidPeriods(c) && IncreasingTimes(bars) && |bars| > 0 && CutsMatch(c, bars[..|bars| - 1], groups, before)
    ensures |groups| > 0 ==> groups[|groups| - 1].key <= c.key(bars[|bars| - 1].time)
  {
    var n, front := |groups|, bars[..|bars| - 1];
    if n > 0 {
      assert GroupIsRun(c, front, groups[n - 1], before[n - 1], before[n]);
      assert c.key(front[before[n] - 1].time) <= c.key(bars[|bars| - 1].time);
    }
  }

  lemma BeginRun(c: Periods, bars: seq<Bar>, groups: seq<Group>, before: seq<nat>)
    requires |bars| > 0 && CutsMatch(c, bars[..|bars| - 1], groups, before)
    requires |groups| > 0 ==> groups[|groups| - 1].key < c.key(bars[|bars| - 1].time)
    ensures CutsMatch(c, bars, AddBar(c, groups, bars[|bars| - 1]), before + [|bars|])
  {
    var n, b := |groups|, bars[|bars| - 1];
    var r, cuts := AddBar(c, groups, b), before + [|bars|];
    assert r == groups + [Group(c.key(b.time), b.time, b.open, b.close)];
    RunsStay(c, bars, groups, before);
    forall p | 0 <= p < n
      ensures r[p].key < r[n].key
    {
      assert p < n - 1 ==> groups[p].key < groups[n - 1].key;
    }
  }

  lemma RunsStay(c: Periods, bars: seq<Bar>, groups: seq<Group>, before: seq<nat>)
    requires |bars| > 0 && CutsMatch(c, bars[..|bars| - 1], groups, before)
    ensures forall p | 0 <= p < |groups| :: GroupIsRun(c, bars, groups[p], before[p], before[p + 1])
  {
    forall p | 0 <= p < |groups|
      ensures GroupIsRun(c, bars, groups[p], before[p], before[p + 1])
    {
      assert GroupIsRun(c, bars[..|bars| - 1], groups[p], before[p], before[p + 1]);
    }
  }

  lemma ExtendLastRun(c: Periods, bars: seq<Bar>, groups: seq<Group>, before: seq<nat>)
    requires |bars| > 0 && |groups| > 0 && CutsMatch(c, bars[..|bars| - 1], groups, before)
    requires groups[|groups| - 1].key == c.key(bars[|bars| - 1].time)
    ensures CutsMatch(c, bars, AddBar(c, groups, bars[|bars| - 1]), before[..|groups|] + [|bars|])
  {
    RunsStay(c, bars, groups, before);
    var n, b := |groups|, bars[|bars| - 1];
    var r, cuts := AddBar(c, groups, b), before[..n] + [|bars|];
    forall p | 0 <= p < n
      ensures GroupIsRun(c, bars, r[p], cuts[p], cuts[p + 1])
    {
      assert GroupIsRun(c, bars, groups[p], before[p], before[p + 1]);
    }
    forall p, q | 0 <= p < q <= n
      ensures cuts[p] < cuts[q]
    {
      assert before[p] < before[n] || q < n;
    }
  }

  lemma {:induction false} RunOf(cuts: seq<nat>, n: nat, i: nat) returns (p: nat)
    requires |cuts| == n + 1 && cuts[0] <= i < cuts[n]
    ensures p < n && cuts[p] <= i < cuts[p + 1]
  {
    p := 0;
    while cuts[p + 1] <= i
      invariant p < n && cuts[p] <= i
      decreases n - p
    {
      p := p + 1;
    }
  }

  /** Counting the bars before group p's period stops exactly at its first bar. */
  lemma CountToCut(c: Periods, bars: seq<Bar>, groups: seq<Group>, cuts: seq<nat>, p: nat)
    requires ValidPeriods(c) && IncreasingTimes(bars) && CutsMatch(c, bars, groups, cuts) && p < |groups|
    ensures EarlierCount(c, bars, groups[p].key) == cuts[p]
  {
    assert GroupIsRun(c, bars, groups[p], cuts[p], cuts[p + 1]);
    if p > 0 {
      assert GroupIsRun(c, bars, groups[p - 1], cuts[p - 1], cuts[p]);
    }
    forall i | cuts[p] <= i < |bars|
      ensures c.key(bars[i].time) >= groups[p].key
    {
      assert bars[cuts[p]].time <= bars[i].time;
    }
    EarlierCountIs(c, bars, groups[p].key, cuts[p]);
  }

  /** The definition, for a period whose predecessors end with group p. */
  lemma SideAfterGroup(c: Periods, mode: FilterMode, bars: seq<Bar>, cuts: seq<nat>, p: nat, key: int)
    requires ValidPeriods(c) && IncreasingTimes(bars) && CutsMatch(c, bars, GroupsOf(c, bars), cuts)
    requires p < |GroupsOf(c, bars)| && EarlierCount(c, bars, key) == cuts[p + 1]
    ensures PeriodSide(c, mode, bars, key) == SideFor(mode, ReturnOf(c, GroupsOf(c, bars), p))
  {
    hide EarlierCount, GroupsOf, SideFor;
    var groups := GroupsOf(c, bars);
    assert GroupIsRun(c, bars, groups[p], cuts[p], cuts[p + 1]);
    assert GroupIsRun(c, bars, groups[0], cuts[0], cuts[1]);
    CountToCut(c, bars, groups, cuts, p);
    assert PreviousStart(c, bars, key) == cuts[p];
    assert p > 0 ==> cuts[0] < cuts[p];
    UndefinedHasNoSide(mode);
  }

  lemma UndefinedHasNoSide(mode: FilterMode)
    ensures SideFor(mode, Undefined) == None
  {}

  // ---------- research computes the definition ----------

  lemma {:induction false} TableEntry(c: Periods, mode: FilterMode, groups: seq<Group>, n: nat, p: nat)
    requires p < n <= |groups| && forall i, j | 0 <= i < j < |groups| :: groups[i].key < groups[j].key
    ensures Lookup(SideTable(c, mode, groups, n), groups[p].key) == SideFor(mode, PreviousReturn(c, groups, p))
  {
    if p < n - 1 {
      TableEntry(c, mode, groups, n - 1, p);
      assert groups[p].key < groups[n - 1].key;
    }
  }

  /** The research column at bar i is the defined side of bar i's period. */
  lemma ResearchMatchesDefinition(c: Periods, mode: FilterMode, bars: seq<Bar>, i: nat)
    requires ValidPeriods(c) && IncreasingTimes(bars) && i < |bars|
    ensures SideColumn(c, mode, bars)[i] == PeriodSide(c, mode, bars, c.key(bars[i].time))
  {
    hide SideFor, SideTable, GroupsOf, EarlierCount;
    var cuts := GroupsAreRuns(c, bars);
    var groups := GroupsOf(c, bars);
    var p := RunOf(cuts, |groups|, i);
    var key := c.key(bars[i].time);
    assert GroupIsRun(c, bars, groups[p], cuts[p], cuts[p + 1]);
    assert bars[cuts[p]].time <= bars[i].time <= bars[cuts[p + 1] - 1].time;
    assert key == groups[p].key;
    TableEntry(c, mode, groups, |groups|, p);
    CountToCut(c, bars, groups, cuts, p);
    UndefinedHasNoSide(mode);
    if p > 0 {
      SideAfterGroup(c, mode, bars, cuts, p - 1, key);
    }
  }

  // ---------- live computes the definition ----------

  lemma {:induction false} LatestIs(table: seq<Completed>, key: int, n: nat)
    requires n <= |table| && forall i, j | 0 <= i < j < |table| :: table[i].key < table[j].key
    requires forall i | 0 <= i < |table| :: table[i].key < key <==> i < n
    ensures LatestBefore(table, key) == if n == 0 then None else Some(table[n - 1])
  {
    if |table| > 0 {
      var front := table[..|table| - 1];
      LatestIs(front, key, if n < |table| then n else n - 1);
    }
  }

  /** How many leading groups belong to periods before the given one. */
  lemma GroupsBefore(c: Periods, bars: seq<Bar>, groups: seq<Group>, cuts: seq<nat>, key: int) returns (n: nat)
    requires ValidPeriods(c) && IncreasingTimes(bars) && CutsMatch(c, bars, groups, cuts)
    ensures n <= |groups| && EarlierCount(c, bars, key) == cuts[n]
    ensures forall p | 0 <= p < |groups| :: groups[p].key < key <==> p < n
  {
    EarlierCountSplits(c, bars, key);
    n := 0;
    while n < |groups| && groups[n].key < key
      invariant n <= |groups| && forall p | 0 <= p < n :: groups[p].key < key
    {
      n := n + 1;
    }
    forall p | n <= p < |groups|
      ensures groups[p].key >= key
    {
      assert n < p ==> groups[n].key < groups[p].key;
    }
    if n > 0 {
      assert GroupIsRun(c, bars, groups[n - 1], cuts[n - 1], cuts[n]);
      assert cuts[n] - 1 < EarlierCount(c, bars, key);
    }
    if n < |groups| {
      assert GroupIsRun(c, bars, groups[n], cuts[n], cuts[n + 1]);
      assert cuts[n] >= EarlierCount(c, bars, key);
    }
  }

  lemma NoEarlierNoSide(c: Periods, mode: FilterMode, bars: seq<Bar>, key: int)
    ensures EarlierCount(c, bars, key) == 0 ==> PeriodSide(c, mode, bars, key) == None
  {
    hide EarlierCount;
  }

  /** The live permission is the defined side of the current period in the bars it was shown. */
  lemma LiveMatchesDefinition(c: Periods, mode: FilterMode, bars: seq<Bar>, key: int)
    requires ValidPeriods(c) && IncreasingTimes(bars)
    ensures AllowedSide(true, mode, CompletedReturns(c, bars), key) == PermissionOf(PeriodSide(c, mode, bars, key))
  {
    hide SideFor, GroupsOf, EarlierCount, LatestBefore, PeriodSide, ReturnOf, GroupIsRun, ValidPeriods;
    var cuts := GroupsAreRuns(c, bars);
    var groups := GroupsOf(c, bars);
    var n := GroupsBefore(c, bars, groups, cuts, key);
    LatestIs(CompletedReturns(c, bars), key, n);
    NoEarlierNoSide(c, mode, bars, key);
    if n > 0 {
      SideAfterGroup(c, mode, bars, cuts, n - 1, key);
    }
  }

  // ---------- windows of a history ----------

  /** The window shows the previous period from its first bar, and that bar proves it. */
  predicate HoldsPreviousPeriod(c: Periods, history: seq<Bar>, a: nat, key: int)
    requires a <= |history|
  {
    EarlierCount(c, history, key) > 0 &&
    var first := PreviousStart(c, history, key);
    a < first || (a == first < |history| && c.isStart(history[a].time))
  }

  /** Counting in a window that reaches past every earlier bar. */
  lemma CountInWindow(c: Periods, history: seq<Bar>, a: nat, b: nat, key: int)
    requires ValidPeriods(c) && IncreasingTimes(history) && a <= b <= |history|
    requires EarlierCount(c, history, key) <= b
    ensures var n := EarlierCount(c, history, key);
            EarlierCount(c, history[a..b], key) == if n > a then n - a else 0
  {
    hide EarlierCount;
    EarlierCountSplits(c, history, key);
    var n := EarlierCount(c, history, key);
    var w := history[a..b];
    var m := if n > a then n - a else 0;
    assert m > 0 ==> w[m - 1] == history[n - 1];
    forall i | m <= i < |w|
      ensures c.key(w[i].time) >= key
    {
      assert w[i] == history[a + i];
    }
    EarlierCountIs(c, w, key, m);
  }

  /** A window that holds every earlier-period bar up to its end either stays silent or gives the
      full history's side, and it gives it exactly when it provably holds the previous period. */
  lemma {:induction false} WindowSide(c: Periods, mode: FilterMode, history: seq<Bar>, a: nat, b: nat, key: int)
    requires ValidPeriods(c) && IncreasingTimes(history) && a <= b <= |history|
    requires EarlierCount(c, history, key) <= b
    ensures var w, h := PeriodSide(c, mode, history[a..b], key), PeriodSide(c, mode, history, key);
            && (w.None? || w == h)
            && (w == h <==> h.None? || HoldsPreviousPeriod(c, history, a, key))
  {
    hide EarlierCount, SideFor;
    CountInWindow(c, history, a, b, key);
    var n := EarlierCount(c, history, key);
    var w := history[a..b];
    EarlierCountSplits(c, history, key);
    if n > 0 {
      var pk := c.key(history[n - 1].time);
      var first := PreviousStart(c, history, key);
      EarlierCountSplits(c, history, pk);
      assert first <= n - 1;
      if n > a {
        assert w[n - a - 1] == history[n - 1];
        CountInWindow(c, history, a, b, pk);
        assert PreviousStart(c, w, key) == if first > a then first - a else 0;
        if first < a {
          assert c.key(history[first].time) == pk by {
            assert c.key(history[first].time) <= c.key(history[n - 1].time);
          }
          assert c.key(history[a].time) == pk by {
            assert c.key(history[first].time) <= c.key(history[a].time) <= c.key(history[n - 1].time);
          }
          assert !c.isStart(history[a].time);
        }
      }
    }
  }

  /** Live refines research. Shown any suffix window of a history that holds every bar of the periods
      before now, the live filter allows nothing or exactly the side that research computes for the
      current period on the full history; and it withholds a research side exactly when the window
      does not hold the previous period from its recognised start. */
  lemma LiveRefinesResearch(c: Periods, mode: FilterMode, history: seq<Bar>, a: nat, b: nat, now: int, i: nat)
    requires ValidPeriods(c) && IncreasingTimes(history) && a <= b <= |history|
    requires forall j | b <= j < |history| :: c.key(history[j].time) >= c.key(now)
    requires i < |history| && c.key(history[i].time) == c.key(now)
    ensures var live := AllowedSide(true, mode, CompletedReturns(c, history[a..b]), c.key(now));
            var research := SideColumn(c, mode, history)[i];
            && (live == Neither || live == PermissionOf(research))
            && (live == PermissionOf(research) <==> research.None? || HoldsPreviousPeriod(c, history, a, c.key(now)))
  {
    hide AllowedSide, SideColumn, CompletedReturns, PeriodSide, HoldsPreviousPeriod, EarlierCount;
    ResearchMatchesDefinition(c, mode, history, i);
    LiveMatchesDefinition(c, mode, history[a..b], c.key(now));
    EarlierCountSplits(c, history, c.key(now));
    var n := EarlierCount(c, history, c.key(now));
    assert n > 0 ==> c.key(history[n - 1].time) < c.key(now);
    WindowSide(c, mode, history, a, b, c.key(now));
  }

  /** Cutting the history anywhere after the earlier periods keeps the side. */
  lemma {:induction false} SideOfPrefix(c: Periods, mode: FilterMode, bars: seq<Bar>, m: nat, key: int)
    requires ValidPeriods(c) && IncreasingTimes(bars) && EarlierCount(c, bars, key) <= m <= |bars|
    ensures PeriodSide(c, mode, bars[..m], key) == PeriodSide(c, mode, bars, key)
  {
    hide EarlierCount, SideFor;
    assert bars[0..m] == bars[..m];
    WindowSide(c, mode, bars, 0, m, key);
  }

  /** Research and live both depend only on bars of earlier periods: two histories with the same
      earlier-period bars give the same sides, whatever follows. */
  lemma OnlyEarlierPeriodsMatter(c: Periods, mode: FilterMode, bars: seq<Bar>, other: seq<Bar>, key: int)
    requires ValidPeriods(c) && IncreasingTimes(bars) && IncreasingTimes(other)
    requires bars[..EarlierCount(c, bars, key)] == other[..EarlierCount(c, other, key)]
    ensures AllowedSide(true, mode, CompletedReturns(c, bars), key) == AllowedSide(true, mode, CompletedReturns(c, other), key)
    ensures forall i, j | 0 <= i < |bars| && 0 <= j < |other| && c.key(bars[i].time) == key == c.key(other[j].time) ::
              SideColumn(c, mode, bars)[i] == SideColumn(c, mode, other)[j]
  {
    hide EarlierCount, SideFor, AllowedSide, SideColumn, CompletedReturns, PeriodSide;
    SideOfPrefix(c, mode, bars, EarlierCount(c, bars, key), key);
    SideOfPrefix(c, mode, other, EarlierCount(c, other, key), key);
    LiveMatchesDefinition(c, mode, bars, key);
    LiveMatchesDefinition(c, mode, other, key);
    forall i, j | 0 <= i < |bars| && 0 <= j < |other| && c.key(bars[i].time) == key == c.key(other[j].time)
      ensures SideColumn(c, mode, bars)[i] == SideColumn(c, mode, other)[j]
    {
      ResearchMatchesDefinition(c, mode, bars, i);
      ResearchMatchesDefinition(c, mode, other, j);
    }
  }

  // ---------- returns that were not refreshed ----------

  /** Bars at least `gap` seconds apart, as on a chart of that period. */
  ghost predicate SpacedTimes(bars: seq<Bar>, gap: int) {
    forall i, j | 0 <= i < j < |bars| :: bars[i].time + gap <= bars[j].time
  }

  /** In every history of bars that far apart that extends the window, at either end, the window's
      permission is silent or the research side. */
  ghost predicate TracksEveryHistory(c: Periods, mode: FilterMode, window: seq<Bar>, gap: int, now: int) {
    forall pre: seq<Bar>, post: seq<Bar> :: Tracks(c, mode, pre, window, post, gap, now)
  }

  ghost predicate Tracks(
      c: Periods, mode: FilterMode, pre: seq<Bar>, window: seq<Bar>, post: seq<Bar>, gap: int, now: int)
  {
    SpacedTimes(pre + window + post, gap) ==>
      var p := AllowedSide(true, mode, CompletedReturns(c, window), c.key(now));
      p == Neither || p == PermissionOf(PeriodSide(c, mode, pre + window + post, c.key(now)))
  }

  /** Exactly when stored returns may still be used, for bars of any period: a window tracks research in
      every history that extends it if and only if it permits nothing, or no bar of an earlier period than
      that of `now` can follow its last bar. */
  lemma StoredReturnsTrackExactlyWhen(c: Periods, mode: FilterMode, window: seq<Bar>, gap: int, now: int)
    requires ValidPeriods(c) && gap >= 1 && SpacedTimes(window, gap) && |window| > 0
    ensures TracksEveryHistory(c, mode, window, gap, now)
            <==> AllowedSide(true, mode, CompletedReturns(c, window), c.key(now)) == Neither
                 || c.key(window[|window| - 1].time + gap) >= c.key(now)
  {
    hide AllowedSide, CompletedReturns, PeriodSide, SpacedTimes;
    var last := window[|window| - 1].time;
    if c.key(last + gap) >= c.key(now) {
      forall pre: seq<Bar>, post: seq<Bar>
        ensures Tracks(c, mode, pre, window, post, gap, now)
      {
        if SpacedTimes(pre + window + post, gap) {
          NothingMissing(c, mode, pre, window, post, gap, now);
        }
      }
    } else if AllowedSide(true, mode, CompletedReturns(c, window), c.key(now)) != Neither {
      FlatPeriodSilencesResearch(c, mode, window, gap, now);
    }
  }

  lemma NothingMissing(
      c: Periods, mode: FilterMode, pre: seq<Bar>, window: seq<Bar>, post: seq<Bar>, gap: int, now: int)
    requires ValidPeriods(c) && |window| > 0 && gap >= 1 && SpacedTimes(pre + window + post, gap)
    requires c.key(window[|window| - 1].time + gap) >= c.key(now)
    ensures Tracks(c, mode, pre, window, post, gap, now)
  {
    hide AllowedSide, CompletedReturns, PeriodSide, EarlierCount;
    var history, key := pre + window + post, c.key(now);
    var a, b := |pre|, |pre| + |window|;
    assert history[a..b] == window;
    assert history[b - 1] == window[|window| - 1];
    EarlierCountSplits(c, history, key);
    var n := EarlierCount(c, history, key);
    forall j | b <= j < |history|
      ensures c.key(history[j].time) >= key
    {
      assert c.key(history[b - 1].time + gap) <= c.key(history[j].time);
    }
    assert b < |history| ==> c.key(history[b].time) >= key;
    WindowIsIncreasing(history, a, b);
    LiveMatchesDefinition(c, mode, window, key);
    WindowSide(c, mode, history, a, b, key);
  }

  lemma WindowIsIncreasing(history: seq<Bar>, a: nat, b: nat)
    requires IncreasingTimes(history) && a <= b <= |history|
    ensures IncreasingTimes(history[a..b])
  {}

  /** One missing bar that ends the latest earlier period where it opened leaves research without a side. */
  lemma FlatPeriodSilencesResearch(c: Periods, mode: FilterMode, window: seq<Bar>, gap: int, now: int)
    requires ValidPeriods(c) && gap >= 1 && SpacedTimes(window, gap) && |window| > 0
    requires c.key(window[|window| - 1].time + gap) < c.key(now)
    requires AllowedSide(true, mode, CompletedReturns(c, window), c.key(now)) != Neither
    ensures !TracksEveryHistory(c, mode, window, gap, now)
  {
    hide AllowedSide, CompletedReturns, EarlierCount;
    var n, t := |window|, window[|window| - 1].time + gap;
    var pk, first := c.key(t), EarlierCount(c, window, c.key(t));
    EarlierCountSplits(c, window, pk);
    var price := if first < n then window[first].open else 1.0;
    var post := [Bar(t, price, price, price, price)];
    var history := [] + window + post;
    assert history == window + post;
    assert SpacedTimes(history, gap) by { AppendLater(window, post[0], gap); }
    PeriodsAscend(c, window, t);
    EarlierCountIs(c, history, c.key(now), n + 1);
    forall i | first <= i < |history|
      ensures c.key(history[i].time) >= pk
    {
      assert i < n ==> history[i] == window[i];
    }
    assert first > 0 ==> history[first - 1] == window[first - 1];
    EarlierCountIs(c, history, pk, first);
    assert PeriodSide(c, mode, history, c.key(now)) == None;
    assert !Tracks(c, mode, [], window, post, gap, now);
  }

  lemma AppendLater(window: seq<Bar>, b: Bar, gap: int)
    requires gap >= 1 && SpacedTimes(window, gap) && |window| > 0 && window[|window| - 1].time + gap <= b.time
    ensures SpacedTimes(window + [b], gap)
  {
    var n := |window|;
    forall i | 0 <= i < n
      ensures window[i].time + gap <= b.time
    {
      assert i < n - 1 ==> window[i].time < window[n - 1].time;
    }
  }

  lemma PeriodsAscend(c: Periods, window: seq<Bar>, t: int)
    requires ValidPeriods(c) && IncreasingTimes(window) && |window| > 0 && window[|window| - 1].time < t
    ensures forall i | 0 <= i < |window| :: c.key(window[i].time) <= c.key(t)
  {
    forall i | 0 <= i < |window|
      ensures c.key(window[i].time) <= c.key(t)
    {
      assert i < |window| - 1 ==> window[i].time < window[|window| - 1].time;
    }
  }
}
