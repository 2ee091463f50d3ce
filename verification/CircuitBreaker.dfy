/** The owner broker's reconnect state machine: capped exponential backoff, then an open circuit. */
module CircuitBreaker {
  import opened Options

  // ---------- policy ----------

  datatype RetryPolicy = RetryPolicy(
    attempts: int, initialBackoff: real, multiplier: real, maxBackoff: real, cooldown: real)

  datatype PolicyError = AttemptsBelowOne | NegativeDuration | MultiplierBelowOne

  function Validate(p: RetryPolicy): Option<PolicyError> {
    if p.attempts < 1 then Some(AttemptsBelowOne)
    else if p.initialBackoff < 0.0 || p.maxBackoff < 0.0 || p.cooldown < 0.0 then Some(NegativeDuration)
    else if p.multiplier < 1.0 then Some(MultiplierBelowOne)
    else None
  }

  predicate ValidPolicy(p: RetryPolicy) { Validate(p).None? }

  function Power(base: real, n: nat): real { if n == 0 then 1.0 else base * Power(base, n - 1) }

  /** The delay after the given failed attempt, counted from one. */
  function ReconnectDelay(p: RetryPolicy, failed: int): real {
    var raw := p.initialBackoff * Power(p.multiplier, if failed > 1 then failed - 1 else 0);
    if raw <= p.maxBackoff then raw else p.maxBackoff
  }

  /** At least one attempt, no negative duration, no shrinking delay. */
  lemma PolicyIsValidExactlyWhen(p: RetryPolicy)
    ensures ValidPolicy(p) <==> p.attempts > 0 && MinOf(p.initialBackoff, p.maxBackoff, p.cooldown) >= 0.0 && p.multiplier - 1.0 >= 0.0
    ensures Validate(p) == Some(AttemptsBelowOne) <==> p.attempts <= 0
    ensures Validate(p) == Some(MultiplierBelowOne) ==> p.multiplier - 1.0 < 0.0
  {}

  function MinOf(a: real, b: real, c: real): real { if a <= b && a <= c then a else if b <= c then b else c }

  /** Delays grow exponentially from the initial backoff: each is the one before times the multiplier, until
      the cap is reached. */
  lemma {:induction false} DelaysAreExponential(p: RetryPolicy, failed: int)
    requires ValidPolicy(p) && failed >= 1
    ensures ReconnectDelay(p, 1) == if p.initialBackoff < p.maxBackoff then p.initialBackoff else p.maxBackoff
    ensures var grown := ReconnectDelay(p, failed) * p.multiplier;
            ReconnectDelay(p, failed + 1) == if grown < p.maxBackoff then grown else p.maxBackoff
  {
    FirstAndNextRaw(p, failed);
    CapBeforeGrowing(RawDelay(p, failed), p.multiplier, p.maxBackoff);
    hide RawDelay;
  }

  /** The delay before it is capped. */
  function RawDelay(p: RetryPolicy, failed: int): real { p.initialBackoff * Power(p.multiplier, if failed > 1 then failed - 1 else 0) }

  lemma FirstAndNextRaw(p: RetryPolicy, failed: int)
    requires failed >= 1
    ensures RawDelay(p, 1) == p.initialBackoff && RawDelay(p, failed + 1) == RawDelay(p, failed) * p.multiplier
  {
    var x := Power(p.multiplier, failed - 1);
    assert Power(p.multiplier, failed) == p.multiplier * x && Power(p.multiplier, 0) == 1.0;
    assert p.initialBackoff * (p.multiplier * x) == p.initialBackoff * x * p.multiplier;
  }

  lemma CapBeforeGrowing(raw: real, m: real, cap: real)
    requires m >= 1.0 && cap >= 0.0
    ensures raw > cap ==> raw * m >= cap && cap * m >= cap
  {
    if raw > cap {
      assert raw * (m - 1.0) >= 0.0 && cap * (m - 1.0) >= 0.0;
    }
  }

  /** Delays never shrink, never exceed the cap, and are never negative. */
  lemma {:induction false} DelaysGrowToTheCap(p: RetryPolicy, failed: int)
    requires ValidPolicy(p) && failed >= 1
    ensures 0.0 <= ReconnectDelay(p, failed) <= ReconnectDelay(p, failed + 1) <= p.maxBackoff
  {
    PowerIsAtLeastOne(p.multiplier, failed - 1);
    var x, y := Power(p.multiplier, failed - 1), Power(p.multiplier, failed);
    assert y == p.multiplier * x;
    ScaleUp(p.multiplier, x);
    ScaleBoth(p.initialBackoff, x, y);
  }

  lemma {:induction false} PowerIsAtLeastOne(base: real, n: nat)
    requires base >= 1.0
    ensures Power(base, n) >= 1.0
  {
    if n > 0 {
      PowerIsAtLeastOne(base, n - 1);
      ScaleUp(base, Power(base, n - 1));
    }
  }

  lemma ScaleUp(m: real, x: real)
    requires m >= 1.0 && x >= 0.0
    ensures m * x >= x
  {
    assert (m - 1.0) * x >= 0.0;
  }

  lemma ScaleBoth(m: real, x: real, y: real)
    requires m >= 0.0 && 0.0 <= x <= y
    ensures 0.0 <= m * x <= m * y
  {
    assert m * (y - x) >= 0.0;
  }

  // ---------- the state machine ----------

  datatype Connection = Disconnected | Connected | Reconnecting | CircuitOpen

  datatype Link = Link(connection: Connection, failures: nat, nextAt: real, required: bool)

  const FRESH: Link := Link(Disconnected, 0, 0.0, false)

  datatype Outcome = Outcome(link: Link, attempted: bool, connected: bool)

  /** One initialisation attempt at `now` from a link whose half-open reset is already done. */
  function Attempt(l: Link, p: RetryPolicy, now: real, succeeds: bool): Link {
    if succeeds then Link(Connected, 0, 0.0, false)
    else if l.failures + 1 >= p.attempts then Link(CircuitOpen, l.failures + 1, now + p.cooldown, l.required)
    else Link(Disconnected, l.failures + 1, now + ReconnectDelay(p, l.failures + 1), l.required)
  }

  /** ensure_connection: advances at most one attempt. */
  function Ensure(l: Link, p: RetryPolicy, now: real, healthy: bool, succeeds: bool): Outcome {
    if !l.required && healthy then Outcome(l.(connection := Connected, failures := 0, nextAt := 0.0), false, true)
    else
      var lost := if l.connection.Connected? then l.(connection := Disconnected, nextAt := now) else l;
      if now < lost.nextAt then Outcome(lost, false, false)
      else
        var ready := if lost.connection.CircuitOpen? then lost.(connection := Disconnected, failures := 0) else lost;
        Outcome(Attempt(ready, p, now, succeeds), true, succeeds)
  }

  /** A trade request that the server refused for lack of connection. */
  function TradeLoss(l: Link, now: real): Link { l.(required := true, connection := Disconnected, nextAt := now) }

  class Broker {
    const policy: RetryPolicy
    var link: Link

    constructor (policy: RetryPolicy)
      requires ValidPolicy(policy)
      ensures this.policy == policy && link == FRESH
    {
      this.policy := policy;
      link := FRESH;
    }

    method EnsureConnection(now: real, healthy: bool, succeeds: bool) returns (connected: bool, attempted: bool)
      modifies this
      ensures Outcome(link, attempted, connected) == Ensure(old(link), policy, now, healthy, succeeds)
    {
      attempted := false;
      if !link.required && healthy {
        link := link.(connection := Connected, failures := 0, nextAt := 0.0);
        return true, false;
      }
      if link.connection.Connected? {
        link := link.(connection := Disconnected, nextAt := now);
      }
      if now < link.nextAt {
        return false, false;
      }
      if link.connection.CircuitOpen? {
        link := link.(connection := Disconnected, failures := 0);
      }
      link := link.(connection := Reconnecting);
      attempted := true;
      if succeeds {
        link := Link(Connected, 0, 0.0, false);
        return true, true;
      }
      link := link.(failures := link.failures + 1);
      if link.failures >= policy.attempts {
        link := link.(connection := CircuitOpen, nextAt := now + policy.cooldown);
        return false, true;
      }
      link := link.(connection := Disconnected, nextAt := now + ReconnectDelay(policy, link.failures));
      return false, true;
    }

    method RequireReconnect(now: real)
      modifies this
      ensures link == TradeLoss(old(link), now)
    {
      link := link.(required := true);
      link := link.(connection := Disconnected, nextAt := now);
    }
  }

  // ---------- invariant over every run ----------

  /** A required reconnect is never hidden by CONNECTED; the attempt limit is reached only with the
      circuit open; a connected link has no failures on record. */
  predicate LinkInv(l: Link, p: RetryPolicy) {
    && (l.required ==> !l.connection.Connected?)
    && (l.failures <= p.attempts)
    && (l.failures == p.attempts <==> l.connection.CircuitOpen?)
    && (l.connection.Connected? ==> l.failures == 0)
    && !l.connection.Reconnecting?
  }

  datatype Event = EnsureAt(now: real, healthy: bool, succeeds: bool) | TradeLossAt(now: real)

  function AfterEvent(l: Link, p: RetryPolicy, e: Event): Link {
    match e
    case EnsureAt(now, healthy, succeeds) => Ensure(l, p, now, healthy, succeeds).link
    case TradeLossAt(now) => if l.connection.Connected? then TradeLoss(l, now) else l   // orders need a connected link
  }

  function AfterEvents(p: RetryPolicy, events: seq<Event>): Link {
    if |events| == 0 then FRESH else AfterEvent(AfterEvents(p, events[..|events| - 1]), p, events[|events| - 1])
  }

  lemma {:induction false} EveryRunKeepsLinkInv(p: RetryPolicy, events: seq<Event>)
    requires ValidPolicy(p)
    ensures LinkInv(AfterEvents(p, events), p)
  {
    hide ReconnectDelay;
    if |events| > 0 {
      EveryRunKeepsLinkInv(p, events[..|events| - 1]);
    }
  }

  // ---------- timing of an unbroken outage ----------

  /** The wait enforced after an attempt that left the given failure count. */
  function Gap(p: RetryPolicy, failures: nat): real {
    if failures >= p.attempts then p.cooldown else ReconnectDelay(p, failures)
  }

  /** The failure count after one more failed attempt. */
  function NextCount(p: RetryPolicy, failures: nat): nat { if failures >= p.attempts then 1 else failures + 1 }

  /** Sum of the enforced waits over n consecutive attempts, starting after an attempt at the given count. */
  function GapSum(p: RetryPolicy, failures: nat, n: nat): real
    decreases n
  {
    if n == 0 then 0.0 else Gap(p, failures) + GapSum(p, NextCount(p, failures), n - 1)
  }

  /** D: the sum of the capped delays after failures 1 .. k. */
  function DelaySum(p: RetryPolicy, k: nat): real {
    if k == 0 then 0.0 else DelaySum(p, k - 1) + ReconnectDelay(p, k)
  }

  function CycleTime(p: RetryPolicy): real
    requires ValidPolicy(p)
  {
    DelaySum(p, p.attempts - 1) + p.cooldown
  }

  lemma {:induction false} GapSumSplits(p: RetryPolicy, failures: nat, m: nat, n: nat)
    requires ValidPolicy(p) && failures + m <= p.attempts + 1 && failures >= 1
    ensures GapSum(p, failures, m + n)
            == GapSum(p, failures, m) + GapSum(p, if m == 0 then failures else NextCount(p, failures + m - 1), n)
    decreases m
  {
    if m == 1 {
      assert GapSum(p, NextCount(p, failures), 0) == 0.0;
    } else if m > 1 {
      GapSumSplits(p, failures + 1, m - 1, n);
    }
  }

  /** Climbing from a count to the limit collects the remaining delays and the cooldown. */
  lemma {:induction false} ClimbToLimit(p: RetryPolicy, failures: nat)
    requires ValidPolicy(p) && 1 <= failures <= p.attempts
    ensures GapSum(p, failures, p.attempts - failures + 1) == CycleTime(p) - DelaySum(p, failures - 1)
    decreases p.attempts - failures
  {
    if failures < p.attempts {
      ClimbToLimit(p, failures + 1);
      assert DelaySum(p, failures) == DelaySum(p, failures - 1) + ReconnectDelay(p, failures);
    } else {
      assert GapSum(p, NextCount(p, failures), 0) == 0.0;
    }
  }

  lemma {:induction false} ClimbFromOne(p: RetryPolicy, k: nat)
    requires ValidPolicy(p) && k < p.attempts
    ensures GapSum(p, 1, k) == DelaySum(p, k)
  {
    if k > 0 {
      ClimbFromOne(p, k - 1);
      GapSumSplits(p, 1, k - 1, 1);
      assert GapSum(p, k, 1) == Gap(p, k) + GapSum(p, NextCount(p, k), 0);
      assert k > 1 ==> NextCount(p, k - 1) == k;
    }
  }

  /** Any `attempts` consecutive waits make one full cycle, wherever in the cycle they start. */
  lemma AnyCycleIsFull(p: RetryPolicy, failures: nat)
    requires ValidPolicy(p) && 1 <= failures <= p.attempts
    ensures GapSum(p, failures, p.attempts) == CycleTime(p)
  {
    var climb := p.attempts - failures + 1;
    GapSumSplits(p, failures, climb, failures - 1);
    assert climb + (failures - 1) == p.attempts;
    ClimbToLimit(p, failures);
    ClimbFromOne(p, failures - 1);
    assert NextCount(p, failures + climb - 1) == 1;
  }

  // ---------- an outage ----------

  /** The outage run: the link after calls at the given times, and the times at which an attempt was made. */
  datatype Outage = Outage(link: Link, attempts: seq<real>)

  function AfterOutage(start: Link, p: RetryPolicy, calls: seq<real>): Outage {
    if |calls| == 0 then Outage(start, [])
    else
      var before := AfterOutage(start, p, calls[..|calls| - 1]);
      var now := calls[|calls| - 1];
      var o := Ensure(before.link, p, now, false, false);
      Outage(o.link, if o.attempted then before.attempts + [now] else before.attempts)
  }

  /** The failure count right after attempt number k of the outage. */
  function CountAt(p: RetryPolicy, first: nat, k: nat): nat {
    if k == 0 then first else NextCount(p, CountAt(p, first, k - 1))
  }

  lemma {:induction false} CountsAreInRange(p: RetryPolicy, first: nat, k: nat)
    requires ValidPolicy(p) && 1 <= first <= p.attempts
    ensures 1 <= CountAt(p, first, k) <= p.attempts
  {
    if k > 0 {
      CountsAreInRange(p, first, k - 1);
    }
  }

  /** The count that the first attempt of the outage reaches. */
  function FirstCount(start: Link): nat { if start.connection.CircuitOpen? then 1 else start.failures + 1 }

  /** Attempts are at least the enforced waits apart, and the link remembers the last one. */
  ghost predicate Paced(start: Link, p: RetryPolicy, o: Outage) {
    && LinkInv(o.link, p)
    && (|o.attempts| == 0 ==> FirstCount(o.link) == FirstCount(start))
    && (|o.attempts| > 0 ==>
          && !o.link.connection.Connected?
          && o.link.failures == CountAt(p, FirstCount(start), |o.attempts| - 1)
          && o.link.nextAt == o.attempts[|o.attempts| - 1] + Gap(p, o.link.failures))
    && (forall k | 0 < k < |o.attempts| ::
          o.attempts[k] >= o.attempts[k - 1] + Gap(p, CountAt(p, FirstCount(start), k - 1)))
  }

  lemma {:induction false} OutageIsPaced(start: Link, p: RetryPolicy, calls: seq<real>)
    requires ValidPolicy(p) && LinkInv(start, p)
    ensures Paced(start, p, AfterOutage(start, p, calls))
  {
    hide ReconnectDelay;
    if |calls| > 0 {
      OutageIsPaced(start, p, calls[..|calls| - 1]);
      CallKeepsPace(start, p, AfterOutage(start, p, calls[..|calls| - 1]), calls[|calls| - 1]);
    }
  }

  lemma CallKeepsPace(start: Link, p: RetryPolicy, before: Outage, now: real)
    requires ValidPolicy(p) && LinkInv(start, p) && Paced(start, p, before)
    ensures var o := Ensure(before.link, p, now, false, false);
            Paced(start, p, Outage(o.link, if o.attempted then before.attempts + [now] else before.attempts))
  {
    hide ReconnectDelay;
    var o := Ensure(before.link, p, now, false, false);
    if o.attempted && |before.attempts| > 0 {
      var n := |before.attempts|;
      assert CountAt(p, FirstCount(start), n) == NextCount(p, CountAt(p, FirstCount(start), n - 1));
      assert before.link.failures == CountAt(p, FirstCount(start), n - 1);
    }
  }

  /** Attempt k + n comes at least the waits of n attempts after attempt k. */
  lemma {:induction false} AttemptsSpread(start: Link, p: RetryPolicy, o: Outage, k: nat, n: nat)
    requires Paced(start, p, o) && k + n < |o.attempts|
    ensures o.attempts[k + n] >= o.attempts[k] + GapSum(p, CountAt(p, FirstCount(start), k), n)
    decreases n
  {
    if n > 0 {
      AttemptsSpread(start, p, o, k + 1, n - 1);
      assert o.attempts[k + 1] >= o.attempts[k] + Gap(p, CountAt(p, FirstCount(start), k));
    }
  }

  /** q times n, and q times c, by repeated addition. */
  function Steps(n: nat, q: nat): nat { if q == 0 then 0 else n + Steps(n, q - 1) }

  function Length(c: real, q: nat): real { if q == 0 then 0.0 else c + Length(c, q - 1) }

  lemma {:induction false} StepsIsProduct(n: nat, q: nat)
    ensures Steps(n, q) == q * n
  {
    if q > 0 {
      StepsIsProduct(n, q - 1);
      assert q * n == (q - 1) * n + n;
    }
  }

  lemma {:induction false} LengthIsProduct(c: real, q: nat)
    ensures Length(c, q) == (q as real) * c
  {
    if q > 0 {
      LengthIsProduct(c, q - 1);
      assert (q as real) * c == ((q - 1) as real) * c + c;
    }
  }

  lemma {:induction false} CyclesSpread(start: Link, p: RetryPolicy, o: Outage, k: nat, q: nat)
    requires ValidPolicy(p) && LinkInv(start, p) && Paced(start, p, o)
    requires k + Steps(p.attempts, q) < |o.attempts|
    ensures o.attempts[k + Steps(p.attempts, q)] >= o.attempts[k] + Length(CycleTime(p), q)
    decreases q
  {
    hide CycleTime, Paced;
    if q > 0 {
      CyclesSpread(start, p, o, k + p.attempts, q - 1);
      AttemptsSpread(start, p, o, k, p.attempts);
      CountsAreInRange(p, FirstCount(start), k);
      AnyCycleIsFull(p, CountAt(p, FirstCount(start), k));
    }
  }

  /** Circuit-breaker bound: during an unbroken outage, from any reachable link and at any call times,
      the initialisation attempts that fall within a span T number at most A * (floor(T / (D + C)) + 1). */
  lemma AttemptsAreBounded(
      p: RetryPolicy, events: seq<Event>, calls: seq<real>, from: nat, to: nat, span: real)
    requires ValidPolicy(p) && CycleTime(p) > 0.0
    requires var o := AfterOutage(AfterEvents(p, events), p, calls);
             from < to <= |o.attempts| && o.attempts[to - 1] - o.attempts[from] <= span
    ensures to - from <= p.attempts * ((span / CycleTime(p)).Floor + 1)
  {
    hide CycleTime, Paced, AfterOutage, AfterEvents;
    var start := AfterEvents(p, events);
    EveryRunKeepsLinkInv(p, events);
    OutageIsPaced(start, p, calls);
    var o := AfterOutage(start, p, calls);
    WindowBound(start, p, o, from, to, span);
  }

  lemma WindowBound(start: Link, p: RetryPolicy, o: Outage, from: nat, to: nat, span: real)
    requires ValidPolicy(p) && LinkInv(start, p) && Paced(start, p, o) && CycleTime(p) > 0.0
    requires from < to <= |o.attempts| && o.attempts[to - 1] - o.attempts[from] <= span
    ensures to - from <= p.attempts * ((span / CycleTime(p)).Floor + 1)
  {
    hide CycleTime, Paced, LinkInv;
    var n, a := to - from, p.attempts;
    var q := WholeCycles(n - 1, a);
    WindowHoldsCycles(start, p, o, from, to, q);
    LengthIsProduct(CycleTime(p), q);
    DivideBound(q, CycleTime(p), span);
    RoundUp(n, a, q, (span / CycleTime(p)).Floor);
  }

  /** The number of whole cycles of a attempts among n. */
  lemma WholeCycles(n: nat, a: int) returns (q: nat)
    requires a >= 1
    ensures Steps(a, q) <= n < Steps(a, q) + a
  {
    q := n / a;
    StepsIsProduct(a, q);
  }

  lemma RoundUp(n: nat, a: int, q: nat, m: int)
    requires a >= 1 && n >= 1 && Steps(a, q) <= n - 1 < Steps(a, q) + a && q <= m
    ensures n <= a * (m + 1)
  {
    StepsIsProduct(a, q);
    MultiplyBound(a, q + 1, m + 1);
    assert q * a + a == a * (q + 1);
  }

  lemma WindowHoldsCycles(start: Link, p: RetryPolicy, o: Outage, from: nat, to: nat, q: nat)
    requires ValidPolicy(p) && LinkInv(start, p) && Paced(start, p, o)
    requires from < to <= |o.attempts| && Steps(p.attempts, q) <= to - from - 1
    ensures Length(CycleTime(p), q) <= o.attempts[to - 1] - o.attempts[from]
  {
    hide CycleTime, Paced;
    CyclesSpread(start, p, o, from, q);
    AttemptsAscend(start, p, o, from + Steps(p.attempts, q), to - 1);
  }

  lemma {:induction false} AttemptsAscend(start: Link, p: RetryPolicy, o: Outage, i: nat, j: nat)
    requires ValidPolicy(p) && LinkInv(start, p) && Paced(start, p, o) && i <= j < |o.attempts|
    ensures o.attempts[i] <= o.attempts[j]
  {
    if i < j {
      AttemptsAscend(start, p, o, i, j - 1);
      CountsAreInRange(p, FirstCount(start), j - 1);
      GapIsNonNegative(p, CountAt(p, FirstCount(start), j - 1));
    }
  }

  lemma GapIsNonNegative(p: RetryPolicy, failures: nat)
    requires ValidPolicy(p) && failures >= 1
    ensures Gap(p, failures) >= 0.0
  {
    DelaysGrowToTheCap(p, failures);
  }

  lemma DivideBound(q: nat, c: real, span: real)
    requires c > 0.0 && (q as real) * c <= span
    ensures q <= (span / c).Floor
  {
    var x := span / c;
    assert x * c == span;
    assert (x - q as real) * c >= 0.0;
    assert x >= q as real;
  }

  lemma MultiplyBound(a: int, m: int, n: int)
    requires a >= 1 && m <= n
    ensures a * m <= a * n
  {}
}
