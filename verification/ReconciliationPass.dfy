/** One reconciliation pass as a function of the durable state and the broker's answers. */
module ReconciliationPass {
  import opened Options
  import opened Reconciliation

  /** One broker answer set for a pass: the window response (absent on a failed fetch), the position
      histories, and per position the entry candidates of the bounded fallback. */
  datatype Answers = Answers(fetched: Option<seq<BrokerDeal>>, extra: seq<BrokerDeal>, lookup: string -> seq<BrokerDeal>)

  // ---------- one pass as a function of its inputs ----------

  datatype Progress = Progress(durable: Durable, ok: bool)

  /** A group's write, then dropping its cache entry and issue; a refused batch leaves at most the trade row an import opens. */
  function AfterGroup(d: Durable, s: Settings, g: Group, lookup: seq<BrokerDeal>): Progress {
    var action := ActionFor(d, s, g, lookup);
    match Write(d, g, action)
    case None => Progress(Unfinished(d, action), false)
    case Some(w) => Progress(if WritesLedger(action) then Settled(w, g.position) else w, true)
  }

  /** The first n groups in order; nothing more happens after a refused one. */
  function AfterGroups(d: Durable, s: Settings, groups: seq<Group>, lookup: string -> seq<BrokerDeal>, n: nat): Progress
    requires n <= |groups|
  {
    if n == 0 then Progress(d, true)
    else
      var before := AfterGroups(d, s, groups, lookup, n - 1);
      if before.ok then AfterGroup(before.durable, s, groups[n - 1], lookup(groups[n - 1].position)) else before
  }

  function AfterClearing(d: Durable, s: Settings): Durable {
    d.(issues := map p | p in d.issues && !Resolved(d, s, d.issues[p]) :: d.issues[p])
  }

  function AfterFinish(d: Durable, s: Settings, start: int, end: int, closeIds: set<string>): Durable {
    var cleared := AfterClearing(ParityChecked(d, s, start, end, closeIds), s);
    if cleared.issues == map[] then cleared.(watermark := Some(end)) else cleared
  }

  function AfterPass(d: Durable, s: Settings, now: int, answers: Answers): Durable {
    if answers.fetched.None? then d
    else
      var deals := MergeDeals(answers.fetched.value, answers.extra);
      var owned := OwnedPositions(d, s.strategy, deals);
      var groups := GroupsOf(deals, owned);
      var handled := AfterGroups(d, s, groups, answers.lookup, |groups|);
      if handled.ok then AfterFinish(handled.durable, s, FetchStart(d, s, now), now, CloseIdsOf(deals, owned))
      else handled.durable
  }

  lemma NoGroups(d: Durable, s: Settings, groups: seq<Group>, lookup: string -> seq<BrokerDeal>)
    ensures AfterGroups(d, s, groups, lookup, 0) == Progress(d, true)
  {}

  lemma OneMoreGroup(d: Durable, s: Settings, groups: seq<Group>, lookup: string -> seq<BrokerDeal>, k: nat)
    requires k < |groups| && AfterGroups(d, s, groups, lookup, k).ok
    ensures AfterGroups(d, s, groups, lookup, k + 1)
            == AfterGroup(AfterGroups(d, s, groups, lookup, k).durable, s, groups[k], lookup(groups[k].position))
  {}

  lemma {:induction false} RefusalStands(d: Durable, s: Settings, groups: seq<Group>, lookup: string -> seq<BrokerDeal>, k: nat, n: nat)
    requires k <= n <= |groups| && !AfterGroups(d, s, groups, lookup, k).ok
    ensures AfterGroups(d, s, groups, lookup, n) == AfterGroups(d, s, groups, lookup, k)
    decreases n - k
  {
    if k < n {
      RefusalStands(d, s, groups, lookup, k, n - 1);
    }
  }
}
