/** The durable journal of order intents: every method is one atomic transaction over the rows. */
module IntentStore {
  import opened Market
  import opened Options

  datatype Status =
    | Created | Submitting | Accepted | PartiallyFilled | Unknown
    | Reconciling | Filled | Rejected | Cancelled | Closed

  predicate Active(s: Status) {
    s.Created? || s.Submitting? || s.Accepted? || s.Unknown? || s.Reconciling?
  }

  predicate Reconcilable(s: Status) {
    s.Submitting? || s.Accepted? || s.Unknown? || s.Reconciling?
  }

  /** The transition table. */
  predicate Allowed(from: Status, to: Status) {
    match from
    case Created => to.Submitting? || to.Rejected? || to.Cancelled?
    case Submitting =>
      to.Accepted? || to.PartiallyFilled? || to.Filled? || to.Rejected? || to.Unknown? || to.Reconciling?
    case Accepted => to.PartiallyFilled? || to.Filled? || to.Reconciling? || to.Unknown? || to.Closed?
    case PartiallyFilled => to.Filled? || to.Reconciling? || to.Unknown? || to.Closed?
    case Unknown => to.Reconciling? || to.PartiallyFilled? || to.Filled? || to.Closed?
    case Reconciling => to.PartiallyFilled? || to.Filled? || to.Closed? || to.Unknown?
    case Filled => to.Closed?
    case Rejected => to.Submitting?
    case Cancelled => false
    case Closed => false
  }

  /** A row keeps its status or moves along the table. */
  predicate Legal(from: Status, to: Status) { from == to || Allowed(from, to) }

  datatype Key = Key(account: string, strategy: string, signal: string)

  /** One intent. Rows are numbered by insertion; the number stands for the random intent id. */
  datatype Row = Row(
    key: Key, side: Side, status: Status, requestedVolume: Option<real>,
    orderId: Option<int>, positionId: Option<int>, filledVolume: Option<real>)

  datatype StoreError = IntentNotFound | InvalidTransition(from: Status, to: Status) | DuplicateBrokerId

  /** The columns a transition writes besides the status. */
  datatype Patch = Patch(
    setOrder: bool, orderId: Option<int>, setPosition: bool, positionId: Option<int>,
    setFilled: bool, filled: Option<real>)

  const NO_PATCH: Patch := Patch(false, None, false, None, false, None)

  /** Only a positive number is a broker identifier; zero is the broker's "absent". */
  function NormaliseId(id: Option<int>): Option<int> {
    if id.Some? && id.value > 0 then id else None
  }

  function Patched(row: Row, to: Status, patch: Patch): Row {
    row.(status := to,
         orderId := if patch.setOrder then NormaliseId(patch.orderId) else row.orderId,
         positionId := if patch.setPosition then NormaliseId(patch.positionId) else row.positionId,
         filledVolume := if patch.setFilled then patch.filled else row.filledVolume)
  }

  // ---------- table constraints ----------

  ghost predicate UniqueKeys(rows: seq<Row>) {
    forall i, j | 0 <= i < j < |rows| :: rows[i].key != rows[j].key
  }

  /** Two rows of one account never share a broker order id or a broker position id. */
  predicate NoIdClash(a: Row, b: Row) {
    a.key.account == b.key.account ==>
      && !(a.orderId.Some? && a.orderId == b.orderId)
      && !(a.positionId.Some? && a.positionId == b.positionId)
  }

  ghost predicate UniqueBrokerIds(rows: seq<Row>) {
    forall i, j | 0 <= i < j < |rows| :: NoIdClash(rows[i], rows[j])
  }

  ghost predicate ValidRows(rows: seq<Row>) { UniqueKeys(rows) && UniqueBrokerIds(rows) }

  predicate ClashFree(rows: seq<Row>, id: nat, row: Row) {
    forall j | 0 <= j < |rows| && j != id :: NoIdClash(rows[j], row) && NoIdClash(row, rows[j])
  }

  // ---------- the transactions as functions ----------

  function FindKey(rows: seq<Row>, key: Key, from: nat): (r: Option<nat>)
    requires from <= |rows|
    ensures r.Some? ==> from <= r.value < |rows| && rows[r.value].key == key
    ensures r.None? ==> forall k | from <= k < |rows| :: rows[k].key != key
    decreases |rows| - from
  {
    if from == |rows| then None
    else if rows[from].key == key then Some(from)
    else FindKey(rows, key, from + 1)
  }

  predicate OfStrategy(row: Row, account: string, strategy: string) {
    row.key.account == account && row.key.strategy == strategy
  }

  /** The oldest unresolved row of a strategy. */
  function FindActive(rows: seq<Row>, account: string, strategy: string, from: nat): (r: Option<nat>)
    requires from <= |rows|
    ensures r.Some? ==> from <= r.value < |rows| && OfStrategy(rows[r.value], account, strategy) && Active(rows[r.value].status)
    ensures r.None? ==> forall k | from <= k < |rows| :: OfStrategy(rows[k], account, strategy) ==> !Active(rows[k].status)
    decreases |rows| - from
  {
    if from == |rows| then None
    else if OfStrategy(rows[from], account, strategy) && Active(rows[from].status) then Some(from)
    else FindActive(rows, account, strategy, from + 1)
  }

  datatype Claim = Claim(id: nat, claimed: bool)

  function ClaimResult(rows: seq<Row>, key: Key): (c: Claim)
    ensures c.claimed <==> c.id == |rows|
    ensures !c.claimed ==> c.id < |rows| && OfStrategy(rows[c.id], key.account, key.strategy)
  {
    match FindKey(rows, key, 0)
    case Some(id) => Claim(id, false)
    case None =>
      match FindActive(rows, key.account, key.strategy, 0)
      case Some(id) => Claim(id, false)
      case None => Claim(|rows|, true)
  }

  function AfterClaim(rows: seq<Row>, key: Key, side: Side): seq<Row> {
    if ClaimResult(rows, key).claimed
    then rows + [Row(key, side, Created, None, None, None, None)]
    else rows
  }

  function TransitionError(rows: seq<Row>, id: nat, to: Status, patch: Patch): Option<StoreError> {
    if id >= |rows| then Some(IntentNotFound)
    else if !Legal(rows[id].status, to) then Some(InvalidTransition(rows[id].status, to))
    else if !ClashFree(rows, id, Patched(rows[id], to, patch)) then Some(DuplicateBrokerId)
    else None
  }

  /** A transition that fails is rolled back. */
  function AfterTransition(rows: seq<Row>, id: nat, to: Status, patch: Patch): (r: seq<Row>)
    ensures |r| == |rows|
  {
    if TransitionError(rows, id, to, patch).Some? then rows
    else rows[id := Patched(rows[id], to, patch)]
  }

  function AfterRequest(rows: seq<Row>, id: nat, volume: real): (r: seq<Row>)
    ensures |r| == |rows|
  {
    if id < |rows| then rows[id := rows[id].(requestedVolume := Some(volume))] else rows
  }

  /** Rows that reconciliation looks at: of one account, or of all of them. */
  predicate Listed(row: Row, account: Option<string>) {
    Reconcilable(row.status) && (account.Some? ==> row.key.account == account.value)
  }

  /** The query names no order: a listing holds exactly the listed rows, each once, in some order. */
  predicate IsListing(rows: seq<Row>, account: Option<string>, ids: seq<nat>) {
    && (forall k | 0 <= k < |ids| :: ids[k] < |rows| && Listed(rows[ids[k]], account))
    && (forall j, k | 0 <= j < k < |ids| :: ids[j] != ids[k])
    && (forall i | 0 <= i < |rows| && Listed(rows[i], account) :: i in ids)
  }

  // ---------- what every transaction keeps ----------

  lemma ClaimKeepsConstraints(rows: seq<Row>, key: Key, side: Side)
    requires ValidRows(rows)
    ensures ValidRows(AfterClaim(rows, key, side))
    ensures ClaimResult(rows, key).claimed ==>
              forall k | 0 <= k < |rows| :: OfStrategy(rows[k], key.account, key.strategy) ==> !Active(rows[k].status)
  {}

  lemma TransitionKeepsConstraints(rows: seq<Row>, id: nat, to: Status, patch: Patch)
    requires ValidRows(rows)
    ensures ValidRows(AfterTransition(rows, id, to, patch))
    ensures forall k | 0 <= k < |rows| :: AfterTransition(rows, id, to, patch)[k].key == rows[k].key
  {}

  // ---------- who blocks whom ----------

  /** The statuses under which an intent still blocks its strategy. */
  const UNRESOLVED: set<Status> := {Created, Submitting, Accepted, Unknown, Reconciling}

  /** Row k is an unresolved intent of the key's own account and strategy. */
  predicate Blocks(rows: seq<Row>, k: nat, key: Key)
    requires k < |rows|
  {
    rows[k].key.account == key.account && rows[k].key.strategy == key.strategy && rows[k].status in UNRESOLVED
  }

  /** A claim wins exactly when its key is new and nothing blocks it; else it names the row of the key, or
      the oldest one that blocks it. */
  lemma ClaimIsDecided(rows: seq<Row>, key: Key)
    ensures var c := ClaimResult(rows, key);
            && (c.claimed <==> forall k | 0 <= k < |rows| :: rows[k].key != key && !Blocks(rows, k, key))
            && (!c.claimed ==>
                  && c.id < |rows|
                  && (if exists k | 0 <= k < |rows| :: rows[k].key == key then rows[c.id].key == key
                      else Blocks(rows, c.id, key) && forall k | 0 <= k < c.id :: !Blocks(rows, k, key)))
  {
    if FindKey(rows, key, 0).None? {
      OldestIsFound(rows, key, 0);
    }
  }

  lemma {:induction false} OldestIsFound(rows: seq<Row>, key: Key, from: nat)
    requires from <= |rows|
    ensures var found := FindActive(rows, key.account, key.strategy, from);
            && (found.Some? ==> Blocks(rows, found.value, key) && forall k | from <= k < found.value :: !Blocks(rows, k, key))
            && (found.None? ==> forall k | from <= k < |rows| :: !Blocks(rows, k, key))
    decreases |rows| - from
  {
    if from < |rows| {
      OldestIsFound(rows, key, from + 1);
    }
  }

  /** Another row of the account already carries one of the two broker ids. */
  predicate IdTaken(rows: seq<Row>, id: nat, row: Row) {
    exists j | 0 <= j < |rows| ::
      j != id && rows[j].key.account == row.key.account
      && ((row.orderId.Some? && rows[j].orderId == row.orderId) || (row.positionId.Some? && rows[j].positionId == row.positionId))
  }

  lemma ClashIsTaken(rows: seq<Row>, id: nat, row: Row)
    ensures ClashFree(rows, id, row) <==> !IdTaken(rows, id, row)
  {}

  // ---------- the repository ----------

  class IntentRepository {
    var rows: seq<Row>

    ghost predicate Valid() reads this { ValidRows(rows) }

    constructor ()
      ensures Valid() && rows == []
    {
      rows := [];
    }

    /** An existing key, else an unresolved intent of the strategy, else a new row. */
    method ClaimSignal(key: Key, side: Side) returns (claim: Claim)
      requires Valid()
      modifies this
      ensures Valid()
      ensures claim == ClaimResult(old(rows), key) && rows == AfterClaim(old(rows), key, side)
      ensures claim.claimed ==> rows[claim.id].key == key && rows[claim.id].status == Created
      ensures claim.claimed <==> forall k | 0 <= k < |old(rows)| :: old(rows)[k].key != key && !Blocks(old(rows), k, key)
    {
      ClaimIsDecided(rows, key);
      ClaimKeepsConstraints(rows, key, side);
      var existing := FindKey(rows, key, 0);
      if existing.Some? {
        return Claim(existing.value, false);
      }
      var active := FindActive(rows, key.account, key.strategy, 0);
      if active.Some? {
        return Claim(active.value, false);
      }
      claim := Claim(|rows|, true);
      rows := rows + [Row(key, side, Created, None, None, None, None)];
    }

    method Transition(id: nat, to: Status, patch: Patch) returns (r: Result<Row, StoreError>)
      requires Valid()
      modifies this
      ensures Valid()
      ensures rows == AfterTransition(old(rows), id, to, patch)
      ensures match TransitionError(old(rows), id, to, patch)
              case Some(e) => r == Failure(e)
              case None => r == Success(rows[id])
      ensures r == Failure(DuplicateBrokerId) <==>
                id < |old(rows)| && Legal(old(rows)[id].status, to) && IdTaken(old(rows), id, Patched(old(rows)[id], to, patch))
    {
      if id < |rows| {
        ClashIsTaken(rows, id, Patched(rows[id], to, patch));
      }
      TransitionKeepsConstraints(rows, id, to, patch);
      if id >= |rows| {
        return Failure(IntentNotFound);
      }
      var current := rows[id].status;
      if current != to && !Allowed(current, to) {
        return Failure(InvalidTransition(current, to));
      }
      var updated := Patched(rows[id], to, patch);
      if !ClashFree(rows, id, updated) {
        return Failure(DuplicateBrokerId);
      }
      rows := rows[id := updated];
      return Success(updated);
    }

    method SetRequest(id: nat, volume: real) returns (r: Result<(), StoreError>)
      requires Valid()
      modifies this
      ensures Valid() && rows == AfterRequest(old(rows), id, volume)
      ensures r == if id < |rows| then Success(()) else Failure(IntentNotFound)
    {
      if id >= |rows| {
        return Failure(IntentNotFound);
      }
      rows := rows[id := rows[id].(requestedVolume := Some(volume))];
      return Success(());
    }

    method ListReconcilable(account: Option<string>) returns (ids: seq<nat>)
      ensures IsListing(rows, account, ids)
      ensures forall i: nat :: i in ids <==>
                i < |rows| && rows[i].status in UNRESOLVED && rows[i].status != Created
                && (account == Some(rows[i].key.account) || account == None)
    {
      ids := [];
      for k := 0 to |rows|
        invariant forall j | 0 <= j < |ids| :: ids[j] < k && Listed(rows[ids[j]], account)
        invariant forall i, j | 0 <= i < j < |ids| :: ids[i] != ids[j]
        invariant forall i | 0 <= i < k && Listed(rows[i], account) :: i in ids
      {
        if Listed(rows[k], account) {
          ids := ids + [k];
        }
      }
    }
  }
}
