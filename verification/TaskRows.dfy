/**
 The task table: row states, the per-account FIFO order, and what each statement of
 the worker and of the recovery sweeps writes to a row. The run theorems and the
 imperative TaskStore are both built from the functions of this module.
 */
module TaskRows {
  import opened Options

  const JOB_TIMEOUT := 600
  const LEASE := 900

  /** Deployment settings, left open: the theorems hold for every positive spacing and
      every ceiling. The defaults are 300 and 21600. */
  const BLOCKED_RETRY: Spacing
  const BLOCKED_MAX: int

  type Spacing = s: int | s > 0 witness 300

  datatype Status = Queued | Executing | Deferred | Complete | Failed

  datatype ErrorCode =
    | AccountBlocked | ProxyRotated | FloodWait | BanDetected | PeerIdInvalid
    | ReadBudgetExceeded | BudgetPerAccount | BudgetAggregate | ConnectionError | OtherError

  datatype Row = Row(
    account: int, taskType: string, priority: int, createdAt: int,
    status: Status, startedAt: Option<int>, deferredUntil: Option<int>,
    retryCount: nat, error: Option<ErrorCode>)

  type Table = map<nat, Row>

  // ----- FIFO order: priority descending, then created_at, then id -----

  predicate Outranks(rows: Table, x: nat, y: nat)
    requires x in rows && y in rows
  {
    var a, b := rows[x], rows[y];
    || a.priority > b.priority
    || (a.priority == b.priority && a.createdAt < b.createdAt)
    || (a.priority == b.priority && a.createdAt == b.createdAt && x < y)
  }

  predicate Waiting(rows: Table, account: int, t: nat) {
    t in rows && rows[t].account == account && rows[t].status == Queued
  }

  predicate IsHead(rows: Table, account: int, h: nat) {
    && Waiting(rows, account, h)
    && forall q | q in rows && Waiting(rows, account, q) && q != h :: Outranks(rows, h, q)
  }

  predicate OtherExecuting(rows: Table, account: int, t: int) {
    exists x | x in rows :: x != t && rows[x].account == account && rows[x].status == Executing
  }

  /** The claim's test, made under the account's advisory lock. It looks at the other
      executing rows and at the queue's head, never at the status of `t` itself. */
  predicate ClaimPasses(rows: Table, t: nat)
    requires t in rows
  {
    var account := rows[t].account;
    && !OtherExecuting(rows, account, t)
    && ((forall q | q in rows :: !Waiting(rows, account, q)) || IsHead(rows, account, t))
  }

  /** The queue's head, or None when nothing of the account is queued. */
  ghost function Head(rows: Table, account: int): (h: Option<nat>)
    ensures h.Some? ==> IsHead(rows, account, h.value)
    ensures h.None? ==> forall q :: !Waiting(rows, account, q)
  {
    HeadExists(rows, account);
    if exists h :: IsHead(rows, account, h) then
      var h :| IsHead(rows, account, h);
      Some(h)
    else None
  }

  /** The order is total on one table, so a non-empty queue has a best row... */
  lemma {:induction false} BestOf(rows: Table, s: set<nat>) returns (h: nat)
    requires s != {} && s <= rows.Keys
    ensures h in s && forall q | q in s && q != h :: Outranks(rows, h, q)
    decreases |s|
  {
    var x :| x in s;
    if s == {x} {
      h := x;
    } else {
      var best := BestOf(rows, s - {x});
      h := if Outranks(rows, x, best) then x else best;
      assert forall q | q in s && q != x && q != best :: q in s - {x} && Outranks(rows, best, q);
    }
  }

  lemma HeadExists(rows: Table, account: int)
    ensures (exists q :: Waiting(rows, account, q)) ==> exists h :: IsHead(rows, account, h)
  {
    var queued := set q | q in rows && Waiting(rows, account, q);
    if q :| Waiting(rows, account, q) {
      assert q in queued;
      var h := BestOf(rows, queued);
      assert IsHead(rows, account, h);
    }
  }

  /** ...and only one: the order has no ties. */
  lemma HeadIsUnique(rows: Table, account: int, x: nat, y: nat)
    requires IsHead(rows, account, x) && IsHead(rows, account, y)
    ensures x == y
  {
  }

  /** In terms of the columns: the head is the queued row of the highest priority, of those
      the one created first, and of those the one with the smallest id. */
  lemma HeadIsFirst(rows: Table, account: int, h: nat)
    requires h in rows
    ensures IsHead(rows, account, h) <==>
            && rows[h].account == account && rows[h].status == Queued
            && forall q | q in rows && q != h && rows[q].account == account && rows[q].status == Queued ::
                 || rows[h].priority > rows[q].priority
                 || (rows[h].priority == rows[q].priority && rows[h].createdAt < rows[q].createdAt)
                 || (rows[h].priority == rows[q].priority && rows[h].createdAt == rows[q].createdAt && h < q)
  {
  }

  // ----- What each statement writes -----

  function Claimed(rows: Table, t: nat, now: int): Table
    requires t in rows
  {
    rows[t := rows[t].(status := Executing, startedAt := Some(now))]
  }

  /** Flood wait or closed window: deferred to the given instant, error code untouched. */
  function DeferredTo(rows: Table, t: nat, until: int): Table
    requires t in rows
  {
    rows[t := rows[t].(status := Deferred, deferredUntil := Some(until))]
  }

  predicate BlockedTooLong(row: Row, now: int) {
    now - row.createdAt >= BLOCKED_MAX
  }

  /** The account cannot run the task: park it with a deadline, or bury it. */
  function Blocked(rows: Table, t: nat, now: int): Table
    requires t in rows
  {
    var row := rows[t].(error := Some(AccountBlocked));
    if BlockedTooLong(row, now) then rows[t := row.(status := Failed)]
    else rows[t := row.(status := Deferred, deferredUntil := Some(now + BLOCKED_RETRY))]
  }

  /** How a started run can end. */
  datatype Outcome =
    | Succeed
    | Fail(error: ErrorCode)
    | Postpone(until: int, error: ErrorCode, retryCount: nat)

  function Finished(rows: Table, t: nat, o: Outcome): Table
    requires t in rows
  {
    rows[t :=
      match o
      case Succeed => rows[t].(status := Complete)
      case Fail(error) => rows[t].(status := Failed, error := Some(error))
      case Postpone(until, error, retries) =>
        rows[t].(status := Deferred, deferredUntil := Some(until), error := Some(error), retryCount := retries)]
  }

  predicate Due(row: Row, now: int) {
    row.status == Deferred && row.deferredUntil.Some? && row.deferredUntil.value <= now
  }

  function Revived(row: Row): Row {
    row.(status := Queued, deferredUntil := None)
  }

  predicate Orphaned(row: Row, now: int) {
    row.status == Executing && row.startedAt.Some? && row.startedAt.value < now - LEASE
  }

  function Recovered(row: Row): Row {
    row.(status := Queued, startedAt := None)
  }
}
