/**
 The worker's and the sweepers' code over the task table and the job queue, method by
 method, each proved to do what the protocol's step does. `RunTask` is one uninterrupted
 run; `RunIsAProtocolRun` shows it to be a run of the protocol.
 */
module TaskStore {
  import opened Options
  import opened TaskRows
  import opened TaskProtocol
  import opened Batches

  const MAX_ROTATIONS := 6
  const ROTATE_BACKOFF := 20
  const ROTATE_COOLDOWN := 1800
  const BUDGET_RETRY := 3600

  /** What the account gate answers, if it does not raise. */
  datatype Gate = Runnable | ClosedUntil(until: int) | Unavailable | Raised

  /** What happens once the row is claimed: a budget gate refuses, the action ends, or the
      job dies and leaves its row EXECUTING. */
  datatype Result =
    | BudgetRefuses(code: ErrorCode)
    | Done
    | Flood(until: int)
    | Banned
    | PeerInvalid(resolveAgain: bool)
    | ConnectionFails(hasProxy: bool)
    | OtherFailure
    | Dies(acting: bool)      // before the action, or cancelled while acting

  /** A failed connection rotates the proxy's port: six quick retries, then one long
      cooldown that starts the count afresh. Without a proxy the task fails. */
  function Rotation(row: Row, hasProxy: bool, now: int): Outcome {
    if !hasProxy then Fail(ConnectionError)
    else if row.retryCount + 1 > MAX_ROTATIONS then Postpone(now + ROTATE_COOLDOWN, ProxyRotated, 0)
    else Postpone(now + ROTATE_BACKOFF, ProxyRotated, row.retryCount + 1)
  }

  function OutcomeOf(row: Row, result: Result, now: int): Outcome
    requires !result.Dies?
  {
    match result
    case BudgetRefuses(code) => Postpone(now + BUDGET_RETRY, code, row.retryCount)
    case Done => Succeed
    case Flood(until) => Postpone(until, FloodWait, row.retryCount)
    case Banned => Fail(BanDetected)
    case PeerInvalid(_) => Fail(PeerIdInvalid)
    case ConnectionFails(hasProxy) => Rotation(row, hasProxy, now)
    case OtherFailure => Fail(OtherError)
  }

  /** How far an uninterrupted run of task `t` gets. */
  datatype End = NotQueued | Closed(until: int) | BlockedEnd | GateRaised | NotClaimed | Dead | Ended(outcome: Outcome)

  function EndOf(rows: Table, t: nat, gate: Gate, result: Result, now: int): End {
    if t !in rows || rows[t].status != Queued then NotQueued
    else match gate
      case ClosedUntil(until) => Closed(until)
      case Unavailable => BlockedEnd
      case Raised => GateRaised
      case Runnable =>
        if !ClaimPasses(rows, t) then NotClaimed
        else if result.Dies? then Dead
        else Ended(OutcomeOf(rows[t], result, now))
  }

  function RowsAfter(rows: Table, t: nat, end: End, now: int): Table {
    if t !in rows then rows
    else match end
      case Closed(until) => DeferredTo(rows, t, until)
      case BlockedEnd => Blocked(rows, t, now)
      case Dead => Claimed(rows, t, now)
      case Ended(outcome) => Finished(Claimed(rows, t, now), t, outcome)
      case _ => rows
  }

  /** The job enqueue_next adds for an account, if it adds one. */
  ghost function NextJob(rows: Table, account: int): seq<nat> {
    if OtherExecuting(rows, account, -1) || Head(rows, account).None? then [] else [Head(rows, account).value]
  }

  lemma OneLess(left: set<nat>, failing: set<nat>, t: nat)
    requires t in left
    ensures multiset(left - failing)
            == multiset(left - {t} - failing) + if t in failing then multiset{} else multiset{t}
  {
    assert left - failing == (left - {t} - failing) + if t in failing then {} else {t};
  }

  class Store {
    const hasRedis: bool
    var rows: Table
    var queue: seq<nat>

    constructor (hasRedis: bool)
      ensures rows == map[] && queue == [] && this.hasRedis == hasRedis
    {
      this.hasRedis := hasRedis;
      rows, queue := map[], [];
    }

    /** What enqueue_next adds: nothing without a queue to add it to. */
    ghost function NextEnqueued(rows: Table, account: int): seq<nat> {
      if hasRedis then NextJob(rows, account) else []
    }

    /** ORDER BY priority DESC, created_at, id LIMIT 1 over the account's queued rows. */
    method SelectHead(account: int) returns (h: Option<nat>)
      ensures h == Head(rows, account)
      ensures h.None? <==> forall q | q in rows && rows[q].account == account :: rows[q].status != Queued
      ensures h.Some? ==>
                && h.value in rows && rows[h.value].account == account && rows[h.value].status == Queued
                && var first := rows[h.value];
                   forall q | q in rows && q != h.value && rows[q].account == account && rows[q].status == Queued ::
                     || first.priority > rows[q].priority
                     || (first.priority == rows[q].priority && first.createdAt < rows[q].createdAt)
                     || (first.priority == rows[q].priority && first.createdAt == rows[q].createdAt && h.value < q)
    {
      HeadExists(rows, account);
      if exists x | x in rows :: IsHead(rows, account, x) {
        var x :| x in rows && IsHead(rows, account, x);
        HeadIsUnique(rows, account, x, Head(rows, account).value);
        HeadIsFirst(rows, account, x);
        h := Some(x);
      } else {
        h := None;
      }
    }

    method ClaimForExecution(t: nat, now: int) returns (claimed: bool)
      requires t in rows
      modifies `rows
      ensures claimed == ClaimPasses(old(rows), t)
      ensures rows == if claimed then Claimed(old(rows), t, now) else old(rows)
      ensures var was := old(rows)[t];
              && rows == (if claimed then old(rows)[t := was.(status := Executing, startedAt := Some(now))]
                          else old(rows))
              && (claimed <==>
                  && (forall x | x in old(rows) && x != t && old(rows)[x].account == was.account ::
                        old(rows)[x].status != Executing)
                  && forall q | q in old(rows) && q != t && old(rows)[q].account == was.account
                                && old(rows)[q].status == Queued ::
                       && was.status == Queued
                       && (|| was.priority > old(rows)[q].priority
                           || (was.priority == old(rows)[q].priority && was.createdAt < old(rows)[q].createdAt)
                           || (&& was.priority == old(rows)[q].priority
                               && was.createdAt == old(rows)[q].createdAt && t < q)))
    {
      HeadIsFirst(rows, rows[t].account, t);
      var account := rows[t].account;
      if OtherExecuting(rows, account, t) {
        return false;
      }
      var head := SelectHead(account);
      if head.Some? && head.value != t {
        if IsHead(rows, account, t) {
          HeadIsUnique(rows, account, t, head.value);
        }
        return false;
      }
      rows := rows[t := rows[t].(status := Executing, startedAt := Some(now))];
      claimed := true;
    }

    method EnqueueNext(account: int)
      modifies `queue
      ensures queue == old(queue) + NextEnqueued(rows, account)
      ensures old(queue) <= queue && |queue| <= |old(queue)| + 1
      ensures |queue| == |old(queue)| + 1 <==>
                && hasRedis
                && (forall x | x in rows && rows[x].account == account :: rows[x].status != Executing)
                && exists q | q in rows :: rows[q].account == account && rows[q].status == Queued
      ensures queue != old(queue) ==>
                var h := queue[|old(queue)|];
                && h in rows && rows[h].account == account && rows[h].status == Queued
                && forall q | q in rows && q != h && rows[q].account == account && rows[q].status == Queued ::
                     || rows[h].priority > rows[q].priority
                     || (rows[h].priority == rows[q].priority && rows[h].createdAt < rows[q].createdAt)
                     || (rows[h].priority == rows[q].priority && rows[h].createdAt == rows[q].createdAt && h < q)
    {
      if !hasRedis {
        return;
      }
      if OtherExecuting(rows, account, -1) {
        return;
      }
      var next := SelectHead(account);
      if next.Some? {
        queue := queue + [next.value];
      }
    }

    method DeferOrFailBlocked(t: nat, now: int)
      requires t in rows
      modifies this
      ensures rows == Blocked(old(rows), t, now)
      ensures queue == old(queue) + NextEnqueued(rows, old(rows)[t].account)
      ensures var was := old(rows)[t].(error := Some(AccountBlocked));
              rows == old(rows)[t :=
                if now >= was.createdAt + BLOCKED_MAX then was.(status := Failed)
                else was.(status := Deferred, deferredUntil := Some(now + BLOCKED_RETRY))]
    {
      var waited := now - rows[t].createdAt;
      if waited >= BLOCKED_MAX {
        rows := rows[t := rows[t].(status := Failed, error := Some(AccountBlocked))];
        EnqueueNext(rows[t].account);
        return;
      }
      var until := now + BLOCKED_RETRY;
      rows := rows[t := rows[t].(status := Deferred, deferredUntil := Some(until), error := Some(AccountBlocked))];
      EnqueueNext(rows[t].account);
    }

    method RotateProxyAndDefer(t: nat, hasProxy: bool, now: int)
      requires t in rows
      modifies `rows
      ensures rows == Finished(old(rows), t, Rotation(old(rows)[t], hasProxy, now))
      ensures var was := old(rows)[t];
              rows == old(rows)[t :=
                if !hasProxy then was.(status := Failed, error := Some(ConnectionError))
                else if was.retryCount < 6 then
                  was.(status := Deferred, deferredUntil := Some(now + 20), error := Some(ProxyRotated),
                       retryCount := was.retryCount + 1)
                else
                  was.(status := Deferred, deferredUntil := Some(now + 1800), error := Some(ProxyRotated),
                       retryCount := 0)]
    {
      if !hasProxy {
        rows := rows[t := rows[t].(status := Failed, error := Some(ConnectionError))];
        return;
      }
      rows := rows[t := rows[t].(retryCount := rows[t].retryCount + 1)];
      var exhausted := rows[t].retryCount > MAX_ROTATIONS;
      var backoff := ROTATE_BACKOFF;
      if exhausted {
        backoff := ROTATE_COOLDOWN;
        rows := rows[t := rows[t].(retryCount := 0)];
      }
      var until := now + backoff;
      rows := rows[t := rows[t].(status := Deferred, deferredUntil := Some(until), error := Some(ProxyRotated))];
    }

    /** What follows the claim: the budget gates, the action and its outcome, the hand-off. */
    method Perform(t: nat, result: Result, now: int)
      requires t in rows && rows[t].status == Executing
      modifies this
      ensures rows == if result.Dies? then old(rows) else Finished(old(rows), t, OutcomeOf(old(rows)[t], result, now))
      ensures queue == old(queue)
                       + (if result == PeerInvalid(true) && hasRedis then [t] else [])
                       + (if result.Dies? then [] else NextEnqueued(rows, old(rows)[t].account))
      ensures t in rows && rows == old(rows)[t := rows[t]]
      ensures rows[t].status == Complete <==> result.Done?
      ensures rows[t].status == Executing <==> result.Dies?
      ensures rows[t].status == Failed <==>
                result.Banned? || result.PeerInvalid? || result.OtherFailure? || result == ConnectionFails(false)
      ensures result.Done? ==> rows[t] == old(rows)[t].(status := Complete)
      ensures result.Dies? ==> rows[t] == old(rows)[t]
      ensures result.Banned? ==> rows[t] == old(rows)[t].(status := Failed, error := Some(BanDetected))
      ensures result.PeerInvalid? ==> rows[t] == old(rows)[t].(status := Failed, error := Some(PeerIdInvalid))
      ensures result.OtherFailure? ==> rows[t] == old(rows)[t].(status := Failed, error := Some(OtherError))
      ensures result == ConnectionFails(false) ==>
                rows[t] == old(rows)[t].(status := Failed, error := Some(ConnectionError))
      ensures result.Flood? ==>
                rows[t] == old(rows)[t].(status := Deferred, deferredUntil := Some(result.until),
                                         error := Some(FloodWait))
      ensures result.BudgetRefuses? ==>
                rows[t] == old(rows)[t].(status := Deferred, deferredUntil := Some(now + 3600),
                                         error := Some(result.code))
      ensures result == ConnectionFails(true) ==>
                var quick := old(rows)[t].retryCount < 6;
                rows[t] == old(rows)[t].(status := Deferred, error := Some(ProxyRotated),
                                         deferredUntil := Some(now + if quick then 20 else 1800),
                                         retryCount := if quick then old(rows)[t].retryCount + 1 else 0)
    {
      var account := rows[t].account;
      match result {
        case BudgetRefuses(code) =>
          var until := now + BUDGET_RETRY;
          rows := rows[t := rows[t].(status := Deferred, deferredUntil := Some(until), error := Some(code))];
        case Done =>
          rows := rows[t := rows[t].(status := Complete)];
        case Flood(until) =>
          rows := rows[t := rows[t].(status := Deferred, deferredUntil := Some(until), error := Some(FloodWait))];
        case Banned =>
          rows := rows[t := rows[t].(status := Failed, error := Some(BanDetected))];
        case PeerInvalid(resolveAgain) =>
          if resolveAgain && hasRedis {
            queue := queue + [t];
          }
          rows := rows[t := rows[t].(status := Failed, error := Some(PeerIdInvalid))];
        case ConnectionFails(hasProxy) =>
          RotateProxyAndDefer(t, hasProxy, now);
        case OtherFailure =>
          rows := rows[t := rows[t].(status := Failed, error := Some(OtherError))];
        case Dies(acting) =>
          // Before the action nothing runs any more. A cancelled action still reaches the
          // hand-off, which finds the account's own row EXECUTING and enqueues nothing.
          if acting {
            assert rows[t].account == account && rows[t].status == Executing;
            EnqueueNext(account);
          }
          return;
      }
      EnqueueNext(account);
    }

    /** One run from its start: the first clauses tie it to the protocol, the others say on
        the row itself what each answer of the gate and each result leaves behind. */
    method RunTask(t: nat, gate: Gate, result: Result, now: int)
      modifies this
      ensures var end := EndOf(old(rows), t, gate, result, now);
              && rows == RowsAfter(old(rows), t, end, now)
              && queue == old(queue)
                          + (if end.Ended? && result == PeerInvalid(true) && hasRedis then [t] else [])
                          + (if end.BlockedEnd? || end.Ended? then NextEnqueued(rows, old(rows)[t].account) else [])
      ensures t !in old(rows) || old(rows)[t].status != Queued ==> unchanged(this)
      ensures t in old(rows) ==> t in rows && rows == old(rows)[t := rows[t]]
      ensures t in old(rows) && old(rows)[t].status == Queued ==>
                && (gate.Raised? ==> unchanged(this))
                && (gate.ClosedUntil? ==>
                      && rows[t] == old(rows)[t].(status := Deferred, deferredUntil := Some(gate.until))
                      && queue == old(queue))
                && (gate.Unavailable? ==>
                      var was := old(rows)[t].(error := Some(AccountBlocked));
                      rows[t] == if now >= was.createdAt + BLOCKED_MAX then was.(status := Failed)
                                 else was.(status := Deferred, deferredUntil := Some(now + BLOCKED_RETRY)))
      ensures t in old(rows) && old(rows)[t].status == Queued && gate.Runnable? ==>
                var (read, was) := (old(rows)[t], old(rows)[t].(status := Executing, startedAt := Some(now)));
                var first :=
                  && (forall x | x in old(rows) && x != t && old(rows)[x].account == read.account ::
                        old(rows)[x].status != Executing)
                  && forall q | q in old(rows) && q != t && old(rows)[q].account == read.account
                                && old(rows)[q].status == Queued ::
                       || read.priority > old(rows)[q].priority
                       || (read.priority == old(rows)[q].priority && read.createdAt < old(rows)[q].createdAt)
                       || (&& read.priority == old(rows)[q].priority
                           && read.createdAt == old(rows)[q].createdAt && t < q);
                if !first then unchanged(this)
                else
                  && (rows[t].status == Complete <==> result.Done?)
                  && (rows[t].status == Executing <==> result.Dies?)
                  && (rows[t].status == Failed <==>
                      result.Banned? || result.PeerInvalid? || result.OtherFailure? || result == ConnectionFails(false))
                  && (result.Done? ==> rows[t] == was.(status := Complete))
                  && (result.Dies? ==> rows[t] == was && queue == old(queue))
                  && (result.Banned? ==> rows[t] == was.(status := Failed, error := Some(BanDetected)))
                  && (result.PeerInvalid? ==> rows[t] == was.(status := Failed, error := Some(PeerIdInvalid)))
                  && (result.OtherFailure? ==> rows[t] == was.(status := Failed, error := Some(OtherError)))
                  && (result == ConnectionFails(false) ==>
                        rows[t] == was.(status := Failed, error := Some(ConnectionError)))
                  && (result.Flood? ==>
                        rows[t] == was.(status := Deferred, deferredUntil := Some(result.until),
                                        error := Some(FloodWait)))
                  && (result.BudgetRefuses? ==>
                        rows[t] == was.(status := Deferred, deferredUntil := Some(now + 3600),
                                        error := Some(result.code)))
                  && (result == ConnectionFails(true) ==>
                        rows[t] == was.(status := Deferred, error := Some(ProxyRotated),
                                        deferredUntil := Some(now + if was.retryCount < 6 then 20 else 1800),
                                        retryCount := if was.retryCount < 6 then was.retryCount + 1 else 0))
    {
      if t !in rows || rows[t].status != Queued {
        return;
      }
      match gate {
        case ClosedUntil(until) =>
          rows := rows[t := rows[t].(status := Deferred, deferredUntil := Some(until))];
          return;
        case Unavailable =>
          DeferOrFailBlocked(t, now);
          return;
        case Raised =>
          return;
        case Runnable =>
      }
      var claimed := ClaimForExecution(t, now);
      if claimed {
        Perform(t, result, now);
      }
    }

    /** One bulk update, then one enqueue for each recovered row; an enqueue that fails is
        skipped, its row stays recovered. */
    method RecoverOrphanedTasks(failing: set<nat>, now: int) returns (ids: set<nat>)
      modifies this
      ensures ids == set t | t in old(rows) && Orphaned(old(rows)[t], now)
      ensures rows == RecoveredRows(old(rows), now)
      ensures forall t :: t in ids <==> t in old(rows) && old(rows)[t].status == Executing
                                        && old(rows)[t].startedAt.Some? && old(rows)[t].startedAt.value < now - 900
      ensures forall t | t in old(rows) ::
                && t in rows
                && rows[t] == if t in ids then old(rows)[t].(status := Queued, startedAt := None) else old(rows)[t]
      ensures old(queue) <= queue
      ensures multiset(queue[|old(queue)|..]) == multiset(if hasRedis then ids - failing else {})
    {
      ids := set t | t in rows && Orphaned(rows[t], now);
      rows := map t | t in rows :: if t in ids then Recovered(rows[t]) else rows[t];
      if !hasRedis {
        return;
      }
      var left, added := ids, [];
      while left != {}
        invariant rows == RecoveredRows(old(rows), now)
        invariant left <= ids
        invariant multiset(added) + multiset(left - failing) == multiset(ids - failing)
        invariant queue == old(queue) + added
        decreases left
      {
        var t :| t in left;
        OneLess(left, failing, t);
        if t !in failing {
          queue := queue + [t];
          added := added + [t];
        }
        left := left - {t};
      }
      assert queue[|old(queue)|..] == added;
    }

    /** Selects the due rows that nobody holds locked, most urgent and then oldest first, up
        to the limit, moves them back to QUEUED one by one, and then enqueues them in that
        order, skipping the enqueues that fail. */
    method ReenqueueDueDeferred(limit: nat, locked: set<nat>, failing: set<nat>, now: int) returns (due: seq<nat>)
      modifies this
      ensures IsBatch(due, DueRanks(old(rows), locked, now), limit)
      ensures forall i :: 0 <= i < |due| ==>
                && due[i] in old(rows) && due[i] !in locked && old(rows)[due[i]].status == Deferred
                && old(rows)[due[i]].deferredUntil.Some? && old(rows)[due[i]].deferredUntil.value <= now
      ensures forall i, j :: 0 <= i < j < |due| ==>
                || old(rows)[due[i]].priority > old(rows)[due[j]].priority
                || (old(rows)[due[i]].priority == old(rows)[due[j]].priority
                    && old(rows)[due[i]].createdAt <= old(rows)[due[j]].createdAt)
      ensures forall t | t in old(rows) && t !in locked && t !in due && old(rows)[t].status == Deferred
                         && old(rows)[t].deferredUntil.Some? && old(rows)[t].deferredUntil.value <= now ::
                |due| == limit && forall i :: 0 <= i < |due| ==>
                  || old(rows)[due[i]].priority > old(rows)[t].priority
                  || (old(rows)[due[i]].priority == old(rows)[t].priority
                      && old(rows)[due[i]].createdAt <= old(rows)[t].createdAt)
      ensures forall t | t in old(rows) ::
                t in rows && rows[t] == if t in due then old(rows)[t].(status := Queued, deferredUntil := None)
                                        else old(rows)[t]
      ensures rows == RevivedRows(old(rows), due)
      ensures queue == old(queue) + if hasRedis then Succeeding(due, failing) else []
    {
      due := SelectBatch(DueRanks(rows, locked, now), limit);
      Revive(due);
      if hasRedis {
        EnqueueAll(due, failing);
      }
    }

    method Revive(due: seq<nat>)
      requires forall i :: 0 <= i < |due| ==> due[i] in rows
      requires forall i, j :: 0 <= i < j < |due| ==> due[i] != due[j]
      modifies `rows
      ensures rows == RevivedRows(old(rows), due)
    {
      for i := 0 to |due|
        invariant rows == RevivedRows(old(rows), due[..i])
      {
        assert due[..i + 1] == due[..i] + [due[i]];
        assert due[i] !in due[..i];
        rows := rows[due[i] := rows[due[i]].(status := Queued, deferredUntil := None)];
      }
      assert due[..|due|] == due;
    }

    method EnqueueAll(ids: seq<nat>, failing: set<nat>)
      modifies `queue
      ensures queue == old(queue) + Succeeding(ids, failing)
    {
      for i := 0 to |ids|
        invariant queue == old(queue) + Succeeding(ids[..i], failing)
      {
        assert ids[..i + 1][..i] == ids[..i];
        if ids[i] !in failing {
          queue := queue + [ids[i]];
        }
      }
      assert ids[..|ids|] == ids;
    }
  }

  function RecoveredRows(rows: Table, now: int): Table {
    map t | t in rows :: if Orphaned(rows[t], now) then Recovered(rows[t]) else rows[t]
  }

  /** The rows the deferred sweep can take, by priority descending and created_at. */
  function DueRanks(rows: Table, locked: set<nat>, now: int): map<nat, Rank> {
    map t | t in rows && t !in locked && Due(rows[t], now) :: Rank(-rows[t].priority, rows[t].createdAt)
  }

  function RevivedRows(rows: Table, due: seq<nat>): Table {
    map t | t in rows :: if t in due then Revived(rows[t]) else rows[t]
  }

  // ----- The methods are runs of the protocol -----

  /** The protocol events of an uninterrupted run by agent `a`. */
  function EventsOf(end: End, a: nat): seq<Event> {
    match end
    case NotQueued => [Pick(a)]
    case Closed(until) => [Pick(a), DeferClosed(a, until)]
    case BlockedEnd => [Pick(a), Block(a), HandOff(a)]
    case GateRaised => [Pick(a), Kill(a)]
    case NotClaimed => [Pick(a), Ready(a), Claim(a)]
    case Dead => [Pick(a), Ready(a), Claim(a), Kill(a)]
    case Ended(outcome) => [Pick(a), Ready(a), Claim(a), Finish(a, outcome), HandOff(a)]
  }

  /** What is left of the agent: the courier for the job that `RunTask` enqueued, if any. */
  ghost function AgentsAfter(s: State, a: nat, end: End, rows: Table, account: int): map<nat, Agent> {
    if (end.BlockedEnd? || end.Ended?) && NextJob(rows, account) != []
    then s.agents[a := Courier(NextJob(rows, account)[0])] else s.agents - {a}
  }

  /** Left alone, a job takes the protocol through exactly these events, to the same rows
      and the same next job as `RunTask`. (A failing enqueue is the courier's `Lose`; the
      job that re-resolves an invalid peer is a `Duplicate` beside the run.) */
  lemma RunIsAProtocolRun(s: State, a: nat, gate: Gate, result: Result)
    requires a in s.agents && s.agents[a].Job?
    ensures var t := s.agents[a].task;
            var end := EndOf(s.rows, t, gate, result, s.now);
            var s' := StepAll(s, EventsOf(end, a));
            && s'.rows == RowsAfter(s.rows, t, end, s.now)
            && (t in s.rows ==> s'.agents == AgentsAfter(s, a, end, s'.rows, s.rows[t].account))
  {
    var end := EndOf(s.rows, s.agents[a].task, gate, result, s.now);
    match end {
      case NotQueued => ShortRun(s, a, end);
      case Closed(_) => ShortRun(s, a, end);
      case GateRaised => ShortRun(s, a, end);
      case BlockedEnd => BlockedRun(s, a);
      case NotClaimed => NotClaimedRun(s, a);
      case Dead => DeadRun(s, a);
      case Ended(outcome) => FullRun(s, a, outcome);
    }
  }

  /** Runs that never come to the claim. */
  lemma ShortRun(s: State, a: nat, end: End)
    requires a in s.agents && s.agents[a].Job?
    requires var t := s.agents[a].task;
             if t in s.rows && s.rows[t].status == Queued then end.Closed? || end.GateRaised? else end.NotQueued?
    ensures var t := s.agents[a].task;
            var s' := StepAll(s, EventsOf(end, a));
            s'.rows == RowsAfter(s.rows, t, end, s.now) && s'.agents == s.agents - {a}
  {
    var es := EventsOf(end, a);
    var s1 := Unfold(s, es);
    if !end.NotQueued? {
      var s2 := Unfold(s1, es[1..]);
    }
  }

  lemma NotClaimedRun(s: State, a: nat)
    requires a in s.agents && s.agents[a].Job? && s.agents[a].task in s.rows
    requires s.rows[s.agents[a].task].status == Queued && !ClaimPasses(s.rows, s.agents[a].task)
    ensures var s' := StepAll(s, EventsOf(NotClaimed, a));
            s'.rows == s.rows && s'.agents == s.agents - {a}
  {
    var es := EventsOf(NotClaimed, a);
    var s2 := Picked(s, a, es);
    var s3 := Unfold(s2, es[2..]);
  }

  /** The job dies after its claim and leaves the row EXECUTING. */
  lemma DeadRun(s: State, a: nat)
    requires a in s.agents && s.agents[a].Job? && s.agents[a].task in s.rows
    requires s.rows[s.agents[a].task].status == Queued && ClaimPasses(s.rows, s.agents[a].task)
    ensures var s' := StepAll(s, EventsOf(Dead, a));
            s'.rows == Claimed(s.rows, s.agents[a].task, s.now) && s'.agents == s.agents - {a}
  {
    var es := EventsOf(Dead, a);
    var s2 := Picked(s, a, es);
    var s3 := Unfold(s2, es[2..]);
    assert es[2..][1..] == [Kill(a)];
    var s4 := Unfold(s3, [Kill(a)]);
  }

  lemma BlockedRun(s: State, a: nat)
    requires a in s.agents && s.agents[a].Job? && s.agents[a].task in s.rows
    requires s.rows[s.agents[a].task].status == Queued
    ensures var t := s.agents[a].task;
            var s' := StepAll(s, EventsOf(BlockedEnd, a));
            && s'.rows == Blocked(s.rows, t, s.now)
            && s'.agents == AgentsAfter(s, a, BlockedEnd, s'.rows, s.rows[t].account)
  {
    var es := EventsOf(BlockedEnd, a);
    var s1 := Unfold(s, es);
    var s2 := Unfold(s1, es[1..]);
    assert es[1..][1..] == [HandOff(a)];
    HandedOver(s, s2, a, BlockedEnd, [HandOff(a)]);
  }

  lemma FullRun(s: State, a: nat, outcome: Outcome)
    requires a in s.agents && s.agents[a].Job? && s.agents[a].task in s.rows
    requires s.rows[s.agents[a].task].status == Queued
    requires ClaimPasses(s.rows, s.agents[a].task)
    ensures var t := s.agents[a].task;
            var s' := StepAll(s, EventsOf(Ended(outcome), a));
            && s'.rows == Finished(Claimed(s.rows, t, s.now), t, outcome)
            && s'.agents == AgentsAfter(s, a, Ended(outcome), s'.rows, s.rows[t].account)
  {
    var t := s.agents[a].task;
    var es := EventsOf(Ended(outcome), a);
    var s2 := Picked(s, a, es);
    assert es[2..] == [Claim(a), Finish(a, outcome), HandOff(a)];
    var s4 := ClaimedAndFinished(s2, a, outcome);
    HandedOver(s, s4, a, Ended(outcome), [HandOff(a)]);
  }

  lemma {:induction false} ClaimedAndFinished(s: State, a: nat, outcome: Outcome) returns (s': State)
    requires a in s.agents && s.agents[a].Claiming? && s.agents[a].task in s.rows
    requires ClaimPasses(s.rows, s.agents[a].task)
    ensures var t := s.agents[a].task;
            && s'.rows == Finished(Claimed(s.rows, t, s.now), t, outcome)
            && s'.agents == s.agents[a := Handing(s.rows[t].account, s.agents[a].start)]
    ensures StepAll(s, [Claim(a), Finish(a, outcome), HandOff(a)]) == StepAll(s', [HandOff(a)])
  {
    var es := [Claim(a), Finish(a, outcome), HandOff(a)];
    var s1 := Unfold(s, es);
    s' := Unfold(s1, es[1..]);
    assert es[1..][1..] == [HandOff(a)];
  }

  lemma HandedOver(s: State, s1: State, a: nat, end: End, es: seq<Event>)
    requires es == [HandOff(a)] && (end.BlockedEnd? || end.Ended?)
    requires a in s1.agents && s1.agents[a].Handing? && s1.agents - {a} == s.agents - {a} && a in s.agents
    ensures StepAll(s1, es).rows == s1.rows
    ensures StepAll(s1, es).agents == AgentsAfter(s, a, end, s1.rows, s1.agents[a].account)
  {
    var s2 := Unfold(s1, es);
    var account := s1.agents[a].account;
    if NextJob(s1.rows, account) != [] {
      assert s2.agents == s1.agents[a := Courier(NextJob(s1.rows, account)[0])];
      assert forall b | b in s2.agents :: b == a || b in s1.agents - {a};
      assert forall b | b in s.agents && b != a :: b in s1.agents - {a} && s1.agents[b] == (s.agents - {a})[b];
      assert s2.agents == s.agents[a := Courier(NextJob(s1.rows, account)[0])];
    }
  }

  lemma Picked(s: State, a: nat, es: seq<Event>) returns (s2: State)
    requires a in s.agents && s.agents[a].Job? && s.agents[a].task in s.rows
    requires s.rows[s.agents[a].task].status == Queued
    requires |es| >= 2 && es[0] == Pick(a) && es[1] == Ready(a)
    ensures s2 == s.(agents := s.agents[a := Claiming(s.agents[a].task, s.now)])
    ensures StepAll(s, es) == StepAll(s2, es[2..])
  {
    var s1 := Unfold(s, es);
    s2 := Unfold(s1, es[1..]);
    assert es[1..][1..] == es[2..];
  }

  /** Bulk recovery at one instant is the same as recovering its rows one after another,
      in any order: no row's recovery depends on another's. */
  lemma {:induction false} BulkRecoveryIsOneByOne(rows: Table, now: int, order: seq<nat>)
    requires forall i, j :: 0 <= i < j < |order| ==> order[i] != order[j]
    requires forall t :: t in order <==> t in rows && Orphaned(rows[t], now)
    ensures RecoverEach(rows, order, now) == RecoveredRows(rows, now)
  {
    RecoverPrefix(rows, now, order, |order|);
    assert order[..|order|] == order;
    assert RecoveredAmong(rows, order) == RecoveredRows(rows, now);
  }

  /** The rows after a run of Recover events at one instant (skipping what is not orphaned). */
  function RecoverEach(rows: Table, order: seq<nat>, now: int): Table {
    if order == [] then rows
    else
      var before, t := RecoverEach(rows, order[..|order| - 1], now), order[|order| - 1];
      if t in before && Orphaned(before[t], now) then before[t := Recovered(before[t])] else before
  }

  function RecoveredAmong(rows: Table, done: seq<nat>): Table {
    map t | t in rows :: if t in done then Recovered(rows[t]) else rows[t]
  }

  lemma OneMoreRecovered(rows: Table, done: seq<nat>, t: nat)
    requires t in rows && t !in done
    ensures RecoveredAmong(rows, done)[t] == rows[t]
    ensures RecoveredAmong(rows, done + [t]) == RecoveredAmong(rows, done)[t := Recovered(rows[t])]
  {
  }

  lemma {:induction false} RecoverPrefix(rows: Table, now: int, order: seq<nat>, n: nat)
    requires n <= |order|
    requires forall i, j :: 0 <= i < j < |order| ==> order[i] != order[j]
    requires forall i :: 0 <= i < |order| ==> order[i] in rows && Orphaned(rows[order[i]], now)
    ensures RecoverEach(rows, order[..n], now) == RecoveredAmong(rows, order[..n])
  {
    if n == 0 {
    } else {
      var done, t := order[..n - 1], order[n - 1];
      RecoverPrefix(rows, now, order, n - 1);
      assert order[..n] == done + [t] && order[..n][..n - 1] == done;
      OneMoreRecovered(rows, done, t);
    }
  }

  /** The row's retry_count after that many failed connections, starting from 0. */
  function RetriesAfter(row: Row, failures: nat): nat {
    if failures == 0 then 0
    else
      var o := Rotation(row.(retryCount := RetriesAfter(row, failures - 1)), true, 0);
      if o.Postpone? then o.retryCount else 0
  }

  /** Over any number of failed connections, every seventh waits for the long cooldown and
      the six in between are quick retries. */
  lemma {:induction false} SeventhFailureCoolsDown(row: Row, failures: nat, now: int)
    ensures RetriesAfter(row, failures) == failures % (MAX_ROTATIONS + 1)
    ensures var o := Rotation(row.(retryCount := RetriesAfter(row, failures)), true, now);
            var wait := if failures % (MAX_ROTATIONS + 1) == MAX_ROTATIONS then ROTATE_COOLDOWN else ROTATE_BACKOFF;
            o.Postpone? && o.until == now + wait
  {
    if failures == 0 {
    } else {
      SeventhFailureCoolsDown(row, failures - 1, now);
    }
  }
}
