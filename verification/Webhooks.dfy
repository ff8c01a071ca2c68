/**
 Webhook delivery rows: what the producer, one delivery attempt and the re-drive sweep
 write, as functions and as the methods that write it.
 */
module Webhooks {
  import opened Batches
  import opened Options

  const MAX_ATTEMPTS := 5
  const REDRIVE_AFTER := 900
  const BACKOFF: seq<int> := [30, 60, 120, 240, 480]

  datatype Status = Pending | Delivered | Failed

  datatype Delivery = Delivery(
    status: Status, attempts: nat, nextAttemptAt: Option<int>, createdAt: int, deliveredAt: Option<int>)

  function BackoffSeconds(attempts: int): int {
    var step := if attempts - 1 < 0 then 0 else attempts - 1;
    BACKOFF[if step > 4 then 4 else step]
  }

  /** 30 seconds, doubled with every further attempt up to the fifth, and no longer then. */
  lemma DelaysDouble(attempts: nat)
    ensures attempts <= 1 ==> BackoffSeconds(attempts) == 30
    ensures 1 <= attempts < 5 ==> BackoffSeconds(attempts + 1) == 2 * BackoffSeconds(attempts)
    ensures attempts >= 5 ==> BackoffSeconds(attempts) == BackoffSeconds(5)
  {
  }

  function Created(now: int): Delivery {
    Delivery(Pending, 0, None, now, None)
  }

  /** The row after an attempt that had read `read` attempts. */
  function Attempted(row: Delivery, read: nat, ok: bool, now: int): Delivery {
    var tried := row.(attempts := read + 1);
    if ok then tried.(status := Delivered, deliveredAt := Some(now))
    else if read + 1 >= MAX_ATTEMPTS then tried.(status := Failed)
    else tried.(status := Pending, nextAttemptAt := Some(now + BackoffSeconds(read + 1)))
  }

  predicate Retries(read: nat, ok: bool) {
    !ok && read + 1 < MAX_ATTEMPTS
  }

  /** The instant a row's own clock names: its next attempt, or its creation. */
  function Anchor(row: Delivery): int {
    if row.nextAttemptAt.Some? then row.nextAttemptAt.value else row.createdAt
  }

  predicate Stranded(row: Delivery, now: int) {
    row.status == Pending && row.attempts < MAX_ATTEMPTS && Anchor(row) <= now - REDRIVE_AFTER
  }

  function Redriven(row: Delivery, now: int): Delivery {
    row.(nextAttemptAt := Some(now + REDRIVE_AFTER))
  }

  datatype Queued = Queued(delivery: nat, due: int)

  datatype Report = NotFound | AlreadyDelivered | Done | Exhausted | RetryIn(delay: int)

  class Outbox {
    var rows: map<nat, Delivery>
    var queue: seq<Queued>
    var pool: bool          // the cached connection pool exists

    constructor ()
      ensures rows == map[] && queue == [] && !pool
    {
      rows, queue, pool := map[], [], false;
    }

    /** Row first, job second; a failed enqueue drops the cached pool and keeps the row. */
    method EnqueueWebhook(hasUrl: bool, id: nat, poolBuilds: bool, enqueueOk: bool, now: int) returns (r: Option<nat>)
      requires id !in rows
      modifies this
      ensures !hasUrl ==> r == None && unchanged(this)
      ensures hasUrl ==> r == Some(id) && rows == old(rows)[id := Created(now)]
      ensures hasUrl ==> rows == old(rows)[id := Delivery(Pending, 0, None, now, None)]
      ensures var queued := hasUrl && (old(pool) || poolBuilds) && enqueueOk;
              && queue == old(queue) + (if queued then [Queued(id, now)] else [])
              && (hasUrl ==> pool == queued)
    {
      if !hasUrl {
        return None;
      }
      rows := rows[id := Created(now)];
      if !pool && poolBuilds {
        pool := true;
      }
      if pool && enqueueOk {
        queue := queue + [Queued(id, now)];
      } else {
        pool := false;
      }
      r := Some(id);
    }

    /** One attempt; `ok` is what the single POST answered, if one was made. */
    method DeliverWebhook(id: nat, ok: bool, hasRedis: bool, now: int) returns (r: Report)
      modifies this`rows, this`queue
      ensures id !in old(rows) ==> unchanged(this) && r == NotFound
      ensures id in old(rows) && old(rows)[id].status == Delivered ==> unchanged(this) && r == AlreadyDelivered
      ensures id in old(rows) && old(rows)[id].status != Delivered ==>
                var read := old(rows)[id].attempts;
                && rows == old(rows)[id := Attempted(old(rows)[id], read, ok, now)]
                && queue == old(queue) + (if Retries(read, ok) && hasRedis then [Queued(id, Anchor(rows[id]))] else [])
                && r == if ok then Done else if Retries(read, ok) then RetryIn(BackoffSeconds(read + 1)) else Exhausted
      ensures id in old(rows) && old(rows)[id].status != Delivered ==>
                var attempts := old(rows)[id].attempts + 1;
                queue == old(queue) + if !ok && attempts < 5 && hasRedis
                                      then [Queued(id, now + BackoffSeconds(attempts))] else []
      ensures id in old(rows) && old(rows)[id].status != Delivered ==>
                var was := old(rows)[id].(attempts := old(rows)[id].attempts + 1);
                rows == old(rows)[id :=
                  if ok then was.(status := Delivered, deliveredAt := Some(now))
                  else if was.attempts >= 5 then was.(status := Failed)
                  else was.(status := Pending, nextAttemptAt := Some(now + BackoffSeconds(was.attempts)))]
    {
      if id !in rows {
        return NotFound;
      }
      if rows[id].status == Delivered {
        return AlreadyDelivered;
      }
      rows := rows[id := rows[id].(attempts := rows[id].attempts + 1)];
      if ok {
        rows := rows[id := rows[id].(status := Delivered, deliveredAt := Some(now))];
        return Done;
      }
      if rows[id].attempts >= MAX_ATTEMPTS {
        rows := rows[id := rows[id].(status := Failed)];
        return Exhausted;
      }
      var delay := BackoffSeconds(rows[id].attempts);
      rows := rows[id := rows[id].(status := Pending, nextAttemptAt := Some(now + delay))];
      if hasRedis {
        queue := queue + [Queued(id, now + delay)];
      }
      r := RetryIn(delay);
    }

    /** Selects the stranded rows that nobody holds locked, oldest first, up to the limit,
        and re-queues them. A row whose enqueue fails is neither reported nor touched, and
        does not stop the sweep. */
    method RedrivePending(limit: nat, locked: set<nat>, hasRedis: bool, failing: set<nat>, now: int)
      returns (driven: seq<nat>, ghost batch: seq<nat>)
      modifies this`rows, this`queue
      ensures IsBatch(batch, StrandedRanks(old(rows), locked, now), limit)
      ensures forall d | d in batch ::
                && d in old(rows) && d !in locked && old(rows)[d].status == Pending && old(rows)[d].attempts < 5
                && (if old(rows)[d].nextAttemptAt.Some? then old(rows)[d].nextAttemptAt.value <= now - 900
                    else old(rows)[d].createdAt <= now - 900)
      ensures forall i, j :: 0 <= i < j < |batch| ==> old(rows)[batch[i]].createdAt <= old(rows)[batch[j]].createdAt
      ensures forall d | d in old(rows) && d !in locked && d !in batch
                         && old(rows)[d].status == Pending && old(rows)[d].attempts < 5
                         && (if old(rows)[d].nextAttemptAt.Some? then old(rows)[d].nextAttemptAt.value <= now - 900
                             else old(rows)[d].createdAt <= now - 900) ::
                && |batch| == limit
                && forall i :: 0 <= i < |batch| ==> old(rows)[batch[i]].createdAt <= old(rows)[d].createdAt
      ensures forall d | d in old(rows) ::
                && d in rows
                && rows[d] == if d in driven then old(rows)[d].(nextAttemptAt := Some(now + 900)) else old(rows)[d]
      ensures driven == if hasRedis then Succeeding(batch, failing) else []
      ensures rows == RedrivenRows(old(rows), driven, now)
      ensures queue == old(queue) + Jobs(driven, now)
    {
      var selected := SelectBatch(StrandedRanks(rows, locked, now), limit);
      batch, driven := selected, [];
      if hasRedis {
        driven := Requeue(selected, failing, now);
      } else {
        assert rows == RedrivenRows(rows, [], now);
      }
    }

    /** The sweep's loop over the selected rows. */
    method Requeue(batch: seq<nat>, failing: set<nat>, now: int) returns (driven: seq<nat>)
      requires forall i :: 0 <= i < |batch| ==> batch[i] in rows
      requires forall i, j :: 0 <= i < j < |batch| ==> batch[i] != batch[j]
      modifies this`rows, this`queue
      ensures driven == Succeeding(batch, failing)
      ensures rows == RedrivenRows(old(rows), driven, now)
      ensures queue == old(queue) + Jobs(driven, now)
    {
      driven := [];
      for i := 0 to |batch|
        invariant driven == Succeeding(batch[..i], failing)
        invariant rows == RedrivenRows(old(rows), driven, now)
        invariant queue == old(queue) + Jobs(driven, now)
      {
        var id := batch[i];
        assert batch[..i + 1][..i] == batch[..i];
        if id !in failing {
          SucceedingFacts(batch[..i], failing);
          OneMoreDriven(old(rows), driven, id, now);
          queue := queue + [Queued(id, now)];
          rows := rows[id := rows[id].(nextAttemptAt := Some(now + REDRIVE_AFTER))];
          driven := driven + [id];
        }
      }
      assert batch[..|batch|] == batch;
    }
  }

  /** The rows the sweep can take, by created_at. */
  function StrandedRanks(rows: map<nat, Delivery>, locked: set<nat>, now: int): map<nat, Rank> {
    map d | d in rows && d !in locked && Stranded(rows[d], now) :: Rank(rows[d].createdAt, 0)
  }

  function RedrivenRows(rows: map<nat, Delivery>, driven: seq<nat>, now: int): map<nat, Delivery> {
    map d | d in rows :: if d in driven then Redriven(rows[d], now) else rows[d]
  }

  function Jobs(ids: seq<nat>, now: int): seq<Queued> {
    seq(|ids|, i requires 0 <= i < |ids| => Queued(ids[i], now))
  }

  lemma OneMoreDriven(rows: map<nat, Delivery>, driven: seq<nat>, id: nat, now: int)
    requires id in rows && id !in driven
    ensures RedrivenRows(rows, driven + [id], now) == RedrivenRows(rows, driven, now)[id := Redriven(rows[id], now)]
    ensures RedrivenRows(rows, driven, now)[id] == rows[id]
    ensures Jobs(driven + [id], now) == Jobs(driven, now) + [Queued(id, now)]
  {
  }
}
