/**
 No queue is silently stuck. In a run where no job dies, no enqueue is lost and orphan
 recovery does not act, the head of every account's queue always has somebody who will
 get to it: an agent on its way to that very row, a live run of the account (which ends
 in enqueue_next), or a DEFERRED row that outranks it and that the sweeper will revive.
 */
module WakeCoverage {
  import opened Options
  import opened TaskRows
  import opened TaskProtocol

  predicate Carries(agent: Agent, t: nat) {
    match agent
    case Courier(task) => task == t
    case Job(task) => task == t
    case Preparing(task, _) => task == t
    case Claiming(task, _) => task == t
    case _ => false
  }

  predicate Serves(rows: Table, agent: Agent, account: int) {
    match agent
    case Running(t, _, _) => t in rows && rows[t].account == account
    case Handing(acct, _) => acct == account
    case _ => false
  }

  predicate OutwaitsIn(rows: Table, d: nat, h: nat)
    requires h in rows
  {
    d in rows && rows[d].account == rows[h].account && rows[d].status == Deferred && Outranks(rows, d, h)
  }

  datatype Cover = Agent(id: nat) | Elder(row: nat)

  predicate Covers(s: State, h: nat, c: Cover)
    requires h in s.rows
  {
    match c
    case Agent(a) => a in s.agents && (Carries(s.agents[a], h) || Serves(s.rows, s.agents[a], s.rows[h].account))
    case Elder(d) => OutwaitsIn(s.rows, d, h)
  }

  ghost predicate HeadCovered(s: State, h: nat)
    requires h in s.rows
  {
    exists c :: Covers(s, h, c)
  }

  ghost predicate AllHeadsCovered(s: State) {
    forall h | h in s.rows && IsHead(s.rows, s.rows[h].account, h) :: HeadCovered(s, h)
  }

  /** Every EXECUTING row is being run by a live runner. */
  ghost predicate ExecutingAreLive(s: State) {
    forall t | t in s.rows && s.rows[t].status == Executing :: exists a :: RunsTask(s, a, t)
  }

  predicate RunsTask(s: State, a: nat, t: nat) {
    a in s.agents && s.agents[a].Running? && s.agents[a].task == t
  }

  /** No crash, no lost enqueue, no orphan recovery. */
  predicate Smooth(e: Event) { !e.Kill? && !e.Lose? && !e.Recover? }

  /** A smooth run in which no job is put into the queue from outside, either. */
  ghost predicate Ordinary(es: seq<Event>) { forall e | e in es :: Smooth(e) && !e.Duplicate? }

  ghost predicate Awake(s: State) {
    TasksKnown(s) && DeferredHaveDeadline(s.rows) && ExecutingAreLive(s) && AllHeadsCovered(s)
  }

  lemma ExecutingAreLiveStep(s: State, e: Event)
    requires TasksKnown(s) && ExecutingAreLive(s) && Smooth(e)
    ensures ExecutingAreLive(Step(s, e))
  {
    var s' := Step(s, e);
    forall t | t in s'.rows && s'.rows[t].status == Executing
      ensures exists a :: RunsTask(s', a, t)
    {
      if t in s.rows && s.rows[t].status == Executing {
        var a :| RunsTask(s, a, t);
        assert RunsTask(s', a, t);
      } else {
        assert RunsTask(s', e.agent, t);
      }
    }
  }

  /** `h` stays the head behind a DEFERRED row. */
  lemma KeepElder(s: State, e: Event, h: nat, d: nat) returns (c: Cover)
    requires Smooth(e) && Enabled(s, e) && !(e.Sweep? && e.task == d)
    requires h in s.rows && OutwaitsIn(s.rows, d, h) && h in Step(s, e).rows
    ensures Covers(Step(s, e), h, c)
  {
    c := if e.Claim? || e.Finish? || e.Block? then Agent(e.agent) else Elder(d);
    if c.Agent? && !Covers(Step(s, e), h, c) {
      c := Elder(d);
    }
  }

  /** `h` stays the head with an agent covering it. */
  lemma KeepAgent(s: State, e: Event, h: nat, b: nat) returns (c: Cover)
    requires TasksKnown(s) && ExecutingAreLive(s) && Smooth(e) && Enabled(s, e)
    requires h in s.rows && IsHead(s.rows, s.rows[h].account, h) && Covers(s, h, Agent(b))
    requires h in Step(s, e).rows && Step(s, e).rows[h].status == Queued
    ensures Covers(Step(s, e), h, c)
  {
    var account := s.rows[h].account;
    c := Agent(b);
    if e.Claim? && e.agent == b {
      if !ClaimPasses(s.rows, h) {
        c := LiveRunOf(s, account, h, b);
      }
    } else if e.HandOff? && e.agent == b {
      HeadIsUnique(s.rows, account, h, Head(s.rows, account).value);
      if OtherExecuting(s.rows, account, -1) {
        c := LiveRunOf(s, account, -1, b);
      }
    }
  }

  lemma LiveRunOf(s: State, account: int, t: int, b: nat) returns (c: Cover)
    requires ExecutingAreLive(s) && OtherExecuting(s.rows, account, t)
    ensures c.Agent? && c.id in s.agents && s.agents[c.id].Running? && Serves(s.rows, s.agents[c.id], account)
  {
    var x :| x in s.rows && x != t && s.rows[x].account == account && s.rows[x].status == Executing;
    var a :| RunsTask(s, a, x);
    c := Agent(a);
  }

  /** `h` became the head because the row in front of it left the queue. */
  lemma Vacated(s: State, e: Event, h: nat) returns (c: Cover)
    requires TasksKnown(s) && Smooth(e) && Enabled(s, e) && !e.Submit? && !e.Sweep?
    requires h in Step(s, e).rows && IsHead(Step(s, e).rows, Step(s, e).rows[h].account, h)
    requires !(h in s.rows && IsHead(s.rows, Step(s, e).rows[h].account, h))
    ensures Covers(Step(s, e), h, c)
  {
    var q := WhoLeft(s, e, h);
    c := if e.DeferClosed? then Elder(q) else Agent(e.agent);
  }

  /** The row that stood in front of `h` and no longer does. */
  lemma WhoLeft(s: State, e: Event, h: nat) returns (q: nat)
    requires Enabled(s, e) && Smooth(e) && !e.Submit? && !e.Sweep?
    requires h in Step(s, e).rows && IsHead(Step(s, e).rows, Step(s, e).rows[h].account, h)
    requires !(h in s.rows && IsHead(s.rows, Step(s, e).rows[h].account, h))
    ensures var account := Step(s, e).rows[h].account;
            && h in s.rows && Waiting(s.rows, account, h) && q in s.rows && q in Step(s, e).rows
            && Waiting(s.rows, account, q) && Outranks(s.rows, q, h) && !Waiting(Step(s, e).rows, account, q)
  {
    var account := Step(s, e).rows[h].account;
    assert h in s.rows && Waiting(s.rows, account, h);
    q :| q in s.rows && Waiting(s.rows, account, q) && q != h && !Outranks(s.rows, h, q);
  }

  /** A revived row that outranked `h` takes the head from it. */
  lemma RevivedElderLeads(s: State, e: Event, h: nat)
    requires Enabled(s, e) && e.Sweep? && h in s.rows && OutwaitsIn(s.rows, e.task, h)
    ensures !IsHead(Step(s, e).rows, s.rows[h].account, h)
  {
    assert Waiting(Step(s, e).rows, s.rows[h].account, e.task);
  }

  lemma {:induction false} StillHead(s: State, e: Event, h: nat) returns (c: Cover)
    requires Awake(s) && Smooth(e) && Enabled(s, e)
    requires h in s.rows && IsHead(s.rows, s.rows[h].account, h)
    requires h in Step(s, e).rows && IsHead(Step(s, e).rows, s.rows[h].account, h)
    ensures Covers(Step(s, e), h, c)
  {
    var before :| Covers(s, h, before);
    if before.Agent? {
      c := KeepAgent(s, e, h, before.id);
    } else {
      if e.Sweep? && e.task == before.row {
        RevivedElderLeads(s, e, h);
      }
      c := KeepElder(s, e, h, before.row);
    }
  }

  /** A row that enters the queue as its head comes with its own courier. */
  lemma Entered(s: State, e: Event, h: nat)
    requires TasksKnown(s) && Enabled(s, e) && (e.Submit? || e.Sweep?)
    requires h in Step(s, e).rows && IsHead(Step(s, e).rows, Step(s, e).rows[h].account, h)
    requires !(h in s.rows && IsHead(s.rows, Step(s, e).rows[h].account, h))
    ensures Covers(Step(s, e), h, Agent(e.agent))
  {
    var s' := Step(s, e);
    var account := s'.rows[h].account;
    if h != e.task {
      var q :| q in s.rows && Waiting(s.rows, account, q) && q != h && !Outranks(s.rows, h, q);
      assert Waiting(s'.rows, account, q);
    }
  }

  /** The head after a step is covered: it was the head before and keeps its cover, it
      has just entered the queue, or the row in front of it has just left. */
  lemma HeadStaysCovered(s: State, e: Event, h: nat)
    requires Awake(s) && Smooth(e)
    requires h in Step(s, e).rows && IsHead(Step(s, e).rows, Step(s, e).rows[h].account, h)
    ensures HeadCovered(Step(s, e), h)
  {
    if Enabled(s, e) {
      TasksKnownStep(s, e);
      var c: Cover;
      if h in s.rows && IsHead(s.rows, s.rows[h].account, h) {
        c := StillHead(s, e, h);
      } else if e.Submit? || e.Sweep? {
        Entered(s, e, h);
        c := Agent(e.agent);
      } else {
        c := Vacated(s, e, h);
      }
    }
  }

  lemma AwakeStep(s: State, e: Event)
    requires Awake(s) && Smooth(e)
    ensures Awake(Step(s, e))
  {
    var s' := Step(s, e);
    TasksKnownStep(s, e);
    ExecutingAreLiveStep(s, e);
    assert DeferredHaveDeadline(s'.rows);
    forall h | h in s'.rows && IsHead(s'.rows, s'.rows[h].account, h)
      ensures HeadCovered(s', h)
    {
      HeadStaysCovered(s, e, h);
    }
  }

  /** Wake coverage, over all smooth runs. */
  lemma {:induction false} NoQueueIsStuck(start: int, es: seq<Event>)
    requires forall e | e in es :: Smooth(e)
    ensures Awake(Exec(Empty(start), es))
  {
    if es == [] {
    } else {
      NoQueueIsStuck(start, es[..|es| - 1]);
      AwakeStep(Exec(Empty(start), es[..|es| - 1]), es[|es| - 1]);
    }
  }

  /** When every agent has come to rest, a queue that still holds work waits behind a
      DEFERRED row of the same account with a finite deadline. */
  lemma RestingQueueHasDeadline(start: int, es: seq<Event>, account: int, q: nat)
    requires forall e | e in es :: Smooth(e)
    requires var s := Exec(Empty(start), es); s.agents == map[] && Waiting(s.rows, account, q)
    ensures var rows := Exec(Empty(start), es).rows;
            exists d | d in rows && rows[d].account == account && rows[d].status == Deferred ::
              rows[d].deferredUntil.Some? && Outranks(rows, d, q)
  {
    NoQueueIsStuck(start, es);
    var s := Exec(Empty(start), es);
    var h := Head(s.rows, account).value;
    var c :| Covers(s, h, c);
    assert c.Elder? && OutwaitsIn(s.rows, c.row, h);
    assert Outranks(s.rows, c.row, q);
  }

  // ----- Orphan recovery is outside the theorem: it enqueues the orphan, not the head -----

  /** An account at rest behind an orphan: no agent concerns it and no row is deferred. */
  ghost predicate OnlyAnOrphan(s: State, t: nat) {
    && t in s.rows && Orphaned(s.rows[t], s.now)
    && (forall x | x in s.rows && s.rows[x].account == s.rows[t].account :: s.rows[x].status != Deferred)
    && (forall a, x | a in s.agents && x in s.rows && s.rows[x].account == s.rows[t].account ::
          !Carries(s.agents[a], x) && !Serves(s.rows, s.agents[a], s.rows[t].account))
  }

  /** Recovering the orphan wakes the account exactly when no queued row outranks it. */
  lemma RecoveryWakesIffOrphanLeads(s: State, t: nat, a: nat)
    requires OnlyAnOrphan(s, t) && a !in s.agents
    ensures var s' := Step(s, Recover(t, a));
            (forall h | h in s'.rows && IsHead(s'.rows, s.rows[t].account, h) :: HeadCovered(s', h))
            <==> (forall q | q in s.rows && Waiting(s.rows, s.rows[t].account, q) :: !Outranks(s.rows, q, t))
  {
    var s' := Step(s, Recover(t, a));
    var account := s.rows[t].account;
    assert Waiting(s'.rows, account, t);
    if forall q | q in s.rows && Waiting(s.rows, account, q) :: !Outranks(s.rows, q, t) {
      forall h | h in s'.rows && IsHead(s'.rows, account, h) ensures HeadCovered(s', h) {
        assert h == t;
        assert Covers(s', h, Agent(a));
      }
    } else {
      var q :| q in s.rows && Waiting(s.rows, account, q) && Outranks(s.rows, q, t);
      assert q != t && Waiting(s'.rows, account, q) && Outranks(s'.rows, q, t);
      var h := Head(s'.rows, account).value;
      assert h != t;
      forall c ensures !Covers(s', h, c) {
      }
    }
  }

  /** Such a state is reachable: a job dies on its row while a more urgent task arrives,
      and after recovery everything is at rest with both rows QUEUED. */
  lemma RecoveryCanStrandAQueue()
    ensures exists es: seq<Event> ::
              var s := Exec(Empty(0), es);
              && s.agents == map[]
              && 1 in s.rows && s.rows[1].status == Queued
              && 2 in s.rows && s.rows[2].status == Queued
              && forall t | t in s.rows :: s.rows[t].status != Deferred
  {
    var es := StrandingRun();
  }

  const WAITING := Row(7, "react", 5, 0, Queued, None, None, 0, None)
  const ORPHAN := Row(7, "react", 5, 0, Executing, Some(0), None, 0, None)
  const URGENT := Row(7, "react", 9, 0, Queued, None, None, 0, None)

  lemma StrandingRun() returns (es: seq<Event>)
    ensures Exec(Empty(0), es) == State(map[1 := Recovered(ORPHAN), 2 := URGENT], map[], 901)
  {
    es := TaskArrives();
    es := RunStarts(es);
    es := RunIsClaimed(es);
    es := UrgentTaskArrives(es);
    es := UrgentTaskIsRefused(es);
    es := OrphanIsRecovered(es);
    es := OrphanIsRefused(es);
  }

  lemma TaskArrives() returns (es: seq<Event>)
    ensures Exec(Empty(0), es) == State(map[1 := WAITING], map[10 := Job(1)], 0) && Ordinary(es)
  {
    es := Continue([], Submit(1, 7, "react", 5, 10), State(map[1 := WAITING], map[10 := Courier(1)], 0));
    es := Continue(es, Deliver(10), State(map[1 := WAITING], map[10 := Job(1)], 0));
  }

  lemma RunStarts(r: seq<Event>) returns (es: seq<Event>)
    requires Exec(Empty(0), r) == State(map[1 := WAITING], map[10 := Job(1)], 0)
    ensures Exec(Empty(0), es) == State(map[1 := WAITING], map[10 := Claiming(1, 0)], 0)
  {
    var rows := map[1 := WAITING];
    es := Extend(r, Pick(10), State(rows, map[10 := Preparing(1, 0)], 0));
    es := Extend(es, Ready(10), State(rows, map[10 := Claiming(1, 0)], 0));
  }

  lemma RunIsClaimed(r: seq<Event>) returns (es: seq<Event>)
    requires Exec(Empty(0), r) == State(map[1 := WAITING], map[10 := Claiming(1, 0)], 0)
    ensures Exec(Empty(0), es) == State(map[1 := ORPHAN], map[10 := Running(1, 0, 0)], 0)
  {
    assert IsHead(map[1 := WAITING], 7, 1);
    es := Extend(r, Claim(10), State(map[1 := ORPHAN], map[10 := Running(1, 0, 0)], 0));
  }

  lemma UrgentTaskArrives(r: seq<Event>) returns (es: seq<Event>)
    requires Exec(Empty(0), r) == State(map[1 := ORPHAN], map[10 := Running(1, 0, 0)], 0)
    ensures Exec(Empty(0), es)
            == State(map[1 := ORPHAN, 2 := URGENT], map[10 := Running(1, 0, 0), 20 := Preparing(2, 0)], 0)
  {
    var rows := map[1 := ORPHAN, 2 := URGENT];
    es := Extend(r, Submit(2, 7, "react", 9, 20), State(rows, map[10 := Running(1, 0, 0), 20 := Courier(2)], 0));
    es := Extend(es, Deliver(20), State(rows, map[10 := Running(1, 0, 0), 20 := Job(2)], 0));
    es := Extend(es, Pick(20), State(rows, map[10 := Running(1, 0, 0), 20 := Preparing(2, 0)], 0));
  }

  lemma UrgentTaskIsRefused(r: seq<Event>) returns (es: seq<Event>)
    requires Exec(Empty(0), r)
             == State(map[1 := ORPHAN, 2 := URGENT], map[10 := Running(1, 0, 0), 20 := Preparing(2, 0)], 0)
    ensures Exec(Empty(0), es) == State(map[1 := ORPHAN, 2 := URGENT], map[], 0)
  {
    var rows := map[1 := ORPHAN, 2 := URGENT];
    es := Extend(r, Ready(20), State(rows, map[10 := Running(1, 0, 0), 20 := Claiming(2, 0)], 0));
    assert OtherExecuting(rows, 7, 2) by { assert 1 in rows && rows[1].status == Executing; }
    es := Extend(es, Claim(20), State(rows, map[10 := Running(1, 0, 0)], 0));
    es := Extend(es, Kill(10), State(rows, map[], 0));
  }

  lemma LeaseExpires(r: seq<Event>) returns (es: seq<Event>)
    requires Exec(Empty(0), r) == State(map[1 := ORPHAN, 2 := URGENT], map[], 0)
    ensures Exec(Empty(0), es) == State(map[1 := Recovered(ORPHAN), 2 := URGENT], map[30 := Courier(1)], 901)
  {
    es := Extend(r, Tick(901), State(map[1 := ORPHAN, 2 := URGENT], map[], 901));
    es := Extend(es, Recover(1, 30), State(map[1 := Recovered(ORPHAN), 2 := URGENT], map[30 := Courier(1)], 901));
  }

  lemma OrphanIsRecovered(r: seq<Event>) returns (es: seq<Event>)
    requires Exec(Empty(0), r) == State(map[1 := ORPHAN, 2 := URGENT], map[], 0)
    ensures Exec(Empty(0), es) == State(map[1 := Recovered(ORPHAN), 2 := URGENT], map[30 := Preparing(1, 901)], 901)
  {
    es := LeaseExpires(r);
    var rows := map[1 := Recovered(ORPHAN), 2 := URGENT];
    es := Extend(es, Deliver(30), State(rows, map[30 := Job(1)], 901));
    es := Extend(es, Pick(30), State(rows, map[30 := Preparing(1, 901)], 901));
  }

  lemma OrphanIsRefused(r: seq<Event>) returns (es: seq<Event>)
    requires Exec(Empty(0), r)
             == State(map[1 := Recovered(ORPHAN), 2 := URGENT], map[30 := Preparing(1, 901)], 901)
    ensures Exec(Empty(0), es) == State(map[1 := Recovered(ORPHAN), 2 := URGENT], map[], 901)
  {
    var rows := map[1 := Recovered(ORPHAN), 2 := URGENT];
    es := Extend(r, Ready(30), State(rows, map[30 := Claiming(1, 901)], 901));
    assert Waiting(rows, 7, 2) && !Outranks(rows, 1, 2);
    assert !IsHead(rows, 7, 1);
    es := Extend(es, Claim(30), State(rows, map[], 901));
  }

  /** One more event at the end of a run from the empty state. */
  lemma Extend(r: seq<Event>, e: Event, after: State) returns (es: seq<Event>)
    requires Step(Exec(Empty(0), r), e) == after
    ensures es == r + [e] && Exec(Empty(0), es) == after
  {
    es := r + [e];
    assert es[..|es| - 1] == r;
  }

  /** The same for an ordinary run. */
  lemma Continue(r: seq<Event>, e: Event, after: State) returns (es: seq<Event>)
    requires Ordinary(r) && Smooth(e) && !e.Duplicate?
    requires Step(Exec(Empty(0), r), e) == after
    ensures Ordinary(es) && Exec(Empty(0), es) == after
  {
    es := Extend(r, e, after);
  }
}
