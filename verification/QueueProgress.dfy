/**
 Wake coverage made operational: from every state of a smooth run in which an account has
 queued work, the system can move that work on by itself. No new submission, crash
 recovery or lost enqueue has to come to its aid.
 */
module QueueProgress {
  import opened TaskRows
  import opened TaskProtocol
  import opened WakeCoverage

  /** Events the system produces on its own. */
  predicate Unaided(e: Event) { Smooth(e) && !e.Submit? && !e.Duplicate? }

  ghost predicate AllUnaided(es: seq<Event>) { forall e | e in es :: Unaided(e) }

  predicate Idle(rows: Table, account: int) {
    forall x | x in rows && rows[x].account == account :: rows[x].status != Executing
  }

  /** Some row of the account that was waiting, as QUEUED or as DEFERRED, is being run or done. */
  ghost predicate MovedOn(before: Table, after: Table, account: int) {
    exists t | t in before && t in after ::
      && before[t].account == account && (before[t].status == Queued || before[t].status == Deferred)
      && (after[t].status == Executing || after[t].status == Complete)
  }

  function StepsToClaim(agent: Agent): nat {
    match agent
    case Courier(_) => 3
    case Job(_) => 2
    case Preparing(_, _) => 1
    case _ => 0
  }

  lemma Prefix(s: State, e: Event, rest: seq<Event>) returns (es: seq<Event>)
    ensures es == [e] + rest && StepAll(s, es) == StepAll(Step(s, e), rest)
    ensures Unaided(e) && AllUnaided(rest) ==> AllUnaided(es)
  {
    es := [e] + rest;
    assert es[1..] == rest;
  }

  /** An agent on its way to the head of an idle account's queue can claim it. */
  lemma {:induction false} Drive(s: State, a: nat, h: nat) returns (es: seq<Event>)
    requires a in s.agents && Carries(s.agents[a], h)
    requires h in s.rows && IsHead(s.rows, s.rows[h].account, h) && Idle(s.rows, s.rows[h].account)
    ensures AllUnaided(es) && h in StepAll(s, es).rows && StepAll(s, es).rows[h].status == Executing
    decreases StepsToClaim(s.agents[a])
  {
    var e := match s.agents[a]
             case Courier(_) => Deliver(a)
             case Job(_) => Pick(a)
             case Preparing(_, _) => Ready(a)
             case _ => Claim(a);
    var rest: seq<Event> := [];
    if !e.Claim? {
      rest := Drive(Step(s, e), a, h);
    }
    es := Prefix(s, e, rest);
  }

  /** An agent about to hand the queue on, in an idle account, can get the head claimed. */
  lemma DriveHanding(s: State, b: nat, h: nat) returns (es: seq<Event>)
    requires b in s.agents && s.agents[b].Handing?
    requires h in s.rows && IsHead(s.rows, s.rows[h].account, h) && Idle(s.rows, s.rows[h].account)
    requires s.agents[b].account == s.rows[h].account
    ensures AllUnaided(es) && h in StepAll(s, es).rows && StepAll(s, es).rows[h].status == Executing
  {
    HeadIsUnique(s.rows, s.rows[h].account, h, Head(s.rows, s.rows[h].account).value);
    es := Drive(Step(s, HandOff(b)), b, h);
    es := Prefix(s, HandOff(b), es);
  }

  /** A live run can finish, and then either its own row was the waiting one or the head
      gets its turn. */
  lemma DriveRunning(s: State, b: nat, account: int) returns (es: seq<Event>)
    requires OneExecutingRow(s.rows) && b in s.agents && s.agents[b].Running? && Serves(s.rows, s.agents[b], account)
    requires Idle(Finished(s.rows, s.agents[b].task, Succeed), account)
    requires Head(s.rows, account).Some?
    ensures AllUnaided(es) && MovedOn(s.rows, StepAll(s, es).rows, account)
  {
    var x := s.agents[b].task;
    var finish := Finish(b, Succeed);
    var s1 := Step(s, finish);
    if s.rows[x].status == Queued {
      es := Prefix(s, finish, []);
      assert StepAll(s, es).rows[x].status == Complete;
    } else {
      var h := Head(s.rows, account).value;
      assert forall q | q in s.rows :: Waiting(s1.rows, account, q) <==> Waiting(s.rows, account, q);
      assert IsHead(s1.rows, account, h);
      es := DriveHanding(s1, b, h);
      es := Prefix(s, finish, es);
      assert StepAll(s, es).rows[h].status == Executing;
    }
  }

  /** The elder's deadline can pass and the sweeper revive it; then it is the head. */
  lemma DriveElder(s: State, d: nat, h: nat) returns (es: seq<Event>)
    requires DeferredHaveDeadline(s.rows) && h in s.rows && IsHead(s.rows, s.rows[h].account, h)
    requires OutwaitsIn(s.rows, d, h) && Idle(s.rows, s.rows[h].account)
    ensures AllUnaided(es) && d in StepAll(s, es).rows && StepAll(s, es).rows[d].status == Executing
  {
    var account := s.rows[h].account;
    var wait := if s.rows[d].deferredUntil.value > s.now then s.rows[d].deferredUntil.value - s.now else 0;
    var s1 := Step(s, Tick(wait));
    var a := FreshAgent(s1);
    var s2 := Step(s1, Sweep(d, a));
    assert Waiting(s2.rows, account, d);
    forall q | q in s2.rows && Waiting(s2.rows, account, q) && q != d
      ensures Outranks(s2.rows, d, q)
    {
      assert Waiting(s.rows, account, q) && (q == h || Outranks(s.rows, h, q));
    }
    es := Drive(s2, a, d);
    es := Prefix(s1, Sweep(d, a), es);
    es := Prefix(s, Tick(wait), es);
  }

  lemma FreshAgent(s: State) returns (a: nat)
    ensures a !in s.agents
  {
    a := 0;
    var seen: set<nat> := {};
    while a in s.agents
      invariant seen <= s.agents.Keys && a !in seen && forall x | x in seen :: x < a
      decreases s.agents.Keys - seen
    {
      seen := seen + {a};
      a := a + 1;
    }
  }

  /** Whenever a smooth run has left work in an account's queue, the system has a way on. */
  lemma QueuedWorkCanMoveOn(start: int, es: seq<Event>, account: int, q: nat) returns (next: seq<Event>)
    requires forall e | e in es :: Smooth(e)
    requires Waiting(Exec(Empty(start), es).rows, account, q)
    ensures AllUnaided(next)
    ensures var s := Exec(Empty(start), es); MovedOn(s.rows, StepAll(s, next).rows, account)
  {
    NoQueueIsStuck(start, es);
    RowExclusion(start, es);
    var s := Exec(Empty(start), es);
    var h := Head(s.rows, account).value;
    if x :| x in s.rows && s.rows[x].account == account && s.rows[x].status == Executing {
      var b :| RunsTask(s, b, x);
      next := DriveRunning(s, b, account);
    } else {
      var c :| Covers(s, h, c);
      match c {
        case Elder(d) =>
          next := DriveElder(s, d, h);
          assert StepAll(s, next).rows[d].status == Executing;
        case Agent(b) =>
          if Carries(s.agents[b], h) {
            next := Drive(s, b, h);
            assert StepAll(s, next).rows[h].status == Executing;
          } else if s.agents[b].Handing? {
            next := DriveHanding(s, b, h);
            assert StepAll(s, next).rows[h].status == Executing;
          } else {
            next := DriveRunning(s, b, account);
          }
      }
    }
  }
}
