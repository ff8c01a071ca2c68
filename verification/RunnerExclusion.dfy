/**
 At most one live runner per account, with crashes and orphan recovery included. Row
 exclusion alone does not give this: the claim never looks at its own row again, so a
 second job for a row can claim it, or put it off, while the first still runs. The step
 lemma says exactly which steps break the invariant, and the run theorem which runs keep it.
 */
module RunnerExclusion {
  import opened Options
  import opened TaskRows
  import opened TaskProtocol
  import opened WakeCoverage

  /** A job is dead once its clock passes the timeout, so time cannot overtake a live one. */
  predicate Timely(s: State, e: Event) {
    e.Tick? ==> forall a | a in s.agents && s.agents[a].OnJobClock() ::
                  s.now + e.seconds <= s.agents[a].start + JOB_TIMEOUT
  }

  /** The row a not-yet-live runner is about to write, if the event is such a write. */
  function PreClaimWrite(s: State, e: Event): Option<nat> {
    if !Enabled(s, e) then None
    else match e
      case DeferClosed(a, _) => Some(s.agents[a].task)
      case Block(a) => Some(s.agents[a].task)
      case Claim(a) => if ClaimPasses(s.rows, s.agents[a].task) then Some(s.agents[a].task) else None
      case _ => None
  }

  /** The row is not EXECUTING at the moment of the write: one SELECT could check it. */
  predicate Calm(s: State, e: Event) {
    var t := PreClaimWrite(s, e);
    t.Some? ==> t.value in s.rows && s.rows[t.value].status != Executing
  }

  ghost predicate HitsLiveRow(s: State, e: Event) {
    var t := PreClaimWrite(s, e);
    t.Some? && exists b :: RunsTask(s, b, t.value)
  }

  predicate RunnerInOrder(s: State, a: nat)
    requires a in s.agents
  {
    match s.agents[a]
    case Running(t, start, claimed) =>
      && t in s.rows && s.rows[t].status == Executing && s.rows[t].startedAt == Some(claimed)
      && start <= claimed <= s.now
    case _ => true
  }

  predicate OnTime(s: State, a: nat)
    requires a in s.agents
  {
    s.agents[a].OnJobClock() ==> s.agents[a].start <= s.now <= s.agents[a].start + JOB_TIMEOUT
  }

  ghost predicate LiveOn(s: State, a: nat, account: int) {
    && a in s.agents && s.agents[a].Running? && s.agents[a].task in s.rows
    && s.rows[s.agents[a].task].account == account
  }

  ghost predicate OneRunner(s: State) {
    forall a, b, account :: LiveOn(s, a, account) && LiveOn(s, b, account) ==> a == b
  }

  ghost predicate RunnersInOrder(s: State) {
    && TasksKnown(s)
    && (forall a | a in s.agents :: RunnerInOrder(s, a) && OnTime(s, a))
    && OneRunner(s)
  }

  /** Exactly the pre-claim writes onto a row that is being run break the invariant. */
  lemma StepKeepsRunnersIff(s: State, e: Event)
    requires RunnersInOrder(s) && Timely(s, e)
    ensures RunnersInOrder(Step(s, e)) <==> !HitsLiveRow(s, e)
  {
    var s' := Step(s, e);
    if HitsLiveRow(s, e) {
      var t := PreClaimWrite(s, e).value;
      var b :| RunsTask(s, b, t);
      assert RunsTask(s', b, t);
      if e.Claim? {
        assert LiveOn(s', b, s'.rows[t].account) && LiveOn(s', e.agent, s'.rows[t].account);
      } else {
        assert !RunnerInOrder(s', b);
      }
    } else {
      RunnersStay(s, e);
      OneRunnerStays(s, e);
    }
  }

  lemma RunnersStay(s: State, e: Event)
    requires RunnersInOrder(s) && Timely(s, e) && !HitsLiveRow(s, e)
    ensures var s' := Step(s, e);
            TasksKnown(s') && forall a | a in s'.agents :: RunnerInOrder(s', a) && OnTime(s', a)
  {
    var s' := Step(s, e);
    TasksKnownStep(s, e);
    forall a | a in s'.agents
      ensures RunnerInOrder(s', a) && OnTime(s', a)
    {
      ClockIsKept(s, e, a);
      if a in s.agents && s.agents[a].Running? && s'.agents[a].Running? {
        RunnerStays(s, e, a);
      } else {
        NewRunnerInOrder(s, e, a);
      }
    }
  }

  lemma NewRunnerInOrder(s: State, e: Event, a: nat)
    requires RunnersInOrder(s) && a in Step(s, e).agents
    requires !(a in s.agents && s.agents[a].Running? && Step(s, e).agents[a].Running?)
    ensures RunnerInOrder(Step(s, e), a)
  {
    assert a in s.agents ==> OnTime(s, a);
  }

  lemma ClockIsKept(s: State, e: Event, a: nat)
    requires RunnersInOrder(s) && Timely(s, e) && a in Step(s, e).agents
    ensures OnTime(Step(s, e), a)
  {
    assert a in s.agents ==> OnTime(s, a);
  }

  /** Nobody but the runner itself writes the row that is being run. */
  lemma RunnerStays(s: State, e: Event, a: nat)
    requires RunnersInOrder(s) && Timely(s, e) && !HitsLiveRow(s, e)
    requires a in s.agents && s.agents[a].Running? && a in Step(s, e).agents && Step(s, e).agents[a].Running?
    ensures RunnerInOrder(Step(s, e), a)
  {
    var t := s.agents[a].task;
    RunningKeepsTask(s, e, a);
    assert RunsTask(s, a, t) && RunnerInOrder(s, a) && OnTime(s, a);
    assert PreClaimWrite(s, e) != Some(t);
    if e.Finish? && Enabled(s, e) && s.agents[e.agent].task == t {
      assert LiveOn(s, a, s.rows[t].account) && LiveOn(s, e.agent, s.rows[t].account);
    }
  }

  /** In a timely run nobody is at work for more than 600 seconds... */
  lemma {:induction false} JobsLastTenMinutes(start: int, es: seq<Event>, a: nat)
    requires Throughout(Empty(start), es, Timely)
    requires a in Exec(Empty(start), es).agents && Exec(Empty(start), es).agents[a].OnJobClock()
    ensures 0 <= Exec(Empty(start), es).now - Exec(Empty(start), es).agents[a].start <= 600
  {
    if es != [] {
      var front, e := es[..|es| - 1], es[|es| - 1];
      var before := Exec(Empty(start), front);
      if a in before.agents && before.agents[a].OnJobClock() {
        JobsLastTenMinutes(start, front, a);
        ClockStartsAtPick(before, e, a);
      }
    }
  }

  lemma {:induction false} AppendTimely(r: seq<Event>, e: Event) returns (es: seq<Event>)
    requires Throughout(Empty(0), r, Timely) && Timely(Exec(Empty(0), r), e)
    ensures Throughout(Empty(0), es, Timely) && Exec(Empty(0), es) == Step(Exec(Empty(0), r), e)
  {
    es := r + [e];
    assert es[..|es| - 1] == r;
  }

  lemma {:induction false} OneJobQueued() returns (es: seq<Event>)
    ensures Throughout(Empty(0), es, Timely)
    ensures Exec(Empty(0), es) == State(map[1 := WAITING], map[10 := Job(1)], 0)
  {
    es := AppendTimely([], Submit(1, 7, "react", 5, 10));
    es := AppendTimely(es, Deliver(10));
  }

  /** ...and some job is at work for as long as that. */
  lemma TenMinutesAreReached() returns (es: seq<Event>)
    ensures Throughout(Empty(0), es, Timely)
    ensures Exec(Empty(0), es).agents == map[10 := Preparing(1, 0)] && Exec(Empty(0), es).now == 600
  {
    es := OneJobQueued();
    es := AppendTimely(es, Pick(10));
    var picked := State(map[1 := WAITING], map[10 := Preparing(1, 0)], 0);
    assert Exec(Empty(0), es) == picked && Timely(picked, Tick(600));
    es := AppendTimely(es, Tick(600));
  }

  /** A claim that passes, and not onto a row being run, finds no live runner of the account. */
  lemma ClaimFindsAccountFree(s: State, a: nat)
    requires RunnersInOrder(s) && Enabled(s, Claim(a)) && !HitsLiveRow(s, Claim(a))
    ensures var t := s.agents[a].task;
            ClaimPasses(s.rows, t) ==> forall b :: !LiveOn(s, b, s.rows[t].account)
  {
    var t := s.agents[a].task;
    if ClaimPasses(s.rows, t) {
      assert PreClaimWrite(s, Claim(a)) == Some(t);
      forall b
        ensures !LiveOn(s, b, s.rows[t].account)
      {
        if b in s.agents && s.agents[b].Running? {
          var x := s.agents[b].task;
          assert RunsTask(s, b, x) && x != t;
          assert RunnerInOrder(s, b) && x in s.rows && s.rows[x].status == Executing;
        }
      }
    }
  }

  lemma LiveBefore(s: State, e: Event, c: nat, account: int)
    requires TasksKnown(s) && LiveOn(Step(s, e), c, account) && !(e.Claim? && e.agent == c)
    ensures LiveOn(s, c, account)
  {
    TasksKnownStep(s, e);
  }

  lemma OneRunnerStays(s: State, e: Event)
    requires RunnersInOrder(s) && !HitsLiveRow(s, e)
    ensures OneRunner(Step(s, e))
  {
    var s' := Step(s, e);
    forall b, account | LiveOn(s', b, account) && !(e.Claim? && e.agent == b)
      ensures LiveOn(s, b, account)
    {
      LiveBefore(s, e, b, account);
    }
    if e.Claim? && Enabled(s, e) {
      ClaimFindsAccountFree(s, e.agent);
    }
  }

  lemma CalmMissesLiveRows(s: State, e: Event)
    requires RunnersInOrder(s) && Calm(s, e)
    ensures !HitsLiveRow(s, e)
  {
    assert forall b | b in s.agents :: RunnerInOrder(s, b);
  }

  ghost predicate MissesLiveRows(s: State, e: Event) { !HitsLiveRow(s, e) }

  /** The invariant held after every prefix of the run. */
  ghost predicate AlwaysInOrder(start: int, es: seq<Event>) {
    RunnersInOrder(Exec(Empty(start), es)) && (es == [] || AlwaysInOrder(start, es[..|es| - 1]))
  }

  /** Over all runs in which jobs respect the timeout: the runners stay in order throughout
      if and only if no write made before a claim ever lands on a row that is being run. */
  lemma {:induction false} AlwaysInOrderIff(start: int, es: seq<Event>)
    requires Throughout(Empty(start), es, Timely)
    ensures AlwaysInOrder(start, es) <==> Throughout(Empty(start), es, MissesLiveRows)
  {
    if es == [] {
    } else {
      var before, e := Exec(Empty(start), es[..|es| - 1]), es[|es| - 1];
      AlwaysInOrderIff(start, es[..|es| - 1]);
      if AlwaysInOrder(start, es[..|es| - 1]) {
        StepKeepsRunnersIff(before, e);
      }
    }
  }

  /** In particular at most one live runner per account, crashes and recovery included. */
  lemma {:induction false} RunnerExclusion(start: int, es: seq<Event>)
    requires Throughout(Empty(start), es, Timely) && Throughout(Empty(start), es, MissesLiveRows)
    ensures RunnersInOrder(Exec(Empty(start), es))
  {
    AlwaysInOrderIff(start, es);
  }

  /** A worker can see to it: it is enough that no pre-claim write finds its row EXECUTING. */
  lemma {:induction false} CalmRunsMissLiveRows(start: int, es: seq<Event>)
    requires Throughout(Empty(start), es, Timely) && Throughout(Empty(start), es, Calm)
    ensures Throughout(Empty(start), es, MissesLiveRows)
  {
    if es == [] {
    } else {
      CalmRunsMissLiveRows(start, es[..|es| - 1]);
      RunnerExclusion(start, es[..|es| - 1]);
      CalmMissesLiveRows(Exec(Empty(start), es[..|es| - 1]), es[|es| - 1]);
    }
  }

  /** The 900 s lease outlasts the 600 s timeout: recovery never takes a live row. */
  lemma LiveRowsAreNeverRecovered(start: int, es: seq<Event>, a: nat, t: nat)
    requires Throughout(Empty(start), es, Timely) && Throughout(Empty(start), es, MissesLiveRows)
    requires RunsTask(Exec(Empty(start), es), a, t)
    ensures forall agent :: !Enabled(Exec(Empty(start), es), Recover(t, agent))
  {
    RunnerExclusion(start, es);
    var s := Exec(Empty(start), es);
    assert RunnerInOrder(s, a) && OnTime(s, a);
  }

  // ----- Without the hypothesis: the code makes the duplicate job itself -----

  const DONE := ORPHAN.(status := Complete)
  const PUT_OFF := ORPHAN.(status := Deferred, deferredUntil := Some(60))

  /** Two tasks are submitted. The first runs, finishes and hands off to the second, whose
      own submission job is still queued: both jobs read the row as QUEUED. */
  lemma HandOffMakesADuplicate() returns (es: seq<Event>)
    ensures Ordinary(es)
    ensures Exec(Empty(0), es)
            == State(map[1 := DONE, 2 := WAITING], map[10 := Preparing(2, 0), 20 := Preparing(2, 0)], 0)
  {
    es := TwoTasksArrive();
    es := FirstRuns(es);
    es := FirstFinishes(es);
    es := FirstHandsOff(es);
    es := Delivered(es);
    es := BothPickedUp(es);
  }

  lemma TwoTasksArrive() returns (es: seq<Event>)
    ensures Ordinary(es)
    ensures Exec(Empty(0), es) == State(map[1 := WAITING, 2 := WAITING], map[10 := Preparing(1, 0), 20 := Job(2)], 0)
  {
    es := TaskArrives();
    var rows := map[1 := WAITING, 2 := WAITING];
    es := Continue(es, Submit(2, 7, "react", 5, 20), State(rows, map[10 := Job(1), 20 := Courier(2)], 0));
    es := Continue(es, Deliver(20), State(rows, map[10 := Job(1), 20 := Job(2)], 0));
    es := Continue(es, Pick(10), State(rows, map[10 := Preparing(1, 0), 20 := Job(2)], 0));
  }

  lemma FirstRuns(r: seq<Event>) returns (es: seq<Event>)
    requires Ordinary(r)
    requires Exec(Empty(0), r) == State(map[1 := WAITING, 2 := WAITING], map[10 := Preparing(1, 0), 20 := Job(2)], 0)
    ensures Ordinary(es)
    ensures Exec(Empty(0), es) == State(map[1 := ORPHAN, 2 := WAITING], map[10 := Running(1, 0, 0), 20 := Job(2)], 0)
  {
    var rows := map[1 := WAITING, 2 := WAITING];
    es := FirstIsReady(r);
    assert IsHead(rows, 7, 1);
    es := Continue(es, Claim(10), State(map[1 := ORPHAN, 2 := WAITING], map[10 := Running(1, 0, 0), 20 := Job(2)], 0));
  }

  lemma FirstIsReady(r: seq<Event>) returns (es: seq<Event>)
    requires Ordinary(r)
    requires Exec(Empty(0), r) == State(map[1 := WAITING, 2 := WAITING], map[10 := Preparing(1, 0), 20 := Job(2)], 0)
    ensures Ordinary(es)
    ensures Exec(Empty(0), es) == State(map[1 := WAITING, 2 := WAITING], map[10 := Claiming(1, 0), 20 := Job(2)], 0)
  {
    es := Continue(r, Ready(10), State(map[1 := WAITING, 2 := WAITING], map[10 := Claiming(1, 0), 20 := Job(2)], 0));
  }

  lemma FirstFinishes(r: seq<Event>) returns (es: seq<Event>)
    requires Ordinary(r)
    requires Exec(Empty(0), r) == State(map[1 := ORPHAN, 2 := WAITING], map[10 := Running(1, 0, 0), 20 := Job(2)], 0)
    ensures Ordinary(es)
    ensures Exec(Empty(0), es) == State(map[1 := DONE, 2 := WAITING], map[10 := Handing(7, 0), 20 := Job(2)], 0)
  {
    var rows := map[1 := DONE, 2 := WAITING];
    es := Continue(r, Finish(10, Succeed), State(rows, map[10 := Handing(7, 0), 20 := Job(2)], 0));
  }

  lemma FirstHandsOff(r: seq<Event>) returns (es: seq<Event>)
    requires Ordinary(r)
    requires Exec(Empty(0), r) == State(map[1 := DONE, 2 := WAITING], map[10 := Handing(7, 0), 20 := Job(2)], 0)
    ensures Ordinary(es)
    ensures Exec(Empty(0), es) == State(map[1 := DONE, 2 := WAITING], map[10 := Courier(2), 20 := Job(2)], 0)
  {
    var rows := map[1 := DONE, 2 := WAITING];
    SecondIsNext();
    es := Continue(r, HandOff(10), State(rows, map[10 := Courier(2), 20 := Job(2)], 0));
  }

  lemma SecondIsNext()
    ensures var rows := map[1 := DONE, 2 := WAITING]; Head(rows, 7) == Some(2) && !OtherExecuting(rows, 7, -1)
  {
    var rows := map[1 := DONE, 2 := WAITING];
    assert IsHead(rows, 7, 2);
    HeadIsUnique(rows, 7, 2, Head(rows, 7).value);
  }

  lemma Delivered(r: seq<Event>) returns (es: seq<Event>)
    requires Ordinary(r)
    requires Exec(Empty(0), r) == State(map[1 := DONE, 2 := WAITING], map[10 := Courier(2), 20 := Job(2)], 0)
    ensures Ordinary(es)
    ensures Exec(Empty(0), es) == State(map[1 := DONE, 2 := WAITING], map[10 := Job(2), 20 := Job(2)], 0)
  {
    es := Continue(r, Deliver(10), State(map[1 := DONE, 2 := WAITING], map[10 := Job(2), 20 := Job(2)], 0));
  }

  lemma BothPickedUp(r: seq<Event>) returns (es: seq<Event>)
    requires Ordinary(r)
    requires Exec(Empty(0), r) == State(map[1 := DONE, 2 := WAITING], map[10 := Job(2), 20 := Job(2)], 0)
    ensures Ordinary(es)
    ensures Exec(Empty(0), es)
            == State(map[1 := DONE, 2 := WAITING], map[10 := Preparing(2, 0), 20 := Preparing(2, 0)], 0)
  {
    var rows := map[1 := DONE, 2 := WAITING];
    es := Continue(r, Pick(10), State(rows, map[10 := Preparing(2, 0), 20 := Job(2)], 0));
    es := Continue(es, Pick(20), State(rows, map[10 := Preparing(2, 0), 20 := Preparing(2, 0)], 0));
  }

  lemma OneIsReady(r: seq<Event>, other: Agent) returns (es: seq<Event>)
    requires Ordinary(r)
    requires Exec(Empty(0), r) == State(map[1 := DONE, 2 := WAITING], map[10 := Preparing(2, 0), 20 := other], 0)
    ensures Ordinary(es)
    ensures Exec(Empty(0), es) == State(map[1 := DONE, 2 := WAITING], map[10 := Claiming(2, 0), 20 := other], 0)
  {
    es := Continue(r, Ready(10), State(map[1 := DONE, 2 := WAITING], map[10 := Claiming(2, 0), 20 := other], 0));
  }

  lemma OneClaims(r: seq<Event>, other: Agent) returns (es: seq<Event>)
    requires Ordinary(r)
    requires Exec(Empty(0), r) == State(map[1 := DONE, 2 := WAITING], map[10 := Preparing(2, 0), 20 := other], 0)
    ensures Ordinary(es)
    ensures Exec(Empty(0), es) == State(map[1 := DONE, 2 := ORPHAN], map[10 := Running(2, 0, 0), 20 := other], 0)
  {
    var rows := map[1 := DONE, 2 := WAITING];
    es := OneIsReady(r, other);
    assert IsHead(rows, 7, 2);
    es := Continue(es, Claim(10), State(map[1 := DONE, 2 := ORPHAN], map[10 := Running(2, 0, 0), 20 := other], 0));
  }

  /** No crash, no lost enqueue, no recovery, no job from outside: and both run the row. */
  lemma DuplicateJobsCanBothRun() returns (es: seq<Event>)
    ensures Ordinary(es)
    ensures var s := Exec(Empty(0), es); RunsTask(s, 10, 2) && RunsTask(s, 20, 2)
  {
    es := HandOffMakesADuplicate();
    var rows := map[1 := DONE, 2 := WAITING];
    es := Continue(es, Ready(20), State(rows, map[10 := Preparing(2, 0), 20 := Claiming(2, 0)], 0));
    es := OneClaims(es, Claiming(2, 0));
    es := OtherClaims(es);
  }

  lemma OtherClaims(r: seq<Event>) returns (es: seq<Event>)
    requires Ordinary(r)
    requires Exec(Empty(0), r)
             == State(map[1 := DONE, 2 := ORPHAN], map[10 := Running(2, 0, 0), 20 := Claiming(2, 0)], 0)
    ensures Ordinary(es)
    ensures Exec(Empty(0), es)
            == State(map[1 := DONE, 2 := ORPHAN], map[10 := Running(2, 0, 0), 20 := Running(2, 0, 0)], 0)
  {
    var rows := map[1 := DONE, 2 := ORPHAN];
    assert forall q | q in rows :: !Waiting(rows, 7, q);
    es := Continue(r, Claim(20), State(rows, map[10 := Running(2, 0, 0), 20 := Running(2, 0, 0)], 0));
  }

  /** A stale deferral does it too, and then on two different rows: it makes the row of a
      live run look idle, and the next row of the account is claimed beside it. */
  lemma StaleDeferralLetsTwoRun() returns (es: seq<Event>)
    ensures Ordinary(es)
    ensures var s := Exec(Empty(0), es); LiveOn(s, 10, 7) && LiveOn(s, 30, 7)
  {
    es := HandOffMakesADuplicate();
    es := OneClaims(es, Preparing(2, 0));
    es := LaggardDefers(es);
    es := NextRowIsClaimed(es);
  }

  lemma LaggardDefers(r: seq<Event>) returns (es: seq<Event>)
    requires Ordinary(r)
    requires Exec(Empty(0), r)
             == State(map[1 := DONE, 2 := ORPHAN], map[10 := Running(2, 0, 0), 20 := Preparing(2, 0)], 0)
    ensures Ordinary(es)
    ensures Exec(Empty(0), es)
            == State(map[1 := DONE, 2 := PUT_OFF, 3 := WAITING], map[10 := Running(2, 0, 0), 30 := Courier(3)], 0)
  {
    es := Continue(r, DeferClosed(20, 60), State(map[1 := DONE, 2 := PUT_OFF], map[10 := Running(2, 0, 0)], 0));
    es := Continue(es, Submit(3, 7, "react", 5, 30),
                 State(map[1 := DONE, 2 := PUT_OFF, 3 := WAITING], map[10 := Running(2, 0, 0), 30 := Courier(3)], 0));
  }

  lemma NextRowIsClaimed(r: seq<Event>) returns (es: seq<Event>)
    requires Ordinary(r)
    requires Exec(Empty(0), r)
             == State(map[1 := DONE, 2 := PUT_OFF, 3 := WAITING], map[10 := Running(2, 0, 0), 30 := Courier(3)], 0)
    ensures Ordinary(es)
    ensures Exec(Empty(0), es)
            == State(map[1 := DONE, 2 := PUT_OFF, 3 := ORPHAN], map[10 := Running(2, 0, 0), 30 := Running(3, 0, 0)], 0)
  {
    var rows := map[1 := DONE, 2 := PUT_OFF, 3 := WAITING];
    es := Continue(r, Deliver(30), State(rows, map[10 := Running(2, 0, 0), 30 := Job(3)], 0));
    es := Continue(es, Pick(30), State(rows, map[10 := Running(2, 0, 0), 30 := Preparing(3, 0)], 0));
    es := NextRowClaims(es);
  }

  lemma NextRowClaims(r: seq<Event>) returns (es: seq<Event>)
    requires Ordinary(r)
    requires Exec(Empty(0), r)
             == State(map[1 := DONE, 2 := PUT_OFF, 3 := WAITING], map[10 := Running(2, 0, 0), 30 := Preparing(3, 0)], 0)
    ensures Ordinary(es)
    ensures Exec(Empty(0), es)
            == State(map[1 := DONE, 2 := PUT_OFF, 3 := ORPHAN], map[10 := Running(2, 0, 0), 30 := Running(3, 0, 0)], 0)
  {
    var rows := map[1 := DONE, 2 := PUT_OFF, 3 := WAITING];
    es := Continue(r, Ready(30), State(rows, map[10 := Running(2, 0, 0), 30 := Claiming(3, 0)], 0));
    assert IsHead(rows, 7, 3);
    es := Continue(es, Claim(30),
                 State(map[1 := DONE, 2 := PUT_OFF, 3 := ORPHAN],
                       map[10 := Running(2, 0, 0), 30 := Running(3, 0, 0)], 0));
  }
}
