/**
 The multi-worker task protocol as a transition system. Everything that acts
 concurrently is an agent in one pool: queue jobs, threads that still owe the queue an
 enqueue, and job runners at each point where another worker can step in between.

 `Step` is total: an event that is not enabled changes nothing, so every sequence of
 events is a run and the theorems quantify over all of them.
 */
module TaskProtocol {
  import opened Options
  import opened TaskRows

  datatype Agent =
    | Courier(task: nat)                              // will enqueue a job for the task
    | Job(task: nat)                                  // a queue job nobody has picked up
    | Preparing(task: nat, start: int)                // read the row as QUEUED; running the account gate
    | Claiming(task: nat, start: int)                 // the gate passed; the claim is next
    | Running(task: nat, start: int, claimed: int)    // claimed; from here the run is live
    | Handing(account: int, start: int)               // wrote its row; enqueue_next is next
  {
    predicate OnJobClock() { !Courier? && !Job? }
  }

  datatype State = State(rows: Table, agents: map<nat, Agent>, now: int)

  datatype Event =
    | Submit(task: nat, account: int, taskType: string, priority: int, agent: nat)
    | Deliver(agent: nat)                     // a courier's enqueue succeeds
    | Lose(agent: nat)                        // a courier's enqueue fails
    | Duplicate(task: nat, agent: nat)        // one more job for a task
    | Pick(agent: nat)
    | Ready(agent: nat)                       // the account gate lets the task through
    | DeferClosed(agent: nat, until: int)     // flood wait or closed window
    | Block(agent: nat)                       // account cannot run: defer or bury
    | Claim(agent: nat)
    | Finish(agent: nat, outcome: Outcome)
    | HandOff(agent: nat)
    | Kill(agent: nat)                        // the job dies (timeout or crash)
    | Sweep(task: nat, agent: nat)            // due DEFERRED row back to QUEUED
    | Recover(task: nat, agent: nat)          // orphaned EXECUTING row back to QUEUED
    | Tick(seconds: nat)

  function Empty(now: int): State { State(map[], map[], now) }

  predicate Enabled(s: State, e: Event) {
    match e
    case Submit(t, _, _, _, a) => t !in s.rows && a !in s.agents
    case Deliver(a) => a in s.agents && s.agents[a].Courier?
    case Lose(a) => a in s.agents && s.agents[a].Courier?
    case Duplicate(t, a) => t in s.rows && a !in s.agents
    case Pick(a) => a in s.agents && s.agents[a].Job?
    case Ready(a) => a in s.agents && s.agents[a].Preparing?
    case DeferClosed(a, _) => a in s.agents && s.agents[a].Preparing? && s.agents[a].task in s.rows
    case Block(a) => a in s.agents && s.agents[a].Preparing? && s.agents[a].task in s.rows
    case Claim(a) => a in s.agents && s.agents[a].Claiming? && s.agents[a].task in s.rows
    case Finish(a, _) => a in s.agents && s.agents[a].Running? && s.agents[a].task in s.rows
    case HandOff(a) => a in s.agents && s.agents[a].Handing?
    case Kill(a) => a in s.agents && s.agents[a].OnJobClock()
    case Sweep(t, a) => t in s.rows && Due(s.rows[t], s.now) && a !in s.agents
    case Recover(t, a) => t in s.rows && Orphaned(s.rows[t], s.now) && a !in s.agents
    case Tick(_) => true
  }

  function Without(s: State, a: nat): State { s.(agents := s.agents - {a}) }

  function With(s: State, a: nat, agent: Agent): State { s.(agents := s.agents[a := agent]) }

  ghost function Apply(s: State, e: Event): State
    requires Enabled(s, e)
  {
    match e
    case Submit(t, account, taskType, priority, a) =>
      var row := Row(account, taskType, priority, s.now, Queued, None, None, 0, None);
      With(s.(rows := s.rows[t := row]), a, Courier(t))
    case Deliver(a) => With(s, a, Job(s.agents[a].task))
    case Lose(a) => Without(s, a)
    case Duplicate(t, a) => With(s, a, Job(t))
    case Pick(a) =>
      var t := s.agents[a].task;
      if t in s.rows && s.rows[t].status == Queued then With(s, a, Preparing(t, s.now)) else Without(s, a)
    case Ready(a) => With(s, a, Claiming(s.agents[a].task, s.agents[a].start))
    case DeferClosed(a, until) => Without(s.(rows := DeferredTo(s.rows, s.agents[a].task, until)), a)
    case Block(a) =>
      var t := s.agents[a].task;
      With(s.(rows := Blocked(s.rows, t, s.now)), a, Handing(s.rows[t].account, s.agents[a].start))
    case Claim(a) =>
      var t := s.agents[a].task;
      if ClaimPasses(s.rows, t) then
        With(s.(rows := Claimed(s.rows, t, s.now)), a, Running(t, s.agents[a].start, s.now))
      else Without(s, a)
    case Finish(a, outcome) =>
      var t := s.agents[a].task;
      With(s.(rows := Finished(s.rows, t, outcome)), a, Handing(s.rows[t].account, s.agents[a].start))
    case HandOff(a) =>
      // enqueue_next reads here and enqueues later: the job is still to be delivered.
      var account := s.agents[a].account;
      if OtherExecuting(s.rows, account, -1) || Head(s.rows, account).None? then Without(s, a)
      else With(s, a, Courier(Head(s.rows, account).value))
    case Kill(a) => Without(s, a)
    case Sweep(t, a) => With(s.(rows := s.rows[t := Revived(s.rows[t])]), a, Courier(t))
    case Recover(t, a) => With(s.(rows := s.rows[t := Recovered(s.rows[t])]), a, Courier(t))
    case Tick(seconds) => s.(now := s.now + seconds)
  }

  ghost function Step(s: State, e: Event): State {
    if Enabled(s, e) then Apply(s, e) else s
  }

  ghost function Exec(s: State, es: seq<Event>): State {
    if es == [] then s else Step(Exec(s, es[..|es| - 1]), es[|es| - 1])
  }

  /** The same fold from the front, for continuing from a given state. */
  ghost function StepAll(s: State, es: seq<Event>): State
    decreases |es|
  {
    if es == [] then s else StepAll(Step(s, es[0]), es[1..])
  }

  lemma Unfold(s: State, es: seq<Event>) returns (s': State)
    requires es != []
    ensures s' == Step(s, es[0]) && StepAll(s, es) == StepAll(s', es[1..])
    ensures |es| == 1 ==> StepAll(s, es) == s'
  {
    s' := Step(s, es[0]);
  }

  /** What the events outside a job's own run write: submissions and the two sweeps, each
      with a courier for the row it has put into the queue. */
  lemma SubmissionsAndSweeps(s: State, e: Event)
    requires Enabled(s, e)
    ensures var s' := Step(s, e);
            && (e.Submit? ==>
                  && s'.rows == s.rows[e.task :=
                       Row(e.account, e.taskType, e.priority, s.now, Queued, None, None, 0, None)]
                  && s'.agents == s.agents[e.agent := Courier(e.task)] && s'.now == s.now)
            && (e.Sweep? ==>
                  && s.rows[e.task].status == Deferred && s.rows[e.task].deferredUntil.Some?
                  && s.rows[e.task].deferredUntil.value <= s.now
                  && s'.rows == s.rows[e.task := s.rows[e.task].(status := Queued, deferredUntil := None)]
                  && s'.agents == s.agents[e.agent := Courier(e.task)] && s'.now == s.now)
            && (e.Recover? ==>
                  && s.rows[e.task].status == Executing && s.rows[e.task].startedAt.Some?
                  && s.rows[e.task].startedAt.value < s.now - 900
                  && s'.rows == s.rows[e.task := s.rows[e.task].(status := Queued, startedAt := None)]
                  && s'.agents == s.agents[e.agent := Courier(e.task)] && s'.now == s.now)
  {
  }

  /** A job's clock starts when it is picked up and runs until the job is over. */
  lemma ClockStartsAtPick(s: State, e: Event, a: nat)
    requires a in s.agents && a in Step(s, e).agents && Step(s, e).agents[a].OnJobClock()
    ensures s.agents[a].OnJobClock() ==> Step(s, e).agents[a].start == s.agents[a].start
    ensures !s.agents[a].OnJobClock() ==>
              && e == Pick(a) && s.agents[a].Job? && Step(s, e).agents[a].start == s.now
              && s.rows[s.agents[a].task].status == Queued
  {
  }

  /** `test` held of every event of the run in the state in which it was taken. */
  ghost predicate Throughout(s: State, es: seq<Event>, test: (State, Event) -> bool) {
    es == [] || (Throughout(s, es[..|es| - 1], test) && test(Exec(s, es[..|es| - 1]), es[|es| - 1]))
  }

  // ----- Row exclusion: holds of every run, duplicates, stale writes and crashes included -----

  ghost predicate OneExecutingRow(rows: Table) {
    forall x, y | x in rows && y in rows && rows[x].status == Executing && rows[y].status == Executing
                  && rows[x].account == rows[y].account :: x == y
  }

  /** A deferred row always carries the deadline the sweeper waits for. */
  ghost predicate DeferredHaveDeadline(rows: Table) {
    forall t | t in rows && rows[t].status == Deferred :: rows[t].deferredUntil.Some?
  }

  ghost predicate RowsInOrder(s: State) {
    OneExecutingRow(s.rows) && DeferredHaveDeadline(s.rows)
  }

  lemma RowsInOrderStep(s: State, e: Event)
    requires RowsInOrder(s)
    ensures RowsInOrder(Step(s, e))
  {
  }

  /** Under every interleaving an account has at most one EXECUTING row. */
  lemma {:induction false} RowExclusion(start: int, es: seq<Event>)
    ensures RowsInOrder(Exec(Empty(start), es))
  {
    if es == [] {
    } else {
      RowExclusion(start, es[..|es| - 1]);
      RowsInOrderStep(Exec(Empty(start), es[..|es| - 1]), es[|es| - 1]);
    }
  }

  /** A claim that turns a QUEUED row into an EXECUTING one took the only row that
      precedes every other queued row of its account, and nothing else was executing. */
  lemma ClaimIsFifo(s: State, a: nat)
    requires Enabled(s, Claim(a))
    ensures var t := s.agents[a].task;
            var after := Step(s, Claim(a));
            s.rows[t].status == Queued && after.rows != s.rows ==>
              && Head(s.rows, s.rows[t].account) == Some(t)
              && (forall q | q in s.rows && Waiting(s.rows, s.rows[t].account, q) && q != t ::
                    Outranks(s.rows, t, q) && !Outranks(s.rows, q, t))
              && (forall x | x in s.rows && s.rows[x].account == s.rows[t].account :: s.rows[x].status != Executing)
              && after.rows[t].status == Executing
  {
    var t := s.agents[a].task;
    var account := s.rows[t].account;
    if s.rows[t].status == Queued && ClaimPasses(s.rows, t) {
      assert Waiting(s.rows, account, t);
      HeadIsUnique(s.rows, account, t, Head(s.rows, account).value);
    }
  }

  // ----- FIFO in terms of the submissions -----

  /** Event `i` of the run is the submission of `t`, made at the given instant. */
  ghost predicate Submitted(start: int, es: seq<Event>, i: nat, t: nat, account: int, priority: int, instant: int) {
    && i < |es| && es[i].Submit? && es[i].task == t && es[i].account == account && es[i].priority == priority
    && Enabled(Exec(Empty(start), es[..i]), es[i]) && Exec(Empty(start), es[..i]).now == instant
  }

  lemma StepKeepsOrigin(s: State, e: Event, t: nat)
    requires t in s.rows
    ensures t in Step(s, e).rows
    ensures var (was, row) := (s.rows[t], Step(s, e).rows[t]);
            row.account == was.account && row.priority == was.priority && row.createdAt == was.createdAt
  {
  }

  /** Every row was submitted in the run, and its account, its priority and its created_at
      are still those of its submission. */
  lemma {:induction false} RowsAreSubmissions(start: int, es: seq<Event>, t: nat) returns (i: nat)
    requires t in Exec(Empty(start), es).rows
    ensures var row := Exec(Empty(start), es).rows[t];
            Submitted(start, es, i, t, row.account, row.priority, row.createdAt)
  {
    var front, e := es[..|es| - 1], es[|es| - 1];
    var before := Exec(Empty(start), front);
    if t in before.rows {
      i := RowsAreSubmissions(start, front, t);
      StepKeepsOrigin(before, e, t);
      assert es[..i] == front[..i];
    } else {
      i := |es| - 1;
    }
  }

  /** Whenever a claim takes a QUEUED row, no other QUEUED row of the account was submitted
      with a higher priority, or with the same priority at an earlier instant, or with the
      same priority at the same instant and a smaller id. */
  lemma {:induction false} ClaimTakesTheFirstSubmitted(start: int, es: seq<Event>, a: nat, q: nat)
    returns (i: nat, j: nat)
    requires var s := Exec(Empty(start), es);
             && Enabled(s, Claim(a)) && s.rows[s.agents[a].task].status == Queued
             && Step(s, Claim(a)).rows != s.rows
             && q in s.rows && q != s.agents[a].task
             && s.rows[q].account == s.rows[s.agents[a].task].account && s.rows[q].status == Queued
    ensures var t := Exec(Empty(start), es).agents[a].task;
            && i < |es| && es[i].Submit? && es[i].task == t && Enabled(Exec(Empty(start), es[..i]), es[i])
            && j < |es| && es[j].Submit? && es[j].task == q && Enabled(Exec(Empty(start), es[..j]), es[j])
            && es[i].account == es[j].account
            && var (at, after) := (Exec(Empty(start), es[..i]).now, Exec(Empty(start), es[..j]).now);
               || es[i].priority > es[j].priority
               || (es[i].priority == es[j].priority && at < after)
               || (es[i].priority == es[j].priority && at == after && t < q)
  {
    var s := Exec(Empty(start), es);
    var t := s.agents[a].task;
    i := RowsAreSubmissions(start, es, t);
    j := RowsAreSubmissions(start, es, q);
    assert Waiting(s.rows, s.rows[t].account, t);
    HeadIsFirst(s.rows, s.rows[t].account, t);
  }

  // ----- Standing facts about agents, used by the other theorems -----

  /** Agents only ever name rows that exist. */
  ghost predicate TasksKnown(s: State) {
    forall a | a in s.agents && !s.agents[a].Handing? :: s.agents[a].task in s.rows
  }

  lemma TasksKnownStep(s: State, e: Event)
    requires TasksKnown(s)
    ensures TasksKnown(Step(s, e))
    ensures s.rows.Keys <= Step(s, e).rows.Keys
    ensures forall t | t in s.rows :: Step(s, e).rows[t].account == s.rows[t].account
    ensures forall t | t in s.rows :: Step(s, e).rows[t].taskType == s.rows[t].taskType
  {
  }

  /** A run keeps its task for as long as it is live. */
  lemma RunningKeepsTask(s: State, e: Event, a: nat)
    requires a in s.agents && s.agents[a].Running?
    requires a in Step(s, e).agents && Step(s, e).agents[a].Running?
    ensures Step(s, e).agents[a] == s.agents[a]
  {
  }
}
