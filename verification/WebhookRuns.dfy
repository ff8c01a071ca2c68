/**
 Retry safety over timed runs. Retries and the re-drive sweep act independently; what
 keeps them apart is that a job is always due no later than its row's own clock, and the
 sweep waits 900 s past that clock. So if every job finishes sooner than 900 s after it
 was due, a delivery never has two jobs.
 */
module WebhookRuns {
  import opened Options
  import opened Webhooks

  datatype Job = Waiting(delivery: nat, due: int) | Posting(delivery: nat, due: int, read: nat)

  /** `posts` counts the POSTs ever begun for each delivery. */
  datatype World = World(rows: map<nat, Delivery>, jobs: map<nat, Job>, posts: map<nat, nat>, now: int)

  datatype Event =
    | Produce(id: nat, job: nat, queued: bool)
    | Start(job: nat)                            // a due job reads its row and POSTs, or stops
    | Finish(job: nat, ok: bool, queued: bool)   // the POST's answer is recorded, the retry queued
    | Redrive(id: nat, job: nat, queued: bool)
    | Lose(job: nat)                             // a job that nobody picked up disappears
    | Tick(seconds: nat)

  function Empty(now: int): World { World(map[], map[], map[], now) }

  predicate Enabled(w: World, e: Event) {
    match e
    case Produce(id, j, _) => id !in w.rows && j !in w.jobs
    case Start(j) => j in w.jobs && w.jobs[j].Waiting? && w.jobs[j].due <= w.now
    case Finish(j, _, _) => j in w.jobs && w.jobs[j].Posting? && w.jobs[j].delivery in w.rows
    case Redrive(id, j, _) => id in w.rows && Stranded(w.rows[id], w.now) && j !in w.jobs
    case Lose(j) => j in w.jobs && w.jobs[j].Waiting?
    case Tick(_) => true
  }

  function Posts(w: World, id: nat): nat { if id in w.posts then w.posts[id] else 0 }

  /** The event begins a POST. */
  predicate Posted(w: World, e: Event) {
    && Enabled(w, e) && e.Start?
    && w.jobs[e.job].delivery in w.rows && w.rows[w.jobs[e.job].delivery].status != Delivered
  }

  function Step(w: World, e: Event): World {
    if !Enabled(w, e) then w
    else match e
      case Produce(id, j, queued) =>
        w.(rows := w.rows[id := Created(w.now)], jobs := if queued then w.jobs[j := Waiting(id, w.now)] else w.jobs)
      case Start(j) =>
        if !Posted(w, e) then w.(jobs := w.jobs - {j})
        else
          var id := w.jobs[j].delivery;
          w.(jobs := w.jobs[j := Posting(id, w.jobs[j].due, w.rows[id].attempts)],
             posts := w.posts[id := Posts(w, id) + 1])
      case Finish(j, ok, queued) =>
        var (id, read) := (w.jobs[j].delivery, w.jobs[j].read);
        var row := Attempted(w.rows[id], read, ok, w.now);
        w.(rows := w.rows[id := row],
           jobs := if Retries(read, ok) && queued then w.jobs[j := Waiting(id, Anchor(row))] else w.jobs - {j})
      case Redrive(id, j, queued) =>
        if !queued then w
        else w.(rows := w.rows[id := Redriven(w.rows[id], w.now)], jobs := w.jobs[j := Waiting(id, w.now)])
      case Lose(j) => w.(jobs := w.jobs - {j})
      case Tick(seconds) => w.(now := w.now + seconds)
  }

  function Exec(start: int, es: seq<Event>): World {
    if es == [] then Empty(start) else Step(Exec(start, es[..|es| - 1]), es[|es| - 1])
  }

  /** What each event writes, row by row and job by job: the same as the producer, one
      delivery attempt and the sweep do. */
  lemma StepWrites(w: World, e: Event)
    requires Enabled(w, e)
    ensures var w' := Step(w, e);
            match e
            case Produce(id, j, queued) =>
              && w'.rows == w.rows[id := Delivery(Pending, 0, None, w.now, None)]
              && w'.jobs == if queued then w.jobs[j := Waiting(id, w.now)] else w.jobs
            case Start(j) =>
              var (id, due) := (w.jobs[j].delivery, w.jobs[j].due);
              && due <= w.now && w'.rows == w.rows
              && (if id in w.rows && w.rows[id].status != Delivered then
                    w'.jobs == w.jobs[j := Posting(id, due, w.rows[id].attempts)] && Posts(w', id) == Posts(w, id) + 1
                  else w'.jobs == w.jobs - {j} && w'.posts == w.posts)
            case Finish(j, ok, queued) =>
              var id := w.jobs[j].delivery;
              var was := w.rows[id].(attempts := w.jobs[j].read + 1);
              && w'.rows == w.rows[id :=
                   if ok then was.(status := Delivered, deliveredAt := Some(w.now))
                   else if was.attempts >= 5 then was.(status := Failed)
                   else was.(status := Pending, nextAttemptAt := Some(w.now + BackoffSeconds(was.attempts)))]
              && w'.jobs == if !ok && was.attempts < 5 && queued
                            then w.jobs[j := Waiting(id, w.now + BackoffSeconds(was.attempts))] else w.jobs - {j}
            case Redrive(id, j, queued) =>
              if queued then
                && w'.rows == w.rows[id := w.rows[id].(nextAttemptAt := Some(w.now + 900))]
                && w'.jobs == w.jobs[j := Waiting(id, w.now)]
              else w' == w
            case Lose(j) => w' == w.(jobs := w.jobs - {j})
            case Tick(seconds) => w' == w.(now := w.now + seconds)
  {
  }

  /** Time never reaches `due + slack` while a job is still outstanding. */
  ghost predicate Prompt(w: World, e: Event, slack: nat) {
    e.Tick? ==> forall j | j in w.jobs :: w.now + e.seconds < w.jobs[j].due + slack
  }

  ghost predicate AllPrompt(start: int, es: seq<Event>, slack: nat) {
    es == [] || (AllPrompt(start, es[..|es| - 1], slack) && Prompt(Exec(start, es[..|es| - 1]), es[|es| - 1], slack))
  }

  ghost predicate JobInOrder(w: World, j: nat)
    requires j in w.jobs
  {
    var job := w.jobs[j];
    && job.delivery in w.rows
    && w.rows[job.delivery].status == Pending
    && job.due <= Anchor(w.rows[job.delivery])
    && w.now < job.due + REDRIVE_AFTER
    && (job.Posting? ==> job.read == w.rows[job.delivery].attempts)
  }

  ghost predicate OneJobEach(w: World) {
    forall i, j | i in w.jobs && j in w.jobs && w.jobs[i].delivery == w.jobs[j].delivery :: i == j
  }

  ghost predicate BeingPosted(w: World, id: nat) {
    exists j | j in w.jobs :: w.jobs[j].Posting? && w.jobs[j].delivery == id
  }

  ghost predicate RowInOrder(w: World, id: nat)
    requires id in w.rows
  {
    && w.rows[id].attempts <= MAX_ATTEMPTS
    && (w.rows[id].status == Pending ==> w.rows[id].attempts < MAX_ATTEMPTS)
    && Posts(w, id) == w.rows[id].attempts + if BeingPosted(w, id) then 1 else 0
  }

  ghost predicate InOrder(w: World) {
    && OneJobEach(w)
    && (forall j | j in w.jobs :: JobInOrder(w, j))
    && (forall id | id in w.rows :: RowInOrder(w, id))
    && w.posts.Keys <= w.rows.Keys
  }

  predicate Answers(w: World, e: Event, id: nat) {
    Enabled(w, e) && e.Finish? && w.jobs[e.job].delivery == id
  }

  lemma JobStays(w: World, e: Event, j: nat)
    requires InOrder(w) && Prompt(w, e, REDRIVE_AFTER) && j in Step(w, e).jobs
    ensures JobInOrder(Step(w, e), j)
  {
    if j in w.jobs {
      assert JobInOrder(w, j);
      if Answers(w, e, w.jobs[j].delivery) {
        assert j == e.job && RowInOrder(w, w.jobs[j].delivery);
      }
    }
  }

  /** A new job is for a delivery that had none: a new row, or a stranded one. */
  lemma NewJobIsAlone(w: World, e: Event, j: nat)
    requires InOrder(w) && j in Step(w, e).jobs
    ensures j in w.jobs ==> Step(w, e).jobs[j].delivery == w.jobs[j].delivery
    ensures j !in w.jobs ==> forall i | i in w.jobs :: w.jobs[i].delivery != Step(w, e).jobs[j].delivery
  {
    assert forall i | i in w.jobs :: JobInOrder(w, i);
  }

  lemma JobsStay(w: World, e: Event)
    requires InOrder(w) && Prompt(w, e, REDRIVE_AFTER)
    ensures var w' := Step(w, e); OneJobEach(w') && forall j | j in w'.jobs :: JobInOrder(w', j)
  {
    var w' := Step(w, e);
    forall j | j in w'.jobs ensures JobInOrder(w', j) {
      JobStays(w, e, j);
    }
    forall i, j | i in w'.jobs && j in w'.jobs && w'.jobs[i].delivery == w'.jobs[j].delivery ensures i == j {
      NewJobIsAlone(w, e, i);
      NewJobIsAlone(w, e, j);
    }
  }

  /** A POST is under way after a step if it has just begun, or was and is not answered. */
  lemma BeingPostedMoves(w: World, e: Event, id: nat)
    requires OneJobEach(w)
    ensures BeingPosted(Step(w, e), id) <==>
            (Posted(w, e) && w.jobs[e.job].delivery == id) || (BeingPosted(w, id) && !Answers(w, e, id))
  {
    var w' := Step(w, e);
    if BeingPosted(w, id) && !Answers(w, e, id) {
      var j :| j in w.jobs && w.jobs[j].Posting? && w.jobs[j].delivery == id;
      assert j in w'.jobs && w'.jobs[j].Posting? && w'.jobs[j].delivery == id;
    } else if Posted(w, e) && w.jobs[e.job].delivery == id {
      assert e.job in w'.jobs && w'.jobs[e.job].Posting?;
    }
  }

  lemma RowStays(w: World, e: Event, id: nat)
    requires InOrder(w) && id in Step(w, e).rows
    ensures RowInOrder(Step(w, e), id)
  {
    BeingPostedMoves(w, e, id);
    if id in w.rows {
      assert RowInOrder(w, id);
      if Posted(w, e) && w.jobs[e.job].delivery == id {
        assert JobInOrder(w, e.job) && !BeingPosted(w, id);
      } else if Answers(w, e, id) {
        assert JobInOrder(w, e.job) && BeingPosted(w, id);
      }
    } else {
      assert forall j | j in w.jobs :: JobInOrder(w, j);
    }
  }

  lemma InOrderStep(w: World, e: Event)
    requires InOrder(w) && Prompt(w, e, REDRIVE_AFTER)
    ensures InOrder(Step(w, e))
  {
    JobsStay(w, e);
    forall id | id in Step(w, e).rows ensures RowInOrder(Step(w, e), id) {
      RowStays(w, e, id);
    }
  }

  /** Whatever order retries, failed enqueues, losses and re-drives come in: a delivery has
      at most one outstanding job and is POSTed at most five times. */
  lemma {:induction false} RetrySafety(start: int, es: seq<Event>)
    requires AllPrompt(start, es, REDRIVE_AFTER)
    ensures InOrder(Exec(start, es))
    ensures forall id :: Posts(Exec(start, es), id) <= MAX_ATTEMPTS
  {
    if es == [] {
    } else {
      RetrySafety(start, es[..|es| - 1]);
      InOrderStep(Exec(start, es[..|es| - 1]), es[|es| - 1]);
    }
    var w := Exec(start, es);
    forall id ensures Posts(w, id) <= MAX_ATTEMPTS {
      if id in w.rows {
        assert RowInOrder(w, id);
        if BeingPosted(w, id) {
          var j :| j in w.jobs && w.jobs[j].Posting? && w.jobs[j].delivery == id;
          assert JobInOrder(w, j);
        }
      }
    }
  }

  /** A delivery that was delivered or given up is never POSTed again. */
  lemma NoPostAfterTheEnd(start: int, es: seq<Event>, e: Event)
    requires AllPrompt(start, es, REDRIVE_AFTER)
    requires Posted(Exec(start, es), e)
    ensures var w := Exec(start, es); w.rows[w.jobs[e.job].delivery].status == Pending
  {
    RetrySafety(start, es);
    assert JobInOrder(Exec(start, es), e.job);
  }

  /** What the sweep takes for stranded really is: no job is left that would retry it. */
  lemma StrandedMeansUnheld(start: int, es: seq<Event>, id: nat)
    requires AllPrompt(start, es, REDRIVE_AFTER)
    requires var w := Exec(start, es); id in w.rows && Stranded(w.rows[id], w.now)
    ensures var w := Exec(start, es); forall j | j in w.jobs :: w.jobs[j].delivery != id
  {
    RetrySafety(start, es);
    var w := Exec(start, es);
    assert forall j | j in w.jobs :: JobInOrder(w, j);
  }

  /** The hypothesis cannot be relaxed by a single second: a job that is still outstanding
      900 s after it was due can meet the sweep, and the delivery has two. */
  lemma OneSecondLaterIsTooLate() returns (es: seq<Event>)
    ensures AllPrompt(0, es, REDRIVE_AFTER + 1) && !OneJobEach(Exec(0, es))
  {
    es := [];
    es := Then(es, Produce(1, 10, true), World(map[1 := Created(0)], map[10 := Waiting(1, 0)], map[], 0));
    es := Then(es, Tick(REDRIVE_AFTER), World(map[1 := Created(0)], map[10 := Waiting(1, 0)], map[], REDRIVE_AFTER));
    es := Then(es, Redrive(1, 20, true),
               World(map[1 := Redriven(Created(0), REDRIVE_AFTER)],
                     map[10 := Waiting(1, 0), 20 := Waiting(1, REDRIVE_AFTER)], map[], REDRIVE_AFTER));
    var jobs := Exec(0, es).jobs;
    assert jobs[10].delivery == jobs[20].delivery;
  }

  lemma {:induction false} LongerSlack(start: int, es: seq<Event>, slack: nat, longer: nat)
    requires AllPrompt(start, es, slack) && slack <= longer
    ensures AllPrompt(start, es, longer)
  {
    if es == [] {
    } else {
      LongerSlack(start, es[..|es| - 1], slack, longer);
    }
  }

  /** So 900 s is the exact slack: jobs that finish within it of their due time never meet
      the sweep, and with any more slack they can. */
  lemma OneJobEachIff(slack: nat)
    ensures (forall start, es :: AllPrompt(start, es, slack) ==> OneJobEach(Exec(start, es)))
            <==> slack <= REDRIVE_AFTER
  {
    if slack <= REDRIVE_AFTER {
      forall start, es | AllPrompt(start, es, slack) ensures OneJobEach(Exec(start, es)) {
        LongerSlack(start, es, slack, REDRIVE_AFTER);
        RetrySafety(start, es);
      }
    } else {
      var es := OneSecondLaterIsTooLate();
      LongerSlack(0, es, REDRIVE_AFTER + 1, slack);
    }
  }

  ghost predicate HasJob(w: World, id: nat) {
    exists j | j in w.jobs :: w.jobs[j].delivery == id
  }

  /** Promptness aside: the one step that gives a delivery a second job is a re-drive of a
      delivery that still has one. */
  lemma StepKeepsOneJobIff(w: World, e: Event)
    requires OneJobEach(w) && forall j | j in w.jobs :: w.jobs[j].delivery in w.rows
    ensures OneJobEach(Step(w, e)) <==> !(Enabled(w, e) && e.Redrive? && e.queued && HasJob(w, e.id))
  {
    var w' := Step(w, e);
    if Enabled(w, e) && e.Redrive? && e.queued && HasJob(w, e.id) {
      var j :| j in w.jobs && w.jobs[j].delivery == e.id;
      assert j in w'.jobs && e.job in w'.jobs && w'.jobs[j].delivery == w'.jobs[e.job].delivery && j != e.job;
    } else {
      forall j | j in w'.jobs
        ensures j in w.jobs ==> w'.jobs[j].delivery == w.jobs[j].delivery
        ensures j !in w.jobs ==> !HasJob(w, w'.jobs[j].delivery)
      {
      }
    }
  }

  lemma Then(r: seq<Event>, e: Event, after: World) returns (es: seq<Event>)
    requires AllPrompt(0, r, REDRIVE_AFTER + 1) && Prompt(Exec(0, r), e, REDRIVE_AFTER + 1)
    requires Step(Exec(0, r), e) == after
    ensures es == r + [e] && Exec(0, es) == after && AllPrompt(0, es, REDRIVE_AFTER + 1)
  {
    es := r + [e];
    assert es[..|es| - 1] == r;
  }
}
