/**
 A task whose account cannot run it is parked at most ceil(BLOCKED_MAX / BLOCKED_RETRY)
 times before it is buried, 72 times with the default settings. The ceiling is measured
 from created_at, so the bound comes from how far apart the parkings of one row are: each
 one hides the row from every worker for BLOCKED_RETRY seconds.
 */
module BlockedTasks {
  import opened Options
  import opened TaskRows
  import opened TaskProtocol
  import opened RunnerExclusion
  import opened WakeCoverage

  /** ceil(BLOCKED_MAX / BLOCKED_RETRY), and none at all under a ceiling of 0 or less. */
  const MAX_PARKINGS: nat := if BLOCKED_MAX <= 0 then 0 else (BLOCKED_MAX + BLOCKED_RETRY - 1) / BLOCKED_RETRY

  lemma ParkingFits(k: nat)
    requires k * BLOCKED_RETRY < BLOCKED_MAX
    ensures k + 1 <= MAX_PARKINGS
  {
    if MAX_PARKINGS <= k {
      Scaled(MAX_PARKINGS, k);
    }
  }

  lemma Scaled(a: nat, b: nat)
    requires a <= b
    ensures a * BLOCKED_RETRY <= b * BLOCKED_RETRY
  {
  }

  lemma NoRoomAtTheBound()
    ensures MAX_PARKINGS * BLOCKED_RETRY >= BLOCKED_MAX
  {
  }

  /** A row that is written before a claim is still QUEUED, as it was when it was read. */
  predicate Fresh(s: State, e: Event) {
    var t := PreClaimWrite(s, e);
    t.Some? ==> t.value in s.rows && s.rows[t.value].status == Queued
  }

  /** The event parks task `t` as ACCOUNT_BLOCKED. */
  predicate Parks(s: State, e: Event, t: nat) {
    Enabled(s, e) && e.Block? && s.agents[e.agent].task == t && !BlockedTooLong(s.rows[t], s.now)
  }

  ghost function Parkings(s: State, es: seq<Event>, t: nat): nat {
    if es == [] then 0
    else
      var before := es[..|es| - 1];
      Parkings(s, before, t) + if Parks(Exec(s, before), es[|es| - 1], t) then 1 else 0
  }

  /** After k parkings the row is hidden until k retries after its creation, or that
      moment has passed. */
  predicate Spaced(s: State, t: nat, k: nat) {
    if t !in s.rows then k == 0
    else
      var row := s.rows[t];
      && row.createdAt <= s.now
      && k <= MAX_PARKINGS
      && (|| row.createdAt + k * BLOCKED_RETRY <= s.now
          || (&& row.status == Deferred && row.deferredUntil.Some?
              && row.createdAt + k * BLOCKED_RETRY <= row.deferredUntil.value))
  }

  /** A parking, fresh or stale, keeps the spacing exactly when it comes no sooner than k
      retries after the row's creation. */
  lemma ParkingKeepsSpacingIff(s: State, e: Event, t: nat, k: nat)
    requires Spaced(s, t, k) && Parks(s, e, t)
    ensures Spaced(Step(s, e), t, k + 1) <==> s.rows[t].createdAt + k * BLOCKED_RETRY <= s.now
  {
    assert (k + 1) * BLOCKED_RETRY == k * BLOCKED_RETRY + BLOCKED_RETRY;
    if s.rows[t].createdAt + k * BLOCKED_RETRY <= s.now {
      ParkingFits(k);
    }
  }

  lemma SpacedStep(s: State, e: Event, t: nat, k: nat)
    requires RunnersInOrder(s) && Fresh(s, e) && Spaced(s, t, k)
    ensures Spaced(Step(s, e), t, k + if Parks(s, e, t) then 1 else 0)
  {
    if Enabled(s, e) && e.Finish? {
      assert RunnerInOrder(s, e.agent);     // a live row is EXECUTING, so not hidden
    }
    if Parks(s, e, t) {
      assert PreClaimWrite(s, e) == Some(t);
      ParkingKeepsSpacingIff(s, e, t, k);
    }
  }

  /** Fresh runs park no task more than MAX_PARKINGS times... */
  lemma {:induction false} ParkingsAreBounded(start: int, es: seq<Event>, t: nat)
    requires Throughout(Empty(start), es, Timely) && Throughout(Empty(start), es, Fresh)
    ensures RunnersInOrder(Exec(Empty(start), es))
    ensures Spaced(Exec(Empty(start), es), t, Parkings(Empty(start), es, t))
    ensures Parkings(Empty(start), es, t) <= MAX_PARKINGS
    ensures BLOCKED_RETRY == 300 && BLOCKED_MAX == 21600 ==> MAX_PARKINGS == 72
  {
    if es == [] {
    } else {
      var before, e := Exec(Empty(start), es[..|es| - 1]), es[|es| - 1];
      ParkingsAreBounded(start, es[..|es| - 1], t);
      CalmMissesLiveRows(before, e);
      StepKeepsRunnersIff(before, e);
      SpacedStep(before, e, t, Parkings(Empty(start), es[..|es| - 1], t));
    }
  }

  /** ...and once it has been parked that often, the next block buries it for good. */
  lemma NextBlockBuries(start: int, es: seq<Event>, a: nat)
    requires Throughout(Empty(start), es, Timely) && Throughout(Empty(start), es, Fresh)
    requires var s := Exec(Empty(start), es);
             && Enabled(s, Block(a)) && s.rows[s.agents[a].task].status == Queued
             && Parkings(Empty(start), es, s.agents[a].task) == MAX_PARKINGS
    ensures var s := Exec(Empty(start), es);
            var row := Step(s, Block(a)).rows[s.agents[a].task];
            row.status == Failed && row.error == Some(AccountBlocked)
  {
    ParkingsAreBounded(start, es, Exec(Empty(start), es).agents[a].task);
    NoRoomAtTheBound();
  }

  // ----- The bound is reached, and no task is buried early -----

  /** A Block writes exactly this: FAILED once the ceiling has passed since the submission,
      and before that DEFERRED for one spacing. */
  lemma BlockBuriesIffCeilingPassed(start: int, es: seq<Event>, a: nat) returns (i: nat)
    requires Enabled(Exec(Empty(start), es), Block(a))
    ensures var s := Exec(Empty(start), es);
            var t := s.agents[a].task;
            && i < |es| && es[i].Submit? && es[i].task == t && Enabled(Exec(Empty(start), es[..i]), es[i])
            && var (row, submitted) := (Step(s, Block(a)).rows[t], Exec(Empty(start), es[..i]).now);
               && (row.status == Failed <==> s.now - submitted >= BLOCKED_MAX)
               && (s.now - submitted < BLOCKED_MAX ==>
                     row.status == Deferred && row.deferredUntil == Some(s.now + BLOCKED_RETRY))
               && row == s.rows[t].(status := row.status, deferredUntil := row.deferredUntil,
                                    error := Some(AccountBlocked))
               && (row.status == Failed ==> row.deferredUntil == s.rows[t].deferredUntil)
  {
    i := RowsAreSubmissions(start, es, Exec(Empty(start), es).agents[a].task);
  }

  /** Row 1 after `k` parkings, revived and picked up again. */
  ghost function Revisited(k: nat): State {
    State(map[1 := if k == 0 then WAITING else WAITING.(error := Some(AccountBlocked))],
          map[10 := Preparing(1, k * BLOCKED_RETRY)], k * BLOCKED_RETRY)
  }

  /** One more event of a run in which jobs respect the timeout and pre-claim writes are fresh. */
  lemma {:induction false} AppendFresh(r: seq<Event>, e: Event) returns (es: seq<Event>)
    requires Throughout(Empty(0), r, Timely) && Throughout(Empty(0), r, Fresh)
    requires Timely(Exec(Empty(0), r), e) && Fresh(Exec(Empty(0), r), e)
    ensures Throughout(Empty(0), es, Timely) && Throughout(Empty(0), es, Fresh)
    ensures Exec(Empty(0), es) == Step(Exec(Empty(0), r), e)
    ensures Parkings(Empty(0), es, 1) == Parkings(Empty(0), r, 1) + if Parks(Exec(Empty(0), r), e, 1) then 1 else 0
  {
    es := r + [e];
    assert es[..|es| - 1] == r;
  }

  lemma FirstPick() returns (es: seq<Event>)
    ensures Throughout(Empty(0), es, Timely) && Throughout(Empty(0), es, Fresh)
    ensures Exec(Empty(0), es) == Revisited(0) && Parkings(Empty(0), es, 1) == 0
  {
    es := AppendFresh([], Submit(1, 7, "react", 5, 10));
    es := AppendFresh(es, Deliver(10));
    es := AppendFresh(es, Pick(10));
  }

  ghost function ParkedRow(k: nat): Row {
    WAITING.(status := Deferred, deferredUntil := Some(k * BLOCKED_RETRY + BLOCKED_RETRY),
             error := Some(AccountBlocked))
  }

  /** Row 1 is parked once more, and nothing else is queued. */
  lemma BlockStep(k: nat)
    requires k * BLOCKED_RETRY < BLOCKED_MAX
    ensures Parks(Revisited(k), Block(10), 1)
    ensures var after := State(map[1 := ParkedRow(k)], map[10 := Handing(7, k * BLOCKED_RETRY)], k * BLOCKED_RETRY);
            && Step(Revisited(k), Block(10)) == after
            && Step(after, HandOff(10)) == State(map[1 := ParkedRow(k)], map[], k * BLOCKED_RETRY)
  {
    var after := State(map[1 := ParkedRow(k)], map[10 := Handing(7, k * BLOCKED_RETRY)], k * BLOCKED_RETRY);
    assert Step(Revisited(k), Block(10)) == after;
    assert Head(after.rows, 7).None?;
    assert Step(after, HandOff(10)).agents == map[];
  }

  lemma SweepStep(k: nat)
    ensures var until := k * BLOCKED_RETRY + BLOCKED_RETRY;
            var back := WAITING.(error := Some(AccountBlocked));
            Step(State(map[1 := ParkedRow(k)], map[], until), Sweep(1, 10))
            == State(map[1 := back], map[10 := Courier(1)], until)
  {
  }

  lemma PickStep(k: nat)
    ensures var until := k * BLOCKED_RETRY + BLOCKED_RETRY;
            var back := WAITING.(error := Some(AccountBlocked));
            && Step(State(map[1 := back], map[10 := Courier(1)], until), Deliver(10))
               == State(map[1 := back], map[10 := Job(1)], until)
            && Step(State(map[1 := back], map[10 := Job(1)], until), Pick(10)) == Revisited(k + 1)
  {
    assert (k + 1) * BLOCKED_RETRY == k * BLOCKED_RETRY + BLOCKED_RETRY;
  }

  /** Parked, and one spacing waited. */
  lemma ParkAndWait(r: seq<Event>, k: nat) returns (es: seq<Event>)
    requires Throughout(Empty(0), r, Timely) && Throughout(Empty(0), r, Fresh)
    requires Exec(Empty(0), r) == Revisited(k) && k * BLOCKED_RETRY < BLOCKED_MAX
    ensures Throughout(Empty(0), es, Timely) && Throughout(Empty(0), es, Fresh)
    ensures Exec(Empty(0), es) == State(map[1 := ParkedRow(k)], map[], k * BLOCKED_RETRY + BLOCKED_RETRY)
    ensures Parkings(Empty(0), es, 1) == Parkings(Empty(0), r, 1) + 1
  {
    BlockStep(k);
    es := AppendFresh(r, Block(10));
    es := AppendFresh(es, HandOff(10));
    var parked := State(map[1 := ParkedRow(k)], map[], k * BLOCKED_RETRY);
    assert Exec(Empty(0), es) == parked && Timely(parked, Tick(BLOCKED_RETRY)) && Fresh(parked, Tick(BLOCKED_RETRY));
    es := AppendFresh(es, Tick(BLOCKED_RETRY));
  }

  lemma {:induction false} ComeBack(r: seq<Event>, k: nat) returns (es: seq<Event>)
    requires Throughout(Empty(0), r, Timely) && Throughout(Empty(0), r, Fresh)
    requires Exec(Empty(0), r) == State(map[1 := ParkedRow(k)], map[], k * BLOCKED_RETRY + BLOCKED_RETRY)
    ensures Throughout(Empty(0), es, Timely) && Throughout(Empty(0), es, Fresh)
    ensures Exec(Empty(0), es) == Revisited(k + 1) && Parkings(Empty(0), es, 1) == Parkings(Empty(0), r, 1)
  {
    SweepStep(k);
    PickStep(k);
    es := AppendFresh(r, Sweep(1, 10));
    es := AppendFresh(es, Deliver(10));
    es := AppendFresh(es, Pick(10));
  }

  lemma {:induction false} BelowTheBound(k: nat)
    requires k < MAX_PARKINGS
    ensures k * BLOCKED_RETRY < BLOCKED_MAX
  {
    Scaled(k, MAX_PARKINGS - 1);
    assert (MAX_PARKINGS - 1) * BLOCKED_RETRY < BLOCKED_MAX;
  }

  lemma {:induction false} ParkOften(k: nat) returns (es: seq<Event>)
    requires k <= MAX_PARKINGS
    ensures Throughout(Empty(0), es, Timely) && Throughout(Empty(0), es, Fresh)
    ensures Exec(Empty(0), es) == Revisited(k) && Parkings(Empty(0), es, 1) == k
  {
    if k == 0 {
      es := FirstPick();
    } else {
      es := ParkOften(k - 1);
      BelowTheBound(k - 1);
      es := ParkAndWait(es, k - 1);
      es := ComeBack(es, k - 1);
    }
  }

  /** For every positive spacing and every ceiling, some such run parks a task exactly that
      often before the ceiling has passed. */
  lemma {:induction false} BoundIsReached() returns (es: seq<Event>)
    ensures Throughout(Empty(0), es, Timely) && Throughout(Empty(0), es, Fresh)
    ensures Parkings(Empty(0), es, 1) == MAX_PARKINGS
  {
    es := ParkOften(MAX_PARKINGS);
  }

  // ----- Without freshness there is no bound -----

  /** Agents up to n have read row 1 as QUEUED at the instant of its creation; those after
      i have yet to write it. */
  ghost predicate Poised(s: State, i: nat, n: nat) {
    && s.now == 0 && 1 in s.rows && s.rows[1].createdAt == 0
    && forall a: nat | i < a <= n :: a in s.agents && s.agents[a] == Preparing(1, 0)
  }

  lemma AppendEvent(r: seq<Event>, e: Event) returns (es: seq<Event>)
    requires Throughout(Empty(0), r, Timely) && !e.Tick?
    ensures es == r + [e] && Throughout(Empty(0), es, Timely)
    ensures Exec(Empty(0), es) == Step(Exec(Empty(0), r), e)
    ensures forall t: nat :: Parkings(Empty(0), es, t)
              == Parkings(Empty(0), r, t) + if Parks(Exec(Empty(0), r), e, t) then 1 else 0
  {
    es := r + [e];
    assert es[..|es| - 1] == r;
  }

  /** Row 1 is submitted, and duplicate jobs for it are picked up at once. */
  lemma {:induction false} GetPoised(n: nat) returns (es: seq<Event>)
    ensures Throughout(Empty(0), es, Timely) && Poised(Exec(Empty(0), es), 0, n)
    ensures var s := Exec(Empty(0), es); s.rows[1].status == Queued && forall a | a in s.agents :: a <= n
  {
    if n == 0 {
      es := AppendEvent([], Submit(1, 7, "react", 5, 0));
    } else {
      es := GetPoised(n - 1);
      es := AppendEvent(es, Duplicate(1, n));
      es := AppendEvent(es, Pick(n));
    }
  }

  /** Each of them parks the row, one stale write after the other. */
  lemma {:induction false} ParkInTurn(n: nat, i: nat) returns (es: seq<Event>)
    requires i <= n && BLOCKED_MAX > 0
    ensures Throughout(Empty(0), es, Timely) && Poised(Exec(Empty(0), es), i, n)
    ensures Parkings(Empty(0), es, 1) >= i
  {
    if i == 0 {
      es := GetPoised(n);
    } else {
      es := ParkInTurn(n, i - 1);
      assert Parks(Exec(Empty(0), es), Block(i), 1);
      es := AppendEvent(es, Block(i));
    }
  }

  /** Duplicate jobs that all read the row before any of them writes it park it as often as
      there are jobs, within a single second. */
  lemma {:induction false} StaleBlocksParkWithoutBound(n: nat) returns (es: seq<Event>)
    requires BLOCKED_MAX > 0
    ensures Throughout(Empty(0), es, Timely)
    ensures Parkings(Empty(0), es, 1) >= n && Exec(Empty(0), es).now == 0
  {
    es := ParkInTurn(n, n);
  }
}
