/**
 Warm-up cross pairs. Before pairing `source` with a target, a breadth-first search from
 the target decides whether it already reaches `source`. The search is exact, so every
 sequence of select-then-insert steps keeps the pair graph acyclic, and the cooldown keeps
 two pairs with the same endpoints 48 hours apart.
 */
module WarmupRings {
  import opened Options

  const COOLDOWN := 172800

  datatype Pair = Pair(source: int, target: int, createdAt: int, cooldownUntil: int)

  predicate Edge(pairs: seq<Pair>, a: int, b: int) {
    exists i :: 0 <= i < |pairs| && pairs[i].source == a && pairs[i].target == b
  }

  /** `p` leads from `a` to `b`: it lists the nodes after `a`, one edge at a time. */
  ghost predicate IsPath(pairs: seq<Pair>, a: int, b: int, p: seq<int>)
    decreases |p|
  {
    if p == [] then a == b else Edge(pairs, a, p[0]) && IsPath(pairs, p[0], b, p[1..])
  }

  ghost predicate Reaches(pairs: seq<Pair>, a: int, b: int) {
    exists p :: IsPath(pairs, a, b, p)
  }

  /** No account can be reached from itself over one or more pairs. */
  ghost predicate Acyclic(pairs: seq<Pair>) {
    forall a, b :: Edge(pairs, a, b) ==> !Reaches(pairs, b, a)
  }

  // ----- Reachability -----

  lemma ReachesSelf(pairs: seq<Pair>, a: int)
    ensures Reaches(pairs, a, a)
  {
    assert IsPath(pairs, a, a, []);
  }

  lemma ReachesByEdge(pairs: seq<Pair>, a: int, b: int, c: int)
    requires Edge(pairs, a, b) && Reaches(pairs, b, c)
    ensures Reaches(pairs, a, c)
  {
    var p :| IsPath(pairs, b, c, p);
    assert ([b] + p)[1..] == p;
    assert IsPath(pairs, a, c, [b] + p);
  }

  lemma {:induction false} ReachesThenEdge(pairs: seq<Pair>, a: int, b: int, c: int, p: seq<int>)
    requires IsPath(pairs, a, b, p) && Edge(pairs, b, c)
    ensures Reaches(pairs, a, c)
    decreases |p|
  {
    if p == [] {
      ReachesSelf(pairs, c);
      ReachesByEdge(pairs, a, c, c);
    } else {
      ReachesThenEdge(pairs, p[0], b, c, p[1..]);
      ReachesByEdge(pairs, a, p[0], c);
    }
  }

  /** A set closed under edges that holds the start of a path holds its end. */
  lemma {:induction false} PathStaysIn(pairs: seq<Pair>, s: set<int>, a: int, b: int, p: seq<int>)
    requires a in s && IsPath(pairs, a, b, p)
    requires forall x, y :: x in s && Edge(pairs, x, y) ==> y in s
    ensures b in s
    decreases |p|
  {
    if p == [] {
    } else {
      PathStaysIn(pairs, s, p[0], b, p[1..]);
    }
  }

  // ----- The search -----

  function Accounts(pairs: seq<Pair>): set<int> {
    (set i | 0 <= i < |pairs| :: pairs[i].source) + (set i | 0 <= i < |pairs| :: pairs[i].target)
  }

  method WouldFormRing(pairs: seq<Pair>, source: int, target: int) returns (ring: bool)
    ensures ring <==> Reaches(pairs, target, source)
  {
    var visited: set<int> := {};
    var queue := [target];
    ghost var nodes := Accounts(pairs) + {target};
    ReachesSelf(pairs, target);
    while queue != []
      invariant visited <= nodes && forall x :: x in queue ==> x in nodes
      invariant forall x :: x in visited || x in queue ==> Reaches(pairs, target, x)
      invariant forall x, y :: x in visited && Edge(pairs, x, y) ==> y in visited || y in queue
      invariant source !in visited
      invariant target in visited || target in queue
      decreases |nodes - visited|, |queue|
    {
      var current := queue[0];
      ghost var before := queue;
      queue := queue[1..];
      assert before == [current] + queue;
      if current == source {
        return true;
      }
      if current in visited {
        continue;
      }
      ghost var left := nodes - visited;
      visited := visited + {current};
      assert nodes - visited == left - {current} && current in left;
      queue := AppendNeighbours(pairs, current, visited, queue, target);
    }
    if Reaches(pairs, target, source) {
      var p :| IsPath(pairs, target, source, p);
      PathStaysIn(pairs, visited, target, source, p);
    }
    ring := false;
  }

  /** One round of the search: the unvisited targets of `current`, in row order. */
  method AppendNeighbours(pairs: seq<Pair>, current: int, visited: set<int>, queue: seq<int>, ghost target: int)
    returns (queue': seq<int>)
    requires Reaches(pairs, target, current) && forall x :: x in queue ==> Reaches(pairs, target, x)
    ensures queue <= queue'
    ensures forall x :: x in queue' ==> x in queue || x in Accounts(pairs)
    ensures forall x :: x in queue' ==> Reaches(pairs, target, x)
    ensures forall y :: Edge(pairs, current, y) ==> y in visited || y in queue'
  {
    queue' := queue;
    for i := 0 to |pairs|
      invariant queue <= queue'
      invariant forall x :: x in queue' ==> x in queue || x in Accounts(pairs)
      invariant forall x :: x in queue' ==> Reaches(pairs, target, x)
      invariant forall j :: 0 <= j < i && pairs[j].source == current ==>
                  pairs[j].target in visited || pairs[j].target in queue'
    {
      if pairs[i].source == current && pairs[i].target !in visited {
        assert Edge(pairs, current, pairs[i].target);
        ghost var p :| IsPath(pairs, target, current, p);
        ReachesThenEdge(pairs, target, current, pairs[i].target, p);
        queue' := queue' + [pairs[i].target];
      }
    }
  }

  // ----- Selecting and inserting -----

  /** On cooldown: an earlier pair with these endpoints still has time to run. */
  predicate Cooling(pairs: seq<Pair>, source: int, target: int, now: int) {
    exists i :: 0 <= i < |pairs|
                && pairs[i].source == source && pairs[i].target == target && pairs[i].cooldownUntil > now
  }

  ghost predicate Eligible(pairs: seq<Pair>, source: int, target: int, now: int) {
    !Cooling(pairs, source, target, now) && target != source && !Reaches(pairs, target, source)
  }

  /** The first eligible account of the pool, None when there is none. */
  method SelectCrossPair(pairs: seq<Pair>, source: int, pool: seq<int>, now: int) returns (chosen: Option<int>)
    ensures chosen.None? ==> forall i :: 0 <= i < |pool| ==> !Eligible(pairs, source, pool[i], now)
    ensures chosen.Some? ==>
              exists i :: 0 <= i < |pool| && pool[i] == chosen.value && Eligible(pairs, source, pool[i], now)
                          && forall j :: 0 <= j < i ==> !Eligible(pairs, source, pool[j], now)
  {
    for i := 0 to |pool|
      invariant forall j :: 0 <= j < i ==> !Eligible(pairs, source, pool[j], now)
    {
      if !Cooling(pairs, source, pool[i], now) && pool[i] != source {
        var ring := WouldFormRing(pairs, source, pool[i]);
        if !ring {
          return Some(pool[i]);
        }
      }
    }
    chosen := None;
  }

  function Inserted(pairs: seq<Pair>, source: int, target: int, now: int): seq<Pair> {
    pairs + [Pair(source, target, now, now + COOLDOWN)]
  }

  /** Inserting an eligible pair closes no ring. */
  lemma InsertKeepsAcyclic(pairs: seq<Pair>, source: int, target: int, now: int)
    requires Acyclic(pairs) && target != source && !Reaches(pairs, target, source)
    ensures Acyclic(Inserted(pairs, source, target, now))
  {
    var after := Inserted(pairs, source, target, now);
    forall a, b | Edge(after, a, b)
      ensures !Reaches(after, b, a)
    {
      EdgeOfInserted(pairs, source, target, now, a, b);
      if Reaches(after, b, a) {
        var p :| IsPath(after, b, a, p);
        Detour(pairs, source, target, now, b, a, p);
        if Edge(pairs, a, b) && !Reaches(pairs, b, a) {
          // target reaches a, a leads to b, b reaches source
          assert Reaches(pairs, target, a) && Reaches(pairs, b, source);
          ReachesByEdge(pairs, a, b, source);
          ReachesTransitive(pairs, target, a, source);
        }
      }
    }
  }

  lemma EdgeOfInserted(pairs: seq<Pair>, source: int, target: int, now: int, a: int, b: int)
    ensures Edge(Inserted(pairs, source, target, now), a, b) <==> Edge(pairs, a, b) || (a == source && b == target)
  {
    var after := Inserted(pairs, source, target, now);
    if Edge(pairs, a, b) {
      var i :| 0 <= i < |pairs| && pairs[i].source == a && pairs[i].target == b;
      assert after[i] == pairs[i];
    }
    if a == source && b == target {
      assert after[|pairs|].source == a && after[|pairs|].target == b;
    }
  }

  lemma ReachesTransitive(pairs: seq<Pair>, a: int, b: int, c: int)
    requires Reaches(pairs, a, b) && Reaches(pairs, b, c)
    ensures Reaches(pairs, a, c)
  {
    var p :| IsPath(pairs, a, b, p);
    PrependPath(pairs, a, b, c, p);
  }

  lemma {:induction false} PrependPath(pairs: seq<Pair>, a: int, b: int, c: int, p: seq<int>)
    requires IsPath(pairs, a, b, p) && Reaches(pairs, b, c)
    ensures Reaches(pairs, a, c)
    decreases |p|
  {
    if p == [] {
    } else {
      PrependPath(pairs, p[0], b, c, p[1..]);
      ReachesByEdge(pairs, a, p[0], c);
    }
  }

  /** A path of the larger graph is a path of the smaller one, or it comes to `source`
      and goes on from `target`. */
  lemma {:induction false} Detour(pairs: seq<Pair>, source: int, target: int, now: int, x: int, y: int, p: seq<int>)
    requires !Reaches(pairs, target, source)
    requires IsPath(Inserted(pairs, source, target, now), x, y, p)
    ensures Reaches(pairs, x, y) || (Reaches(pairs, x, source) && Reaches(pairs, target, y))
    decreases |p|
  {
    if p == [] {
      ReachesSelf(pairs, x);
    } else {
      var z := p[0];
      Detour(pairs, source, target, now, z, y, p[1..]);
      EdgeOfInserted(pairs, source, target, now, x, z);
      if Edge(pairs, x, z) {
        if Reaches(pairs, z, y) {
          ReachesByEdge(pairs, x, z, y);
        } else {
          ReachesByEdge(pairs, x, z, source);
        }
      } else {
        ReachesSelf(pairs, x);
      }
    }
  }

  lemma {:induction false} PathInInserted(
      pairs: seq<Pair>, source: int, target: int, now: int, x: int, y: int, p: seq<int>)
    requires IsPath(pairs, x, y, p)
    ensures Reaches(Inserted(pairs, source, target, now), x, y)
    decreases |p|
  {
    var after := Inserted(pairs, source, target, now);
    if p == [] {
      ReachesSelf(after, x);
    } else {
      PathInInserted(pairs, source, target, now, p[0], y, p[1..]);
      EdgeOfInserted(pairs, source, target, now, x, p[0]);
      ReachesByEdge(after, x, p[0], y);
    }
  }

  /** The ring check refuses nothing it need not refuse: an insert keeps the graph acyclic
      if and only if the target does not reach the source at that moment. */
  lemma InsertKeepsAcyclicIff(pairs: seq<Pair>, source: int, target: int, now: int)
    requires Acyclic(pairs)
    ensures Acyclic(Inserted(pairs, source, target, now)) <==> !Reaches(pairs, target, source)
  {
    if Reaches(pairs, target, source) {
      var p :| IsPath(pairs, target, source, p);
      PathInInserted(pairs, source, target, now, target, source, p);
      EdgeOfInserted(pairs, source, target, now, source, target);
    } else {
      ReachesSelf(pairs, target);
      InsertKeepsAcyclic(pairs, source, target, now);
    }
  }

  /** Nothing holds the table between a selection and its insert: two selections made on
      the same table can close a ring together. */
  lemma InterleavedSelectionsCloseARing(now: int)
    ensures Eligible([], 1, 2, now) && Eligible([], 2, 1, now)
    ensures !Acyclic(Inserted(Inserted([], 1, 2, now), 2, 1, now))
  {
    assert forall a, b, p | a != b :: !IsPath([], a, b, p);
    var first := Inserted([], 1, 2, now);
    InsertKeepsAcyclic([], 1, 2, now);
    EdgeOfInserted([], 1, 2, now, 1, 2);
    ReachesSelf(first, 2);
    ReachesByEdge(first, 1, 2, 2);
    InsertKeepsAcyclicIff(first, 2, 1, now);
  }

  /** A pair is on cooldown from its insertion for as long as it says. */
  lemma CoolingOfInserted(pairs: seq<Pair>, source: int, target: int, now: int)
    ensures var after := Inserted(pairs, source, target, now);
            forall u :: Cooling(after, source, target, u) <==> u < now + COOLDOWN || Cooling(pairs, source, target, u)
  {
    var after := Inserted(pairs, source, target, now);
    forall u
      ensures Cooling(after, source, target, u) <==> u < now + COOLDOWN || Cooling(pairs, source, target, u)
    {
      if u < now + COOLDOWN {
        assert after[|pairs|].source == source && after[|pairs|].cooldownUntil > u;
      }
      if Cooling(pairs, source, target, u) {
        var i :| 0 <= i < |pairs|
                 && pairs[i].source == source && pairs[i].target == target && pairs[i].cooldownUntil > u;
        assert after[i] == pairs[i];
      }
    }
  }

  // ----- Over every run -----

  /** One warm-up step: select at one instant, insert at the same or a later one. */
  datatype Step = Step(source: int, pool: seq<int>, selectAt: int, insertAt: int)

  ghost predicate CoolingRespected(pairs: seq<Pair>) {
    && (forall i :: 0 <= i < |pairs| ==> pairs[i].cooldownUntil == pairs[i].createdAt + 172800)
    && forall i, j :: 0 <= i < j < |pairs|
                      && pairs[i].source == pairs[j].source && pairs[i].target == pairs[j].target ==>
         pairs[j].createdAt >= pairs[i].createdAt + 172800
  }

  /** The 48 hours are kept if and only if the pair has cooled down when it is inserted. */
  lemma InsertKeepsCoolingIff(pairs: seq<Pair>, source: int, target: int, now: int)
    requires CoolingRespected(pairs)
    ensures CoolingRespected(Inserted(pairs, source, target, now)) <==> !Cooling(pairs, source, target, now)
  {
    var after := Inserted(pairs, source, target, now);
    if i :| 0 <= i < |pairs| && pairs[i].source == source && pairs[i].target == target && pairs[i].cooldownUntil > now {
      assert after[i].source == after[|pairs|].source && after[|pairs|].createdAt < after[i].createdAt + COOLDOWN;
    }
  }

  /** A pair that had cooled down when it was selected still has when it is inserted. */
  lemma StaysCooledDown(pairs: seq<Pair>, source: int, target: int, selectAt: int, insertAt: int)
    requires !Cooling(pairs, source, target, selectAt) && selectAt <= insertAt
    ensures !Cooling(pairs, source, target, insertAt)
  {
  }

  /** Two selections of the same pair, made before either insert, break the 48 hours while
      the graph stays acyclic. */
  lemma InterleavedSelectionsBreakTheCooldown(now: int)
    ensures Eligible([], 1, 2, now)
    ensures var both := Inserted(Inserted([], 1, 2, now), 1, 2, now);
            Acyclic(both) && !CoolingRespected(both)
  {
    assert forall a, b, p | a != b :: !IsPath([], a, b, p);
    var first := Inserted([], 1, 2, now);
    InsertKeepsAcyclicIff([], 1, 2, now);
    forall p ensures !IsPath(first, 2, 1, p) {
      if p != [] {
        EdgeOfInserted([], 1, 2, now, 2, p[0]);
      }
    }
    InsertKeepsAcyclicIff(first, 1, 2, now);
    assert first[0] == Pair(1, 2, now, now + COOLDOWN);
    InsertKeepsCoolingIff(first, 1, 2, now);
  }

  /** One step of a run: the chosen target was eligible when it was selected and is
      inserted at the same or a later instant, or nobody was eligible. */
  ghost predicate Advances(before: seq<Pair>, st: Step, after: seq<Pair>) {
    && st.selectAt <= st.insertAt
    && (|| after == before
        || exists t :: t in st.pool && Eligible(before, st.source, t, st.selectAt)
                       && after == Inserted(before, st.source, t, st.insertAt))
  }

  /** The pair table as the pipeline keeps it. */
  class Pipeline {
    var pairs: seq<Pair>

    constructor ()
      ensures pairs == []
    {
      pairs := [];
    }

    /** The new pair is on cooldown for exactly 48 hours. The graph has exactly one more edge
        and stays acyclic exactly when the target does not reach the source; repeated pairs
        stay 48 hours apart exactly when this one has cooled down. */
    method ScheduleCrossMessage(source: int, target: int, now: int)
      modifies this
      ensures old(pairs) <= pairs && |pairs| == |old(pairs)| + 1
      ensures forall u ::
                Cooling(pairs, source, target, u) <==> u < now + 172800 || Cooling(old(pairs), source, target, u)
      ensures forall a, b :: Edge(pairs, a, b) <==> Edge(old(pairs), a, b) || (a == source && b == target)
      ensures old(Acyclic(pairs)) ==> (Acyclic(pairs) <==> !Reaches(old(pairs), target, source))
      ensures old(CoolingRespected(pairs)) ==> (CoolingRespected(pairs) <==> !Cooling(old(pairs), source, target, now))
      ensures pairs == Inserted(old(pairs), source, target, now)
    {
      ghost var before := pairs;
      pairs := pairs + [Pair(source, target, now, now + COOLDOWN)];
      forall a, b {
        EdgeOfInserted(before, source, target, now, a, b);
      }
      CoolingOfInserted(before, source, target, now);
      if Acyclic(before) {
        InsertKeepsAcyclicIff(before, source, target, now);
      }
      if CoolingRespected(before) {
        InsertKeepsCoolingIff(before, source, target, now);
      }
    }

    /** Select, then insert what was selected: a step of the runs below. */
    method PairUp(source: int, pool: seq<int>, selectAt: int, insertAt: int) returns (chosen: Option<int>)
      requires selectAt <= insertAt
      modifies this
      ensures Advances(old(pairs), Step(source, pool, selectAt, insertAt), pairs)
      ensures chosen.None? <==> pairs == old(pairs)
      ensures old(Acyclic(pairs) && CoolingRespected(pairs)) ==> Acyclic(pairs) && CoolingRespected(pairs)
    {
      chosen := SelectCrossPair(pairs, source, pool, selectAt);
      if chosen.Some? {
        StaysCooledDown(pairs, source, chosen.value, selectAt, insertAt);
        ScheduleCrossMessage(source, chosen.value, insertAt);
      }
    }
  }

  ghost predicate IsRun(tables: seq<seq<Pair>>, steps: seq<Step>) {
    && |tables| == |steps| + 1 && tables[0] == []
    && forall i :: 0 <= i < |steps| ==> Advances(tables[i], steps[i], tables[i + 1])
  }

  /** Any sequence of select-then-insert steps, with whatever pools, sources and clock
      readings: the graph stays a DAG and repeated pairs stay 48 hours apart. */
  lemma {:induction false} PairGraphStaysADag(tables: seq<seq<Pair>>, steps: seq<Step>, n: nat)
    requires IsRun(tables, steps) && n <= |steps|
    ensures Acyclic(tables[n]) && CoolingRespected(tables[n])
  {
    if n == 0 {
    } else {
      PairGraphStaysADag(tables, steps, n - 1);
      var before, st := tables[n - 1], steps[n - 1];
      assert Advances(before, st, tables[n - 1 + 1]);
      if tables[n] != before {
        var t :| t in st.pool && Eligible(before, st.source, t, st.selectAt)
                 && tables[n] == Inserted(before, st.source, t, st.insertAt);
        InsertKeepsAcyclic(before, st.source, t, st.insertAt);
        StaysCooledDown(before, st.source, t, st.selectAt, st.insertAt);
        InsertKeepsCoolingIff(before, st.source, t, st.insertAt);
      }
    }
  }

  // ----- However selections and inserts interleave -----

  datatype Insert = Insert(source: int, target: int, at: int)

  function TableAfter(inserts: seq<Insert>): seq<Pair> {
    if inserts == [] then []
    else
      var last := inserts[|inserts| - 1];
      Inserted(TableAfter(inserts[..|inserts| - 1]), last.source, last.target, last.at)
  }

  /** The graph was a DAG and the 48 hours were kept after every insert. */
  ghost predicate AlwaysInOrder(inserts: seq<Insert>) {
    && Acyclic(TableAfter(inserts)) && CoolingRespected(TableAfter(inserts))
    && (inserts == [] || AlwaysInOrder(inserts[..|inserts| - 1]))
  }

  /** Every pair was still eligible on the table it was inserted into. */
  ghost predicate EachStillEligible(inserts: seq<Insert>) {
    inserts == [] ||
    (var (front, last) := (inserts[..|inserts| - 1], inserts[|inserts| - 1]);
     EachStillEligible(front) && Eligible(TableAfter(front), last.source, last.target, last.at))
  }

  /** Over every sequence of inserts, whenever and by whomever they were selected: the table
      stays in order throughout if and only if a selection repeated at each insert would
      still allow it. */
  lemma {:induction false} AnyInterleavingIff(inserts: seq<Insert>)
    ensures AlwaysInOrder(inserts) <==> EachStillEligible(inserts)
  {
    if inserts == [] {
    } else {
      var (front, last) := (inserts[..|inserts| - 1], inserts[|inserts| - 1]);
      AnyInterleavingIff(front);
      if AlwaysInOrder(front) {
        InsertKeepsAcyclicIff(TableAfter(front), last.source, last.target, last.at);
        InsertKeepsCoolingIff(TableAfter(front), last.source, last.target, last.at);
        ReachesSelf(TableAfter(front), last.source);
      }
    }
  }
}
