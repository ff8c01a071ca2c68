/**
 The schedule cache over every run of its operations. Accounts keep their windows, and
 the only generator in use is the deterministic one.
 */
module CacheRuns {
  import opened Options
  import opened Schedule
  import opened ScheduleCache

  /** `Look` is any query (should_be_active, presence, next_open); `Open` is an inbound DM. */
  datatype Op = Look(id: int, now: int) | Open(id: int, now: int)

  /** What does not change during a run. */
  datatype Setting = Setting(rng: Generator, accounts: int -> Account, max: nat)

  function Do(c: Cache, op: Op, st: Setting): Cache {
    match op
    case Look(id, now) => Got(c, st.rng, id, st.accounts(id), now, st.max)
    case Open(id, now) => OverrideOpened(c, st.rng, id, st.accounts(id), now, st.max)
  }

  function After(ops: seq<Op>, st: Setting): Cache {
    if ops == [] then Cache([], map[]) else Do(After(ops[..|ops| - 1], st), ops[|ops| - 1], st)
  }

  function Touches(ops: seq<Op>): seq<int> {
    seq(|ops|, i requires 0 <= i < |ops| => ops[i].id)
  }

  /** The ids touched after the last touch of `id`. */
  function Since(touches: seq<int>, id: int): set<int> {
    if touches == [] || touches[|touches| - 1] == id then {}
    else Since(touches[..|touches| - 1], id) + {touches[|touches| - 1]}
  }

  // ----- What one operation does -----

  /** Every operation stores one schedule for its id, whatever it finds. */
  lemma DoStores(c: Cache, op: Op, st: Setting)
    requires CacheOk(c, st.max) && st.max > 0
    ensures var answer := Answer(c, st.rng, op.id, st.accounts(op.id), op.now);
            Do(c, op, st) == Stored(c, op.id, if op.Open? then WithOverride(answer, op.now) else answer, st.max)
    ensures CacheOk(Do(c, op, st), st.max)
  {
    var answer := Answer(c, st.rng, op.id, st.accounts(op.id), op.now);
    StoredTwice(c, op.id, answer, WithOverride(answer, op.now), st.max);
    StoredOk(c, op.id, answer, st.max);
    StoredOk(c, op.id, WithOverride(answer, op.now), st.max);
  }

  lemma {:induction false} CacheStaysOk(ops: seq<Op>, st: Setting)
    requires st.max > 0
    ensures CacheOk(After(ops, st), st.max)
  {
    if ops == [] {
    } else {
      CacheStaysOk(ops[..|ops| - 1], st);
      DoStores(After(ops[..|ops| - 1], st), ops[|ops| - 1], st);
    }
  }

  // ----- The order is the recency order -----

  /** All distinct ids, ordered by their last touch. */
  function ByLastTouch(touches: seq<int>): seq<int> {
    if touches == [] then [] else MovedToEnd(ByLastTouch(touches[..|touches| - 1]), touches[|touches| - 1])
  }

  function LastOf(order: seq<int>, max: nat): seq<int> {
    if |order| <= max then order else order[|order| - max..]
  }

  lemma {:induction false} WithoutConcat(a: seq<int>, b: seq<int>, id: int)
    ensures Without(a + b, id) == Without(a, id) + Without(b, id)
  {
    if b == [] {
      assert a + b == a;
    } else {
      WithoutConcat(a, b[..|b| - 1], id);
      assert (a + b)[..|a + b| - 1] == a + b[..|b| - 1];
    }
  }

  lemma {:induction false} WithoutOne(order: seq<int>, id: int)
    requires Distinct(order) && id in order
    ensures |Without(order, id)| == |order| - 1
  {
    var front, last := order[..|order| - 1], order[|order| - 1];
    assert order == front + [last];
    if last == id {
      assert id !in front;
      WithoutFacts(front, id);
    } else {
      WithoutOne(front, id);
    }
  }

  lemma {:induction false} ByLastTouchIsDistinct(touches: seq<int>)
    ensures Distinct(ByLastTouch(touches))
  {
    if touches == [] {
    } else {
      ByLastTouchIsDistinct(touches[..|touches| - 1]);
      MovedFacts(ByLastTouch(touches[..|touches| - 1]), touches[|touches| - 1]);
    }
  }

  /** Keeping only the last `max` ids commutes with a touch. */
  lemma TouchTheSuffix(order: seq<int>, id: int, max: nat)
    requires Distinct(order) && max > 0
    ensures LastOf(MovedToEnd(order, id), max) == LastOf(MovedToEnd(LastOf(order, max), id), max)
  {
    if |order| > max {
      var a, b := order[..|order| - max], order[|order| - max..];
      assert order == a + b;
      WithoutConcat(a, b, id);
      assert MovedToEnd(order, id) == Without(a, id) + MovedToEnd(b, id);
      MovedIsLongEnough(a, b, id);
      DropPrefix(Without(a, id), MovedToEnd(b, id), max);
    }
  }

  lemma MovedIsLongEnough(a: seq<int>, b: seq<int>, id: int)
    requires Distinct(a + b)
    ensures |MovedToEnd(b, id)| >= |b|
  {
    assert forall i :: 0 <= i < |b| ==> b[i] == (a + b)[|a| + i];
    if id in b {
      WithoutOne(b, id);
    } else {
      WithoutFacts(b, id);
    }
  }

  lemma DropPrefix(a: seq<int>, b: seq<int>, max: nat)
    requires |b| >= max > 0
    ensures LastOf(a + b, max) == LastOf(b, max)
  {
    assert (a + b)[|a| + |b| - max..] == b[|b| - max..];
  }

  /** One operation moves its id to the end and keeps the last `max`. */
  lemma OrderMoves(c: Cache, op: Op, st: Setting)
    requires CacheOk(c, st.max) && st.max > 0
    ensures Do(c, op, st).order == LastOf(MovedToEnd(c.order, op.id), st.max)
  {
    DoStores(c, op, st);
    var answer := Answer(c, st.rng, op.id, st.accounts(op.id), op.now);
    StoredOrder(c, op.id, if op.Open? then WithOverride(answer, op.now) else answer, st.max);
  }

  lemma StoredOrder(c: Cache, id: int, w: Weekly, max: nat)
    requires CacheOk(c, max) && max > 0
    ensures Stored(c, id, w, max).order == LastOf(MovedToEnd(c.order, id), max)
  {
    MovedFacts(c.order, id);
  }

  /** The cache holds exactly the `max` most recently touched ids, in touch order. */
  lemma {:induction false} OrderIsRecency(ops: seq<Op>, st: Setting)
    requires st.max > 0
    ensures After(ops, st).order == LastOf(ByLastTouch(Touches(ops)), st.max)
  {
    if ops == [] {
    } else {
      var front, op := ops[..|ops| - 1], ops[|ops| - 1];
      OrderIsRecency(front, st);
      CacheStaysOk(front, st);
      OrderMoves(After(front, st), op, st);
      assert Touches(ops)[..|ops| - 1] == Touches(front);
      ByLastTouchIsDistinct(Touches(front));
      TouchTheSuffix(ByLastTouch(Touches(front)), op.id, st.max);
    }
  }

  // ----- Residency, said without the order -----

  /** What follows `id` in the recency order is what was touched since. */
  lemma {:induction false} TailIsSince(touches: seq<int>, id: int) returns (before: seq<int>, tail: seq<int>)
    requires id in touches
    ensures ByLastTouch(touches) == before + [id] + tail
    ensures (set k | k in tail) == Since(touches, id)
  {
    var front, last := touches[..|touches| - 1], touches[|touches| - 1];
    assert touches == front + [last];
    if last == id {
      before, tail := Without(ByLastTouch(front), id), [];
    } else {
      before, tail := TailIsSince(front, id);
      TailMoves(before, id, tail, last);
      TailSet(tail, last);
      before, tail := Without(before, last), MovedToEnd(tail, last);
    }
  }

  lemma TailMoves(before: seq<int>, id: int, tail: seq<int>, last: int)
    requires id != last
    ensures MovedToEnd(before + [id] + tail, last) == Without(before, last) + [id] + MovedToEnd(tail, last)
  {
    WithoutConcat(before + [id], tail, last);
    WithoutConcat(before, [id], last);
    assert [id][..0] == [];
    assert Without([id], last) == Without([], last) + [id];
  }

  lemma TailSet(tail: seq<int>, last: int)
    ensures (set k | k in MovedToEnd(tail, last)) == (set k | k in tail) + {last}
  {
    WithoutFacts(tail, last);
    var rest := Without(tail, last);
    var listed, known := set k | k in rest + [last], set k | k in tail;
    forall k ensures k in listed <==> k in known + {last} {
      assert k in rest <==> k in tail && k != last;
    }
  }

  lemma {:induction false} DistinctCount(order: seq<int>)
    requires Distinct(order)
    ensures |set k | k in order| == |order|
  {
    if order == [] {
    } else {
      var front, last := order[..|order| - 1], order[|order| - 1];
      DistinctCount(front);
      assert order == front + [last] && last !in front;
      assert (set k | k in order) == (set k | k in front) + {last};
    }
  }

  lemma {:induction false} NeverTouchedNeverListed(touches: seq<int>, id: int)
    requires id !in touches
    ensures id !in ByLastTouch(touches)
  {
    if touches == [] {
    } else {
      NeverTouchedNeverListed(touches[..|touches| - 1], id);
      WithoutFacts(ByLastTouch(touches[..|touches| - 1]), touches[|touches| - 1]);
    }
  }

  lemma KeptIffShortTail(before: seq<int>, id: int, tail: seq<int>, max: nat)
    requires Distinct(before + [id] + tail) && max > 0
    ensures id in LastOf(before + [id] + tail, max) <==> |tail| < max
  {
    var all := before + [id] + tail;
    assert all[|before|] == id;
    if |tail| < max {
      var kept := LastOf(all, max);
      assert kept[|kept| - 1 - |tail|] == id;
    } else {
      DropPrefix(before + [id], tail, max);
      assert forall i :: 0 <= i < |tail| ==> tail[i] == all[|before| + 1 + i];
    }
  }

  /** The last `max` ids by last touch are those touched with fewer than `max` others since. */
  lemma {:induction false} RecentIffFewSince(touches: seq<int>, id: int, max: nat)
    requires max > 0
    ensures id in LastOf(ByLastTouch(touches), max) <==> id in touches && |Since(touches, id)| < max
  {
    ByLastTouchIsDistinct(touches);
    if id in touches {
      var before, tail := TailIsSince(touches, id);
      DistinctCount(tail) by {
        assert forall i :: 0 <= i < |tail| ==> tail[i] == ByLastTouch(touches)[|before| + 1 + i];
      }
      KeptIffShortTail(before, id, tail, max);
    } else {
      NeverTouchedNeverListed(touches, id);
    }
  }

  /** An id is cached exactly when it was touched and fewer than `max` other ids have been
      touched since its last touch. */
  lemma {:induction false} Residency(ops: seq<Op>, st: Setting, id: int)
    requires st.max > 0
    ensures id in After(ops, st).entries <==> id in Touches(ops) && |Since(Touches(ops), id)| < st.max
  {
    OrderIsRecency(ops, st);
    CacheStaysOk(ops, st);
    RecentIffFewSince(Touches(ops), id, st.max);
  }

  // ----- The DM override -----

  ghost predicate HasOverride(c: Cache, id: int, until: int) {
    id in c.entries && c.entries[id].dmOverrideUntil.Some? && c.entries[id].dmOverrideUntil.value >= until
  }

  function OtherIds(ops: seq<Op>, id: int): set<int> {
    set i | 0 <= i < |ops| && ops[i].id != id :: ops[i].id
  }

  lemma {:induction false} SinceIsWithinOthers(before: seq<Op>, id: int, now: int, later: seq<Op>)
    ensures Since(Touches(before + [Open(id, now)] + later), id) <= OtherIds(later, id)
  {
    var ops := before + [Open(id, now)] + later;
    if later == [] {
      assert Touches(ops)[|ops| - 1] == id;
    } else {
      var front := later[..|later| - 1];
      SinceIsWithinOthers(before, id, now, front);
      assert Touches(ops)[..|ops| - 1] == Touches(before + [Open(id, now)] + front);
      assert Touches(ops)[|ops| - 1] == later[|later| - 1].id;
      assert OtherIds(front, id) <= OtherIds(later, id);
    }
  }

  /** Since the override was opened at the end of `base`, the id has been in the cache all
      the time, or the override has been opened again. */
  predicate Held(base: seq<Op>, later: seq<Op>, id: int, max: nat) {
    if later == [] then true
    else
      var front, last := later[..|later| - 1], later[|later| - 1];
      || (last.Open? && last.id == id)
      || (Held(base, front, id, max) && |Since(Touches(base + later), id)| < max)
  }

  /** The override is kept exactly as long as it is held, and once lost it is gone. */
  ghost predicate KeptIffHeld(base: seq<Op>, later: seq<Op>, id: int, until: int, st: Setting) {
    var c := After(base + later, st);
    if Held(base, later, id, st.max) then HasOverride(c, id, until)
    else id in c.entries ==> c.entries[id].dmOverrideUntil.None?
  }

  lemma JustOpened(before: seq<Op>, id: int, at: int, st: Setting)
    requires st.max > 0
    ensures HasOverride(After(before + [Open(id, at)], st), id, at + DM_OVERRIDE)
  {
    var ops := before + [Open(id, at)];
    var c := After(before, st);
    assert ops[..|ops| - 1] == before;
    CacheStaysOk(before, st);
    DoStores(c, Open(id, at), st);
    StoredOk(c, id, WithOverride(Answer(c, st.rng, id, st.accounts(id), at), at), st.max);
  }

  /** One more operation of the id itself: it re-opens the override, or looks it up. */
  lemma HeldOwnStep(base: seq<Op>, front: seq<Op>, op: Op, id: int, until: int, st: Setting)
    requires st.max > 0 && op.id == id && until <= op.now + DM_OVERRIDE
    requires KeptIffHeld(base, front, id, until, st)
    ensures KeptIffHeld(base, front + [op], id, until, st)
  {
    var c := After(base + front, st);
    AppendOp(base, front, op, st);
    CacheStaysOk(base + front, st);
    DoStores(c, op, st);
    var answer := Answer(c, st.rng, id, st.accounts(id), op.now);
    StoredOk(c, id, if op.Open? then WithOverride(answer, op.now) else answer, st.max);
  }

  /** One more operation of another id: at most it pushes the override out. */
  lemma HeldOtherStep(base: seq<Op>, front: seq<Op>, op: Op, id: int, until: int, st: Setting)
    requires st.max > 0 && op.id != id && id in Touches(base)
    requires KeptIffHeld(base, front, id, until, st)
    ensures KeptIffHeld(base, front + [op], id, until, st)
  {
    var c := After(base + front, st);
    AppendOp(base, front, op, st);
    CacheStaysOk(base + front, st);
    DoStores(c, op, st);
    var answer := Answer(c, st.rng, op.id, st.accounts(op.id), op.now);
    StoredOk(c, op.id, if op.Open? then WithOverride(answer, op.now) else answer, st.max);
    StillTouched(base, front + [op], id);
    Residency(base + (front + [op]), st, id);
  }

  lemma AppendOp(base: seq<Op>, front: seq<Op>, op: Op, st: Setting)
    ensures After(base + (front + [op]), st) == Do(After(base + front, st), op, st)
    ensures forall id :: Held(base, front + [op], id, st.max) <==>
              || (op.Open? && op.id == id)
              || (Held(base, front, id, st.max) && |Since(Touches(base + (front + [op])), id)| < st.max)
    ensures Since(Touches(base + (front + [op])), op.id) == {}
  {
    var ops := base + (front + [op]);
    assert ops[..|ops| - 1] == base + front && (front + [op])[..|front|] == front;
    assert Touches(ops)[|ops| - 1] == op.id;
  }

  lemma StillTouched(base: seq<Op>, later: seq<Op>, id: int)
    requires id in Touches(base)
    ensures id in Touches(base + later)
  {
    var i :| 0 <= i < |base| && Touches(base)[i] == id;
    assert Touches(base + later)[i] == id;
  }

  lemma {:induction false} OverrideIsKeptIffHeld(before: seq<Op>, id: int, at: int, later: seq<Op>, st: Setting)
    requires st.max > 0 && forall i :: 0 <= i < |later| ==> at <= later[i].now
    ensures KeptIffHeld(before + [Open(id, at)], later, id, at + DM_OVERRIDE, st)
  {
    var base := before + [Open(id, at)];
    if later == [] {
      JustOpened(before, id, at, st);
      assert base + later == base;
    } else {
      var front, last := later[..|later| - 1], later[|later| - 1];
      OverrideIsKeptIffHeld(before, id, at, front, st);
      assert Touches(base)[|before|] == id;
      if last.id == id {
        HeldOwnStep(base, front, last, id, at + DM_OVERRIDE, st);
      } else {
        HeldOtherStep(base, front, last, id, at + DM_OVERRIDE, st);
      }
      assert front + [last] == later;
    }
  }

  /** Fewer than `max` other ids since the override leave it held. */
  lemma {:induction false} FewOthersHold(before: seq<Op>, id: int, at: int, later: seq<Op>, max: nat)
    requires |OtherIds(later, id)| < max
    ensures Held(before + [Open(id, at)], later, id, max)
  {
    if later == [] {
    } else {
      var front := later[..|later| - 1];
      SubsetIsSmaller(OtherIds(front, id), OtherIds(later, id));
      FewOthersHold(before, id, at, front, max);
      SinceIsWithinOthers(before, id, at, later);
      SubsetIsSmaller(Since(Touches(before + [Open(id, at)] + later), id), OtherIds(later, id));
    }
  }

  lemma SubsetIsSmaller(a: set<int>, b: set<int>)
    requires a <= b
    ensures |a| <= |b|
  {
    assert b == a + (b - a);
  }

  // ----- Transparency -----

  function Plain(w: Weekly): Weekly { w.(dmOverrideUntil := None) }

  ghost predicate OnlyGenerated(c: Cache, st: Setting) {
    forall id | id in c.entries ::
      Plain(c.entries[id]) == Generated(st.rng, id, st.accounts(id), c.entries[id].weekIndex)
  }

  lemma {:induction false} EntriesAreGenerated(ops: seq<Op>, st: Setting)
    requires st.max > 0
    ensures OnlyGenerated(After(ops, st), st)
  {
    if ops == [] {
    } else {
      var c, op := After(ops[..|ops| - 1], st), ops[|ops| - 1];
      EntriesAreGenerated(ops[..|ops| - 1], st);
      CacheStaysOk(ops[..|ops| - 1], st);
      DoStores(c, op, st);
      var answer := Answer(c, st.rng, op.id, st.accounts(op.id), op.now);
      StoredOk(c, op.id, if op.Open? then WithOverride(answer, op.now) else answer, st.max);
    }
  }

  /** After any operations, whatever was evicted or kept, a look-up shows the window and
      rest days that fresh deterministic generation gives for this id and week. */
  lemma {:induction false} CacheIsTransparent(ops: seq<Op>, st: Setting, id: int, now: int)
    requires st.max > 0
    ensures Plain(Answer(After(ops, st), st.rng, id, st.accounts(id), now))
            == Generated(st.rng, id, st.accounts(id), WeekIndex(now))
  {
    EntriesAreGenerated(ops, st);
  }

  /** The schedule in force at an instant, generated afresh. */
  function WeekAt(st: Setting, id: int, u: int): Weekly {
    Generated(st.rng, id, st.accounts(id), WeekIndex(u))
  }

  /** What should_be_active answers at `u` after the operations `ops`. */
  predicate ActiveAfter(ops: seq<Op>, st: Setting, id: int, u: int) {
    Active(Answer(After(ops, st), st.rng, id, st.accounts(id), u), st.accounts(id).offset, u)
  }

  /** During the 20 minutes of an override, across a week rollover too, an account is active
      if and only if the override is held or it would be working anyway. */
  lemma {:induction false} OverrideSurvivesIff(before: seq<Op>, id: int, at: int, later: seq<Op>, st: Setting, now: int)
    requires st.max > 0 && forall i :: 0 <= i < |later| ==> at <= later[i].now
    requires now < at + DM_OVERRIDE
    ensures ActiveAfter(before + [Open(id, at)] + later, st, id, now) <==>
            || Held(before + [Open(id, at)], later, id, st.max)
            || InSchedule(WeekAt(st, id, now), st.accounts(id).offset, now)
  {
    OverrideIsKeptIffHeld(before, id, at, later, st);
    CacheIsTransparent(before + [Open(id, at)] + later, st, id, now);
  }

  /** In particular it is active unless `max` other ids have been touched since. */
  lemma OverrideSurvives(before: seq<Op>, id: int, at: int, later: seq<Op>, st: Setting, now: int)
    requires st.max > 0 && |OtherIds(later, id)| < st.max
    requires forall i :: 0 <= i < |later| ==> at <= later[i].now
    requires now < at + DM_OVERRIDE
    ensures ActiveAfter(before + [Open(id, at)] + later, st, id, now)
  {
    FewOthersHold(before, id, at, later, st.max);
    OverrideSurvivesIff(before, id, at, later, st, now);
  }

  // ----- And it ends -----

  /** The id carries no override, or that of the moment it was last opened. */
  ghost predicate AtMost(c: Cache, id: int, until: int) {
    id in c.entries && c.entries[id].dmOverrideUntil.Some? ==> c.entries[id].dmOverrideUntil.value == until
  }

  lemma OpenSetsIt(c: Cache, id: int, at: int, st: Setting)
    requires CacheOk(c, st.max) && st.max > 0
    ensures AtMost(Do(c, Open(id, at), st), id, at + DM_OVERRIDE)
  {
    DoStores(c, Open(id, at), st);
    StoredOk(c, id, WithOverride(Answer(c, st.rng, id, st.accounts(id), at), at), st.max);
  }

  lemma OthersLeaveIt(c: Cache, op: Op, id: int, until: int, st: Setting)
    requires CacheOk(c, st.max) && st.max > 0 && AtMost(c, id, until) && (op.id == id ==> op.Look?)
    ensures AtMost(Do(c, op, st), id, until)
  {
    DoStores(c, op, st);
    var answer := Answer(c, st.rng, op.id, st.accounts(op.id), op.now);
    StoredOk(c, op.id, if op.Open? then WithOverride(answer, op.now) else answer, st.max);
  }

  lemma {:induction false} NothingOpensLater(base: seq<Op>, later: seq<Op>, id: int, until: int, st: Setting)
    requires st.max > 0 && forall i :: 0 <= i < |later| ==> later[i].id == id ==> later[i].Look?
    requires AtMost(After(base, st), id, until)
    ensures AtMost(After(base + later, st), id, until)
  {
    if later == [] {
      assert base + later == base;
    } else {
      var front, op := later[..|later| - 1], later[|later| - 1];
      NothingOpensLater(base, front, id, until, st);
      CacheStaysOk(base + front, st);
      OthersLeaveIt(After(base + front, st), op, id, until, st);
      AppendOp(base, front, op, st);
      assert front + [op] == later;
    }
  }

  /** Twenty minutes after an override was opened, and unless it has been opened again, the
      account is active if and only if its week works. */
  lemma {:induction false} OverrideEnds(before: seq<Op>, id: int, at: int, later: seq<Op>, st: Setting, now: int)
    requires st.max > 0 && forall i :: 0 <= i < |later| ==> later[i].id == id ==> later[i].Look?
    requires now >= at + 1200
    ensures ActiveAfter(before + [Open(id, at)] + later, st, id, now) <==>
            InSchedule(WeekAt(st, id, now), st.accounts(id).offset, now)
  {
    var base := before + [Open(id, at)];
    assert base[..|before|] == before;
    CacheStaysOk(before, st);
    OpenSetsIt(After(before, st), id, at, st);
    NothingOpensLater(base, later, id, at + DM_OVERRIDE, st);
    CacheIsTransparent(base + later, st, id, now);
  }
}
