/**
 How many Telegram calls an account really makes in a day. A unit is bought at the gate and
 used by the call that follows, so the calls of a day are paid by the units of that day and
 by what was bought and not yet used when it began: with one live run per account that is
 at most one unit. Together with what the counter can spend in a day this gives twice the cap.
 */
module DailyCalls {
  import opened Options
  import opened RunnerExclusion
  import opened Counters
  import opened SpendingRuns
  import RateBound

  function UnitsFor(units: seq<Unit>, k: Key): nat {
    if units == [] then 0
    else UnitsFor(units[..|units| - 1], k) + if units[|units| - 1].key == k then 1 else 0
  }

  function CallsFor(calls: seq<Made>, k: Key): nat {
    if calls == [] then 0
    else CallsFor(calls[..|calls| - 1], k) + if calls[|calls| - 1].key == Some(k) then 1 else 0
  }

  lemma OneMoreUnit(units: seq<Unit>, u: Unit, k: Key)
    ensures UnitsFor(units + [u], k) == UnitsFor(units, k) + if u.key == k then 1 else 0
  {
    assert (units + [u])[..|units|] == units;
  }

  lemma OneMoreCall(calls: seq<Made>, m: Made, k: Key)
    ensures CallsFor(calls + [m], k) == CallsFor(calls, k) + if m.key == Some(k) then 1 else 0
  {
    assert (calls + [m])[..|calls|] == calls;
  }

  /** Agent `a` holds a unit of `k` that it has not used. */
  predicate Holds(w: World, a: nat, k: Key) {
    a in w.stages && w.stages[a].Paid? && w.stages[a].unit < |w.units| && w.units[w.stages[a].unit].key == k
  }

  ghost function Held(w: World, k: Key): nat {
    if exists a :: Holds(w, a, k) then 1 else 0
  }

  /** Calls made and units held, less units bought. */
  ghost function Balance(w: World, k: Key): int {
    CallsFor(w.calls, k) + Held(w, k) - UnitsFor(w.units, k)
  }

  // ----- Units of a day -----

  lemma ClockGoesOn(w: World, act: Act, caps: Caps)
    ensures w.p.now <= Do(w, act, caps).p.now
  {
  }

  /** A ledger in order: what the counter holds is between one and the cap. */
  lemma CounterInRange(w: World, caps: Caps, k: Key)
    requires k in caps && LedgerOf(w, caps, k)
    ensures k in w.store ==> 1 <= w.store[k].value <= caps[k]
  {
  }

  lemma UnitsStep(first: Store, from: int, w: World, act: Act, caps: Caps, k: Key, units: int)
    requires k.Acct? && k in caps && LedgerOf(w, caps, k) && from <= w.p.now < from + DAY
    requires RateBound.SpentSince(first, w.store, k, from, DAY, caps[k], units)
    ensures var w' := Do(w, act, caps);
            RateBound.SpentSince(first, w'.store, k, from, DAY, caps[k],
                                 units + UnitsFor(w'.units, k) - UnitsFor(w.units, k))
  {
    var w' := Do(w, act, caps);
    OwnCounterMoves(w, act, caps, k);
    CounterInRange(w, caps, k);
    if w'.units != w.units {
      OneMoreUnit(w.units, w'.units[|w.units|], k);
    }
    if Buys(w, act, caps, k) {
      RateBound.SpendOneMore(first, w.store, w'.store, k, from, DAY, caps[k], units, w.p.now);
    }
  }

  /** The last act of a longer run. */
  lemma LastAct(start: int, before: seq<Act>, later: seq<Act>, caps: Caps) returns (front: seq<Act>, act: Act)
    requires later != []
    ensures front == later[..|later| - 1]
    ensures Play(start, before + later, caps) == Do(Play(start, before + front, caps), act, caps)
    ensures AllDisciplined(start, before + later, caps) ==> AllDisciplined(start, before + front, caps)
  {
    front, act := later[..|later| - 1], later[|later| - 1];
    assert (before + later)[..|before + later| - 1] == before + front;
  }

  lemma {:induction false} UnitsInADay(start: int, before: seq<Act>, later: seq<Act>, caps: Caps, k: Key)
    requires GoodCaps(caps) && k.Acct? && k in caps
    requires Play(start, before + later, caps).p.now < Play(start, before, caps).p.now + DAY
    ensures var (w0, w1) := (Play(start, before, caps), Play(start, before + later, caps));
            && w0.p.now <= w1.p.now
            && RateBound.SpentSince(w0.store, w1.store, k, w0.p.now, DAY, caps[k],
                                    UnitsFor(w1.units, k) - UnitsFor(w0.units, k))
  {
    var w0 := Play(start, before, caps);
    if later == [] {
      assert before + later == before;
      EveryRunIsSound(start, before, caps);
      CounterInRange(w0, caps, k);
    } else {
      var front, act := LastAct(start, before, later, caps);
      var w := Play(start, before + front, caps);
      ClockGoesOn(w, act, caps);
      UnitsInADay(start, before, front, caps, k);
      EveryRunIsSound(start, before + front, caps);
      UnitsStep(w0.store, w0.p.now, w, act, caps, k, UnitsFor(w.units, k) - UnitsFor(w0.units, k));
    }
  }

  // ----- Calls are units bought before -----

  lemma BuyerFindsNoneHeld(w: World, act: Act, caps: Caps, k: Key)
    requires Sound(w, caps) && RunnersInOrder(w.p) && Buys(w, act, caps, k)
    ensures forall a :: !Holds(w, a, k)
  {
    forall a | a in w.stages && w.stages[a].Paid? ensures !Holds(w, a, k) {
      assert StageInOrder(w, caps, a);
      NobodyElseBuys(w, act, caps, a);
    }
  }

  /** A gate that sells no unit of `k` leaves nobody holding one who did not before. */
  lemma HeldBeforeGate(w: World, act: Act, caps: Caps, k: Key, a: nat)
    requires act.Gate? && Sound(w, caps) && k.Acct? && k in caps && !Buys(w, act, caps, k)
    requires Holds(Do(w, act, caps), a, k)
    ensures Holds(w, a, k)
  {
    if a in w.stages {
      assert StageInOrder(w, caps, a);
    }
    OwnCounterMoves(w, act, caps, k);
  }

  lemma BalanceAfterPurchase(w: World, act: Act, caps: Caps, k: Key)
    requires Sound(w, caps) && RunnersInOrder(w.p) && k.Acct? && Buys(w, act, caps, k)
    ensures Balance(Do(w, act, caps), k) <= Balance(w, k)
  {
    OwnCounterMoves(w, act, caps, k);
    OneMoreUnit(w.units, Do(w, act, caps).units[|w.units|], k);
    BuyerFindsNoneHeld(w, act, caps, k);
  }

  lemma BalanceAfterGate(w: World, act: Act, caps: Caps, k: Key)
    requires act.Gate? && Sound(w, caps) && RunnersInOrder(w.p) && k.Acct? && k in caps
    ensures Balance(Do(w, act, caps), k) <= Balance(w, k)
  {
    if Buys(w, act, caps, k) {
      BalanceAfterPurchase(w, act, caps, k);
    } else {
      UnitsAfterGate(w, act, caps, k);
      if a :| Holds(Do(w, act, caps), a, k) {
        HeldBeforeGate(w, act, caps, k, a);
      }
    }
  }

  lemma UnitsAfterGate(w: World, act: Act, caps: Caps, k: Key)
    requires act.Gate? && k.Acct? && !Buys(w, act, caps, k)
    ensures UnitsFor(Do(w, act, caps).units, k) == UnitsFor(w.units, k) && Do(w, act, caps).calls == w.calls
  {
    var w' := Do(w, act, caps);
    OwnCounterMoves(w, act, caps, k);
    if w'.units != w.units {
      OneMoreUnit(w.units, w'.units[|w.units|], k);
    }
  }

  lemma BalanceAfterCall(w: World, act: Act, caps: Caps, k: Key)
    requires act.Call? && Sound(w, caps) && RunnersInOrder(w.p) && k.Acct? && k in caps
    ensures Balance(Do(w, act, caps), k) <= Balance(w, k)
  {
    var w' := Do(w, act, caps);
    if w' != w {
      OneMoreCall(w.calls, w'.calls[|w.calls|], k);
      assert StageInOrder(w, caps, act.agent);
      if a :| Holds(w', a, k) {
        assert Holds(w, a, k) && StageInOrder(w, caps, a);
        OnlyHolder(w, caps, k, a, act.agent);
      } else if w'.calls[|w.calls|].key == Some(k) {
        assert Holds(w, act.agent, k);
      }
    }
  }

  /** While `a` holds a unit, no other agent has a run of that budget. */
  lemma OnlyHolder(w: World, caps: Caps, k: Key, a: nat, b: nat)
    requires RunnersInOrder(w.p) && k.Acct? && Holds(w, a, k) && StageInOrder(w, caps, a)
    requires a != b && IsRunning(w.p, b)
    ensures OwnBudget(w.p, b) != Some(k)
  {
    if OwnBudget(w.p, b) == Some(k) {
      assert LiveOn(w.p, a, k.account) && LiveOn(w.p, b, k.account);
    }
  }

  lemma BalanceAfterTask(w: World, act: Act, caps: Caps, k: Key)
    requires act.Task?
    ensures Balance(Do(w, act, caps), k) <= Balance(w, k)
  {
    var w' := Do(w, act, caps);
    if a :| Holds(w', a, k) {
      assert Holds(w, a, k);
    }
  }

  lemma BalanceStep(w: World, act: Act, caps: Caps, k: Key)
    requires Sound(w, caps) && RunnersInOrder(w.p) && k.Acct? && k in caps
    ensures Balance(Do(w, act, caps), k) <= Balance(w, k)
  {
    match act {
      case Task(_) => BalanceAfterTask(w, act, caps, k);
      case Gate(_, _) => BalanceAfterGate(w, act, caps, k);
      case Call(_) => BalanceAfterCall(w, act, caps, k);
    }
  }

  lemma BalanceAfterRun(start: int, acts: seq<Act>, act: Act, caps: Caps, k: Key)
    requires GoodCaps(caps) && k.Acct? && k in caps && AllDisciplined(start, acts, caps)
    ensures Balance(Do(Play(start, acts, caps), act, caps), k) <= Balance(Play(start, acts, caps), k)
  {
    EveryRunIsSound(start, acts, caps);
    DisciplinedRunsAreCurrent(start, acts, caps);
    BalanceStep(Play(start, acts, caps), act, caps, k);
  }

  lemma {:induction false} BalanceNeverGrows(start: int, before: seq<Act>, later: seq<Act>, caps: Caps, k: Key)
    requires GoodCaps(caps) && k.Acct? && k in caps && AllDisciplined(start, before + later, caps)
    ensures Balance(Play(start, before + later, caps), k) <= Balance(Play(start, before, caps), k)
    decreases |later|
  {
    if later == [] {
      assert before + later == before;
    } else {
      var front, act := LastAct(start, before, later, caps);
      BalanceNeverGrows(start, before, front, caps, k);
      BalanceAfterRun(start, before + front, act, caps, k);
    }
  }

  /** Between any two moments of a disciplined run that are less than a day apart, an account
      makes at most as many calls as its counter can pay for in that day, and one more if a
      paid run was about to call: never more than twice its cap. */
  lemma {:induction false} CallsInADay(start: int, before: seq<Act>, later: seq<Act>, caps: Caps, k: Key)
    requires GoodCaps(caps) && k.Acct? && k in caps && AllDisciplined(start, before + later, caps)
    requires Play(start, before + later, caps).p.now < Play(start, before, caps).p.now + DAY
    ensures var (w0, w1) := (Play(start, before, caps), Play(start, before + later, caps));
            CallsFor(w1.calls, k) - CallsFor(w0.calls, k)
            <= RateBound.DayBound(Value(w0.store, k, w0.p.now), caps[k]) + Held(w0, k)
            <= 2 * caps[k]
  {
    var (w0, w1) := (Play(start, before, caps), Play(start, before + later, caps));
    UnitsInADay(start, before, later, caps, k);
    BalanceNeverGrows(start, before, later, caps, k);
    RateBound.SpentWithinBound(w0.store, w1.store, k, w0.p.now, DAY, caps[k],
                               UnitsFor(w1.units, k) - UnitsFor(w0.units, k));
  }
}
