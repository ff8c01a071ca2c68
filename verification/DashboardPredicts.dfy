/**
 The dashboard's promise: the number it shows is the number of further actions the worker
 will let through, and the ceiling it names is the one that will bind. The one counter the
 dashboard does not read is the subnet's. For writes the promise holds exactly when that
 counter has at least as much headroom as is shown, which an account on a proxy of its own
 always finds; for reads it holds whenever the read has a cap.
 */
module DashboardPredicts {
  import opened Options
  import opened Counters
  import opened Budgets
  import opened Gates
  import opened Limits
  import FleetConservation
  import SafetyConfig

  /** What the proxy's own counter leaves, None for an action that has no such counter. */
  function SubnetHeadroom(store: Store, cfg: SafetyConfig.Config, a: Account, action: string, now: int): Option<int> {
    if action !in SENSITIVE then None
    else Some(AggregateCap(cfg, CAP_PROFILE, a.useCase, action, 1) - Value(store, Net(a.proxy, action), now))
  }

  function Shown(store: Store, cfg: SafetyConfig.Config, a: Account, action: string, now: int): int {
    View(store, now, cfg, a, action, Write).remaining
  }

  /** The subnet counter, which is not displayed, would not stop the account earlier. */
  predicate SubnetAllows(store: Store, cfg: SafetyConfig.Config, a: Account, action: string, now: int) {
    var headroom := SubnetHeadroom(store, cfg, a, action, now);
    headroom.Some? && Shown(store, cfg, a, action, now) > 0 ==> headroom.value >= Shown(store, cfg, a, action, now)
  }

  /** Nothing the call touches expires between `now` and `until`, and a counter born in
      that time outlives it. */
  predicate Quiet(store: Store, keys: seq<Key>, now: int, until: int) {
    && now <= until < now + DAY
    && forall k | k in keys :: Live(store, k, now) ==> until < store[k].expires
  }

  /** `after` is `store` with `j` more units on every key, alive through `until`. */
  predicate Advanced(store: Store, after: Store, keys: seq<Key>, now: int, until: int, j: nat) {
    forall k | k in keys ::
      if k in after && now < after[k].expires then
        until < after[k].expires && after[k].value == Value(store, k, now) + j
      else j == 0 && Value(store, k, now) == 0
  }

  /** Every budget still has room for a unit after `j` more of them. */
  predicate RoomBeyond(store: Store, budgets: seq<Budget>, now: int, j: nat) {
    forall i :: 0 <= i < |budgets| ==> Value(store, budgets[i].key, now) + j + 1 <= budgets[i].cap
  }

  lemma BudgetList(cfg: SafetyConfig.Config, a: Account, action: string)
    ensures var b := BudgetsOf(cfg, a.WriteCall(action));
            && b[0] == Budget(Acct(a.id, action), WriteCap(cfg, a, action))
            && (action !in SENSITIVE ==> |b| == 1)
            && (action in SENSITIVE ==>
                  && |b| == 3
                  && b[1].key == Api(a.ApiId(), a.useCase, action)
                  && b[1].cap == AggregateCap(cfg, CAP_PROFILE, a.useCase, action, a.Members())
                  && b[2].key == Net(a.proxy, action)
                  && b[2].cap == AggregateCap(cfg, CAP_PROFILE, a.useCase, action, 1))
  {
  }

  /** `n` is the smallest headroom among the budgets of the account's next write. */
  ghost predicate SmallestHeadroom(store: Store, cfg: SafetyConfig.Config, a: Account, action: string, now: int, n: nat)
  {
    forall j: nat :: j < n <==> RoomBeyond(store, BudgetsOf(cfg, a.WriteCall(action)), now, j)
  }

  lemma RoomIsThreefold(store: Store, cfg: SafetyConfig.Config, a: Account, action: string, now: int, j: nat)
    ensures RoomBeyond(store, BudgetsOf(cfg, a.WriteCall(action)), now, j) <==>
            && Value(store, Acct(a.id, action), now) + j + 1 <= WriteCap(cfg, a, action)
            && (action in SENSITIVE ==>
                  && Value(store, Api(a.ApiId(), a.useCase, action), now) + j + 1
                     <= AggregateCap(cfg, CAP_PROFILE, a.useCase, action, a.Members())
                  && Value(store, Net(a.proxy, action), now) + j + 1
                     <= AggregateCap(cfg, CAP_PROFILE, a.useCase, action, 1))
  {
    BudgetList(cfg, a, action);
    var budgets := BudgetsOf(cfg, a.WriteCall(action));
    if action in SENSITIVE {
      assert RoomBeyond(store, budgets, now, j) <==>
             forall i :: 0 <= i < 3 ==> Value(store, budgets[i].key, now) + j + 1 <= budgets[i].cap;
    }
  }

  /** What the dashboard shows is the smallest headroom of the call's budgets if and only if
      the subnet counter leaves that much. */
  lemma ShownIsSmallestHeadroomIff(store: Store, cfg: SafetyConfig.Config, a: Account, action: string, now: int)
    ensures SmallestHeadroom(store, cfg, a, action, now, Shown(store, cfg, a, action, now))
            <==> SubnetAllows(store, cfg, a, action, now)
  {
    var shown := Shown(store, cfg, a, action, now);
    var budgets := BudgetsOf(cfg, a.WriteCall(action));
    forall j: nat
      ensures RoomBeyond(store, budgets, now, j) <==>
              j < shown && (action in SENSITIVE ==> j < SubnetHeadroom(store, cfg, a, action, now).value)
    {
      RoomIsThreefold(store, cfg, a, action, now, j);
    }
    if !SubnetAllows(store, cfg, a, action, now) {
      assert !RoomBeyond(store, budgets, now, shown - 1);
    }
  }

  /** Then the binding it reports is the one enforcement would give, too. */
  lemma ShownBindingIsEnforced(store: Store, cfg: SafetyConfig.Config, a: Account, action: string, now: int)
    requires SubnetAllows(store, cfg, a, action, now)
    ensures View(store, now, cfg, a, action, Write).binding == DecideNow(store, cfg, a.WriteCall(action), now).binding
  {
    BudgetList(cfg, a, action);
  }

  ghost function AfterCalls(store: Store, cfg: SafetyConfig.Config, c: Call, times: seq<int>): Store {
    if times == [] then store
    else Charged(AfterCalls(store, cfg, c, times[..|times| - 1]), cfg, c, times[|times| - 1], DAY)
  }

  /** One call that passes moves every one of its counters from j to j + 1. */
  lemma CallAdvances(
      store: Store, before: Store, cfg: SafetyConfig.Config, c: Call, now: int, at: int, until: int, j: nat)
    requires Quiet(store, Keys(BudgetsOf(cfg, c)), now, until) && now <= at <= until
    requires Advanced(store, before, Keys(BudgetsOf(cfg, c)), now, until, j)
    requires OwnCap(cfg, c) > 0 && HasRoom(before, BudgetsOf(cfg, c), at)
    ensures Advanced(store, Charged(before, cfg, c, at, DAY), Keys(BudgetsOf(cfg, c)), now, until, j + 1)
  {
    BudgetKeysDistinct(cfg, c);
    ConsumeAllOnce(before, Keys(BudgetsOf(cfg, c)), at, DAY);
  }

  /** Room in an advanced store is headroom beyond j in the store of the snapshot. */
  lemma RoomWhenAdvanced(store: Store, before: Store, budgets: seq<Budget>, now: int, at: int, until: int, j: nat)
    requires Advanced(store, before, Keys(budgets), now, until, j) && now <= at <= until
    ensures HasRoom(before, budgets, at) <==>
            RoomBeyond(store, budgets, now, j)
  {
    forall i | 0 <= i < |budgets|
      ensures Value(before, budgets[i].key, at) == Value(store, budgets[i].key, now) + j
    {
      assert Keys(budgets)[i] == budgets[i].key;
    }
  }

  /** Of the calls this account makes at any instants of the quiet period exactly the first
      n pass, where n is the smallest headroom at its start; all later ones are refused. */
  lemma {:induction false} ExactlyTheHeadroomPasses(
      store: Store, cfg: SafetyConfig.Config, a: Account, action: string, now: int, until: int, times: seq<int>, n: nat)
    requires WriteCap(cfg, a, action) > 0 && SmallestHeadroom(store, cfg, a, action, now, n)
    requires Quiet(store, Keys(BudgetsOf(cfg, a.WriteCall(action))), now, until)
    requires forall i :: 0 <= i < |times| ==> now <= times[i] <= until
    ensures var c := a.WriteCall(action);
            var after := AfterCalls(store, cfg, c, times);
            && Advanced(store, after, Keys(BudgetsOf(cfg, c)), now, until, Min(|times|, n))
            && forall at :: now <= at <= until ==> (HasRoom(after, BudgetsOf(cfg, c), at) <==> |times| < n)
  {
    var c := a.WriteCall(action);
    var budgets := BudgetsOf(cfg, c);
    if times == [] {
    } else {
      var front, last := times[..|times| - 1], times[|times| - 1];
      ExactlyTheHeadroomPasses(store, cfg, a, action, now, until, front, n);
      if |front| < n {
        CallAdvances(store, AfterCalls(store, cfg, c, front), cfg, c, now, last, until, |front|);
      }
    }
    forall at | now <= at <= until
      ensures HasRoom(AfterCalls(store, cfg, c, times), budgets, at) <==> |times| < n
    {
      RoomWhenAdvanced(store, AfterCalls(store, cfg, c, times), budgets, now, at, until, Min(|times|, n));
    }
  }

  /** So if the dashboard shows n remaining, the account's next n writes pass and every
      later one is refused. */
  lemma {:induction false} ExactlyTheShownNumberPasses(
      store: Store, cfg: SafetyConfig.Config, a: Account, action: string, now: int, until: int, times: seq<int>)
    requires WriteCap(cfg, a, action) > 0 && SubnetAllows(store, cfg, a, action, now)
    requires Quiet(store, Keys(BudgetsOf(cfg, a.WriteCall(action))), now, until)
    requires forall i :: 0 <= i < |times| ==> now <= times[i] <= until
    ensures var c := a.WriteCall(action);
            forall at :: now <= at <= until ==>
              (HasRoom(AfterCalls(store, cfg, c, times), BudgetsOf(cfg, c), at)
               <==> |times| < Shown(store, cfg, a, action, now))
  {
    ShownIsSmallestHeadroomIff(store, cfg, a, action, now);
    ExactlyTheHeadroomPasses(store, cfg, a, action, now, until, times, Shown(store, cfg, a, action, now));
  }

  /** The gate refuses the next write exactly when the dashboard shows 0, if and only if the
      cap is positive and the subnet counter is not exhausted before the displayed ones. A
      forbidden action is shown as 0 while the budget gate stands aside. */
  lemma WriteGateMatchesIff(store: Store, cfg: SafetyConfig.Config, a: Account, action: string, now: int)
    requires Counted(store)
    ensures (Shown(store, cfg, a, action, now) == 0 <==> WriteRefused(store, cfg, a, action, now))
            <==>
            && WriteCap(cfg, a, action) > 0
            && (Shown(store, cfg, a, action, now) > 0 && action in SENSITIVE ==>
                  SubnetHeadroom(store, cfg, a, action, now).value > 0)
    ensures WriteCap(cfg, a, action) <= 0 ==> Shown(store, cfg, a, action, now) == 0
  {
    BudgetList(cfg, a, action);
    RoomIsThreefold(store, cfg, a, action, now, 0);
    RoomWhenAdvanced(store, store, BudgetsOf(cfg, a.WriteCall(action)), now, now, now, 0);
  }

  // ----- An account on a proxy of its own -----

  /** The proxy's counter is the account's own counter over again. */
  predicate Twinned(store: Store, account: int, proxy: Option<int>, action: string) {
    var (own, net) := (Acct(account, action), Net(proxy, action));
    (own in store <==> net in store) && (own in store ==> store[own] == store[net])
  }

  /** The calls of this action by this account and through this proxy are the same calls. */
  predicate OwnProxy(run: seq<FleetConservation.Charge>, account: int, proxy: Option<int>, action: string) {
    forall i :: 0 <= i < |run| && run[i].call.action == action ==>
      (run[i].call.account == account <==> run[i].call.proxy == proxy)
  }

  /** Born together and spent together: over every run in which nobody else charges the
      account's proxy, the two counters stay the same, expiries included. */
  lemma {:induction false} CountersStayTwinned(
      f: FleetConservation.Fleet, run: seq<FleetConservation.Charge>, account: int, proxy: Option<int>, action: string)
    requires OwnProxy(run, account, proxy, action) && action in SENSITIVE
    ensures Twinned(FleetConservation.After(f, run, DAY), account, proxy, action)
  {
    if run == [] {
    } else {
      var front, last := run[..|run| - 1], run[|run| - 1];
      CountersStayTwinned(f, front, account, proxy, action);
      var before := FleetConservation.After(f, front, DAY);
      BudgetKeysDistinct(f.cfg, last.call);
      ConsumeAllOnce(before, Keys(BudgetsOf(f.cfg, last.call)), last.at, DAY);
      FleetConservation.CallKeys(f, last.call, Acct(account, action));
      FleetConservation.CallKeys(f, last.call, Net(proxy, action));
    }
  }

  /** Such an account never finds its subnet counter in the way, so the display is right. */
  lemma OwnProxyAllows(
      f: FleetConservation.Fleet, run: seq<FleetConservation.Charge>, a: Account, action: string, now: int)
    requires OwnProxy(run, a.id, a.proxy, action) && WriteCap(f.cfg, a, action) > 0
    ensures SubnetAllows(FleetConservation.After(f, run, DAY), f.cfg, a, action, now)
  {
    if action in SENSITIVE {
      CountersStayTwinned(f, run, a.id, a.proxy, action);
      AggregateCapBetween(SafetyConfig.CapFor(f.cfg, CAP_PROFILE, a.useCase, action), 1);
    }
  }

  // ----- Reads -----

  function AfterReads(store: Store, k: Key, times: seq<int>): Store {
    if times == [] then store else Incr(AfterReads(store, k, times[..|times| - 1]), k, times[|times| - 1], DAY)
  }

  /** The read gate charges refused reads as well, so its counter moves with every read. */
  lemma {:induction false} ReadsAdvance(store: Store, k: Key, now: int, until: int, times: seq<int>)
    requires Quiet(store, [k], now, until)
    requires forall i :: 0 <= i < |times| ==> now <= times[i] <= until
    ensures Advanced(store, AfterReads(store, k, times), [k], now, until, |times|)
  {
    if times == [] {
    } else {
      ReadsAdvance(store, k, now, until, times[..|times| - 1]);
      assert k in [k];
    }
  }

  /** If the dashboard shows n further reads of a capped action, then of the reads this
      account makes at any instants of the quiet period the first n pass and every later
      one is refused. */
  lemma {:induction false} ExactlyTheShownReadsPass(
      store: Store, cfg: SafetyConfig.Config, a: Account, action: string, now: int, until: int, times: seq<int>)
    requires ReadCap(cfg, action) != 0 && action !in SENSITIVE
    requires Quiet(store, [Read(action, a.id)], now, until)
    requires forall i :: 0 <= i < |times| ==> now <= times[i] <= until
    ensures forall at :: now <= at <= until ==>
              (!ReadRefused(AfterReads(store, Read(action, a.id), times), cfg, a, action, at)
               <==> |times| < View(store, now, cfg, a, action, ReadOnly).remaining)
  {
    ReadsAdvance(store, Read(action, a.id), now, until, times);
    assert Read(action, a.id) in [Read(action, a.id)];
  }

  /** At the instant of the snapshot: display and read gate agree exactly when the read has a
      cap, for 0 means unlimited to the gate. */
  lemma ReadGateMatchesIffConfigured(store: Store, cfg: SafetyConfig.Config, a: Account, action: string, now: int)
    requires action !in SENSITIVE && Counted(store)
    ensures var shown := View(store, now, cfg, a, action, ReadOnly).remaining;
            (shown == 0 <==> ReadRefused(store, cfg, a, action, now)) <==> ReadCap(cfg, action) != 0
  {
  }
}
