/**
 The task protocol together with the write-budget gate and the Telegram call. A run
 passes the gate once, then calls at most once; if it dies in between, the unit is gone
 and a recovered re-run has to buy another. So calls never outnumber units, and units
 never outnumber the cap.
 */
module SpendingRuns {
  import opened Options
  import opened TaskRows
  import opened TaskProtocol
  import opened RunnerExclusion
  import opened Counters
  import Budgets
  import Gates
  import SafetyConfig

  /** One unit of a counter, and the lifetime (named by its expiry) it was spent in. */
  datatype Unit = Unit(key: Key, lifetime: int)

  /** How far a live run has come: through the gate freely, paid for, refused, or called. */
  datatype Stage = Ungated | Paid(unit: nat) | Refused | Called

  /** A call that was made: for which budget, paid with which unit, during which lifetime
      of that budget's counter (None when none was alive). */
  datatype Made = Made(key: Option<Key>, unit: Option<nat>, during: Option<int>)

  datatype World = World(p: State, store: Store, stages: map<nat, Stage>, units: seq<Unit>, calls: seq<Made>)

  datatype Act = Task(event: Event) | Gate(agent: nat, shared: seq<Budget>) | Call(agent: nat)

  /** The positive caps of the accounts' own budgets; anything else is not gated. */
  type Caps = map<Key, int>

  predicate GoodCaps(caps: Caps) {
    forall k | k in caps :: caps[k] > 0
  }

  predicate IsRunning(p: State, a: nat) {
    a in p.agents && p.agents[a].Running? && p.agents[a].task in p.rows
  }

  /** The own budget of the action a live run is about to perform. */
  function OwnBudget(p: State, a: nat): Option<Key>
    requires IsRunning(p, a)
  {
    var row := p.rows[p.agents[a].task];
    var action := Gates.WriteAction(row.taskType);
    if action.None? then None else Some(Acct(row.account, action.value))
  }

  predicate SharedOnly(budgets: seq<Budget>) {
    NoDuplicates(Keys(budgets)) && forall i :: 0 <= i < |budgets| ==> !budgets[i].key.Acct?
  }

  function LifetimeOf(store: Store, k: Option<Key>, now: int): Option<int> {
    if k.Some? && Live(store, k.value, now) then Some(store[k.value].expires) else None
  }

  /** A unit joins the lifetime in progress, or opens one. */
  function LifetimeWhenSpent(store: Store, k: Key, now: int): int {
    if Live(store, k, now) then store[k].expires else now + DAY
  }

  ghost function Do(w: World, act: Act, caps: Caps): World {
    match act
    case Task(e) =>
      var p := Step(w.p, e);
      w.(p := p, stages := map a | a in w.stages && IsRunning(p, a) :: w.stages[a])
    case Gate(a, shared) =>
      if !IsRunning(w.p, a) || a in w.stages || !SharedOnly(shared) then w
      else
        var k := OwnBudget(w.p, a);
        if k.None? || k.value !in caps then w.(stages := w.stages[a := Ungated])
        else
          var budgets := [Budget(k.value, caps[k.value])] + shared;
          if !HasRoom(w.store, budgets, w.p.now) then w.(stages := w.stages[a := Refused])
          else
            w.(store := Consumed(w.store, budgets, w.p.now, DAY),
               stages := w.stages[a := Paid(|w.units|)],
               units := w.units + [Unit(k.value, LifetimeWhenSpent(w.store, k.value, w.p.now))])
    case Call(a) =>
      if !IsRunning(w.p, a) || a !in w.stages || !(w.stages[a].Ungated? || w.stages[a].Paid?) then w
      else
        var k := OwnBudget(w.p, a);
        var unit := if w.stages[a].Paid? then Some(w.stages[a].unit) else None;
        w.(stages := w.stages[a := Called], calls := w.calls + [Made(k, unit, LifetimeOf(w.store, k, w.p.now))])
  }

  function Begin(now: int): World { World(Empty(now), map[], map[], [], []) }

  ghost function Play(start: int, acts: seq<Act>, caps: Caps): World {
    if acts == [] then Begin(start) else Do(Play(start, acts[..|acts| - 1], caps), acts[|acts| - 1], caps)
  }

  /** The gate of this model is the worker's write gate: given the account's budgets it
      leaves the same counters, and it waves through, sells to or refuses the same runs. */
  lemma GateIsTheWriteGate(w: World, a: nat, account: Gates.Account, cfg: SafetyConfig.Config, caps: Caps)
    requires IsRunning(w.p, a) && a !in w.stages
    requires OwnBudget(w.p, a).Some? && OwnBudget(w.p, a).value.account == account.id
    requires var k, cap := OwnBudget(w.p, a).value, Gates.WriteCap(cfg, account, OwnBudget(w.p, a).value.action);
             (k in caps <==> cap > 0) && (k in caps ==> caps[k] == cap)
    ensures var action := OwnBudget(w.p, a).value.action;
            var call := account.WriteCall(action);
            var shared := Budgets.BudgetsOf(cfg, call)[1..];
            var after := Do(w, Gate(a, shared), caps);
            && SharedOnly(shared)
            && after.store == Budgets.Charged(w.store, cfg, call, w.p.now, DAY)
            && a in after.stages
            && (after.stages[a].Ungated? <==> Gates.WriteCap(cfg, account, action) <= 0)
            && (after.stages[a].Refused? <==> Gates.WriteRefused(w.store, cfg, account, action, w.p.now))
  {
    var k := OwnBudget(w.p, a).value;
    var budgets := Budgets.BudgetsOf(cfg, account.WriteCall(k.action));
    assert budgets[0] == Budget(k, Gates.WriteCap(cfg, account, k.action));
    assert [budgets[0]] + budgets[1..] == budgets;
  }

  // ----- Units: one lifetime never holds more of them than the cap -----

  ghost function UnitsOf(units: seq<Unit>, k: Key, lifetime: int): set<nat> {
    set i: nat | i < |units| && units[i] == Unit(k, lifetime)
  }

  ghost predicate LedgerOf(w: World, caps: Caps, k: Key)
    requires k in caps
  {
    && (forall i | 0 <= i < |w.units| && w.units[i].key == k ::
          k in w.store && w.units[i].lifetime <= w.store[k].expires)
    && (k in w.store ==> 1 <= w.store[k].value == |UnitsOf(w.units, k, w.store[k].expires)|)
    && (forall lifetime :: |UnitsOf(w.units, k, lifetime)| <= caps[k])
  }

  /** The gate passes for agent `a`, spending a unit of `k`. */
  ghost predicate Buys(w: World, act: Act, caps: Caps, k: Key) {
    && act.Gate? && IsRunning(w.p, act.agent) && act.agent !in w.stages && SharedOnly(act.shared)
    && OwnBudget(w.p, act.agent) == Some(k) && k in caps
    && HasRoom(w.store, [Budget(k, caps[k])] + act.shared, w.p.now)
  }

  lemma UnitsOfAppended(units: seq<Unit>, u: Unit, k: Key, lifetime: int)
    ensures UnitsOf(units + [u], k, lifetime)
            == UnitsOf(units, k, lifetime) + if u == Unit(k, lifetime) then {|units|} else {}
  {
  }

  /** What an act does to an account's own counter and to its ledger. */
  lemma OwnCounterMoves(w: World, act: Act, caps: Caps, k: Key)
    requires k.Acct?
    ensures var w' := Do(w, act, caps);
            if Buys(w, act, caps, k) then
              && k in w'.store && w'.store[k] == Incr(w.store, k, w.p.now, DAY)[k]
              && w'.units == w.units + [Unit(k, LifetimeWhenSpent(w.store, k, w.p.now))]
              && Value(w.store, k, w.p.now) + 1 <= caps[k]
            else
              && (k in w'.store <==> k in w.store) && (k in w.store ==> w'.store[k] == w.store[k])
              && (w'.units == w.units || exists other, l :: other != k && w'.units == w.units + [Unit(other, l)])
  {
    if act.Gate? && IsRunning(w.p, act.agent) && OwnBudget(w.p, act.agent).Some? {
      var own := OwnBudget(w.p, act.agent).value;
      if Buys(w, act, caps, own) {
        PurchaseMoves(w, act, caps, own, k);
      }
    }
  }

  lemma PurchaseMoves(w: World, act: Act, caps: Caps, own: Key, k: Key)
    requires k.Acct? && Buys(w, act, caps, own)
    ensures var w' := Do(w, act, caps);
            && w'.units == w.units + [Unit(own, LifetimeWhenSpent(w.store, own, w.p.now))]
            && (k == own ==>
                  && k in w'.store && w'.store[k] == Incr(w.store, k, w.p.now, DAY)[k]
                  && Value(w.store, k, w.p.now) + 1 <= caps[k])
            && (k != own ==> (k in w'.store <==> k in w.store) && (k in w.store ==> w'.store[k] == w.store[k]))
  {
    var budgets := [Budget(own, caps[own])] + act.shared;
    GateKeys(own, caps[own], act.shared);
    ConsumeAllOnce(w.store, Keys(budgets), w.p.now, DAY);
    assert Fits(w.store, budgets[0], w.p.now);
  }

  lemma GateKeys(own: Key, cap: int, shared: seq<Budget>)
    requires own.Acct? && SharedOnly(shared)
    ensures var keys := Keys([Budget(own, cap)] + shared);
            && NoDuplicates(keys) && own in keys && forall k: Key | k.Acct? && k in keys :: k == own
  {
    var keys := Keys([Budget(own, cap)] + shared);
    assert keys[0] == own;
    forall i | 0 < i < |keys| ensures keys[i] == Keys(shared)[i - 1] && !keys[i].Acct? {
      assert ([Budget(own, cap)] + shared)[i] == shared[i - 1];
    }
  }

  lemma LedgerStep(w: World, act: Act, caps: Caps, k: Key)
    requires k.Acct? && k in caps && LedgerOf(w, caps, k)
    ensures LedgerOf(Do(w, act, caps), caps, k)
  {
    var w' := Do(w, act, caps);
    OwnCounterMoves(w, act, caps, k);
    if Buys(w, act, caps, k) {
      LedgerGrows(w, w', caps, k);
    } else if w'.units != w.units {
      var u := w'.units[|w.units|];
      forall lifetime {
        UnitsOfAppended(w.units, u, k, lifetime);
      }
    }
  }

  /** A unit of `k` was bought below the cap: it joins the current lifetime or opens one. */
  lemma LedgerGrows(w: World, w': World, caps: Caps, k: Key)
    requires k in caps && LedgerOf(w, caps, k)
    requires k in w'.store && w'.store[k] == Incr(w.store, k, w.p.now, DAY)[k]
    requires w'.units == w.units + [Unit(k, LifetimeWhenSpent(w.store, k, w.p.now))]
    requires Value(w.store, k, w.p.now) + 1 <= caps[k]
    ensures LedgerOf(w', caps, k)
  {
    var u := Unit(k, LifetimeWhenSpent(w.store, k, w.p.now));
    forall lifetime {
      UnitsOfAppended(w.units, u, k, lifetime);
    }
    if !Live(w.store, k, w.p.now) {
      assert UnitsOf(w.units, k, u.lifetime) == {};
    }
  }

  // ----- Calls: each is paid by its own unit -----

  ghost predicate StageInOrder(w: World, caps: Caps, a: nat)
    requires a in w.stages
  {
    && IsRunning(w.p, a)
    && (w.stages[a].Ungated? ==> OwnBudget(w.p, a).None? || OwnBudget(w.p, a).value !in caps)
    && (w.stages[a].Paid? ==>
          && w.stages[a].unit < |w.units|
          && OwnBudget(w.p, a) == Some(w.units[w.stages[a].unit].key)
          && forall j | 0 <= j < |w.calls| :: w.calls[j].unit != Some(w.stages[a].unit))
  }

  ghost predicate CallInOrder(w: World, caps: Caps, j: nat)
    requires j < |w.calls|
  {
    var m := w.calls[j];
    && (m.unit.Some? ==> m.unit.value < |w.units| && m.key == Some(w.units[m.unit.value].key))
    && (m.key.Some? && m.key.value in caps ==> m.unit.Some?)
  }

  ghost predicate Receipts(w: World, caps: Caps) {
    && (forall a | a in w.stages :: StageInOrder(w, caps, a))
    && (forall a, b | a in w.stages && b in w.stages && w.stages[a].Paid? && w.stages[b] == w.stages[a] :: a == b)
    && (forall j | 0 <= j < |w.calls| :: CallInOrder(w, caps, j))
    && (forall i, j | 0 <= i < j < |w.calls| && w.calls[i].unit.Some? :: w.calls[i].unit != w.calls[j].unit)
  }

  lemma OwnBudgetStays(p: State, e: Event, a: nat)
    requires TasksKnown(p) && IsRunning(p, a) && IsRunning(Step(p, e), a)
    ensures OwnBudget(Step(p, e), a) == OwnBudget(p, a)
  {
    TasksKnownStep(p, e);
    RunningKeepsTask(p, e, a);
  }

  lemma ReceiptsStep(w: World, act: Act, caps: Caps)
    requires TasksKnown(w.p) && Receipts(w, caps)
    ensures TasksKnown(Do(w, act, caps).p) && Receipts(Do(w, act, caps), caps)
  {
    match act {
      case Task(e) =>
        TasksKnownStep(w.p, e);
        ReceiptsAfterTask(w, e, caps);
      case Gate(a, shared) => ReceiptsAfterGate(w, a, shared, caps);
      case Call(a) => ReceiptsAfterCall(w, a, caps);
    }
  }

  lemma ReceiptsAfterTask(w: World, e: Event, caps: Caps)
    requires TasksKnown(w.p) && Receipts(w, caps)
    ensures Receipts(Do(w, Task(e), caps), caps)
  {
    var w' := Do(w, Task(e), caps);
    forall a | a in w'.stages ensures StageInOrder(w', caps, a) {
      assert StageInOrder(w, caps, a);
      OwnBudgetStays(w.p, e, a);
    }
    forall j | 0 <= j < |w'.calls| ensures CallInOrder(w', caps, j) {
      assert CallInOrder(w, caps, j);
    }
  }

  /** A run that is refused, or has no budget to charge, owes no receipt. */
  lemma ReceiptsWhenUnpaid(w: World, a: nat, stage: Stage, caps: Caps)
    requires Receipts(w, caps) && IsRunning(w.p, a) && a !in w.stages
    requires stage.Refused? || (stage.Ungated? && (OwnBudget(w.p, a).None? || OwnBudget(w.p, a).value !in caps))
    ensures Receipts(w.(stages := w.stages[a := stage]), caps)
  {
    var w' := w.(stages := w.stages[a := stage]);
    forall b | b in w'.stages ensures StageInOrder(w', caps, b) {
      assert b in w.stages ==> StageInOrder(w, caps, b);
    }
    forall j | 0 <= j < |w'.calls| ensures CallInOrder(w', caps, j) {
      assert CallInOrder(w, caps, j);
    }
  }

  /** A run that pays gets the receipt of the unit it has just bought. */
  lemma ReceiptsWhenPaid(w: World, a: nat, store: Store, u: Unit, caps: Caps)
    requires Receipts(w, caps) && IsRunning(w.p, a) && a !in w.stages && OwnBudget(w.p, a) == Some(u.key)
    ensures Receipts(w.(store := store, stages := w.stages[a := Paid(|w.units|)], units := w.units + [u]), caps)
  {
    var w' := w.(store := store, stages := w.stages[a := Paid(|w.units|)], units := w.units + [u]);
    forall j | 0 <= j < |w'.calls| ensures CallInOrder(w', caps, j) && w.calls[j].unit != Some(|w.units|) {
      assert CallInOrder(w, caps, j);
    }
    forall b | b in w'.stages ensures StageInOrder(w', caps, b) {
      assert b in w.stages ==> StageInOrder(w, caps, b);
    }
    forall b | b in w.stages && w.stages[b].Paid? ensures w.stages[b].unit < |w.units| {
      assert StageInOrder(w, caps, b);
    }
  }

  lemma ReceiptsAfterGate(w: World, a: nat, shared: seq<Budget>, caps: Caps)
    requires Receipts(w, caps)
    ensures Receipts(Do(w, Gate(a, shared), caps), caps)
  {
    var w' := Do(w, Gate(a, shared), caps);
    if w' != w {
      if w'.stages[a].Paid? {
        ReceiptsWhenPaid(w, a, w'.store, w'.units[|w.units|], caps);
      } else {
        ReceiptsWhenUnpaid(w, a, w'.stages[a], caps);
      }
    }
  }

  lemma ReceiptsAfterCall(w: World, a: nat, caps: Caps)
    requires Receipts(w, caps)
    ensures Receipts(Do(w, Call(a), caps), caps)
  {
    var w' := Do(w, Call(a), caps);
    if w' != w {
      assert StageInOrder(w, caps, a);
      forall b | b in w'.stages ensures StageInOrder(w', caps, b) {
        assert StageInOrder(w, caps, b);
      }
      forall j | 0 <= j < |w'.calls| ensures CallInOrder(w', caps, j) {
        assert j < |w.calls| ==> CallInOrder(w, caps, j);
      }
    }
  }

  ghost predicate Sound(w: World, caps: Caps) {
    TasksKnown(w.p) && Receipts(w, caps) && forall k | k in caps && k.Acct? :: LedgerOf(w, caps, k)
  }

  lemma {:induction false} EveryRunIsSound(start: int, acts: seq<Act>, caps: Caps)
    requires GoodCaps(caps)
    ensures Sound(Play(start, acts, caps), caps)
  {
    if acts == [] {
      forall k, lifetime | k in caps ensures UnitsOf([], k, lifetime) == {} {
      }
    } else {
      var w := Play(start, acts[..|acts| - 1], caps);
      EveryRunIsSound(start, acts[..|acts| - 1], caps);
      ReceiptsStep(w, acts[|acts| - 1], caps);
      forall k | k in caps && k.Acct? ensures LedgerOf(Do(w, acts[|acts| - 1], caps), caps, k) {
        LedgerStep(w, acts[|acts| - 1], caps, k);
      }
    }
  }

  /** The calls paid from one lifetime of a budget, and the calls made while it ran. */
  ghost function PaidFrom(w: World, k: Key, lifetime: int): set<nat> {
    set j: nat | j < |w.calls| && w.calls[j].unit.Some? && w.calls[j].unit.value < |w.units|
                 && w.units[w.calls[j].unit.value] == Unit(k, lifetime)
  }

  ghost function MadeDuring(w: World, k: Key, lifetime: int): set<nat> {
    set j: nat | j < |w.calls| && w.calls[j].key == Some(k) && w.calls[j].during == Some(lifetime)
  }

  /** An injection cannot have a smaller range. */
  lemma {:induction false} Injection(from: set<nat>, into: set<nat>, f: map<nat, nat>)
    requires forall j | j in from :: j in f && f[j] in into
    requires forall i, j | i in from && j in from && i != j :: f[i] != f[j]
    ensures |from| <= |into|
    decreases |from|
  {
    if from == {} {
    } else {
      var j :| j in from;
      Injection(from - {j}, into - {f[j]}, f);
      assert |from - {j}| == |from| - 1 && |into - {f[j]}| == |into| - 1;
    }
  }

  /** Over all runs, crashes and recovered re-runs included: an account with a positive cap
      never makes an unpaid call, and the calls paid from one counter lifetime are no more
      than the units that lifetime spent, hence no more than the cap. */
  lemma CallsNeverExceedTheCap(start: int, acts: seq<Act>, caps: Caps, k: Key, lifetime: int)
    requires GoodCaps(caps) && k.Acct? && k in caps
    ensures var w := Play(start, acts, caps);
            && (forall j | 0 <= j < |w.calls| && w.calls[j].key == Some(k) :: w.calls[j].unit.Some?)
            && |PaidFrom(w, k, lifetime)| <= |UnitsOf(w.units, k, lifetime)| <= caps[k]
  {
    EveryRunIsSound(start, acts, caps);
    var w := Play(start, acts, caps);
    forall j | 0 <= j < |w.calls| && w.calls[j].key == Some(k) ensures w.calls[j].unit.Some? {
      assert CallInOrder(w, caps, j);
    }
    var paid := PaidFrom(w, k, lifetime);
    Injection(paid, UnitsOf(w.units, k, lifetime), map j | j in paid :: w.calls[j].unit.value);
    assert LedgerOf(w, caps, k);
  }

  // ----- With runner exclusion, the lifetime that pays is the lifetime that runs -----

  ghost predicate Disciplined(w: World, act: Act) {
    act.Task? ==> Timely(w.p, act.event) && !HitsLiveRow(w.p, act.event)
  }

  ghost predicate AllDisciplined(start: int, acts: seq<Act>, caps: Caps) {
    acts == [] ||
    (&& AllDisciplined(start, acts[..|acts| - 1], caps)
     && Disciplined(Play(start, acts[..|acts| - 1], caps), acts[|acts| - 1]))
  }

  /** A paid unit belongs to the counter's latest lifetime: nobody else of the account
      could have spent in between. */
  ghost predicate UnitIsCurrent(w: World, a: nat)
    requires a in w.stages
  {
    w.stages[a].Paid? && w.stages[a].unit < |w.units| ==>
      var u := w.units[w.stages[a].unit];
      u.key in w.store && w.store[u.key].expires == u.lifetime
  }

  ghost predicate CallIsCurrent(w: World, j: nat)
    requires j < |w.calls|
  {
    var m := w.calls[j];
    m.during.Some? && m.unit.Some? && m.unit.value < |w.units| ==> w.units[m.unit.value].lifetime == m.during.value
  }

  ghost predicate Current(w: World) {
    (forall a | a in w.stages :: UnitIsCurrent(w, a)) && (forall j | 0 <= j < |w.calls| :: CallIsCurrent(w, j))
  }

  lemma UnitStaysCurrent(w: World, act: Act, caps: Caps, a: nat)
    requires Sound(w, caps) && RunnersInOrder(w.p) && Current(w) && a in Do(w, act, caps).stages
    ensures UnitIsCurrent(Do(w, act, caps), a)
  {
    var w' := Do(w, act, caps);
    if a in w.stages && w'.stages[a] == w.stages[a] && w.stages[a].Paid? {
      assert UnitIsCurrent(w, a) && StageInOrder(w, caps, a);
      var k := w.units[w.stages[a].unit].key;
      OwnCounterMoves(w, act, caps, k);
      NobodyElseBuys(w, act, caps, a);
    } else if w'.stages[a].Paid? {
      OwnCounterMoves(w, act, caps, OwnBudget(w.p, a).value);
    }
  }

  /** While a paid run is live, no other run of its account can pass the gate. */
  lemma NobodyElseBuys(w: World, act: Act, caps: Caps, a: nat)
    requires RunnersInOrder(w.p) && a in w.stages && w.stages[a].Paid? && StageInOrder(w, caps, a)
    ensures !Buys(w, act, caps, w.units[w.stages[a].unit].key)
  {
    var k := w.units[w.stages[a].unit].key;
    if Buys(w, act, caps, k) {
      assert LiveOn(w.p, a, k.account) && LiveOn(w.p, act.agent, k.account);
    }
  }

  lemma CurrentStep(w: World, act: Act, caps: Caps)
    requires Sound(w, caps) && RunnersInOrder(w.p) && Current(w)
    ensures Current(Do(w, act, caps))
  {
    var w' := Do(w, act, caps);
    forall a | a in w'.stages ensures UnitIsCurrent(w', a) {
      UnitStaysCurrent(w, act, caps, a);
    }
    forall j | 0 <= j < |w'.calls| ensures CallIsCurrent(w', j) {
      if j < |w.calls| {
        assert CallIsCurrent(w, j) && CallInOrder(w, caps, j);
      } else {
        assert UnitIsCurrent(w, act.agent) && StageInOrder(w, caps, act.agent);
      }
    }
  }

  lemma {:induction false} DisciplinedRunsAreCurrent(start: int, acts: seq<Act>, caps: Caps)
    requires GoodCaps(caps) && AllDisciplined(start, acts, caps)
    ensures RunnersInOrder(Play(start, acts, caps).p) && Current(Play(start, acts, caps))
  {
    if acts == [] {
    } else {
      var w, act := Play(start, acts[..|acts| - 1], caps), acts[|acts| - 1];
      DisciplinedRunsAreCurrent(start, acts[..|acts| - 1], caps);
      EveryRunIsSound(start, acts[..|acts| - 1], caps);
      CurrentStep(w, act, caps);
      if act.Task? {
        StepKeepsRunnersIff(w.p, act.event);
      }
    }
  }

  /** So the calls an account makes while one lifetime of its counter runs are no more
      than the units that lifetime spends, hence no more than its cap. */
  lemma CallsDuringALifetime(start: int, acts: seq<Act>, caps: Caps, k: Key, lifetime: int)
    requires GoodCaps(caps) && k.Acct? && k in caps && AllDisciplined(start, acts, caps)
    ensures var w := Play(start, acts, caps);
            |MadeDuring(w, k, lifetime)| <= |UnitsOf(w.units, k, lifetime)| <= caps[k]
  {
    var w := Play(start, acts, caps);
    CallsNeverExceedTheCap(start, acts, caps, k, lifetime);
    EveryRunIsSound(start, acts, caps);
    DisciplinedRunsAreCurrent(start, acts, caps);
    var made := MadeDuring(w, k, lifetime);
    forall j | j in made ensures j in PaidFrom(w, k, lifetime) {
      assert CallIsCurrent(w, j) && CallInOrder(w, caps, j);
    }
    Injection(made, PaidFrom(w, k, lifetime), map j | j in made :: j);
  }
}
