/**
 The two budget gates the worker passes after a claim: reads charge one counter, writes
 charge their own budget and the aggregates.
 */
module Gates {
  import opened Options
  import opened Counters
  import opened Budgets
  import SafetyConfig

  const CAP_PROFILE := "conservative"

  datatype Credential = Credential(apiId: int, accountCount: int)

  /** An account row with its credential row, which may be missing. */
  datatype Account = Account(
    id: int, useCase: string, credentialId: int, credential: Option<Credential>, proxy: Option<int>)
  {
    /** A dangling credential row is tolerated: its own id stands in. */
    function ApiId(): (id: int)
      ensures credential == None ==> id == credentialId
      ensures forall c :: credential == Some(c) ==> id == c.apiId
    {
      if credential.Some? then credential.value.apiId else credentialId
    }

    /** And so is a credential that counts nobody. */
    function Members(): (m: int)
      ensures credential == None ==> m == 1
      ensures forall c :: credential == Some(c) ==> m == if c.accountCount == 0 then 1 else c.accountCount
    {
      if credential.Some? && credential.value.accountCount != 0 then credential.value.accountCount else 1
    }

    /** What the worker asks for when this account performs a budgeted write. */
    function WriteCall(action: string): Call {
      Call(id, ApiId(), proxy, action, useCase, CAP_PROFILE, false, Members(), 1)
    }
  }

  function ReadCap(cfg: SafetyConfig.Config, action: string): int {
    var cap := SafetyConfig.NumberAt(cfg, SafetyConfig.ReadLimits, action);
    if cap.Some? then cap.value else 0
  }

  /** The write action a task type spends, if it spends one. */
  function WriteAction(taskType: string): Option<string> {
    if taskType == "send_message" then Some("messages_per_day")
    else if taskType == "join_group" then Some("joins_per_day")
    else if taskType == "invite_to_group" then Some("invites_per_day")
    else if taskType == "react" then Some("reactions_per_day")
    else None
  }

  /** Four task types spend a budget, and of these only reactions are no fleet risk. */
  lemma BudgetedTasks(taskType: string)
    ensures WriteAction(taskType).Some? <==>
            || taskType == "send_message" || taskType == "join_group"
            || taskType == "invite_to_group" || taskType == "react"
    ensures WriteAction(taskType).Some? ==> (WriteAction(taskType).value !in SENSITIVE <==> taskType == "react")
    ensures forall other :: WriteAction(taskType).Some? && WriteAction(other) == WriteAction(taskType) ==>
              other == taskType
  {
    assert |"send_message"| == 12 && |"join_group"| == 10 && |"invite_to_group"| == 15 && |"react"| == 5;
    assert |"messages_per_day"| == 16 && |"joins_per_day"| == 13;
    assert |"invites_per_day"| == 15 && |"reactions_per_day"| == 17;
  }

  function WriteCap(cfg: SafetyConfig.Config, a: Account, action: string): int {
    OwnCap(cfg, a.WriteCall(action))
  }

  /** The operator's knob, end to end: after a load, a number under `rate_limits` is the cap
      of the worker's write gate. */
  lemma RateLimitsBindTheWorker(
      d: SafetyConfig.Config, source: SafetyConfig.Source, a: Account, action: string, v: int)
    requires SafetyConfig.GoodDefaults(d) && SafetyConfig.LoadSpec(d, source).Loaded?
    requires var cfg := SafetyConfig.LoadSpec(d, source).config;
             && SafetyConfig.RateLimits in cfg
             && SafetyConfig.LeafAt(cfg[SafetyConfig.RateLimits], [a.useCase, action], v)
    ensures WriteCap(SafetyConfig.LoadSpec(d, source).config, a, action) == v
  {
    SafetyConfig.RateLimitsAreEnforced(d, source, "conservative", a.useCase, action, v);
  }

  /** Whether the write gate stops this account's next action of this kind. */
  predicate WriteRefused(store: Store, cfg: SafetyConfig.Config, a: Account, action: string, now: int) {
    WriteCap(cfg, a, action) > 0 && !HasRoom(store, BudgetsOf(cfg, a.WriteCall(action)), now)
  }

  predicate ReadRefused(store: Store, cfg: SafetyConfig.Config, a: Account, action: string, now: int) {
    ReadCap(cfg, action) != 0 && Value(store, Read(action, a.id), now) + 1 > ReadCap(cfg, action)
  }

  /** Charges the counter whether or not the read may run; an unconfigured read is free, and
      without redis every read is. */
  method ReadBudgetExceeded(redis: Redis?, cfg: SafetyConfig.Config, a: Account, action: string, now: int)
    returns (exceeded: bool)
    modifies if redis == null then {} else {redis}
    ensures redis == null ==> !exceeded
    ensures redis != null ==>
              && exceeded == ReadRefused(old(redis.store), cfg, a, action, now)
              && redis.store == if ReadCap(cfg, action) == 0 then old(redis.store)
                                else Incr(old(redis.store), Read(action, a.id), now, DAY)
    ensures redis != null ==>
              var configured := SafetyConfig.NumberAt(cfg, SafetyConfig.ReadLimits, action);
              exceeded <==> && configured.Some? && configured.value != 0
                            && Value(old(redis.store), Read(action, a.id), now) >= configured.value
    ensures redis != null ==>
              var (configured, k) := (SafetyConfig.NumberAt(cfg, SafetyConfig.ReadLimits, action), Read(action, a.id));
              redis.store == if configured.None? || configured.value == 0 then old(redis.store)
                             else old(redis.store)[k :=
                               if Value(old(redis.store), k, now) == 0 then Counter(1, now + 86400)
                               else old(redis.store)[k].(value := old(redis.store)[k].value + 1)]
  {
    if redis == null {
      return false;
    }
    var cap := ReadCap(cfg, action);
    if cap == 0 {
      return false;
    }
    var count := redis.RateLimitIncrement(Read(action, a.id), now, DAY);
    exceeded := count > cap;
  }

  /** From `store` to `after` exactly the counters that such an action of the account is
      budgeted by have moved: by one unit, which opens 86400 seconds if it is the first. */
  ghost predicate ChargedAt(store: Store, after: Store, a: Account, action: string, now: int) {
    forall k: Key ::
      if k == Acct(a.id, action)
         || (action != "reactions_per_day" && (k == Api(a.ApiId(), a.useCase, action) || k == Net(a.proxy, action)))
      then
        && k in after
        && after[k] == if Value(store, k, now) == 0 then Counter(1, now + 86400)
                       else store[k].(value := store[k].value + 1)
      else (k in after <==> k in store) && (k in store ==> after[k] == store[k])
  }

  lemma AllowedIsCharged(store: Store, cfg: SafetyConfig.Config, a: Account, taskType: string, now: int)
    requires WriteAction(taskType).Some? && WriteCap(cfg, a, WriteAction(taskType).value) > 0
    requires !WriteRefused(store, cfg, a, WriteAction(taskType).value, now)
    ensures var action := WriteAction(taskType).value;
            ChargedAt(store, Charged(store, cfg, a.WriteCall(action), now, DAY), a, action, now)
  {
    var action := WriteAction(taskType).value;
    var budgets := BudgetsOf(cfg, a.WriteCall(action));
    BudgetedTasks(taskType);
    BudgetKeysDistinct(cfg, a.WriteCall(action));
    ConsumeAllOnce(store, Keys(budgets), now, DAY);
    forall k: Key
      ensures k in Keys(budgets) <==>
              || k == Acct(a.id, action)
              || (action in SENSITIVE && (k == Api(a.ApiId(), a.useCase, action) || k == Net(a.proxy, action)))
    {
      assert k in Keys(budgets) ==> exists i :: 0 <= i < |budgets| && k == budgets[i].key;
      assert Keys(budgets)[0] == Acct(a.id, action);
      if action in SENSITIVE {
        assert Keys(budgets)[1] == Api(a.ApiId(), a.useCase, action) && Keys(budgets)[2] == Net(a.proxy, action);
      }
    }
  }

  /** None means that no daily budget applies and the action proceeds: without redis always,
      otherwise for unbudgeted tasks and caps that are not positive. */
  method ConsumeWriteBudget(redis: Redis?, cfg: SafetyConfig.Config, a: Account, taskType: string, now: int)
    returns (d: Option<Decision>)
    modifies if redis == null then {} else {redis}
    ensures d.None? <==>
              redis == null || WriteAction(taskType).None? || WriteCap(cfg, a, WriteAction(taskType).value) <= 0
    ensures d.None? && redis != null ==> redis.store == old(redis.store)
    ensures d.Some? ==>
              var call := a.WriteCall(WriteAction(taskType).value);
              && d.value == DecideNow(old(redis.store), cfg, call, now)
              && (d.value.allowed <==> !WriteRefused(old(redis.store), cfg, a, WriteAction(taskType).value, now))
              && redis.store == Charged(old(redis.store), cfg, call, now, DAY)
    ensures d.Some? && !d.value.allowed ==> redis.store == old(redis.store)
    ensures d.Some? && d.value.allowed ==>
              ChargedAt(old(redis.store), redis.store, a, WriteAction(taskType).value, now)
  {
    if redis == null {
      return None;
    }
    var action := WriteAction(taskType);
    if action.None? || EffectiveCap(cfg, CAP_PROFILE, a.useCase, action.value, false) <= 0 {
      return None;
    }
    if !WriteRefused(redis.store, cfg, a, action.value, now) {
      AllowedIsCharged(redis.store, cfg, a, taskType, now);
    }
    var decision := CheckAndConsume(redis, cfg, a.WriteCall(action.value), now, DAY);
    d := Some(decision);
  }
}
