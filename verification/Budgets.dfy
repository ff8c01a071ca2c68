/**
 Daily budgets: the cap formulas, the pure stricter-of decision, and the atomic
 check-and-consume that must agree with it.
 */
module Budgets {
  import opened Options
  import opened Counters
  import SafetyConfig

  const SENSITIVE: set<string> := {"messages_per_day", "joins_per_day", "invites_per_day"}

  function Min(a: int, b: int): int { if a <= b then a else b }

  function Max(a: int, b: int): int { if a >= b then a else b }

  function ApplyPremium(cfg: SafetyConfig.Config, action: string, baseCap: int, isPremium: bool): int {
    if !isPremium then baseCap
    else
      var ceiling := SafetyConfig.NumberAt(cfg, SafetyConfig.PremiumCeilings, action);
      if ceiling.Some? then Min(baseCap * 2, ceiling.value) else baseCap * 2
  }

  function EffectiveCap(
      cfg: SafetyConfig.Config, profile: string, useCase: string, action: string, isPremium: bool): int
  {
    ApplyPremium(cfg, action, SafetyConfig.CapFor(cfg, profile, useCase, action), isPremium)
  }

  /** round(0.6 * cap * members): six tenths of an integer never end in a tie. */
  function SixTenths(n: int): int { (6 * n + 5) / 10 }

  function AggregateCapOf(perAccount: int, members: int): int {
    Max(perAccount, SixTenths(perAccount * Max(1, members)))
  }

  function AggregateCap(cfg: SafetyConfig.Config, profile: string, useCase: string, action: string, members: int): int {
    AggregateCapOf(SafetyConfig.CapFor(cfg, profile, useCase, action), members)
  }

  /** Never stricter than one member's own cap, never more than all members together,
      and truly stricter than that as soon as two members share the credential. */
  lemma AggregateCapBetween(perAccount: int, members: int)
    requires perAccount >= 0
    ensures perAccount <= AggregateCapOf(perAccount, members) <= perAccount * Max(1, members)
    ensures perAccount >= 1 && members >= 2 ==> AggregateCapOf(perAccount, members) < perAccount * members
    ensures AggregateCapOf(perAccount, 1) == perAccount
  {
    var m := Max(1, members);
    assert perAccount * 1 <= perAccount * m;
    if perAccount >= 1 && members >= 2 {
      assert perAccount * 2 <= perAccount * members;
    }
  }

  /** The aggregate is the larger of one member's cap and the integer nearest to six tenths of
      all of them together; fewer than one member counts as one. */
  lemma AggregateCapIsSixTenths(perAccount: int, members: int)
    requires perAccount >= 0
    ensures var (aggregate, m) := (AggregateCapOf(perAccount, members), if members >= 1 then members else 1);
            && aggregate >= perAccount
            && 10 * aggregate >= 6 * (perAccount * m) - 5
            && (aggregate > perAccount ==> 10 * aggregate <= 6 * (perAccount * m) + 5)
  {
  }

  /** Premium doubles a cap, up to the action's ceiling if it has one. */
  lemma PremiumDoubles(cfg: SafetyConfig.Config, profile: string, useCase: string, action: string, ceiling: int)
    ensures var plain := EffectiveCap(cfg, profile, useCase, action, false);
            var premium := EffectiveCap(cfg, profile, useCase, action, true);
            && plain == SafetyConfig.CapFor(cfg, profile, useCase, action)
            && (SafetyConfig.NumberAt(cfg, SafetyConfig.PremiumCeilings, action) == Some(ceiling) ==>
                  premium <= ceiling && premium <= 2 * plain && (premium == ceiling || premium == 2 * plain))
            && (SafetyConfig.NumberAt(cfg, SafetyConfig.PremiumCeilings, action) == None ==> premium == plain + plain)
  {
  }

  datatype Binding = PerAccount | Aggregate

  datatype Reason = AccountCap | AggregateCapReached | ActionNotAllowed

  datatype Decision = Decision(allowed: bool, binding: Binding, reason: Option<Reason>)

  function Decide(perAccountRemaining: int, aggregateRemaining: Option<int>): Decision {
    if perAccountRemaining <= 0 then Decision(false, PerAccount, Some(AccountCap))
    else if aggregateRemaining.Some? && aggregateRemaining.value <= 0 then
      Decision(false, Aggregate, Some(AggregateCapReached))
    else
      var binding := if aggregateRemaining.Some? && aggregateRemaining.value < perAccountRemaining then Aggregate
                     else PerAccount;
      Decision(true, binding, None)
  }

  /** Allowed if and only if every headroom is positive; the account is named first, and the
      aggregate binds an allowed call exactly when it leaves less than the account. */
  lemma DecideIsStricterOf(own: int, aggregate: Option<int>)
    ensures var d := Decide(own, aggregate);
            && (d.allowed <==> own > 0 && (aggregate.Some? ==> aggregate.value > 0))
            && (d.reason == None <==> d.allowed)
            && (own <= 0 ==> d.binding == PerAccount && d.reason == Some(AccountCap))
            && (own > 0 && !d.allowed ==> d.binding == Aggregate && d.reason == Some(AggregateCapReached))
            && (d.allowed ==> (d.binding == Aggregate <==> aggregate.Some? && aggregate.value < own))
  {
  }

  /** Everything one call of check_and_consume is told. */
  datatype Call = Call(
    account: int, apiId: int, proxy: Option<int>, action: string, useCase: string, profile: string,
    isPremium: bool, apiMembers: int, subnetMembers: int)

  function OwnCap(cfg: SafetyConfig.Config, c: Call): int {
    EffectiveCap(cfg, c.profile, c.useCase, c.action, c.isPremium)
  }

  /** The account's budget first, then the two aggregates of a sensitive action. */
  function BudgetsOf(cfg: SafetyConfig.Config, c: Call): seq<Budget> {
    [Budget(Acct(c.account, c.action), OwnCap(cfg, c))]
    + if c.action !in SENSITIVE then []
      else [Budget(Api(c.apiId, c.useCase, c.action), AggregateCap(cfg, c.profile, c.useCase, c.action, c.apiMembers)),
            Budget(Net(c.proxy, c.action), AggregateCap(cfg, c.profile, c.useCase, c.action, c.subnetMembers))]
  }

  function Headroom(store: Store, b: Budget, now: int): int {
    b.cap - Value(store, b.key, now)
  }

  /** The smaller aggregate headroom, None for an action without aggregates. */
  function AggregateHeadroom(store: Store, budgets: seq<Budget>, now: int): Option<int> {
    if |budgets| < 3 then None
    else Some(Min(Headroom(store, budgets[1], now), Headroom(store, budgets[2], now)))
  }

  /** The pure decision on the headrooms as they stand. */
  function DecideNow(store: Store, cfg: SafetyConfig.Config, c: Call, now: int): Decision {
    var budgets := BudgetsOf(cfg, c);
    Decide(Headroom(store, budgets[0], now), AggregateHeadroom(store, budgets, now))
  }

  lemma BudgetKeysDistinct(cfg: SafetyConfig.Config, c: Call)
    ensures NoDuplicates(Keys(BudgetsOf(cfg, c)))
  {
  }

  /** The store after a call: one unit from each of its counters, or nothing at all. */
  function Charged(store: Store, cfg: SafetyConfig.Config, c: Call, now: int, ttl: int): Store {
    if OwnCap(cfg, c) <= 0 then store else Consumed(store, BudgetsOf(cfg, c), now, ttl)
  }

  /** Refines the pure decision for a positive cap; for any other cap it answers something
      else (action not allowed) and touches nothing, so the equality is exact. */
  method CheckAndConsume(redis: Redis, cfg: SafetyConfig.Config, c: Call, now: int, ttl: int) returns (d: Decision)
    modifies redis
    ensures d == DecideNow(old(redis.store), cfg, c, now) <==> OwnCap(cfg, c) > 0
    ensures OwnCap(cfg, c) <= 0 ==> d == Decision(false, PerAccount, Some(ActionNotAllowed))
    ensures redis.store == Charged(old(redis.store), cfg, c, now, ttl)
    ensures d.allowed <==> OwnCap(cfg, c) > 0 && HasRoom(old(redis.store), BudgetsOf(cfg, c), now)
    ensures OwnCap(cfg, c) > 0 ==>
              var own := OwnCap(cfg, c) - Value(old(redis.store), Acct(c.account, c.action), now);
              var api := AggregateCap(cfg, c.profile, c.useCase, c.action, c.apiMembers)
                         - Value(old(redis.store), Api(c.apiId, c.useCase, c.action), now);
              var net := AggregateCap(cfg, c.profile, c.useCase, c.action, c.subnetMembers)
                         - Value(old(redis.store), Net(c.proxy, c.action), now);
              var shared := c.action in SENSITIVE;
              if own <= 0 then d == Decision(false, PerAccount, Some(AccountCap))
              else if shared && (api <= 0 || net <= 0) then d == Decision(false, Aggregate, Some(AggregateCapReached))
              else
                && d.allowed && d.reason == None
                && (d.binding == Aggregate <==> shared && (api < own || net < own))
  {
    var cap := EffectiveCap(cfg, c.profile, c.useCase, c.action, c.isPremium);
    if cap <= 0 {
      return Decision(false, PerAccount, Some(ActionNotAllowed));
    }
    var budgets := [Budget(Acct(c.account, c.action), cap)];
    if c.action in SENSITIVE {
      var apiCap := AggregateCap(cfg, c.profile, c.useCase, c.action, c.apiMembers);
      budgets := budgets + [Budget(Api(c.apiId, c.useCase, c.action), apiCap)];
      var subnetCap := AggregateCap(cfg, c.profile, c.useCase, c.action, c.subnetMembers);
      budgets := budgets + [Budget(Net(c.proxy, c.action), subnetCap)];
    }
    assert budgets == BudgetsOf(cfg, c);
    assert budgets[0] == Budget(Acct(c.account, c.action), cap);
    BudgetKeysDistinct(cfg, c);
    var refusedAt, remaining := redis.BudgetConsume(budgets, now, ttl);
    if refusedAt != 0 {
      return if refusedAt == 1 then Decision(false, PerAccount, Some(AccountCap))
             else Decision(false, Aggregate, Some(AggregateCapReached));
    }
    var aggregate := if |remaining| > 1 then Some(Min(remaining[1], remaining[2]) + 1) else None;
    d := Decide(remaining[0] + 1, aggregate);
  }
}
