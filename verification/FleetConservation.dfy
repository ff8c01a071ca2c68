/**
 What the aggregate counter means: while no counter expires, the counter of an api_id,
 use case and action is the sum of its accounts' own counters, and stays under the
 aggregate cap.
 */
module FleetConservation {
  import opened Counters
  import opened Budgets
  import SafetyConfig

  datatype Member = Member(account: int, apiId: int, useCase: string)

  /** What stays fixed: the config, the profile, who belongs where, and how many members
      each credential counts. */
  datatype Fleet = Fleet(cfg: SafetyConfig.Config, profile: string, members: seq<Member>, memberCount: map<int, int>)

  datatype Charge = Charge(at: int, call: Call)

  predicate OneCredentialEach(members: seq<Member>) {
    forall i, j :: 0 <= i < j < |members| ==> members[i].account != members[j].account
  }

  predicate FromFleet(f: Fleet, c: Call) {
    && Member(c.account, c.apiId, c.useCase) in f.members
    && c.profile == f.profile
    && c.apiId in f.memberCount && c.apiMembers == f.memberCount[c.apiId]
  }

  ghost function After(f: Fleet, run: seq<Charge>, ttl: int): Store {
    if run == [] then map[]
    else
      var last := run[|run| - 1];
      Charged(After(f, run[..|run| - 1], ttl), f.cfg, last.call, last.at, ttl)
  }

  /** Every call is made by a fleet member while every counter is still alive. */
  ghost predicate ExpiryFree(f: Fleet, run: seq<Charge>, ttl: int) {
    run == [] ||
    (var front, last := run[..|run| - 1], run[|run| - 1];
     && ExpiryFree(f, front, ttl)
     && FromFleet(f, last.call)
     && forall k | k in After(f, front, ttl) :: last.at < After(f, front, ttl)[k].expires)
  }

  function Stored(store: Store, k: Key): int {
    if k in store then store[k].value else 0
  }

  function AccountsTotal(members: seq<Member>, store: Store, apiId: int, useCase: string, action: string): int {
    if members == [] then 0
    else
      var last := members[|members| - 1];
      AccountsTotal(members[..|members| - 1], store, apiId, useCase, action)
      + if last.apiId == apiId && last.useCase == useCase then Stored(store, Acct(last.account, action)) else 0
  }

  /** The effect of one call on one counter. */
  lemma ChargeMoves(store: Store, f: Fleet, ch: Charge, ttl: int, k: Key)
    requires k in store ==> Live(store, k, ch.at)
    ensures var after := Charged(store, f.cfg, ch.call, ch.at, ttl);
            Stored(after, k) == Stored(store, k) + if Hits(store, f, ch, k) then 1 else 0
  {
    var budgets := BudgetsOf(f.cfg, ch.call);
    BudgetKeysDistinct(f.cfg, ch.call);
    ConsumeAllOnce(store, Keys(budgets), ch.at, ttl);
  }

  predicate Hits(store: Store, f: Fleet, ch: Charge, k: Key) {
    && OwnCap(f.cfg, ch.call) > 0 && HasRoom(store, BudgetsOf(f.cfg, ch.call), ch.at)
    && k in Keys(BudgetsOf(f.cfg, ch.call))
  }

  /** Adding up the accounts' counters after a call: one more if the caller is counted. */
  lemma {:induction false} TotalMoves(members: seq<Member>, before: Store, after: Store, c: Call, hit: bool,
                   apiId: int, useCase: string, action: string)
    requires OneCredentialEach(members)
    requires forall a ::
               Stored(after, Acct(a, action))
               == Stored(before, Acct(a, action)) + if hit && a == c.account && action == c.action then 1 else 0
    ensures AccountsTotal(members, after, apiId, useCase, action)
            == AccountsTotal(members, before, apiId, useCase, action)
               + if hit && action == c.action && Member(c.account, apiId, useCase) in members then 1 else 0
  {
    if members == [] {
    } else {
      var front, last := members[..|members| - 1], members[|members| - 1];
      TotalMoves(front, before, after, c, hit, apiId, useCase, action);
      assert members == front + [last];
      assert last.account == c.account ==> forall m | m in front :: m.account != c.account;
    }
  }

  /** One account belongs to one credential and use case. */
  lemma MemberIsUnique(members: seq<Member>, x: Member, y: Member)
    requires OneCredentialEach(members) && x in members && y in members && x.account == y.account
    ensures x == y
  {
  }

  lemma {:induction false} AggregateIsTheSum(
      f: Fleet, run: seq<Charge>, ttl: int, apiId: int, useCase: string, action: string)
    requires OneCredentialEach(f.members) && ExpiryFree(f, run, ttl) && action in SENSITIVE
    ensures var store := After(f, run, ttl);
            Stored(store, Api(apiId, useCase, action)) == AccountsTotal(f.members, store, apiId, useCase, action)
  {
    if run == [] {
      NothingSpent(f.members, apiId, useCase, action);
    } else {
      var front, ch := run[..|run| - 1], run[|run| - 1];
      AggregateIsTheSum(f, front, ttl, apiId, useCase, action);
      var before, after := After(f, front, ttl), After(f, run, ttl);
      var c := ch.call;
      var hit := OwnCap(f.cfg, c) > 0 && HasRoom(before, BudgetsOf(f.cfg, c), ch.at);
      forall a
        ensures Stored(after, Acct(a, action))
                == Stored(before, Acct(a, action)) + if hit && a == c.account && action == c.action then 1 else 0
      {
        ChargeMoves(before, f, ch, ttl, Acct(a, action));
        CallKeys(f, c, Acct(a, action));
      }
      TotalMoves(f.members, before, after, c, hit, apiId, useCase, action);
      ChargeMoves(before, f, ch, ttl, Api(apiId, useCase, action));
      CallKeys(f, c, Api(apiId, useCase, action));
      if Member(c.account, apiId, useCase) in f.members {
        MemberIsUnique(f.members, Member(c.account, apiId, useCase), Member(c.account, c.apiId, c.useCase));
      }
    }
  }

  lemma CallKeys(f: Fleet, c: Call, k: Key)
    ensures k in Keys(BudgetsOf(f.cfg, c)) <==>
            || k == Acct(c.account, c.action)
            || (c.action in SENSITIVE && (k == Api(c.apiId, c.useCase, c.action) || k == Net(c.proxy, c.action)))
  {
    var budgets := BudgetsOf(f.cfg, c);
    assert Keys(budgets)[0] == Acct(c.account, c.action);
    if c.action in SENSITIVE {
      assert Keys(budgets)[1] == Api(c.apiId, c.useCase, c.action) && Keys(budgets)[2] == Net(c.proxy, c.action);
    }
  }

  lemma {:induction false} NothingSpent(members: seq<Member>, apiId: int, useCase: string, action: string)
    ensures AccountsTotal(members, map[], apiId, useCase, action) == 0
  {
    if members == [] {
    } else {
      NothingSpent(members[..|members| - 1], apiId, useCase, action);
    }
  }

  /** The aggregate cap of the group, as every call of the run computes it. */
  function GroupCap(f: Fleet, apiId: int, useCase: string, action: string): int
    requires apiId in f.memberCount
  {
    AggregateCap(f.cfg, f.profile, useCase, action, f.memberCount[apiId])
  }

  lemma {:induction false} AggregateStaysUnderItsCap(
      f: Fleet, run: seq<Charge>, ttl: int, apiId: int, useCase: string, action: string)
    requires ExpiryFree(f, run, ttl) && apiId in f.memberCount && action in SENSITIVE
    ensures 0 <= Stored(After(f, run, ttl), Api(apiId, useCase, action)) <= Max(0, GroupCap(f, apiId, useCase, action))
  {
    if run == [] {
    } else {
      var front, ch := run[..|run| - 1], run[|run| - 1];
      var k := Api(apiId, useCase, action);
      AggregateStaysUnderItsCap(f, front, ttl, apiId, useCase, action);
      ChargeMoves(After(f, front, ttl), f, ch, ttl, k);
      CallKeys(f, ch.call, k);
      if Hits(After(f, front, ttl), f, ch, k) {
        assert Fits(After(f, front, ttl), BudgetsOf(f.cfg, ch.call)[1], ch.at);
      }
    }
  }

  /** The fleet never spends more than the sum of its accounts may, and strictly less as
      soon as two of them share the credential. */
  lemma {:induction false} FleetIsThrottled(
      f: Fleet, run: seq<Charge>, ttl: int, apiId: int, useCase: string, action: string)
    requires OneCredentialEach(f.members) && ExpiryFree(f, run, ttl)
    requires apiId in f.memberCount && action in SENSITIVE
    requires SafetyConfig.CapFor(f.cfg, f.profile, useCase, action) >= 1
    ensures var p, m := SafetyConfig.CapFor(f.cfg, f.profile, useCase, action), f.memberCount[apiId];
            var spent := AccountsTotal(f.members, After(f, run, ttl), apiId, useCase, action);
            && (spent <= p || 10 * spent <= 6 * (p * m) + 5)
            && (m >= 2 ==> spent < p * m)
  {
    var p, m := SafetyConfig.CapFor(f.cfg, f.profile, useCase, action), f.memberCount[apiId];
    AggregateIsTheSum(f, run, ttl, apiId, useCase, action);
    AggregateStaysUnderItsCap(f, run, ttl, apiId, useCase, action);
    AggregateCapBetween(p, m);
    AggregateCapIsSixTenths(p, m);
  }
}
