/**
 The read-only dashboard `GET /v1/limits`: one batched peek of every counter it needs,
 then the numbers. It must predict what the worker's gates will do.
 */
module Limits {
  import opened Options
  import opened Counters
  import opened Budgets
  import opened Gates
  import SafetyConfig

  datatype Kind = Write | ReadOnly

  const ACTIONS: seq<(string, Kind)> := [
    ("messages_per_day", Write), ("joins_per_day", Write), ("invites_per_day", Write), ("reactions_per_day", Write),
    ("resolve_username", ReadOnly), ("get_chat_info", ReadOnly), ("get_chat_history", ReadOnly),
    ("get_similar_channels", ReadOnly), ("search_public_chats", ReadOnly), ("get_chat_admins", ReadOnly),
    ("get_dialogs", ReadOnly)]

  /** Every write budget of the worker is shown, and no other action as a write. */
  lemma EveryBudgetIsShown(action: string)
    ensures (action, Write) in ACTIONS <==> exists taskType :: WriteAction(taskType) == Some(action)
    ensures |ACTIONS| == 11 && forall i :: 0 <= i < 11 ==> (ACTIONS[i].1 == Write <==> i < 4)
  {
    assert WriteAction("send_message") == Some("messages_per_day") && ACTIONS[0] == ("messages_per_day", Write);
    BudgetedTasks("join_group");
    BudgetedTasks("invite_to_group");
    BudgetedTasks("react");
    assert WriteAction("join_group") == Some("joins_per_day") && ACTIONS[1] == ("joins_per_day", Write);
    assert WriteAction("invite_to_group") == Some("invites_per_day") && ACTIONS[2] == ("invites_per_day", Write);
    assert WriteAction("react") == Some("reactions_per_day") && ACTIONS[3] == ("reactions_per_day", Write);
  }

  datatype Meter = Meter(cap: int, used: int, remaining: int, resetsIn: Option<int>)

  datatype ActionView = ActionView(
    action: string, kind: Kind, perAccount: Meter, aggregate: Option<Meter>, binding: Binding, remaining: int)

  datatype AccountView = AccountView(id: int, useCase: string, credentialId: int, actions: seq<ActionView>)

  function OwnKey(a: Account, action: string, kind: Kind): Key {
    if kind.Write? then Acct(a.id, action) else Read(action, a.id)
  }

  function SharedKey(a: Account, action: string): Option<Key> {
    if action in SENSITIVE then Some(Api(a.ApiId(), a.useCase, action)) else None
  }

  function DisplayedCap(cfg: SafetyConfig.Config, a: Account, action: string, kind: Kind): int {
    if kind.Write? then EffectiveCap(cfg, CAP_PROFILE, a.useCase, action, false) else ReadCap(cfg, action)
  }

  function MeterOf(cap: int, peeked: (int, Option<int>)): Meter {
    Meter(cap, peeked.0, Max(0, cap - peeked.0), peeked.1)
  }

  /** One element of the response, from what was peeked for its one or two counters. */
  function Assemble(cfg: SafetyConfig.Config, a: Account, action: string, kind: Kind,
                    own: (int, Option<int>), shared: Option<(int, Option<int>)>): ActionView
  {
    var perAccount := MeterOf(DisplayedCap(cfg, a, action, kind), own);
    var aggregate := if shared.None? then None
                     else Some(MeterOf(AggregateCap(cfg, CAP_PROFILE, a.useCase, action, a.Members()), shared.value));
    var decision := Decide(perAccount.remaining, if aggregate.None? then None else Some(aggregate.value.remaining));
    ActionView(action, kind, perAccount, aggregate, decision.binding,
               if aggregate.None? then perAccount.remaining else Min(perAccount.remaining, aggregate.value.remaining))
  }

  /** What the response says about one action: a direct reading of the live counters. */
  function View(store: Store, now: int, cfg: SafetyConfig.Config, a: Account, action: string, kind: Kind): ActionView {
    var shared := SharedKey(a, action);
    Assemble(cfg, a, action, kind, Peek(store, OwnKey(a, action, kind), now),
             if shared.None? then None else Some(Peek(store, shared.value, now)))
  }

  function AccountViewOf(store: Store, now: int, cfg: SafetyConfig.Config, a: Account): AccountView {
    AccountView(a.id, a.useCase, a.credentialId,
                seq(|ACTIONS|, i requires 0 <= i < |ACTIONS| => View(store, now, cfg, a, ACTIONS[i].0, ACTIONS[i].1)))
  }

  /** Every number shown is read off a live counter: the account's own, and for a sensitive
      action the one it shares with the other accounts of its credential and use case. */
  lemma ViewShowsCounters(store: Store, now: int, cfg: SafetyConfig.Config, a: Account, action: string, kind: Kind)
    ensures var view := View(store, now, cfg, a, action, kind);
            var own := if kind == Write then Acct(a.id, action) else Read(action, a.id);
            var shared := Api(a.ApiId(), a.useCase, action);
            && view.action == action && view.kind == kind
            && view.perAccount.cap == (if kind == Write then WriteCap(cfg, a, action) else ReadCap(cfg, action))
            && view.perAccount.used == Value(store, own, now)
            && view.perAccount.remaining >= 0 && view.perAccount.remaining >= view.perAccount.cap - view.perAccount.used
            && (view.perAccount.remaining > 0 ==>
                  view.perAccount.remaining == view.perAccount.cap - view.perAccount.used)
            && (view.perAccount.resetsIn.Some? <==> own in store && now < store[own].expires)
            && (view.perAccount.resetsIn.Some? ==> view.perAccount.resetsIn.value == store[own].expires - now)
            && (view.aggregate.Some? <==>
                action == "messages_per_day" || action == "joins_per_day" || action == "invites_per_day")
            && (view.aggregate.Some? ==>
                  var meter := view.aggregate.value;
                  && meter.cap == AggregateCap(cfg, CAP_PROFILE, a.useCase, action, a.Members())
                  && meter.used == Value(store, shared, now)
                  && meter.remaining >= 0 && meter.remaining >= meter.cap - meter.used
                  && (meter.remaining > 0 ==> meter.remaining == meter.cap - meter.used)
                  && (meter.resetsIn.Some? <==> shared in store && now < store[shared].expires)
                  && (meter.resetsIn.Some? ==> meter.resetsIn.value == store[shared].expires - now))
  {
  }

  // ----- The endpoint -----

  datatype Plan = Plan(action: string, kind: Kind, ownKey: Key, sharedKey: Option<Key>)

  function PlanOf(a: Account, i: nat): Plan
    requires i < |ACTIONS|
  {
    var (action, kind) := ACTIONS[i];
    Plan(action, kind, OwnKey(a, action, kind), SharedKey(a, action))
  }

  predicate Listed(keys: set<Key>, p: Plan) {
    p.ownKey in keys && (p.sharedKey.Some? ==> p.sharedKey.value in keys)
  }

  method AddKey(keys: seq<Key>, seen: set<Key>, k: Key) returns (keys': seq<Key>, seen': set<Key>)
    requires NoDuplicates(keys) && seen == set x | x in keys
    ensures NoDuplicates(keys') && seen' == set x | x in keys'
    ensures seen' == seen + {k}
  {
    if k in seen {
      return keys, seen;
    }
    keys', seen' := keys + [k], seen + {k};
  }

  /** First pass over one account: the keys its actions need, each listed once. */
  method PlanAccount(a: Account, keys: seq<Key>, seen: set<Key>)
    returns (plans: seq<Plan>, keys': seq<Key>, seen': set<Key>)
    requires NoDuplicates(keys) && seen == set x | x in keys
    ensures NoDuplicates(keys') && seen' == (set x | x in keys') && seen <= seen'
    ensures |plans| == |ACTIONS|
    ensures forall i :: 0 <= i < |ACTIONS| ==> plans[i] == PlanOf(a, i) && Listed(seen', plans[i])
  {
    plans, keys', seen' := [], keys, seen;
    for i := 0 to |ACTIONS|
      invariant NoDuplicates(keys') && seen' == (set x | x in keys') && seen <= seen'
      invariant |plans| == i
      invariant forall j :: 0 <= j < i ==> plans[j] == PlanOf(a, j) && Listed(seen', plans[j])
    {
      var p := PlanOf(a, i);
      keys', seen' := AddKey(keys', seen', p.ownKey);
      if p.sharedKey.Some? {
        keys', seen' := AddKey(keys', seen', p.sharedKey.value);
      }
      plans := plans + [p];
    }
  }

  /** Second pass over one account. */
  method AssembleAccount(cfg: SafetyConfig.Config, a: Account, plans: seq<Plan>, peeked: map<Key, (int, Option<int>)>,
                         ghost store: Store, ghost now: int)
    returns (view: AccountView)
    requires |plans| == |ACTIONS|
    requires forall i :: 0 <= i < |ACTIONS| ==> plans[i] == PlanOf(a, i) && Listed(peeked.Keys, plans[i])
    requires forall k | k in peeked :: peeked[k] == Peek(store, k, now)
    ensures view == AccountViewOf(store, now, cfg, a)
  {
    var actions: seq<ActionView> := [];
    for i := 0 to |plans|
      invariant |actions| == i
      invariant forall j :: 0 <= j < i ==> actions[j] == View(store, now, cfg, a, ACTIONS[j].0, ACTIONS[j].1)
    {
      var p := plans[i];
      assert Listed(peeked.Keys, p);
      var shared := if p.sharedKey.None? then None else Some(peeked[p.sharedKey.value]);
      actions := actions + [Assemble(cfg, a, p.action, p.kind, peeked[p.ownKey], shared)];
    }
    view := AccountView(a.id, a.useCase, a.credentialId, actions);
    assert view.actions == AccountViewOf(store, now, cfg, a).actions;
  }

  /** The rows asked for, in whatever order the query returns them. */
  function Selected(accounts: seq<Account>, ids: seq<int>): seq<Account> {
    if accounts == [] then []
    else
      Selected(accounts[..|accounts| - 1], ids)
      + if ids == [] || accounts[|accounts| - 1].id in ids then [accounts[|accounts| - 1]] else []
  }

  /** Exactly the accounts asked for, each as often as the table has it. */
  lemma {:induction false} SelectedRows(accounts: seq<Account>, ids: seq<int>)
    ensures forall a :: multiset(Selected(accounts, ids))[a]
                        == if ids == [] || a.id in ids then multiset(accounts)[a] else 0
  {
    if accounts == [] {
    } else {
      var front, last := accounts[..|accounts| - 1], accounts[|accounts| - 1];
      SelectedRows(front, ids);
      assert accounts == front + [last];
    }
  }

  function InsertById(a: Account, rows: seq<Account>): seq<Account> {
    if rows == [] || a.id < rows[0].id then [a] + rows else [rows[0]] + InsertById(a, rows[1..])
  }

  /** The stable sort by id. */
  function SortedById(rows: seq<Account>): seq<Account> {
    if rows == [] then [] else InsertById(rows[|rows| - 1], SortedById(rows[..|rows| - 1]))
  }

  predicate Ascending(rows: seq<Account>) {
    forall i, j :: 0 <= i < j < |rows| ==> rows[i].id <= rows[j].id
  }

  lemma {:induction false} InsertKeepsRows(a: Account, rows: seq<Account>)
    ensures multiset(InsertById(a, rows)) == multiset(rows) + multiset{a}
  {
    if rows == [] || a.id < rows[0].id {
    } else {
      InsertKeepsRows(a, rows[1..]);
      assert rows == [rows[0]] + rows[1..];
    }
  }

  lemma {:induction false} InsertKeepsOrder(a: Account, rows: seq<Account>)
    requires Ascending(rows)
    ensures Ascending(InsertById(a, rows))
  {
    if rows == [] || a.id < rows[0].id {
    } else {
      var tail := InsertById(a, rows[1..]);
      InsertKeepsOrder(a, rows[1..]);
      InsertKeepsRows(a, rows[1..]);
      forall i | 0 <= i < |tail| ensures rows[0].id <= tail[i].id {
        assert tail[i] in multiset(tail);
      }
    }
  }

  /** In ascending order of ids, and the same rows. */
  lemma {:induction false} SortedByIdFacts(rows: seq<Account>)
    ensures Ascending(SortedById(rows)) && multiset(SortedById(rows)) == multiset(rows)
    ensures IdsOf(SortedById(rows)) == IdsOf(rows)
  {
    if rows == [] {
    } else {
      var front, last := rows[..|rows| - 1], rows[|rows| - 1];
      SortedByIdFacts(front);
      InsertKeepsOrder(last, SortedById(front));
      InsertKeepsRows(last, SortedById(front));
      assert rows == front + [last];
    }
    SameIds(SortedById(rows), rows);
  }

  lemma SameIds(a: seq<Account>, b: seq<Account>)
    requires multiset(a) == multiset(b)
    ensures IdsOf(a) == IdsOf(b)
  {
    forall i | 0 <= i < |a| ensures a[i].id in IdsOf(b) {
      assert a[i] in multiset(b);
    }
    forall i | 0 <= i < |b| ensures b[i].id in IdsOf(a) {
      assert b[i] in multiset(a);
    }
  }

  function IdsOf(rows: seq<Account>): set<int> {
    set i | 0 <= i < |rows| :: rows[i].id
  }

  /** Duplicates dropped, the first occurrence kept. */
  function Unique(ids: seq<int>): seq<int> {
    if ids == [] then []
    else
      var front, last := ids[..|ids| - 1], ids[|ids| - 1];
      if last in front then Unique(front) else Unique(front) + [last]
  }

  lemma {:induction false} UniqueFacts(ids: seq<int>)
    ensures forall i :: i in Unique(ids) <==> i in ids
    ensures forall i, j :: 0 <= i < j < |Unique(ids)| ==> Unique(ids)[i] != Unique(ids)[j]
    ensures Unique(ids) == [] <==> ids == []
  {
    if ids == [] {
    } else {
      var front, last := ids[..|ids| - 1], ids[|ids| - 1];
      UniqueFacts(front);
      assert ids == front + [last];
    }
  }

  /** `y` was first requested after a request of `x`. */
  predicate FirstAfter(x: int, y: int, requested: seq<int>) {
    exists p, q :: 0 <= p < q < |requested| && requested[p] == x && requested[q] == y && y !in requested[..q]
  }

  predicate FirstRequestedInOrder(ids: seq<int>, requested: seq<int>) {
    forall i, j :: 0 <= i < j < |ids| ==> FirstAfter(ids[i], ids[j], requested)
  }

  lemma StillAfter(x: int, y: int, front: seq<int>, last: int)
    requires FirstAfter(x, y, front)
    ensures FirstAfter(x, y, front + [last])
  {
    var p, q :| 0 <= p < q < |front| && front[p] == x && front[q] == y && y !in front[..q];
    var requested := front + [last];
    assert requested[p] == x && requested[q] == y && requested[..q] == front[..q];
  }

  lemma NewAfter(x: int, front: seq<int>, last: int)
    requires x in front && last !in front
    ensures FirstAfter(x, last, front + [last])
  {
    var p :| 0 <= p < |front| && front[p] == x;
    var requested := front + [last];
    assert requested[p] == x && requested[|front|] == last && requested[..|front|] == front;
  }

  lemma {:induction false} UniqueInOrder(requested: seq<int>)
    ensures FirstRequestedInOrder(Unique(requested), requested)
  {
    if requested == [] {
    } else {
      var front, last := requested[..|requested| - 1], requested[|requested| - 1];
      var ids := Unique(front);
      UniqueInOrder(front);
      UniqueFacts(front);
      assert front + [last] == requested;
      forall i, j | 0 <= i < j < |ids| ensures FirstAfter(ids[i], ids[j], requested) {
        StillAfter(ids[i], ids[j], front, last);
      }
      if last !in front {
        forall i | 0 <= i < |ids| ensures FirstAfter(ids[i], last, requested) {
          assert ids[i] in ids;
          NewAfter(ids[i], front, last);
        }
      }
    }
  }

  /** The ids that are not found, in their order. */
  function Absent(ids: seq<int>, found: set<int>): seq<int> {
    if ids == [] then []
    else Absent(ids[..|ids| - 1], found) + if ids[|ids| - 1] in found then [] else [ids[|ids| - 1]]
  }

  /** Leaving out what is found keeps the rest, once each. */
  lemma {:induction false} AbsentFacts(ids: seq<int>, found: set<int>)
    requires forall i, j :: 0 <= i < j < |ids| ==> ids[i] != ids[j]
    ensures forall id :: id in Absent(ids, found) <==> id in ids && id !in found
    ensures forall i, j :: 0 <= i < j < |Absent(ids, found)| ==> Absent(ids, found)[i] != Absent(ids, found)[j]
  {
    if ids == [] {
    } else {
      var front, last := ids[..|ids| - 1], ids[|ids| - 1];
      AbsentFacts(front, found);
      assert ids == front + [last] && last !in front;
    }
  }

  predicate Pairwise(ids: seq<int>, related: (int, int) -> bool) {
    forall i, j :: 0 <= i < j < |ids| ==> related(ids[i], ids[j])
  }

  lemma {:induction false} AbsentIsPart(ids: seq<int>, found: set<int>)
    ensures forall id :: id in Absent(ids, found) ==> id in ids
  {
    if ids == [] {
    } else {
      AbsentIsPart(ids[..|ids| - 1], found);
    }
  }

  /** And in order, whatever the order is. */
  lemma {:induction false} AbsentIsPairwise(ids: seq<int>, found: set<int>, related: (int, int) -> bool)
    requires Pairwise(ids, related)
    ensures Pairwise(Absent(ids, found), related)
  {
    if ids == [] {
    } else {
      var front, last := ids[..|ids| - 1], ids[|ids| - 1];
      assert forall i, j :: 0 <= i < j < |front| ==> front[i] == ids[i] && front[j] == ids[j];
      AbsentIsPairwise(front, found, related);
      AbsentIsPart(front, found);
      var absent := Absent(front, found);
      forall i | 0 <= i < |absent| ensures related(absent[i], last) {
        assert absent[i] in absent;
        var n :| 0 <= n < |front| && front[n] == absent[i];
        assert related(ids[n], ids[|front|]);
      }
    }
  }

  lemma AbsentInOrder(ids: seq<int>, found: set<int>, requested: seq<int>)
    requires FirstRequestedInOrder(ids, requested)
    ensures FirstRequestedInOrder(Absent(ids, found), requested)
  {
    AbsentIsPairwise(ids, found, (x, y) => FirstAfter(x, y, requested));
  }

  method Distinct(requested: seq<int>) returns (ids: seq<int>)
    ensures ids == Unique(requested)
  {
    var seen: set<int> := {};
    ids := [];
    for n := 0 to |requested|
      invariant seen == set i | i in requested[..n]
      invariant ids == Unique(requested[..n])
    {
      assert requested[..n + 1][..n] == requested[..n];
      assert requested[..n + 1] == requested[..n] + [requested[n]];
      if requested[n] !in seen {
        ids, seen := ids + [requested[n]], seen + {requested[n]};
      }
    }
    assert requested[..|requested|] == requested;
  }

  method MissingIds(ids: seq<int>, found: set<int>) returns (missing: seq<int>)
    ensures missing == Absent(ids, found)
  {
    missing := [];
    for n := 0 to |ids|
      invariant missing == Absent(ids[..n], found)
    {
      assert ids[..n + 1][..n] == ids[..n];
      if ids[n] !in found {
        missing := missing + [ids[n]];
      }
    }
    assert ids[..|ids|] == ids;
  }

  /** First pass: the plans of every account, and the keys of all of them, once each. */
  method PlanAll(rows: seq<Account>) returns (context: seq<seq<Plan>>, keys: seq<Key>)
    ensures NoDuplicates(keys) && |context| == |rows|
    ensures forall r :: 0 <= r < |rows| ==> Planned(context[r], rows[r], set x | x in keys)
  {
    keys, context := [], [];
    var seen: set<Key> := {};
    for r := 0 to |rows|
      invariant NoDuplicates(keys) && seen == set x | x in keys
      invariant |context| == r
      invariant forall q :: 0 <= q < r ==> Planned(context[q], rows[q], seen)
    {
      var plans;
      ghost var before := seen;
      plans, keys, seen := PlanAccount(rows[r], keys, seen);
      forall q | 0 <= q < r ensures Planned(context[q], rows[q], seen) {
        assert Planned(context[q], rows[q], before);
      }
      context := context + [plans];
    }
  }

  /** Second pass: the response, element by element. */
  method AssembleAll(cfg: SafetyConfig.Config, rows: seq<Account>, context: seq<seq<Plan>>,
                     peeked: map<Key, (int, Option<int>)>, ghost store: Store, ghost now: int)
    returns (accounts: seq<AccountView>)
    requires |context| == |rows| && forall k | k in peeked :: peeked[k] == Peek(store, k, now)
    requires forall r :: 0 <= r < |rows| ==> Planned(context[r], rows[r], peeked.Keys)
    ensures |accounts| == |rows|
    ensures forall r :: 0 <= r < |rows| ==> accounts[r] == AccountViewOf(store, now, cfg, rows[r])
  {
    accounts := [];
    for r := 0 to |rows|
      invariant |accounts| == r
      invariant forall q :: 0 <= q < r ==> accounts[q] == AccountViewOf(store, now, cfg, rows[q])
    {
      assert Planned(context[r], rows[r], peeked.Keys);
      var view := AssembleAccount(cfg, rows[r], context[r], peeked, store, now);
      accounts := accounts + [view];
    }
  }

  /** The zipped answer of the peek. */
  function Zip(keys: seq<Key>, peeked: seq<(int, Option<int>)>): map<Key, (int, Option<int>)>
    requires NoDuplicates(keys) && |keys| == |peeked|
  {
    map i | 0 <= i < |keys| :: keys[i] := peeked[i]
  }

  lemma ZipFacts(keys: seq<Key>, peeked: seq<(int, Option<int>)>, store: Store, now: int)
    requires NoDuplicates(keys) && |keys| == |peeked|
    requires forall i :: 0 <= i < |keys| ==> peeked[i] == Peek(store, keys[i], now)
    ensures Zip(keys, peeked).Keys == set k | k in keys
    ensures forall k | k in Zip(keys, peeked) :: Zip(keys, peeked)[k] == Peek(store, k, now)
  {
  }

  /** The whole snapshot: exactly the accounts of the table that were asked for (all of them
      if none was), by id, and the requested ids that the table does not have, once each in
      the order of their first request. The two passes and the one deduplicated peek amount
      to reading each counter directly, and nothing is spent: the method modifies nothing.
      `rows` are the accounts that are shown. */
  method GetLimits(redis: Redis, cfg: SafetyConfig.Config, table: seq<Account>, requested: seq<int>, now: int)
    returns (accounts: seq<AccountView>, missing: seq<int>, ghost rows: seq<Account>)
    ensures |accounts| == |rows|
    ensures forall i :: 0 <= i < |rows| ==> accounts[i] == AccountViewOf(redis.store, now, cfg, rows[i])
    ensures forall i, j :: 0 <= i < j < |rows| ==> rows[i].id <= rows[j].id
    ensures forall a :: multiset(rows)[a] == if requested == [] || a.id in requested then multiset(table)[a] else 0
    ensures forall id :: id in missing <==> id in requested && forall a | a in table :: a.id != id
    ensures forall i, j :: 0 <= i < j < |missing| ==> missing[i] != missing[j]
    ensures FirstRequestedInOrder(missing, requested)
  {
    var ids := Distinct(requested);
    UniqueFacts(requested);
    SameSelection(table, ids, requested);
    SortedByIdFacts(Selected(table, ids));
    var selected := SortedById(Selected(table, ids));
    missing := MissingIds(ids, IdsOf(selected));
    rows := selected;
    AnswerFacts(table, requested, rows);
    var context, keys := PlanAll(selected);
    var peeked := redis.PeekMany(keys, now);
    ZipFacts(keys, peeked, redis.store, now);
    accounts := AssembleAll(cfg, selected, context, Zip(keys, peeked), redis.store, now);
  }

  /** What the endpoint selects and what it reports as missing. */
  lemma {:induction false} AnswerFacts(table: seq<Account>, requested: seq<int>, rows: seq<Account>)
    requires rows == SortedById(Selected(table, requested))
    ensures forall a :: multiset(rows)[a] == if requested == [] || a.id in requested then multiset(table)[a] else 0
    ensures var missing := Absent(Unique(requested), IdsOf(rows));
            && (forall id :: id in missing <==> id in requested && forall a | a in table :: a.id != id)
            && (forall i, j :: 0 <= i < j < |missing| ==> missing[i] != missing[j])
            && FirstRequestedInOrder(missing, requested)
  {
    SelectedRows(table, requested);
    SortedByIdFacts(Selected(table, requested));
    UniqueFacts(requested);
    UniqueInOrder(requested);
    AbsentFacts(Unique(requested), IdsOf(rows));
    AbsentInOrder(Unique(requested), IdsOf(rows), requested);
    forall id | id in requested
      ensures id in IdsOf(rows) <==> exists a | a in table :: a.id == id
    {
      if i :| 0 <= i < |rows| && rows[i].id == id {
        assert rows[i] in multiset(rows) && rows[i] in multiset(table);
      }
      if a :| a in table && a.id == id {
        assert a in multiset(table) && a in multiset(rows);
      }
    }
  }

  ghost predicate Planned(plans: seq<Plan>, a: Account, seen: set<Key>) {
    |plans| == |ACTIONS| && forall i :: 0 <= i < |ACTIONS| ==> plans[i] == PlanOf(a, i) && Listed(seen, plans[i])
  }

  lemma {:induction false} SameSelection(table: seq<Account>, ids: seq<int>, requested: seq<int>)
    requires (ids == [] <==> requested == []) && forall i :: i in ids <==> i in requested
    ensures Selected(table, ids) == Selected(table, requested)
  {
    if table == [] {
    } else {
      SameSelection(table[..|table| - 1], ids, requested);
    }
  }
}
