/**
 The Redis counters behind the budgets: a value and an expiry that is set only when the
 value becomes 1. The all-or-nothing consume script and the read-only peek are methods of
 `Redis`, proved against the functions on `Store` that the theorems reason about.
 */
module Counters {
  import opened Options

  const DAY := 86400

  datatype Key =
    | Acct(account: int, action: string)
    | Api(apiId: int, useCase: string, action: string)
    | Net(proxy: Option<int>, action: string)
    | Read(action: string, account: int)

  datatype Counter = Counter(value: int, expires: int)

  type Store = map<Key, Counter>

  datatype Budget = Budget(key: Key, cap: int)

  predicate Live(store: Store, k: Key, now: int) {
    k in store && now < store[k].expires
  }

  /** What GET reports: an expired key is gone. */
  function Value(store: Store, k: Key, now: int): int {
    if Live(store, k, now) then store[k].value else 0
  }

  /** INCR, and EXPIRE when the counter became 1. */
  function Incr(store: Store, k: Key, now: int, ttl: int): Store {
    var c := Value(store, k, now) + 1;
    store[k := Counter(c, if c == 1 then now + ttl else store[k].expires)]
  }

  function Keys(budgets: seq<Budget>): seq<Key> {
    seq(|budgets|, i requires 0 <= i < |budgets| => budgets[i].key)
  }

  predicate NoDuplicates(keys: seq<Key>) {
    forall i, j :: 0 <= i < j < |keys| ==> keys[i] != keys[j]
  }

  function ConsumeAll(store: Store, keys: seq<Key>, now: int, ttl: int): Store {
    if keys == [] then store
    else Incr(ConsumeAll(store, keys[..|keys| - 1], now, ttl), keys[|keys| - 1], now, ttl)
  }

  predicate Fits(store: Store, b: Budget, now: int) {
    Value(store, b.key, now) + 1 <= b.cap
  }

  predicate HasRoom(store: Store, budgets: seq<Budget>, now: int) {
    forall i :: 0 <= i < |budgets| ==> Fits(store, budgets[i], now)
  }

  /** Spent from every budget, or from none. */
  function Consumed(store: Store, budgets: seq<Budget>, now: int, ttl: int): Store {
    if HasRoom(store, budgets, now) then ConsumeAll(store, Keys(budgets), now, ttl) else store
  }

  /** Distinct keys are each incremented exactly once; nothing else moves. */
  lemma {:induction false} ConsumeAllOnce(store: Store, keys: seq<Key>, now: int, ttl: int)
    requires NoDuplicates(keys)
    ensures var after := ConsumeAll(store, keys, now, ttl);
            && (forall k | k in keys :: k in after && after[k] == Incr(store, k, now, ttl)[k])
            && (forall k | k !in keys :: (k in after <==> k in store) && (k in after ==> after[k] == store[k]))
  {
    if keys == [] {
    } else {
      var front, last := keys[..|keys| - 1], keys[|keys| - 1];
      ConsumeAllOnce(store, front, now, ttl);
      assert keys == front + [last];
      assert last !in front;
    }
  }

  /** The j-th counter as the increment loop finds it. */
  ghost function CountBefore(store: Store, keys: seq<Key>, j: nat, now: int, ttl: int): int
    requires j < |keys|
  {
    Value(ConsumeAll(store, keys[..j], now, ttl), keys[j], now)
  }

  lemma UntouchedUntilItsTurn(store: Store, keys: seq<Key>, j: nat, now: int, ttl: int)
    requires NoDuplicates(keys) && j < |keys|
    ensures CountBefore(store, keys, j, now, ttl) == Value(store, keys[j], now)
  {
    ConsumeAllOnce(store, keys[..j], now, ttl);
    assert keys[j] !in keys[..j];
  }

  lemma AllUntouchedUntilTheirTurn(store: Store, keys: seq<Key>, now: int, ttl: int)
    requires NoDuplicates(keys)
    ensures forall j :: 0 <= j < |keys| ==> CountBefore(store, keys, j, now, ttl) == Value(store, keys[j], now)
  {
    forall j | 0 <= j < |keys|
      ensures CountBefore(store, keys, j, now, ttl) == Value(store, keys[j], now)
    {
      UntouchedUntilItsTurn(store, keys, j, now, ttl);
    }
  }

  /** Counters are only ever counted up, from 1. */
  predicate Counted(store: Store) {
    forall k | k in store :: store[k].value >= 1
  }

  class Redis {
    var store: Store

    constructor ()
      ensures store == map[]
    {
      store := map[];
    }

    /** The consume script: check every counter, then increment every counter. Returns the
        1-based index of the first counter that refuses, or 0 and what remains of each. */
    method BudgetConsume(budgets: seq<Budget>, now: int, ttl: int) returns (refusedAt: nat, remaining: seq<int>)
      modifies this
      ensures store == Consumed(old(store), budgets, now, ttl)
      ensures refusedAt == 0 <==> HasRoom(old(store), budgets, now)
      ensures refusedAt != 0 ==>
                && refusedAt <= |budgets| && remaining == []
                && !Fits(old(store), budgets[refusedAt - 1], now)
                && forall j :: 0 <= j < refusedAt - 1 ==> Fits(old(store), budgets[j], now)
      ensures refusedAt == 0 && NoDuplicates(Keys(budgets)) ==>
                && |remaining| == |budgets|
                && forall j :: 0 <= j < |budgets| ==>
                     remaining[j] == budgets[j].cap - Value(old(store), budgets[j].key, now) - 1
    {
      for i := 0 to |budgets|
        invariant store == old(store)
        invariant forall j :: 0 <= j < i ==> Fits(store, budgets[j], now)
      {
        if Value(store, budgets[i].key, now) + 1 > budgets[i].cap {
          return i + 1, [];
        }
      }
      refusedAt, remaining := 0, [];
      ghost var keys := Keys(budgets);
      for i := 0 to |budgets|
        invariant store == ConsumeAll(old(store), keys[..i], now, ttl)
        invariant |remaining| == i
        invariant forall j :: 0 <= j < i ==>
                    remaining[j] == budgets[j].cap - CountBefore(old(store), keys, j, now, ttl) - 1
      {
        assert keys[..i + 1][..i] == keys[..i];
        var c := Value(store, budgets[i].key, now) + 1;
        store := Incr(store, budgets[i].key, now, ttl);
        remaining := remaining + [budgets[i].cap - c];
      }
      assert keys[..|budgets|] == keys;
      if NoDuplicates(keys) {
        AllUntouchedUntilTheirTurn(old(store), keys, now, ttl);
      }
    }

    /** The single-counter script: one more than a reader saw, and the expiry of a counter in
        progress is kept while a new one gets its own. Nothing else moves. */
    method RateLimitIncrement(k: Key, now: int, ttl: int) returns (count: int)
      modifies this
      ensures store == Incr(old(store), k, now, ttl)
      ensures count == Value(old(store), k, now) + 1
      ensures k in store && store[k].value == count
      ensures ttl > 0 && old(Counted(store)) ==> Value(store, k, now) == count
      ensures Value(old(store), k, now) == 0 ==> store[k].expires == now + ttl
      ensures Value(old(store), k, now) != 0 ==> store[k].expires == old(store)[k].expires
      ensures forall other :: other != k ==> (other in store <==> other in old(store))
      ensures forall other :: other != k && other in store ==> store[other] == old(store)[other]
    {
      count := Value(store, k, now) + 1;
      store := Incr(store, k, now, ttl);
    }

    /** Value and remaining seconds of every key, in order, without touching any of them. */
    method PeekMany(keys: seq<Key>, now: int) returns (out: seq<(int, Option<int>)>)
      ensures |out| == |keys|
      ensures forall i :: 0 <= i < |keys| ==> out[i] == Peek(store, keys[i], now)
      ensures forall i :: 0 <= i < |keys| ==>
                if keys[i] in store && now < store[keys[i]].expires
                then out[i] == (store[keys[i]].value, Some(store[keys[i]].expires - now))
                else out[i] == (0, None)
    {
      out := [];
      for i := 0 to |keys|
        invariant |out| == i
        invariant forall j :: 0 <= j < i ==> out[j] == Peek(store, keys[j], now)
      {
        var raw := Value(store, keys[i], now);
        out := out + [(raw, if Live(store, keys[i], now) then Some(store[keys[i]].expires - now) else None)];
      }
    }
  }

  function Peek(store: Store, k: Key, now: int): (int, Option<int>) {
    (Value(store, k, now), if Live(store, k, now) then Some(store[k].expires - now) else None)
  }
}
