/**
 What the counters really bound. The expiry is set by the first increment only, so a
 counter lives for `ttl` seconds from its first unit. One lifetime never spends more than
 the cap, but an interval of `ttl` seconds can straddle two lifetimes: the true bound for
 an arbitrary interval is twice the cap, and it is reached. What the counter shows when a
 day begins tells the bound for that day, and whether the day is safe.
 */
module RateBound {
  import opened Counters

  /** One consume call: when it was made and the budgets it presented. */
  datatype Op = Op(at: int, budgets: seq<Budget>)

  ghost function After(ops: seq<Op>, ttl: int): Store {
    if ops == [] then map[]
    else
      var last := ops[|ops| - 1];
      Consumed(After(ops[..|ops| - 1], ttl), last.budgets, last.at, ttl)
  }

  predicate InOrder(ops: seq<Op>) {
    forall i, j :: 0 <= i < j < |ops| ==> ops[i].at <= ops[j].at
  }

  /** Every call names distinct counters, and never presents more than `cap` for `k`. */
  predicate Capped(ops: seq<Op>, k: Key, cap: int) {
    forall i :: 0 <= i < |ops| ==>
      && NoDuplicates(Keys(ops[i].budgets))
      && forall j :: 0 <= j < |ops[i].budgets| && ops[i].budgets[j].key == k ==> ops[i].budgets[j].cap <= cap
  }

  /** The last call of `ops` spends one unit of `k`. */
  ghost predicate Spends(ops: seq<Op>, k: Key, ttl: int)
    requires ops != []
  {
    var last := ops[|ops| - 1];
    k in Keys(last.budgets) && HasRoom(After(ops[..|ops| - 1], ttl), last.budgets, last.at)
  }

  /** Units of `k` spent at instants in [lo, hi]. */
  ghost function Units(ops: seq<Op>, k: Key, ttl: int, lo: int, hi: int): nat {
    if ops == [] then 0
    else
      var last := ops[|ops| - 1];
      Units(ops[..|ops| - 1], k, ttl, lo, hi)
      + if lo <= last.at <= hi && Spends(ops, k, ttl) then 1 else 0
  }

  ghost function UnitsFrom(ops: seq<Op>, k: Key, ttl: int, lo: int): nat {
    if ops == [] then 0
    else
      UnitsFrom(ops[..|ops| - 1], k, ttl, lo)
      + if lo <= ops[|ops| - 1].at && Spends(ops, k, ttl) then 1 else 0
  }

  lemma {:induction false} FromIsAntitone(ops: seq<Op>, k: Key, ttl: int, lo: int, hi: int)
    requires lo <= hi
    ensures UnitsFrom(ops, k, ttl, hi) <= UnitsFrom(ops, k, ttl, lo)
  {
    if ops == [] {
    } else {
      FromIsAntitone(ops[..|ops| - 1], k, ttl, lo, hi);
    }
  }

  /** The stored counter holds exactly the units spent since its birth, which is `ttl`
      before its expiry, and no more than one further lifetime fits in the `ttl` before. */
  ghost predicate LifetimeExact(ops: seq<Op>, k: Key, ttl: int, cap: int) {
    var store := After(ops, ttl);
    if k !in store then forall lo :: UnitsFrom(ops, k, ttl, lo) == 0
    else
      var (value, expires) := (store[k].value, store[k].expires);
      && 1 <= value <= cap
      && ops != [] && expires - ttl <= ops[|ops| - 1].at
      && UnitsFrom(ops, k, ttl, expires - ttl) == value
      && UnitsFrom(ops, k, ttl, expires) == 0
      && forall lo | expires - ttl - ttl <= lo :: UnitsFrom(ops, k, ttl, lo) <= cap + value
  }

  /** One counter lifetime spends what the counter says, and that is at most the cap. */
  lemma {:induction false} OneLifetime(ops: seq<Op>, k: Key, ttl: int, cap: int)
    requires ttl > 0 && InOrder(ops) && Capped(ops, k, cap)
    ensures LifetimeExact(ops, k, ttl, cap)
  {
    if ops == [] {
    } else {
      var front, last := ops[..|ops| - 1], ops[|ops| - 1];
      OneLifetime(front, k, ttl, cap);
      CounterMoves(ops, k, ttl, cap);
      if Spends(ops, k, ttl) {
        UnitAdded(ops, k, ttl, cap);
      } else {
        assert forall lo :: UnitsFrom(ops, k, ttl, lo) == UnitsFrom(front, k, ttl, lo);
      }
    }
  }

  /** A call moves the counter by one unit below its cap, or leaves it alone. */
  lemma CounterMoves(ops: seq<Op>, k: Key, ttl: int, cap: int)
    requires ops != [] && Capped(ops, k, cap)
    ensures var before, after, at := After(ops[..|ops| - 1], ttl), After(ops, ttl), ops[|ops| - 1].at;
            if Spends(ops, k, ttl) then
              && k in after && after[k] == Incr(before, k, at, ttl)[k]
              && Value(before, k, at) + 1 <= cap
            else (k in after <==> k in before) && (k in after ==> after[k] == before[k])
  {
    var front, last := ops[..|ops| - 1], ops[|ops| - 1];
    ConsumeAllOnce(After(front, ttl), Keys(last.budgets), last.at, ttl);
    if Spends(ops, k, ttl) {
      var j :| 0 <= j < |last.budgets| && last.budgets[j].key == k;
      assert Fits(After(front, ttl), last.budgets[j], last.at);
    }
  }

  /** A unit either extends the current lifetime or opens one that starts after it ended. */
  lemma UnitAdded(ops: seq<Op>, k: Key, ttl: int, cap: int)
    requires ttl > 0 && InOrder(ops) && ops != [] && Spends(ops, k, ttl)
    requires var front, last := ops[..|ops| - 1], ops[|ops| - 1];
             && LifetimeExact(front, k, ttl, cap)
             && k in After(ops, ttl)
             && After(ops, ttl)[k] == Incr(After(front, ttl), k, last.at, ttl)[k]
             && Value(After(front, ttl), k, last.at) + 1 <= cap
    ensures LifetimeExact(ops, k, ttl, cap)
  {
    var front, last := ops[..|ops| - 1], ops[|ops| - 1];
    var before, after := After(front, ttl), After(ops, ttl);
    if k in before && !Live(before, k, last.at) {
      forall lo | after[k].expires - ttl - ttl <= lo
        ensures UnitsFrom(ops, k, ttl, lo) <= cap + 1
      {
        FromIsAntitone(front, k, ttl, before[k].expires - ttl, lo);
      }
      FromIsAntitone(front, k, ttl, before[k].expires, last.at);
      FromIsAntitone(front, k, ttl, before[k].expires, last.at + ttl);
    }
  }

  lemma {:induction false} WindowIsAPrefix(ops: seq<Op>, k: Key, ttl: int, lo: int, hi: int) returns (n: nat)
    requires InOrder(ops)
    ensures n <= |ops| && (n > 0 ==> ops[n - 1].at <= hi)
    ensures Units(ops, k, ttl, lo, hi) == UnitsFrom(ops[..n], k, ttl, lo)
  {
    if ops == [] || ops[|ops| - 1].at <= hi {
      n := |ops|;
      assert ops[..n] == ops;
      WholeWindow(ops, k, ttl, lo, hi);
    } else {
      n := WindowIsAPrefix(ops[..|ops| - 1], k, ttl, lo, hi);
      assert ops[..|ops| - 1][..n] == ops[..n];
    }
  }

  lemma {:induction false} WholeWindow(ops: seq<Op>, k: Key, ttl: int, lo: int, hi: int)
    requires InOrder(ops) && (ops != [] ==> ops[|ops| - 1].at <= hi)
    ensures Units(ops, k, ttl, lo, hi) == UnitsFrom(ops, k, ttl, lo)
  {
    if ops == [] {
    } else {
      WholeWindow(ops[..|ops| - 1], k, ttl, lo, hi);
    }
  }

  /** In any interval of `ttl` seconds, whatever else is consumed around it. */
  lemma TwiceTheCap(ops: seq<Op>, k: Key, ttl: int, cap: nat, from: int)
    requires ttl > 0 && InOrder(ops) && Capped(ops, k, cap)
    ensures Units(ops, k, ttl, from, from + ttl) <= 2 * cap
  {
    var n := WindowIsAPrefix(ops, k, ttl, from, from + ttl);
    OneLifetime(ops[..n], k, ttl, cap);
  }

  /** `k` has been called for alone, up to the instant `at`, with a cap of `cap`. */
  predicate Solo(ops: seq<Op>, k: Key, cap: int, at: int) {
    InOrder(ops) && Capped(ops, k, cap) && (ops != [] ==> ops[|ops| - 1].at <= at)
  }

  lemma CappedMore(front: seq<Op>, k: Key, cap: int, at: int)
    requires Capped(front, k, cap)
    ensures Capped(front + [Op(at, [Budget(k, cap)])], k, cap)
  {
    var ops := front + [Op(at, [Budget(k, cap)])];
    assert forall i :: 0 <= i < |front| ==> ops[i] == front[i];
  }

  /** A consume of `k` alone. */
  lemma ConsumeOne(store: Store, k: Key, cap: int, now: int, ttl: int)
    requires Value(store, k, now) + 1 <= cap
    ensures var b := [Budget(k, cap)];
            && k in Keys(b) && HasRoom(store, b, now)
            && Consumed(store, b, now, ttl) == Incr(store, k, now, ttl)
  {
    var b := [Budget(k, cap)];
    assert Keys(b) == [k] && [k][..0] == [];
    assert Fits(store, b[0], now);
    assert ConsumeAll(store, [k], now, ttl) == Incr(ConsumeAll(store, [], now, ttl), k, now, ttl);
  }

  /** A call for `k` alone that finds room adds its one unit. */
  lemma Bought(front: seq<Op>, k: Key, ttl: int, cap: int, at: int) returns (op: Op)
    requires Value(After(front, ttl), k, at) + 1 <= cap
    ensures op == Op(at, [Budget(k, cap)])
    ensures After(front + [op], ttl) == Incr(After(front, ttl), k, at, ttl)
    ensures Spends(front + [op], k, ttl) && (front + [op])[..|front|] == front
    ensures Capped(front, k, cap) ==> Capped(front + [op], k, cap)
  {
    op := Op(at, [Budget(k, cap)]);
    assert (front + [op])[..|front|] == front;
    ConsumeOne(After(front, ttl), k, cap, at, ttl);
    if Capped(front, k, cap) {
      CappedMore(front, k, cap, at);
    }
  }

  lemma InOrderMore(front: seq<Op>, op: Op)
    requires InOrder(front) && (front != [] ==> front[|front| - 1].at <= op.at)
    ensures InOrder(front + [op])
  {
    assert forall i :: 0 <= i < |front| ==> (front + [op])[i] == front[i] && front[i].at <= op.at;
  }

  lemma OneUnitMore(front: seq<Op>, k: Key, ttl: int, cap: int, at: int) returns (ops: seq<Op>)
    requires 0 <= at <= ttl && Solo(front, k, cap, at) && Value(After(front, ttl), k, at) + 1 <= cap
    ensures Solo(ops, k, cap, at) && After(ops, ttl) == Incr(After(front, ttl), k, at, ttl)
    ensures Units(ops, k, ttl, 0, ttl) == Units(front, k, ttl, 0, ttl) + 1
  {
    var op := Bought(front, k, ttl, cap, at);
    ops := front + [op];
    InOrderMore(front, op);
    assert ops[|ops| - 1].at == at;
  }

  /** `n` calls at 0 fill the counter up. */
  lemma {:induction false} FirstBurst(k: Key, ttl: int, cap: int, n: nat) returns (ops: seq<Op>)
    requires ttl > 0 && n <= cap
    ensures Solo(ops, k, cap, 0) && Units(ops, k, ttl, 0, ttl) == n
    ensures After(ops, ttl) == if n > 0 then map[k := Counter(n, ttl)] else map[]
  {
    if n == 0 {
      ops := [];
    } else {
      ops := FirstBurst(k, ttl, cap, n - 1);
      ops := OneUnitMore(ops, k, ttl, cap, 0);
    }
  }

  /** At `ttl` it is gone, and `m` more calls fill the next one. */
  lemma {:induction false} SecondBurst(k: Key, ttl: int, cap: int, m: nat) returns (ops: seq<Op>)
    requires ttl > 0 && 0 < cap && m <= cap
    ensures Solo(ops, k, cap, ttl) && Units(ops, k, ttl, 0, ttl) == cap + m
    ensures After(ops, ttl) == map[k := if m > 0 then Counter(m, ttl + ttl) else Counter(cap, ttl)]
  {
    if m == 0 {
      ops := FirstBurst(k, ttl, cap, cap);
    } else {
      ops := SecondBurst(k, ttl, cap, m - 1);
      ops := OneUnitMore(ops, k, ttl, cap, ttl);
    }
  }

  /** The factor two is real for every cap: that many units pass at 0, and again at `ttl`. */
  lemma TwiceTheCapIsReached(k: Key, ttl: int, cap: nat) returns (ops: seq<Op>)
    requires ttl > 0 && cap >= 1
    ensures InOrder(ops) && Capped(ops, k, cap) && Units(ops, k, ttl, 0, ttl) == 2 * cap
  {
    ops := SecondBurst(k, ttl, cap, cap);
  }

  // ----- One day, from what the counter shows when it begins -----

  /** `later` goes on after `before` through the day that begins at `from`. */
  predicate Continues(before: seq<Op>, later: seq<Op>, from: int, ttl: int) {
    && (forall i :: 0 <= i < |before| ==> before[i].at < from)
    && (forall i :: 0 <= i < |later| ==> from <= later[i].at < from + ttl)
    && InOrder(before) && InOrder(later)
  }

  /** What a day can hold when the counter shows `v` at its beginning. */
  function DayBound(v: int, cap: int): int {
    if v == 0 then cap else 2 * cap - v
  }

  /** `units` have been spent of `k` since `from`, when the store was `first`: the counter is
      still that of the beginning, or one that was born since and outlives the day. */
  predicate SpentSince(first: Store, store: Store, k: Key, from: int, ttl: int, cap: int, units: int) {
    var v := Value(first, k, from);
    && 0 <= v <= cap
    && (|| (&& units == 0 && v == 0 && !Live(store, k, from))
        || (&& v > 0 && k in store && store[k].expires == first[k].expires && units == store[k].value - v
            && store[k].value <= cap)
        || (&& k in store && from + ttl <= store[k].expires && 1 <= store[k].value <= cap
            && units <= store[k].value + if v == 0 then 0 else cap - v))
  }

  lemma SpentWithinBound(first: Store, store: Store, k: Key, from: int, ttl: int, cap: int, units: int)
    requires SpentSince(first, store, k, from, ttl, cap, units) && cap >= 0
    ensures units <= DayBound(Value(first, k, from), cap)
  {
  }

  /** One more unit within the day. */
  lemma SpendOneMore(
      first: Store, store: Store, after: Store, k: Key, from: int, ttl: int, cap: int, units: int, now: int)
    requires SpentSince(first, store, k, from, ttl, cap, units) && from <= now < from + ttl
    requires Value(store, k, now) + 1 <= cap && (k in store ==> store[k].value >= 1)
    requires k in after && after[k] == Incr(store, k, now, ttl)[k]
    ensures SpentSince(first, after, k, from, ttl, cap, units + 1)
  {
  }

  lemma {:induction false} NothingBefore(ops: seq<Op>, k: Key, ttl: int, from: int)
    requires forall i :: 0 <= i < |ops| ==> ops[i].at < from
    ensures UnitsFrom(ops, k, ttl, from) == 0
  {
    if ops == [] {
    } else {
      NothingBefore(ops[..|ops| - 1], k, ttl, from);
    }
  }

  lemma DayBegins(before: seq<Op>, k: Key, ttl: int, cap: nat, from: int)
    requires ttl > 0 && InOrder(before) && Capped(before, k, cap)
    requires forall i :: 0 <= i < |before| ==> before[i].at < from
    ensures SpentSince(After(before, ttl), After(before, ttl), k, from, ttl, cap, UnitsFrom(before, k, ttl, from))
  {
    NothingBefore(before, k, ttl, from);
    OneLifetime(before, k, ttl, cap);
  }

  /** One more call of the day. */
  lemma DayGoesOn(first: Store, ops: seq<Op>, k: Key, ttl: int, cap: nat, from: int)
    requires ttl > 0 && ops != [] && InOrder(ops) && Capped(ops, k, cap) && from <= ops[|ops| - 1].at < from + ttl
    requires var front := ops[..|ops| - 1];
             SpentSince(first, After(front, ttl), k, from, ttl, cap, UnitsFrom(front, k, ttl, from))
    ensures SpentSince(first, After(ops, ttl), k, from, ttl, cap, UnitsFrom(ops, k, ttl, from))
  {
    var front := ops[..|ops| - 1];
    OneLifetime(front, k, ttl, cap);
    CounterMoves(ops, k, ttl, cap);
    if Spends(ops, k, ttl) {
      SpendOneMore(first, After(front, ttl), After(ops, ttl), k, from, ttl, cap,
                   UnitsFrom(front, k, ttl, from), ops[|ops| - 1].at);
    }
  }

  lemma {:induction false} DaySpends(before: seq<Op>, later: seq<Op>, k: Key, ttl: int, cap: nat, from: int)
    requires ttl > 0 && Continues(before, later, from, ttl) && Capped(before + later, k, cap)
    ensures SpentSince(After(before, ttl), After(before + later, ttl), k, from, ttl, cap,
                       UnitsFrom(before + later, k, ttl, from))
  {
    var ops := before + later;
    if later == [] {
      assert ops == before;
      DayBegins(before, k, ttl, cap, from);
    } else {
      var front := later[..|later| - 1];
      assert ops[..|ops| - 1] == before + front;
      DropLast(ops, k, cap);
      DaySpends(before, front, k, ttl, cap, from);
      DayGoesOn(After(before, ttl), ops, k, ttl, cap, from);
    }
  }

  lemma DropLast(ops: seq<Op>, k: Key, cap: int)
    requires ops != [] && Capped(ops, k, cap)
    ensures Capped(ops[..|ops| - 1], k, cap)
  {
    assert forall i :: 0 <= i < |ops| - 1 ==> ops[..|ops| - 1][i] == ops[i];
  }

  /** Whatever is consumed in the day, one peek at its beginning bounds it. */
  lemma {:induction false} DayIsBounded(before: seq<Op>, later: seq<Op>, k: Key, ttl: int, cap: nat, from: int)
    requires ttl > 0 && Continues(before, later, from, ttl) && Capped(before + later, k, cap)
    ensures UnitsFrom(before + later, k, ttl, from) <= DayBound(Value(After(before, ttl), k, from), cap)
  {
    DaySpends(before, later, k, ttl, cap, from);
    SpentWithinBound(After(before, ttl), After(before + later, ttl), k, from, ttl, cap,
                     UnitsFrom(before + later, k, ttl, from));
  }

  /** `ops` goes on after its first `m` calls, all at one instant, and has added `n` units to
      the counter in progress. */
  ghost predicate FilledUp(ops: seq<Op>, m: nat, k: Key, ttl: int, cap: nat, at: int, lo: int, n: nat)
    requires m <= |ops|
  {
    var (first, last) := (After(ops[..m], ttl), After(ops, ttl));
    && (forall i :: m <= i < |ops| ==> ops[i].at == at) && Capped(ops, k, cap)
    && Value(last, k, at) == Value(first, k, at) + n
    && (Value(first, k, at) > 0 ==> k in last && last[k].expires == first[k].expires)
    && UnitsFrom(ops, k, ttl, lo) == UnitsFrom(ops[..m], k, ttl, lo) + n
  }

  /** One more call at `at` that finds room, seen from `lo`. */
  lemma BoughtAt(front: seq<Op>, k: Key, ttl: int, cap: int, at: int, lo: int) returns (op: Op)
    requires ttl > 0 && lo <= at && 0 <= Value(After(front, ttl), k, at) < cap && Capped(front, k, cap)
    ensures op.at == at && Capped(front + [op], k, cap)
    ensures Value(After(front + [op], ttl), k, at) == Value(After(front, ttl), k, at) + 1
    ensures Value(After(front, ttl), k, at) > 0 ==>
              k in After(front + [op], ttl) && After(front + [op], ttl)[k].expires == After(front, ttl)[k].expires
    ensures UnitsFrom(front + [op], k, ttl, lo) == UnitsFrom(front, k, ttl, lo) + 1
  {
    op := Bought(front, k, ttl, cap, at);
  }

  lemma FillOneMore(ops: seq<Op>, m: nat, k: Key, ttl: int, cap: nat, at: int, lo: int, n: nat) returns (more: seq<Op>)
    requires m <= |ops| && ttl > 0 && lo <= at && FilledUp(ops, m, k, ttl, cap, at, lo, n)
    requires 0 <= Value(After(ops[..m], ttl), k, at) < cap - n
    ensures |more| >= m && more[..m] == ops[..m] && FilledUp(more, m, k, ttl, cap, at, lo, n + 1)
  {
    var op := BoughtAt(ops, k, ttl, cap, at, lo);
    more := ops + [op];
    assert more[..m] == ops[..m];
  }

  /** `n` calls at one instant that find room for all of them. */
  lemma {:induction false} FillUp(before: seq<Op>, k: Key, ttl: int, cap: nat, at: int, lo: int, n: nat)
    returns (ops: seq<Op>)
    requires ttl > 0 && lo <= at && Capped(before, k, cap)
    requires 0 <= Value(After(before, ttl), k, at) <= cap - n
    ensures before <= ops && FilledUp(ops, |before|, k, ttl, cap, at, lo, n)
  {
    if n == 0 {
      ops := before;
      assert ops[..|before|] == before;
    } else {
      ops := FillUp(before, k, ttl, cap, at, lo, n - 1);
      assert ops[..|before|] == before;
      ops := FillOneMore(ops, |before|, k, ttl, cap, at, lo, n - 1);
    }
  }

  /** A counter that is alive at `from` is filled up then, and once more when it expires. */
  lemma {:induction false} FillTwice(before: seq<Op>, k: Key, ttl: int, cap: nat, from: int) returns (ops: seq<Op>)
    requires ttl > 0 && Continues(before, [], from, ttl) && Capped(before, k, cap)
    requires Value(After(before, ttl), k, from) > 0
    ensures before <= ops && Capped(ops, k, cap) && Continues(before, ops[|before|..], from, ttl)
    ensures UnitsFrom(ops, k, ttl, from) == 2 * cap - Value(After(before, ttl), k, from)
  {
    OneLifetime(before, k, ttl, cap);
    NothingBefore(before, k, ttl, from);
    var full := FillUp(before, k, ttl, cap, from, from, cap - Value(After(before, ttl), k, from));
    assert full[..|before|] == before;
    var expiry := After(before, ttl)[k].expires;
    ops := FillUp(full, k, ttl, cap, expiry, from, cap);
    assert ops[..|full|] == full;
    TwoInstants(before, full, ops, from, expiry, ttl);
  }

  lemma TwoInstants(before: seq<Op>, full: seq<Op>, ops: seq<Op>, from: int, expiry: int, ttl: int)
    requires Continues(before, [], from, ttl) && before <= full <= ops && from < expiry < from + ttl
    requires forall i :: |before| <= i < |full| ==> full[i].at == from
    requires forall i :: |full| <= i < |ops| ==> ops[i].at == expiry
    ensures before <= ops && Continues(before, ops[|before|..], from, ttl)
  {
    var later := ops[|before|..];
    assert forall i :: 0 <= i < |later| ==> later[i].at == if i < |full| - |before| then from else expiry;
  }

  /** And every bound is reached. */
  lemma {:induction false} DayBoundIsReached(before: seq<Op>, k: Key, ttl: int, cap: nat, from: int)
    returns (later: seq<Op>)
    requires ttl > 0 && Continues(before, [], from, ttl) && Capped(before, k, cap)
    ensures Continues(before, later, from, ttl) && Capped(before + later, k, cap)
    ensures UnitsFrom(before + later, k, ttl, from) == DayBound(Value(After(before, ttl), k, from), cap)
  {
    OneLifetime(before, k, ttl, cap);
    var ops: seq<Op>;
    if Value(After(before, ttl), k, from) == 0 {
      NothingBefore(before, k, ttl, from);
      ops := FillUp(before, k, ttl, cap, from, from, cap);
      assert ops[..|before|] == before;
    } else {
      ops := FillTwice(before, k, ttl, cap, from);
    }
    later := ops[|before|..];
    assert before + later == ops;
  }

  /** Whatever is called in the day, no more than the cap is spent in it. */
  ghost predicate DayIsSafe(before: seq<Op>, k: Key, ttl: int, cap: nat, from: int) {
    forall later | Continues(before, later, from, ttl) && Capped(before + later, k, cap) ::
      UnitsFrom(before + later, k, ttl, from) <= cap
  }

  /** So a day is safe if and only if the counter is absent or already full when it begins. */
  lemma {:induction false} DayStaysWithinCapIff(before: seq<Op>, k: Key, ttl: int, cap: nat, from: int)
    requires ttl > 0 && Continues(before, [], from, ttl) && Capped(before, k, cap)
    ensures var v := Value(After(before, ttl), k, from);
            DayIsSafe(before, k, ttl, cap, from) <==> v == 0 || v >= cap
  {
    var v := Value(After(before, ttl), k, from);
    if v == 0 || v >= cap {
      forall later | Continues(before, later, from, ttl) && Capped(before + later, k, cap)
        ensures UnitsFrom(before + later, k, ttl, from) <= cap
      {
        DayIsBounded(before, later, k, ttl, cap, from);
      }
    } else {
      var later := DayBoundIsReached(before, k, ttl, cap, from);
      assert UnitsFrom(before + later, k, ttl, from) > cap;
    }
  }
}
