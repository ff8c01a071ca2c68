/**
 The warm-up ladder: a tick raises `warmup_day` to the elapsed days and promotes an
 account by at most one tier, once it has served the days of every tier so far.
 */
module WarmupLadder {
  import opened Options

  const TIER_ORDER: seq<string> := ["fresh", "basic", "intermediate", "ready"]
  const DAY := 86400

  /** Days per tier of one use case; a tier that is not configured adds nothing. */
  type Tiers = map<string, int>

  datatype Status = Warmup | Active | Other

  datatype Progress = Progress(day: int, tier: string, status: Status, createdAt: Option<int>)

  function DaysOf(tiers: Tiers, t: string): int { if t in tiers then tiers[t] else 0 }

  /** The days of the first `n` tiers. */
  function ServedBefore(tiers: Tiers, n: nat): int
    requires n <= |TIER_ORDER|
  {
    if n == 0 then 0 else ServedBefore(tiers, n - 1) + DaysOf(tiers, TIER_ORDER[n - 1])
  }

  function IndexOf(t: string): nat
    ensures IndexOf(t) <= |TIER_ORDER|
    ensures IndexOf(t) < |TIER_ORDER| <==> t in TIER_ORDER
    ensures IndexOf(t) < |TIER_ORDER| ==> TIER_ORDER[IndexOf(t)] == t
  {
    if t == TIER_ORDER[0] then 0 else if t == TIER_ORDER[1] then 1
    else if t == TIER_ORDER[2] then 2 else if t == TIER_ORDER[3] then 3 else 4
  }

  method CumulativeDays(tiers: Tiers, through: string) returns (total: int)
    ensures total == ServedBefore(tiers, if through in TIER_ORDER then IndexOf(through) + 1 else |TIER_ORDER|)
  {
    total := 0;
    for i := 0 to |TIER_ORDER|
      invariant total == ServedBefore(tiers, i)
      invariant through !in TIER_ORDER[..i]
    {
      var t := TIER_ORDER[i];
      if t in tiers {
        total := total + tiers[t];
      }
      if t == through {
        TierIndex(i);
        return;
      }
      assert TIER_ORDER[..i + 1] == TIER_ORDER[..i] + [t];
    }
    assert TIER_ORDER[..|TIER_ORDER|] == TIER_ORDER;
  }

  /** The four names are different. */
  lemma TierIndex(i: nat)
    requires i < |TIER_ORDER|
    ensures IndexOf(TIER_ORDER[i]) == i
  {
    assert "fresh"[0] != "basic"[0] && "fresh"[0] != "intermediate"[0] && "fresh"[0] != "ready"[0];
    assert "basic"[0] != "intermediate"[0] && "basic"[0] != "ready"[0] && "intermediate"[0] != "ready"[0];
  }

  predicate DueForNext(p: Progress, tiers: Tiers, known: bool) {
    && p.day >= 0 && known && p.tier in TIER_ORDER && IndexOf(p.tier) + 1 < |TIER_ORDER|
    && p.day >= ServedBefore(tiers, IndexOf(p.tier) + 1)
  }

  function Promoted(p: Progress, tiers: Tiers, known: bool): Progress {
    if !DueForNext(p, tiers, known) then p
    else
      var next := IndexOf(p.tier) + 1;
      p.(tier := TIER_ORDER[next], status := if next == |TIER_ORDER| - 1 then Active else p.status)
  }

  function Aged(p: Progress, now: int): Progress {
    if p.createdAt.Some? && (now - p.createdAt.value) / DAY > p.day
    then p.(day := (now - p.createdAt.value) / DAY) else p
  }

  /** One tick of one account. */
  function Ticked(p: Progress, tiers: Tiers, known: bool, now: int): Progress {
    if p.status != Warmup then p else Promoted(Aged(p, now), tiers, known)
  }

  /** The days an account has to serve before it leaves a tier, tier by tier. */
  lemma DaysToServe(tiers: Tiers)
    ensures var of := (t: string) => if t in tiers then tiers[t] else 0;
            && ServedBefore(tiers, 1) == of("fresh")
            && ServedBefore(tiers, 2) == of("fresh") + of("basic")
            && ServedBefore(tiers, 3) == of("fresh") + of("basic") + of("intermediate")
  {
    assert ServedBefore(tiers, 0) == 0 && ServedBefore(tiers, 1) == DaysOf(tiers, TIER_ORDER[0]);
    assert ServedBefore(tiers, 2) == ServedBefore(tiers, 1) + DaysOf(tiers, TIER_ORDER[1]);
    assert ServedBefore(tiers, 3) == ServedBefore(tiers, 2) + DaysOf(tiers, TIER_ORDER[2]);
  }

  class Account {
    var day: int
    var tier: string
    var status: Status
    const createdAt: Option<int>

    ghost function State(): Progress
      reads this
    {
      Progress(day, tier, status, createdAt)
    }

    constructor (createdAt: Option<int>)
      ensures State() == Progress(0, "fresh", Warmup, createdAt)
    {
      this.createdAt := createdAt;
      day, tier, status := 0, "fresh", Warmup;
    }

    /** Returns the new tier when there was a promotion. */
    method AdvanceTierIfDue(tiers: Tiers, known: bool) returns (newTier: Option<string>)
      modifies this
      ensures State() == Promoted(old(State()), tiers, known)
      ensures newTier == if DueForNext(old(State()), tiers, known) then Some(tier) else None
      ensures var rung := IndexOf(old(tier));
              var due := known && old(day) >= 0 && rung < 3 && old(day) >= ServedBefore(tiers, rung + 1);
              && (newTier.Some? <==> due)
              && (due ==> tier == TIER_ORDER[rung + 1] && status == if rung == 2 then Active else old(status))
              && (!due ==> tier == old(tier) && status == old(status))
              && day == old(day)
    {
      if day < 0 || tier == "ready" || !known || tier !in TIER_ORDER {
        TierIndex(3);
        return None;
      }
      var current := IndexOf(tier);
      if current + 1 >= |TIER_ORDER| {
        return None;
      }
      var needed := CumulativeDays(tiers, tier);
      if day < needed {
        return None;
      }
      tier := TIER_ORDER[current + 1];
      TierIndex(current + 1);
      TierIndex(3);
      if tier == "ready" {
        status := Active;
      }
      newTier := Some(tier);
    }
  }

  /** The daily driver over the accounts still warming up. */
  method RunWarmupTick(accounts: seq<Account>, schedule: map<Account, (Tiers, bool)>, now: int)
    requires forall a :: a in accounts ==> a in schedule
    requires forall i, j :: 0 <= i < j < |accounts| ==> accounts[i] != accounts[j]
    modifies set a | a in accounts
    ensures forall a :: a in accounts ==> a.State() == Ticked(old(a.State()), schedule[a].0, schedule[a].1, now)
  {
    for i := 0 to |accounts|
      invariant forall j :: 0 <= j < i ==>
                  var (tiers, known) := schedule[accounts[j]];
                  accounts[j].State() == Ticked(old(accounts[j].State()), tiers, known, now)
      invariant forall j :: i <= j < |accounts| ==> accounts[j].State() == old(accounts[j].State())
    {
      var a := accounts[i];
      if a.status == Warmup {
        if a.createdAt.Some? {
          var elapsed := (now - a.createdAt.value) / DAY;
          if elapsed > a.day {
            a.day := elapsed;
          }
        }
        var newTier := a.AdvanceTierIfDue(schedule[a].0, schedule[a].1);
      }
    }
  }

  /** One tick, for an account still warming up: the day becomes the elapsed whole days if
      they are more, and the next tier is reached exactly when the days so far are served. */
  lemma TickClimbsIffServed(p: Progress, tiers: Tiers, known: bool, now: int)
    requires p.status == Warmup && p.day >= 0 && p.tier in TIER_ORDER
    ensures var q := Ticked(p, tiers, known, now);
            && (forall c :: p.createdAt == Some(c) ==>
                  && q.day >= p.day && now - c < (q.day + 1) * 86400
                  && (q.day > p.day ==> q.day * 86400 <= now - c))
            && (p.createdAt == None ==> q.day == p.day)
            && (IndexOf(q.tier) == IndexOf(p.tier) + 1 <==>
                known && IndexOf(p.tier) < 3 && q.day >= ServedBefore(tiers, IndexOf(p.tier) + 1))
            && (IndexOf(q.tier) != IndexOf(p.tier) + 1 ==> q.tier == p.tier)
            && (q.status == Active <==> IndexOf(p.tier) == 2 && IndexOf(q.tier) == 3)
            && (q.status != Active ==> q.status == Warmup)
  {
    TierIndex(1);
    TierIndex(2);
    TierIndex(3);
  }

  // ----- Over every run of ticks -----

  function AfterTicks(p: Progress, tiers: Tiers, known: bool, nows: seq<int>): Progress {
    if nows == [] then p else Ticked(AfterTicks(p, tiers, known, nows[..|nows| - 1]), tiers, known, nows[|nows| - 1])
  }

  /** It stands on a tier of the ladder and has served the days of every earlier one. */
  predicate Earned(p: Progress, tiers: Tiers) {
    p.tier in TIER_ORDER && p.day >= 0 && (IndexOf(p.tier) > 0 ==> p.day >= ServedBefore(tiers, IndexOf(p.tier)))
  }

  lemma TickKeepsLadder(p: Progress, tiers: Tiers, known: bool, now: int)
    requires Earned(p, tiers)
    ensures var q := Ticked(p, tiers, known, now);
            && Earned(q, tiers)
            && p.day <= q.day && IndexOf(p.tier) <= IndexOf(q.tier) <= IndexOf(p.tier) + 1
  {
    if DueForNext(Aged(p, now), tiers, known) {
      TierIndex(IndexOf(p.tier) + 1);
    }
  }

  /** From a fresh account, after any ticks: no tier before its time, nothing ever lost
      between an earlier and a later point of the run. */
  lemma {:induction false} LadderIsClimbed(start: Progress, tiers: Tiers, known: bool, nows: seq<int>, n: nat)
    requires start.day == 0 && start.tier == "fresh" && n <= |nows|
    ensures var mid, end := AfterTicks(start, tiers, known, nows[..n]), AfterTicks(start, tiers, known, nows);
            && Earned(end, tiers)
            && mid.day <= end.day && IndexOf(mid.tier) <= IndexOf(end.tier)
  {
    TierIndex(0);
    if n == |nows| {
      assert nows[..n] == nows;
      if n > 0 {
        LadderIsClimbed(start, tiers, known, nows[..n - 1], n - 1);
        TickKeepsLadder(AfterTicks(start, tiers, known, nows[..n - 1]), tiers, known, nows[n - 1]);
      }
    } else {
      var front := nows[..|nows| - 1];
      LadderIsClimbed(start, tiers, known, front, n);
      assert front[..n] == nows[..n];
      TickKeepsLadder(AfterTicks(start, tiers, known, front), tiers, known, nows[|nows| - 1]);
    }
  }

  /** In real time: whoever stands on a tier was created at least as many days ago as the
      earlier tiers take. */
  lemma {:induction false} NoTierBeforeItsDays(created: int, tiers: Tiers, known: bool, nows: seq<int>)
    requires forall i, j :: 0 <= i < j < |nows| ==> nows[i] <= nows[j]
    ensures var end := AfterTicks(Progress(0, "fresh", Warmup, Some(created)), tiers, known, nows);
            && end.createdAt == Some(created)
            && (end.day == 0 || (nows != [] && created + end.day * DAY <= nows[|nows| - 1]))
            && (end.tier in TIER_ORDER && ServedBefore(tiers, IndexOf(end.tier)) > 0 ==>
                  nows != [] && created + ServedBefore(tiers, IndexOf(end.tier)) * DAY <= nows[|nows| - 1])
  {
    if nows == [] {
    } else {
      NoTierBeforeItsDays(created, tiers, known, nows[..|nows| - 1]);
    }
    var start := Progress(0, "fresh", Warmup, Some(created));
    LadderIsClimbed(start, tiers, known, nows, 0);
    TierIndex(0);
  }

  /** And nobody is kept waiting: once the days of all tiers have passed since its creation,
      three ticks take a fresh account of a known use case to the last tier and make it active. */
  lemma {:induction false} LadderIsFinished(created: int, tiers: Tiers, nows: seq<int>, n: nat)
    requires n <= 3 && |nows| == n
    requires forall i :: 0 <= i < n ==>
               && ServedBefore(tiers, i + 1) * 86400 <= nows[i] - created
               && 0 <= nows[i] - created
    ensures var q := AfterTicks(Progress(0, "fresh", Warmup, Some(created)), tiers, true, nows);
            && q.tier == TIER_ORDER[n] && q.createdAt == Some(created) && q.day >= 0
            && q.status == if n == 3 then Active else Warmup
  {
    TierIndex(0);
    if n == 0 {
    } else {
      LadderIsFinished(created, tiers, nows[..n - 1], n - 1);
      var p := AfterTicks(Progress(0, "fresh", Warmup, Some(created)), tiers, true, nows[..n - 1]);
      TierIndex(n - 1);
      TierIndex(n);
      TickClimbsIffServed(p, tiers, true, nows[n - 1]);
    }
  }
}
