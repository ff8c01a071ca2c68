/**
 The bounded per-account schedule cache: what it keeps, when a DM override survives in
 it, and that it never shows anything but the deterministic schedule of the current week.
 */
module ScheduleCache {
  import opened Options
  import opened Schedule

  const DM_OVERRIDE := 1200

  /** An account's pinned working hours (NULL when not pinned) and its proxy's offset. */
  datatype Account = Account(workStart: Option<int>, workEnd: Option<int>, offset: int)

  /** What one seeded generator yields, in the order it is asked. */
  datatype Draws = Draws(
    startHour: int, endHour: int, startQuarter: int, endQuarter: int, restDay: int, second: bool, secondDay: int)

  /** The generator is an unknown function of the seed (and of which draws are skipped);
      only the ranges of the draws are known. */
  type Generator = (int, bool, bool) -> Draws

  predicate InRange(d: Draws) {
    && 9 <= d.startHour <= 10 && 19 <= d.endHour <= 21
    && 0 <= d.startQuarter < 4 && 0 <= d.endQuarter < 4
    && 0 <= d.restDay < 7 && 0 <= d.secondDay < 7 && d.secondDay != d.restDay
  }

  function Seed(id: int, week: int): int { (id * 1_000_003 + week) % 0x8000_0000 }

  /** A pinned full-day window means always on. */
  predicate AlwaysOn(a: Account) {
    a.workStart.Some? && a.workEnd.Some? && a.workStart.value <= 0 && a.workEnd.value >= 24
  }

  function Generated(rng: Generator, id: int, a: Account, week: int): Weekly {
    if AlwaysOn(a) then Weekly(0, 0, 24, 0, {}, week, None)
    else
      var d := rng(Seed(id, week), a.workStart.Some?, a.workEnd.Some?);
      Weekly(if a.workStart.Some? then a.workStart.value else d.startHour,
             if a.workStart.Some? then 0 else 15 * d.startQuarter,
             if a.workEnd.Some? then a.workEnd.value else d.endHour,
             if a.workEnd.Some? then 0 else 15 * d.endQuarter,
             {d.restDay} + if d.second then {d.secondDay} else {},
             week, None)
  }

  /** A generated schedule always has a working day, so the one-day fallback of the
      search is never reached; unpinned, its window is open between 9:00 and 21:45. */
  lemma GeneratedAlwaysWorksSomeDay(rng: Generator, id: int, a: Account, week: int)
    requires InRange(rng(Seed(id, week), a.workStart.Some?, a.workEnd.Some?))
    ensures !NeverWorks(Generated(rng, id, a, week))
    ensures a.workStart.None? && a.workEnd.None? ==>
              var w := Generated(rng, id, a, week);
              ValidStart(w) && 9 * 60 <= w.StartMinutes() < w.EndMinutes() < 22 * 60
  {
    var w := Generated(rng, id, a, week);
    var free := if 0 !in w.restDays then 0 else if 1 !in w.restDays then 1 else 2;
    assert free !in w.restDays;
  }

  /** Pinned hours are kept as they are, on the hour, and a pinned full day never rests; what
      is not pinned is drawn, in quarters of an hour. */
  lemma PinnedHoursAreKept(rng: Generator, id: int, a: Account, week: int)
    requires InRange(rng(Seed(id, week), a.workStart.Some?, a.workEnd.Some?))
    ensures var w := Generated(rng, id, a, week);
            && w.weekIndex == week && w.dmOverrideUntil == None
            && (a.workStart.Some? && a.workEnd.Some? && a.workStart.value <= 0 && a.workEnd.value >= 24 ==>
                  w.startHour == 0 && w.startMinute == 0 && w.endHour == 24 && w.endMinute == 0 && w.restDays == {})
            && (!(a.workStart.Some? && a.workEnd.Some? && a.workStart.value <= 0 && a.workEnd.value >= 24) ==>
                  && (a.workStart.Some? ==> w.startHour == a.workStart.value && w.startMinute == 0)
                  && (a.workEnd.Some? ==> w.endHour == a.workEnd.value && w.endMinute == 0)
                  && (a.workStart.None? ==> 9 <= w.startHour <= 10 && w.startMinute in {0, 15, 30, 45})
                  && (a.workEnd.None? ==> 19 <= w.endHour <= 21 && w.endMinute in {0, 15, 30, 45})
                  && 1 <= |w.restDays| <= 2 && forall d | d in w.restDays :: 0 <= d < 7)
  {
    var d := rng(Seed(id, week), a.workStart.Some?, a.workEnd.Some?);
    if d.second {
      assert {d.restDay} + {d.secondDay} == {d.restDay, d.secondDay};
    }
  }

  /** Neighbouring weeks and neighbouring accounts get different seeds, in steps that wrap
      around at 31 bits. */
  lemma SeedsStep(id: int, week: int)
    ensures 0 <= Seed(id, week) < 0x8000_0000
    ensures (Seed(id, week + 1) - Seed(id, week) - 1) % 0x8000_0000 == 0
    ensures (Seed(id + 1, week) - Seed(id, week) - 1_000_003) % 0x8000_0000 == 0
    ensures Seed(id, week + 1) != Seed(id, week) && Seed(id + 1, week) != Seed(id, week)
  {
  }

  // ----- The cache as a value -----

  /** `order` lists the cached ids, the most recently touched last. */
  datatype Cache = Cache(order: seq<int>, entries: map<int, Weekly>)

  function Without(order: seq<int>, id: int): seq<int> {
    if order == [] then []
    else Without(order[..|order| - 1], id) + if order[|order| - 1] == id then [] else [order[|order| - 1]]
  }

  function MovedToEnd(order: seq<int>, id: int): seq<int> { Without(order, id) + [id] }

  /** `id` becomes the most recent; beyond `max` the oldest id leaves. */
  function Stored(c: Cache, id: int, w: Weekly, max: nat): Cache {
    var moved := MovedToEnd(c.order, id);
    if |moved| > max then Cache(moved[1..], c.entries[id := w] - {moved[0]})
    else Cache(moved, c.entries[id := w])
  }

  /** The schedule `_get` answers: the cached one of this week, or a regenerated one that
      keeps the override. */
  function Answer(c: Cache, rng: Generator, id: int, a: Account, now: int): Weekly {
    if id in c.entries && c.entries[id].weekIndex == WeekIndex(now) then c.entries[id]
    else Generated(rng, id, a, WeekIndex(now)).(
           dmOverrideUntil := if id in c.entries then c.entries[id].dmOverrideUntil else None)
  }

  function Got(c: Cache, rng: Generator, id: int, a: Account, now: int, max: nat): Cache {
    Stored(c, id, Answer(c, rng, id, a, now), max)
  }

  function WithOverride(w: Weekly, now: int): Weekly {
    w.(dmOverrideUntil := Some(now + DM_OVERRIDE))
  }

  function OverrideOpened(c: Cache, rng: Generator, id: int, a: Account, now: int, max: nat): Cache {
    Stored(Got(c, rng, id, a, now, max), id, WithOverride(Answer(c, rng, id, a, now), now), max)
  }

  predicate Distinct(order: seq<int>) {
    forall i, j :: 0 <= i < j < |order| ==> order[i] != order[j]
  }

  /** The order lists exactly the keys, once each, and no more than `max` of them. */
  ghost predicate CacheOk(c: Cache, max: nat) {
    && Distinct(c.order) && |c.order| <= max
    && forall k :: k in c.entries <==> k in c.order
  }

  lemma {:induction false} WithoutFacts(order: seq<int>, id: int)
    ensures forall k :: k in Without(order, id) <==> k in order && k != id
    ensures id !in order ==> Without(order, id) == order
    ensures |Without(order, id)| + (if id in order then 1 else 0) <= |order|
  {
    if order == [] {
    } else {
      var front, last := order[..|order| - 1], order[|order| - 1];
      WithoutFacts(front, id);
      assert order == front + [last];
    }
  }

  lemma {:induction false} WithoutIsDistinct(order: seq<int>, id: int)
    requires Distinct(order)
    ensures Distinct(Without(order, id))
  {
    if order == [] {
    } else {
      var front, last := order[..|order| - 1], order[|order| - 1];
      WithoutIsDistinct(front, id);
      WithoutFacts(front, id);
      DistinctAppend(Without(front, id), last);
    }
  }

  lemma DistinctAppend(order: seq<int>, id: int)
    requires Distinct(order) && id !in order
    ensures Distinct(order + [id])
  {
  }

  lemma MovedFacts(order: seq<int>, id: int)
    requires Distinct(order)
    ensures var moved := MovedToEnd(order, id);
            && Distinct(moved) && |moved| <= |order| + 1 && moved[|moved| - 1] == id
            && (id in order ==> |moved| <= |order|)
            && forall k :: k in moved <==> k == id || k in order
  {
    WithoutFacts(order, id);
    WithoutIsDistinct(order, id);
    var moved := MovedToEnd(order, id);
    DistinctAppend(Without(order, id), id);
    assert moved[|moved| - 1] == id;
  }

  lemma StoredOk(c: Cache, id: int, w: Weekly, max: nat)
    requires CacheOk(c, max) && max > 0
    ensures CacheOk(Stored(c, id, w, max), max)
    ensures id in Stored(c, id, w, max).entries && Stored(c, id, w, max).entries[id] == w
    ensures forall k | k in Stored(c, id, w, max).entries && k != id ::
              k in c.entries && Stored(c, id, w, max).entries[k] == c.entries[k]
  {
    MovedFacts(c.order, id);
    var moved := MovedToEnd(c.order, id);
    if |moved| > max {
      assert moved == [moved[0]] + moved[1..];
      assert moved[0] !in moved[1..] && moved[|moved| - 1] in moved[1..];
    }
  }

  lemma StoredShape(c: Cache, id: int, w: Weekly, max: nat)
    requires CacheOk(c, max) && max > 0
    ensures var order := Stored(c, id, w, max).order;
            Distinct(order) && 0 < |order| <= max && order[|order| - 1] == id
  {
    MovedFacts(c.order, id);
  }

  lemma StoreAtEnd(c: Cache, id: int, w: Weekly, max: nat)
    requires Distinct(c.order) && 0 < |c.order| <= max && c.order[|c.order| - 1] == id
    ensures Stored(c, id, w, max) == Cache(c.order, c.entries[id := w])
  {
    EndStays(c.order, id);
  }

  /** Storing an id that was just stored only replaces its schedule. */
  lemma StoredTwice(c: Cache, id: int, w1: Weekly, w2: Weekly, max: nat)
    requires CacheOk(c, max) && max > 0
    ensures Stored(Stored(c, id, w1, max), id, w2, max) == Stored(c, id, w2, max)
  {
    StoredShape(c, id, w1, max);
    StoreAtEnd(Stored(c, id, w1, max), id, w2, max);
    ReplacedEntries(c, id, w1, w2, max);
  }

  lemma ReplacedEntries(c: Cache, id: int, w1: Weekly, w2: Weekly, max: nat)
    requires CacheOk(c, max) && max > 0
    ensures Stored(c, id, w1, max).order == Stored(c, id, w2, max).order
    ensures Stored(c, id, w1, max).entries[id := w2] == Stored(c, id, w2, max).entries
  {
    var moved := MovedToEnd(c.order, id);
    MovedFacts(c.order, id);
    if |moved| > max {
      assert moved[0] != moved[|moved| - 1];
      UpdateThenRemove(c.entries, id, w1, w2, moved[0]);
    } else {
      assert c.entries[id := w1][id := w2] == c.entries[id := w2];
    }
  }

  lemma UpdateThenRemove(m: map<int, Weekly>, id: int, w1: Weekly, w2: Weekly, gone: int)
    requires gone != id
    ensures (m[id := w1] - {gone})[id := w2] == m[id := w2] - {gone}
  {
  }

  lemma EndStays(order: seq<int>, id: int)
    requires Distinct(order) && order != [] && order[|order| - 1] == id
    ensures MovedToEnd(order, id) == order
  {
    WithoutFacts(order[..|order| - 1], id);
  }

  /** Looking again at the same instant answers the same and changes nothing more. */
  lemma GotAgain(c: Cache, rng: Generator, id: int, a: Account, now: int, max: nat)
    requires CacheOk(c, max) && max > 0
    ensures var once := Got(c, rng, id, a, now, max);
            && Answer(once, rng, id, a, now) == Answer(c, rng, id, a, now)
            && Got(once, rng, id, a, now, max) == once
  {
    var answer := Answer(c, rng, id, a, now);
    StoredOk(c, id, answer, max);
    StoredTwice(c, id, answer, answer, max);
  }

  // ----- The service -----

  class ScheduleService {
    const max: nat
    const rng: Generator
    var order: seq<int>
    var schedules: map<int, Weekly>

    ghost function State(): Cache
      reads this
    {
      Cache(order, schedules)
    }

    ghost predicate Valid()
      reads this
    {
      max > 0 && CacheOk(State(), max)
    }

    constructor (max: nat, rng: Generator)
      requires max > 0
      ensures Valid() && State() == Cache([], map[]) && this.max == max && this.rng == rng
    {
      this.max, this.rng := max, rng;
      order, schedules := [], map[];
    }

    method Store(id: int, w: Weekly)
      requires Valid()
      modifies this
      ensures Valid() && State() == Stored(old(State()), id, w, max)
    {
      StoredOk(State(), id, w, max);
      MovedFacts(order, id);
      schedules := schedules[id := w];
      order := Without(order, id) + [id];
      ghost var moved, all := order, schedules;
      while |order| > max
        invariant |moved| <= max + 1
        invariant (order == moved && schedules == all)
                  || (|moved| > max && order == moved[1..] && schedules == all - {moved[0]})
      {
        schedules := schedules - {order[0]};
        order := order[1..];
      }
    }

    method DeterministicSchedule(id: int, a: Account, now: int) returns (w: Weekly)
      requires Valid()
      modifies this
      ensures w == Generated(rng, id, a, WeekIndex(now))
      ensures Valid() && State() == Stored(old(State()), id, w, max)
    {
      w := Generated(rng, id, a, WeekIndex(now));
      Store(id, w);
    }

    method Get(id: int, a: Account, now: int) returns (w: Weekly)
      requires Valid()
      modifies this
      ensures w == Answer(old(State()), rng, id, a, now)
      ensures Valid() && State() == Got(old(State()), rng, id, a, now, max)
    {
      if id in schedules && schedules[id].weekIndex == WeekIndex(now) {
        w := schedules[id];
        MoveToEnd(id);
        return;
      }
      var preserved := if id in schedules then schedules[id].dmOverrideUntil else None;
      ghost var before := State();
      w := DeterministicSchedule(id, a, now);
      ghost var plain := w;
      w := w.(dmOverrideUntil := preserved);
      Replace(id, w);
      StoredTwice(before, id, plain, w, max);
    }

    method MoveToEnd(id: int)
      requires Valid() && id in schedules
      modifies this
      ensures Valid() && State() == Stored(old(State()), id, old(schedules)[id], max)
    {
      StoredOk(State(), id, schedules[id], max);
      MovedFacts(order, id);
      assert schedules[id := schedules[id]] == schedules;
      order := Without(order, id) + [id];
    }

    /** Writes through to the schedule object that was stored last. */
    method Replace(id: int, w: Weekly)
      requires Valid() && order != [] && order[|order| - 1] == id
      modifies this
      ensures Valid() && State() == Stored(old(State()), id, w, max)
    {
      StoredOk(State(), id, w, max);
      EndStays(order, id);
      schedules := schedules[id := w];
    }

    method ShouldBeActive(id: int, a: Account, now: int) returns (active: bool)
      requires Valid()
      modifies this
      ensures active == Active(Answer(old(State()), rng, id, a, now), a.offset, now)
      ensures var (w, local) := (Answer(old(State()), rng, id, a, now), now + a.offset);
              active <==>
                || (w.dmOverrideUntil.Some? && now < w.dmOverrideUntil.value)
                || (&& (local / 86400) % 7 !in w.restDays
                    && w.startHour * 60 + w.startMinute <= (local % 86400) / 60 < w.endHour * 60 + w.endMinute)
      ensures Valid() && State() == Got(old(State()), rng, id, a, now, max)
    {
      var w := Get(id, a, now);
      if w.dmOverrideUntil.Some? && now < w.dmOverrideUntil.value {
        return true;
      }
      var local := now + a.offset;
      if Weekday(local) in w.restDays {
        return false;
      }
      active := w.StartMinutes() <= MinuteOfDay(local) < w.EndMinutes();
    }

    method OpenDmOverride(id: int, a: Account, now: int)
      requires Valid()
      modifies this
      ensures Valid() && State() == OverrideOpened(old(State()), rng, id, a, now, max)
      ensures id in schedules && schedules[id].dmOverrideUntil == Some(now + 1200)
    {
      StoredOk(State(), id, Answer(State(), rng, id, a, now), max);
      var w := Get(id, a, now);
      w := WithOverride(w, now);
      StoredOk(State(), id, w, max);
      Store(id, w);
    }

    /** Asks the schedule twice, as the code does; the second look changes nothing more. */
    method NextOpening(id: int, a: Account, now: int) returns (r: Opening)
      requires Valid()
      modifies this
      ensures Valid() && State() == Got(old(State()), rng, id, a, now, max)
      ensures var w := Answer(old(State()), rng, id, a, now);
              && (r.AlreadyActive? <==> Active(w, a.offset, now))
              && (r.Raises? <==> SearchRaises(w, a.offset, now))
              && (r.OpensAt? ==> if NeverWorks(w) then r.instant == now + DAY
                                 else IsNextOpening(w, a.offset, now, r.instant))
    {
      GotAgain(State(), rng, id, a, now, max);
      var active := ShouldBeActive(id, a, now);
      if active {
        return AlreadyActive;
      }
      var w := Get(id, a, now);
      r := NextOpen(w, a.offset, now);
    }
  }
}
