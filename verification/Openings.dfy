/**
 Does an announced opening come true? The search uses the week in which it is asked, and
 the next week is drawn anew, rest days, start and end. So within the week it always does,
 and beyond the week's end exactly when the new week agrees.
 */
module Openings {
  import opened Options
  import opened Schedule
  import opened ScheduleCache
  import opened CacheRuns

  /** Which schedule is in force, week by week. */
  type Weeks = int -> Weekly

  predicate Works(weeks: Weeks, offset: int, u: int) {
    InSchedule(weeks(WeekIndex(u)), offset, u)
  }

  /** `r` is what a search in the week `w` announces at `now`. */
  ghost predicate AnnouncedBy(w: Weekly, offset: int, now: int, r: int) {
    ValidStart(w) && w.StartMinutes() < w.EndMinutes() && IsNextOpening(w, offset, now, r)
  }

  /** `r` is what a search announces at `now`, in the week of `now`. */
  ghost predicate Announced(weeks: Weeks, offset: int, now: int, r: int) {
    AnnouncedBy(weeks(WeekIndex(now)), offset, now, r)
  }

  predicate AtMostTwoRestDays(w: Weekly) {
    exists a, b | 0 <= a < 7 && 0 <= b < 7 :: w.restDays <= {a, b}
  }

  /** The new week works on the weekday of `local`, in a window that covers the opening
      minute of the old one. */
  predicate Honours(newWeek: Weekly, oldWeek: Weekly, local: int) {
    && Weekday(local) !in newWeek.restDays
    && newWeek.StartMinutes() <= oldWeek.StartMinutes() < newWeek.EndMinutes()
  }

  // ----- Whatever the weeks are -----

  /** An announced opening is a working instant if and only if the schedule of its own week
      works on that weekday, in a window that covers the announced minute. */
  lemma OpeningWorksIff(weeks: Weeks, offset: int, now: int, r: int)
    requires Announced(weeks, offset, now, r)
    ensures Works(weeks, offset, r) <==> Honours(weeks(WeekIndex(r)), weeks(WeekIndex(now)), r + offset)
    ensures WeekIndex(r) == WeekIndex(now) ==> Works(weeks, offset, r)
  {
    assert MinuteOfDay(r + offset) == weeks(WeekIndex(now)).StartMinutes();
  }

  /** It is never further than the next week. */
  lemma AnnouncedByNextWeek(weeks: Weeks, offset: int, now: int, r: int)
    requires Announced(weeks, offset, now, r) && AtMostTwoRestDays(weeks(WeekIndex(now)))
    ensures WeekIndex(now) <= WeekIndex(r) <= WeekIndex(now) + 1
  {
    var a, b :| 0 <= a < 7 && 0 <= b < 7 && weeks(WeekIndex(now)).restDays <= {a, b};
    OpeningIsNear(weeks(WeekIndex(now)), offset, now, r, a, b);
  }

  /** It is the first working instant exactly when it lies in the same week, or the new week
      begins with it, or the new week has an empty window, or it is closed when it begins
      and, searched from there, opens no sooner. (`opens` is what that search announces.) */
  lemma AnnouncedIsFirstIff(weeks: Weeks, offset: int, now: int, r: int, opens: int)
    requires Announced(weeks, offset, now, r) && AtMostTwoRestDays(weeks(WeekIndex(now)))
    requires var (newWeek, begin) := (weeks(WeekIndex(r)), WeekIndex(r) * WEEK);
             !InSchedule(newWeek, offset, begin) && newWeek.StartMinutes() < newWeek.EndMinutes() ==>
               AnnouncedBy(newWeek, offset, begin, opens)
    ensures var (newWeek, begin) := (weeks(WeekIndex(r)), WeekIndex(r) * WEEK);
            (forall u :: now <= u < r ==> !Works(weeks, offset, u)) <==>
              || WeekIndex(r) == WeekIndex(now) || r == begin || newWeek.StartMinutes() >= newWeek.EndMinutes()
              || (!InSchedule(newWeek, offset, begin) && r <= opens)
  {
    var (newWeek, begin) := (weeks(WeekIndex(r)), WeekIndex(r) * WEEK);
    AnnouncedByNextWeek(weeks, offset, now, r);
    forall u | now <= u < r {
      WorksBeforeAnnounced(weeks, offset, now, r, u);
    }
    if WeekIndex(r) != WeekIndex(now) && r != begin {
      WeekOf(now, begin, r);
      if InSchedule(newWeek, offset, begin) {
        assert Works(weeks, offset, begin);
      } else if newWeek.StartMinutes() < newWeek.EndMinutes() && opens < r {
        assert MinuteOfDay(opens + offset) == newWeek.StartMinutes();
        assert Works(weeks, offset, opens);
      }
    }
  }

  /** Before the announced instant only the new week can have the account working. */
  lemma WorksBeforeAnnounced(weeks: Weeks, offset: int, now: int, r: int, u: int)
    requires Announced(weeks, offset, now, r) && now <= u < r
    requires WeekIndex(now) <= WeekIndex(r) <= WeekIndex(now) + 1
    ensures Works(weeks, offset, u) <==>
            && WeekIndex(r) != WeekIndex(now) && WeekIndex(r) * WEEK <= u
            && InSchedule(weeks(WeekIndex(r)), offset, u)
  {
    WeekOf(now, u, r);
    assert !InSchedule(weeks(WeekIndex(now)), offset, u);
  }

  lemma WeekOf(now: int, u: int, r: int)
    requires now <= u <= r || WeekIndex(r) * WEEK == u
    requires WeekIndex(now) <= WeekIndex(r) <= WeekIndex(now) + 1
    ensures WeekIndex(u) == if u < WeekIndex(r) * WEEK then WeekIndex(now) else WeekIndex(r)
    ensures WeekIndex(r) != WeekIndex(now) ==> now < WeekIndex(r) * WEEK <= r
  {
  }

  // ----- The weeks of an account, through the cache -----

  /** The deterministic schedules of one account. */
  function WeeksOf(st: Setting, id: int): Weeks {
    week => Generated(st.rng, id, st.accounts(id), week)
  }

  lemma RestDaysOf(st: Setting, id: int, week: int)
    requires forall seed, s, e :: InRange(st.rng(seed, s, e))
    ensures AtMostTwoRestDays(WeeksOf(st, id)(week))
  {
    var a := st.accounts(id);
    var d := st.rng(Seed(id, week), a.workStart.Some?, a.workEnd.Some?);
    assert WeeksOf(st, id)(week).restDays <= {d.restDay, d.secondDay};
  }

  /** What the service's search announces after any operations is what the week announces:
      the cache has no say in it. */
  lemma {:induction false} SearchAnnounces(ops: seq<Op>, st: Setting, id: int, now: int, r: int)
    requires st.max > 0
    ensures AnnouncedBy(Answer(After(ops, st), st.rng, id, st.accounts(id), now), st.accounts(id).offset, now, r)
            <==> Announced(WeeksOf(st, id), st.accounts(id).offset, now, r)
  {
    CacheIsTransparent(ops, st, id, now);
    var (w, week) := (Answer(After(ops, st), st.rng, id, st.accounts(id), now), WeekAt(st, id, now));
    assert forall u :: InSchedule(w, st.accounts(id).offset, u) <==> InSchedule(week, st.accounts(id).offset, u);
  }

  /** An account is active exactly when an override is running or it works. */
  lemma {:induction false} ActiveIsOverriddenOrWorking(ops: seq<Op>, st: Setting, id: int, u: int)
    requires st.max > 0
    ensures ActiveAfter(ops, st, id, u) <==>
            || Overridden(Answer(After(ops, st), st.rng, id, st.accounts(id), u), u)
            || Works(WeeksOf(st, id), st.accounts(id).offset, u)
  {
    CacheIsTransparent(ops, st, id, u);
  }

  /** The announced opening finds the account active exactly when an override is running or
      the schedule of its own week works on that weekday, in a window that covers the
      announced minute. */
  lemma {:induction false} OpeningIsHonouredIff(ops: seq<Op>, st: Setting, id: int, now: int, r: int)
    requires st.max > 0
    ensures var (weeks, offset) := (WeeksOf(st, id), st.accounts(id).offset);
            Announced(weeks, offset, now, r) ==>
              (ActiveAfter(ops, st, id, r) <==>
                 || Overridden(Answer(After(ops, st), st.rng, id, st.accounts(id), r), r)
                 || Honours(weeks(WeekIndex(r)), weeks(WeekIndex(now)), r + offset))
  {
    var (weeks, offset) := (WeeksOf(st, id), st.accounts(id).offset);
    ActiveIsOverriddenOrWorking(ops, st, id, r);
    HonouredAmong(weeks, offset, now, r);
  }

  lemma HonouredAmong(weeks: Weeks, offset: int, now: int, r: int)
    ensures Announced(weeks, offset, now, r) ==>
              (Works(weeks, offset, r) <==> Honours(weeks(WeekIndex(r)), weeks(WeekIndex(now)), r + offset))
    ensures Announced(weeks, offset, now, r) && WeekIndex(r) == WeekIndex(now) ==> Works(weeks, offset, r)
  {
    if Announced(weeks, offset, now, r) {
      OpeningWorksIff(weeks, offset, now, r);
    }
  }

  /** Always so within the week of the announcement. */
  lemma {:induction false} OpeningIsHonoured(ops: seq<Op>, st: Setting, id: int, now: int, r: int)
    requires st.max > 0 && WeekIndex(r) == WeekIndex(now)
    ensures Announced(WeeksOf(st, id), st.accounts(id).offset, now, r) ==> ActiveAfter(ops, st, id, r)
  {
    var (weeks, offset) := (WeeksOf(st, id), st.accounts(id).offset);
    ActiveIsOverriddenOrWorking(ops, st, id, r);
    HonouredAmong(weeks, offset, now, r);
  }

  predicate OnlyLooks(ops: seq<Op>) { forall i :: 0 <= i < |ops| ==> ops[i].Look? }

  ghost predicate NoOverride(c: Cache) { forall id | id in c.entries :: c.entries[id].dmOverrideUntil.None? }

  lemma {:induction false} LooksOpenNoOverride(ops: seq<Op>, st: Setting)
    requires st.max > 0 && OnlyLooks(ops)
    ensures NoOverride(After(ops, st))
  {
    if ops == [] {
    } else {
      var c, op := After(ops[..|ops| - 1], st), ops[|ops| - 1];
      LooksOpenNoOverride(ops[..|ops| - 1], st);
      CacheStaysOk(ops[..|ops| - 1], st);
      DoStores(c, op, st);
      StoredOk(c, op.id, Answer(c, st.rng, op.id, st.accounts(op.id), op.now), st.max);
    }
  }

  /** As long as nobody opens an override, an account is active exactly when it works. */
  lemma {:induction false} LooksShowTheSchedule(ops: seq<Op>, st: Setting, id: int, u: int)
    requires st.max > 0 && OnlyLooks(ops)
    ensures ActiveAfter(ops, st, id, u) <==> Works(WeeksOf(st, id), st.accounts(id).offset, u)
  {
    LooksOpenNoOverride(ops, st);
    ActiveIsOverriddenOrWorking(ops, st, id, u);
  }

  // ----- Over the week's end the announced opening can be wrong in either direction -----

  const SATURDAY_NIGHT := 5 * DAY + 23 * 3600
  const MONDAY_NINE := WEEK + 9 * 3600
  const IN_UTC := Account(None, None, 0)

  const SUNDAY_OFF := Draws(9, 19, 0, 0, 6, false, 1)
  const SUNDAY_OFF_FROM_TEN := SUNDAY_OFF.(startHour := 10)
  const MONDAY_OFF := SUNDAY_OFF.(restDay := 0)
  const SUNDAY_AND_MONDAY_OFF := SUNDAY_OFF.(second := true, secondDay := 0)

  /** One unpinned account in UTC, with weeks 0 and 1 drawn as given. */
  function TwoWeeks(even: Draws, odd: Draws): Setting {
    Setting((seed, startPinned, endPinned) => if seed % 2 == 0 then even else odd, id => IN_UTC, 1)
  }

  function FromDraws(d: Draws, week: int): Weekly {
    Weekly(d.startHour, 15 * d.startQuarter, d.endHour, 15 * d.endQuarter,
           {d.restDay} + if d.second then {d.secondDay} else {}, week, None)
  }

  lemma TwoWeeksAreDrawn(even: Draws, odd: Draws)
    requires InRange(even) && InRange(odd)
    ensures var st := TwoWeeks(even, odd);
            && st.max == 1 && st.accounts(0) == IN_UTC && (forall seed, s, e :: InRange(st.rng(seed, s, e)))
            && Generated(st.rng, 0, IN_UTC, 0) == FromDraws(even, 0)
            && Generated(st.rng, 0, IN_UTC, 1) == FromDraws(odd, 1)
  {
  }

  /** What week 0 names as its next opening on Saturday night is announced; and on Monday at
      nine the account is active, without overrides, exactly when week 1 works then. */
  lemma Rollover(even: Draws, odd: Draws, r: int)
    requires InRange(even) && InRange(odd)
    requires AnnouncedBy(FromDraws(even, 0), 0, SATURDAY_NIGHT, r)
    ensures Announced(WeeksOf(TwoWeeks(even, odd), 0), 0, SATURDAY_NIGHT, r)
    ensures forall ops | OnlyLooks(ops) ::
              ActiveAfter(ops, TwoWeeks(even, odd), 0, MONDAY_NINE) <==> InSchedule(FromDraws(odd, 1), 0, MONDAY_NINE)
  {
    var st := TwoWeeks(even, odd);
    TwoWeeksAreDrawn(even, odd);
    assert WeekIndex(SATURDAY_NIGHT) == 0 && WeekIndex(MONDAY_NINE) == 1;
    forall ops | OnlyLooks(ops)
      ensures ActiveAfter(ops, st, 0, MONDAY_NINE) <==> InSchedule(FromDraws(odd, 1), 0, MONDAY_NINE)
    {
      LooksShowTheSchedule(ops, st, 0, MONDAY_NINE);
    }
  }

  /** On Saturday night the next opening at nine is that of the first day that works: Monday,
      or Tuesday where Monday rests, too. */
  lemma FirstAfterSaturday(w: Weekly, ahead: nat)
    requires w.startHour == 9 && w.startMinute == 0 && w.EndMinutes() <= 23 * 60 && 6 in w.restDays
    requires if 0 in w.restDays then ahead == 3 && 1 !in w.restDays else ahead == 2
    ensures IsNextOpening(w, 0, SATURDAY_NIGHT, MONDAY_NINE + (ahead - 2) * DAY)
  {
    var r := MONDAY_NINE + (ahead - 2) * DAY;
    assert OpeningAt(w, 0, SATURDAY_NIGHT, ahead) == r;
    forall d: nat | d < ahead ensures PassedOver(w, 0, SATURDAY_NIGHT, d) {
    }
    forall u | SATURDAY_NIGHT <= u < r ensures !InSchedule(w, 0, u) {
      NothingOpenBefore(w, 0, SATURDAY_NIGHT, ahead, u);
    }
  }

  /** The new week rests on the announced day... */
  lemma NewRestDayBreaksAnOpening() returns (st: Setting)
    ensures st.max > 0 && forall seed, s, e :: InRange(st.rng(seed, s, e))
    ensures Announced(WeeksOf(st, 0), 0, SATURDAY_NIGHT, MONDAY_NINE)
    ensures forall ops :: OnlyLooks(ops) ==> !ActiveAfter(ops, st, 0, MONDAY_NINE)
  {
    st := TwoWeeks(SUNDAY_OFF, MONDAY_OFF);
    TwoWeeksAreDrawn(SUNDAY_OFF, MONDAY_OFF);
    FirstAfterSaturday(FromDraws(SUNDAY_OFF, 0), 2);
    Rollover(SUNDAY_OFF, MONDAY_OFF, MONDAY_NINE);
  }

  /** ...or keeps the rest days and starts an hour later. */
  lemma LaterStartBreaksAnOpening() returns (st: Setting)
    ensures st.max > 0 && forall seed, s, e :: InRange(st.rng(seed, s, e)) && st.rng(seed, s, e).restDay == 6
    ensures Announced(WeeksOf(st, 0), 0, SATURDAY_NIGHT, MONDAY_NINE)
    ensures forall ops :: OnlyLooks(ops) ==> !ActiveAfter(ops, st, 0, MONDAY_NINE)
  {
    st := TwoWeeks(SUNDAY_OFF, SUNDAY_OFF_FROM_TEN);
    TwoWeeksAreDrawn(SUNDAY_OFF, SUNDAY_OFF_FROM_TEN);
    FirstAfterSaturday(FromDraws(SUNDAY_OFF, 0), 2);
    Rollover(SUNDAY_OFF, SUNDAY_OFF_FROM_TEN, MONDAY_NINE);
  }

  /** And where the old week rests and the new one works, the account is active a whole day
      before the announced instant. */
  lemma AnnouncedADayLate() returns (st: Setting)
    ensures st.max > 0 && forall seed, s, e :: InRange(st.rng(seed, s, e))
    ensures Announced(WeeksOf(st, 0), 0, SATURDAY_NIGHT, MONDAY_NINE + DAY)
    ensures forall ops :: OnlyLooks(ops) ==> ActiveAfter(ops, st, 0, MONDAY_NINE)
  {
    st := TwoWeeks(SUNDAY_AND_MONDAY_OFF, SUNDAY_OFF);
    TwoWeeksAreDrawn(SUNDAY_AND_MONDAY_OFF, SUNDAY_OFF);
    FirstAfterSaturday(FromDraws(SUNDAY_AND_MONDAY_OFF, 0), 3);
    Rollover(SUNDAY_AND_MONDAY_OFF, SUNDAY_OFF, MONDAY_NINE + DAY);
  }
}
