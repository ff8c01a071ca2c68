/**
 Weekly working hours in an account's local time, and the search for the next instant at
 which it opens. Times are whole seconds; 0 is the Monday midnight the week index counts
 from, and local time is UTC plus the proxy's offset.
 */
module Schedule {
  import opened Options

  const DAY := 86400
  const WEEK := 7 * DAY

  datatype Weekly = Weekly(
    startHour: int, startMinute: int, endHour: int, endMinute: int,
    restDays: set<int>, weekIndex: int, dmOverrideUntil: Option<int>)
  {
    function StartMinutes(): int { startHour * 60 + startMinute }

    function EndMinutes(): int { endHour * 60 + endMinute }
  }

  function Weekday(local: int): int { (local / DAY) % 7 }

  function MinuteOfDay(local: int): int { (local % DAY) / 60 }

  function WeekIndex(now: int): int { now / WEEK }

  predicate InSchedule(w: Weekly, offset: int, now: int) {
    && Weekday(now + offset) !in w.restDays
    && w.StartMinutes() <= MinuteOfDay(now + offset) < w.EndMinutes()
  }

  predicate Overridden(w: Weekly, now: int) {
    w.dmOverrideUntil.Some? && now < w.dmOverrideUntil.value
  }

  predicate Active(w: Weekly, offset: int, now: int) {
    Overridden(w, now) || InSchedule(w, offset, now)
  }

  predicate NeverWorks(w: Weekly) {
    forall d :: 0 <= d < 7 ==> d in w.restDays
  }

  /** datetime.replace accepts the opening time. */
  predicate ValidStart(w: Weekly) {
    0 <= w.startHour < 24 && 0 <= w.startMinute < 60
  }

  /** The opening instant `ahead` local days after the day of `now`. */
  function OpeningAt(w: Weekly, offset: int, now: int, ahead: nat): int {
    ((now + offset) / DAY + ahead) * DAY + w.StartMinutes() * 60 - offset
  }

  /** A day that was passed over: a rest day, or one whose opening is not in the future. */
  predicate PassedOver(w: Weekly, offset: int, now: int, ahead: nat) {
    Weekday(now + offset + ahead * DAY) in w.restDays || OpeningAt(w, offset, now, ahead) <= now
  }

  /** `r` is the next opening: later, on a working day at the window's start, with no
      working instant before it. */
  ghost predicate IsNextOpening(w: Weekly, offset: int, now: int, r: int) {
    && r > now
    && Weekday(r + offset) !in w.restDays
    && (r + offset) % DAY == w.StartMinutes() * 60
    && forall u :: now <= u < r ==> !InSchedule(w, offset, u)
  }

  /** The first opening of a working day after `now` has no working instant before it. */
  lemma NothingOpenBefore(w: Weekly, offset: int, now: int, ahead: nat, u: int)
    requires ValidStart(w) && !InSchedule(w, offset, now)
    requires forall d: nat :: d < ahead ==> PassedOver(w, offset, now, d)
    requires now <= u < OpeningAt(w, offset, now, ahead)
    ensures !InSchedule(w, offset, u)
  {
    var today := (now + offset) / DAY;
    var d := (u + offset) / DAY - today;
    assert 0 <= d <= ahead;
    if d < ahead {
      assert PassedOver(w, offset, now, d);
      assert Weekday(now + offset + d * DAY) == Weekday(u + offset);
    }
  }

  /** An opening lies on its day, at the start of the window. */
  lemma OpeningIsTheWindowStart(w: Weekly, offset: int, now: int, ahead: nat)
    requires ValidStart(w)
    ensures var r := OpeningAt(w, offset, now, ahead);
            && (r + offset) % DAY == w.StartMinutes() * 60
            && Weekday(r + offset) == Weekday(now + offset + ahead * DAY)
            && MinuteOfDay(r + offset) == w.StartMinutes()
            && (ahead >= 1 ==> r > now)
  {
  }

  lemma WeekdayAhead(local: int, n: nat)
    ensures Weekday(local + n * DAY) == (Weekday(local) + n) % 7
  {
    assert (local + n * DAY) / DAY == local / DAY + n;
  }

  /** With at most two rest days one of the next three days works. */
  lemma WorkingDayIsNear(w: Weekly, local: int, restA: int, restB: int) returns (ahead: nat)
    requires w.restDays <= {restA, restB}
    ensures 1 <= ahead <= 3 && Weekday(local + ahead * DAY) !in w.restDays
  {
    WeekdayAhead(local, 1);
    WeekdayAhead(local, 2);
    WeekdayAhead(local, 3);
    ahead := if Weekday(local + DAY) !in w.restDays then 1
             else if Weekday(local + 2 * DAY) !in w.restDays then 2
             else 3;
  }

  /** So the next opening is less than four days away. */
  lemma OpeningIsNear(w: Weekly, offset: int, now: int, r: int, restA: int, restB: int)
    requires ValidStart(w) && w.StartMinutes() < w.EndMinutes() && w.restDays <= {restA, restB}
    requires IsNextOpening(w, offset, now, r)
    ensures r < now + 4 * DAY
  {
    var ahead := WorkingDayIsNear(w, now + offset, restA, restB);
    OpeningIsTheWindowStart(w, offset, now, ahead);
    assert InSchedule(w, offset, OpeningAt(w, offset, now, ahead));
  }

  /** One week ahead holds every weekday. */
  lemma SevenRestDays(w: Weekly, local: int)
    requires forall d: nat :: 1 <= d < 8 ==> Weekday(local + d * DAY) in w.restDays
    ensures NeverWorks(w)
  {
    forall weekday | 0 <= weekday < 7
      ensures weekday in w.restDays
    {
      var today := Weekday(local);
      var ahead := if weekday > today then weekday - today else weekday - today + 7;
      WeekdayAhead(local, ahead);
      assert Weekday(local + ahead * DAY) == weekday;
    }
  }

  /** What the search answers. It raises where no time of day is its opening time. */
  datatype Opening = AlreadyActive | OpensAt(instant: int) | Raises

  /** A closed account that works some day has to name an opening time. */
  predicate SearchRaises(w: Weekly, offset: int, now: int) {
    !Active(w, offset, now) && !ValidStart(w) && !NeverWorks(w)
  }

  /** Active accounts have no next opening, and without a valid opening time the search
      raises. Otherwise it names the next opening, an instant inside the schedule exactly
      when the window is not empty. The one-day fallback is reached exactly when all seven
      weekdays are rest days. */
  method NextOpen(w: Weekly, offset: int, now: int) returns (r: Opening)
    ensures r.AlreadyActive? <==> Active(w, offset, now)
    ensures r.Raises? <==> SearchRaises(w, offset, now)
    ensures r.OpensAt? && !NeverWorks(w) ==>
              && IsNextOpening(w, offset, now, r.instant)
              && (InSchedule(w, offset, r.instant) <==> w.StartMinutes() < w.EndMinutes())
    ensures r.OpensAt? && !NeverWorks(w) ==>
              && r.instant > now && ((r.instant + offset) / 86400) % 7 !in w.restDays
              && (r.instant + offset) % 86400 == (w.startHour * 60 + w.startMinute) * 60
    ensures r.OpensAt? && NeverWorks(w) ==> r.instant == now + DAY
  {
    if Active(w, offset, now) {
      return AlreadyActive;
    }
    if w.restDays == {} && w.StartMinutes() == 0 && w.EndMinutes() >= 24 * 60 {
      return AlreadyActive;
    }
    for ahead := 0 to 8
      invariant forall d: nat :: d < ahead ==> PassedOver(w, offset, now, d)
      invariant forall d: nat :: 1 <= d < ahead ==> Weekday(now + offset + d * DAY) in w.restDays
    {
      if Weekday(now + offset + ahead * DAY) in w.restDays {
        continue;
      }
      if !ValidStart(w) {
        return Raises;
      }
      OpeningIsTheWindowStart(w, offset, now, ahead);
      var open := OpeningAt(w, offset, now, ahead);
      if open > now {
        forall u | now <= u < open ensures !InSchedule(w, offset, u) {
          NothingOpenBefore(w, offset, now, ahead, u);
        }
        return OpensAt(open);
      }
    }
    SevenRestDays(w, now + offset);
    r := OpensAt(now + DAY);
  }
}
