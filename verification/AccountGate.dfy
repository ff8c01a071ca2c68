/**
 The account gate a run passes before its claim: may this account act now, and if not,
 until when is the task put off? It answers what the task store's runs are given.
 */
module AccountGate {
  import opened Options
  import opened Schedule
  import TaskRows
  import TaskStore
  import Hours = ScheduleCache

  datatype Status = Usable | Sleeping | Banned

  /** What the gate looks at besides the working hours. `critical` and `datacenter` are the
      verdicts on the proxy's country and network. */
  datatype Health = Health(status: Status, critical: bool, geoOverride: bool, datacenter: bool, floodUntil: Option<int>)

  predicate Flooded(h: Health, now: int) { h.floodUntil.Some? && h.floodUntil.value > now }

  /** A country mismatch nobody acknowledged, or an account-facing action from a datacenter. */
  predicate Rejected(h: Health, facing: bool) { (h.critical && !h.geoOverride) || (facing && h.datacenter) }

  /** A usable account that is rejected is put to sleep. */
  function Judged(h: Health, facing: bool): Health {
    if h.status == Usable && Rejected(h, facing) then h.(status := Sleeping) else h
  }

  predicate MayAct(h: Health, facing: bool) { h.status == Usable && !Rejected(h, facing) }

  /** What a call returns, or the exception it raises instead. */
  datatype Result<T> = Done(value: T) | Raised

  class Account {
    const id: int
    var status: Status
    var critical: bool
    var geoOverride: bool
    var datacenter: bool
    var floodUntil: Option<int>
    var hours: Hours.Account

    constructor (id: int, hours: Hours.Account)
      ensures this.id == id && this.hours == hours && State() == Health(Usable, false, false, false, None)
    {
      this.id, this.hours := id, hours;
      status, critical, geoOverride, datacenter, floodUntil := Usable, false, false, false, None;
    }

    ghost function State(): Health
      reads this
    {
      Health(status, critical, geoOverride, datacenter, floodUntil)
    }

    /** The week's schedule the service would answer for this account. */
    ghost function Week(service: Hours.ScheduleService, now: int): Weekly
      reads this, service
    {
      Hours.Answer(service.State(), service.rng, id, hours, now)
    }

    ghost predicate OffHours(service: Hours.ScheduleService, now: int)
      reads this, service
    {
      !Active(Week(service, now), hours.offset, now)
    }

    /** The cache after one look at this account's schedule. */
    ghost function Looked(service: Hours.ScheduleService, now: int): Hours.Cache
      reads this, service
    {
      Hours.Got(service.State(), service.rng, id, hours, now, service.max)
    }

    /** The cache after `Prepare`, which looks at the schedule if no earlier test fails. */
    ghost function AfterPrepare(facing: bool, service: Hours.ScheduleService, now: int): Hours.Cache
      reads this, service
    {
      if MayAct(State(), facing) && !Flooded(State(), now) then Looked(service, now) else service.State()
    }

    /** The week that `ComputeDeferUntil` finds when it asks at `later`. */
    ghost function LaterWeek(facing: bool, service: Hours.ScheduleService, now: int, later: int): Weekly
      reads this, service
    {
      Hours.Answer(AfterPrepare(facing, service, now), service.rng, id, hours, later)
    }

    /** The working-hours guard: active, or the next opening, or the search raises. */
    method CheckHours(service: Hours.ScheduleService, now: int) returns (o: Opening)
      requires service.Valid()
      modifies service
      ensures service.Valid() && service.State() == old(Looked(service, now))
      ensures Week(service, now) == old(Week(service, now)) && Looked(service, now) == old(Looked(service, now))
      ensures o.AlreadyActive? <==> !old(OffHours(service, now))
      ensures o.Raises? <==> SearchRaises(old(Week(service, now)), hours.offset, now)
      ensures o.OpensAt? ==>
                if NeverWorks(old(Week(service, now))) then o.instant == now + DAY
                else IsNextOpening(old(Week(service, now)), hours.offset, now, o.instant)
    {
      Hours.GotAgain(service.State(), service.rng, id, hours, now, service.max);
      var allowed := service.ShouldBeActive(id, hours, now);
      o := AlreadyActive;
      if !allowed {
        o := service.NextOpening(id, hours, now);
      }
    }

    method Prepare(facing: bool, service: Hours.ScheduleService, now: int) returns (runnable: Result<bool>)
      requires service.Valid()
      modifies this`status, service
      ensures service.Valid() && State() == Judged(old(State()), facing)
      ensures Week(service, now) == old(Week(service, now)) && Looked(service, now) == old(Looked(service, now))
      ensures var asked := MayAct(old(State()), facing) && !Flooded(old(State()), now);
              && service.State() == old(AfterPrepare(facing, service, now))
              && (runnable.Raised? <==> asked && SearchRaises(old(Week(service, now)), hours.offset, now))
              && (runnable == Done(true) <==> asked && !old(OffHours(service, now)))
      ensures runnable == Done(true) <==>
                && old(status) == Usable && (critical ==> geoOverride) && !(facing && datacenter)
                && (floodUntil.Some? ==> floodUntil.value <= now) && !old(OffHours(service, now))
      ensures status == Sleeping <==>
                || old(status) == Sleeping
                || (old(status) == Usable && ((critical && !geoOverride) || (facing && datacenter)))
    {
      if status == Banned || status == Sleeping {
        return Done(false);
      }
      if critical && !geoOverride {
        status := Sleeping;
        return Done(false);
      }
      if facing && datacenter {
        status := Sleeping;
        return Done(false);
      }
      if floodUntil.Some? && floodUntil.value > now {
        return Done(false);
      }
      var o := CheckHours(service, now);
      runnable := if o.Raises? then Raised else Done(o.AlreadyActive?);
    }

    method ComputeDeferUntil(service: Hours.ScheduleService, now: int) returns (until: Result<Option<int>>)
      requires service.Valid()
      modifies service
      ensures service.Valid()
      ensures floodUntil.Some? && floodUntil.value > now ==> until == Done(floodUntil)
      ensures Flooded(State(), now) ==> until == Done(floodUntil) && service.State() == old(service.State())
      ensures !Flooded(State(), now) ==>
                && service.State() == old(Looked(service, now))
                && (until.Raised? <==> SearchRaises(old(Week(service, now)), hours.offset, now))
                && (until == Done(None) <==> !old(OffHours(service, now)))
                && (until.Done? && until.value.Some? ==>
                      if NeverWorks(old(Week(service, now))) then until.value.value == now + DAY
                      else IsNextOpening(old(Week(service, now)), hours.offset, now, until.value.value))
    {
      if floodUntil.Some? && floodUntil.value > now {
        return Done(floodUntil);
      }
      var o := CheckHours(service, now);
      until := match o
        case AlreadyActive => Done(None)
        case OpensAt(instant) => Done(Some(instant))
        case Raises => Raised;
    }
  }

  /** The gate as a run meets it. It reads the clock twice: `Prepare` at `now`, and if the
      account cannot run, `ComputeDeferUntil` at `later`. It answers in exactly one of four
      ways: runnable; put off, always to a later instant; unavailable, which needs an open
      window and no flood at `later`, so a sleeping or banned account's task is buried only
      while its window is open; or it raises, when a closed account that is not flooded has
      no valid opening time. An account that may act is unavailable exactly when its flood
      ends or its window opens between the two readings. */
  method Ask(account: Account?, facing: bool, service: Hours.ScheduleService, now: int, later: int)
    returns (gate: TaskStore.Gate)
    requires service.Valid() && now <= later
    modifies if account == null then {} else {account}, service
    ensures account == null ==> gate == TaskStore.Unavailable && service.State() == old(service.State())
    ensures account != null ==>
              && service.Valid() && account.State() == Judged(old(account.State()), facing)
              && var (h, off) := (old(account.State()), old(account.OffHours(service, now)));
                 var offset := account.hours.offset;
                 var week := old(account.LaterWeek(facing, service, now, later));
                 var asked := MayAct(h, facing) && !Flooded(h, now);
                 var raised := asked && SearchRaises(old(account.Week(service, now)), offset, now);
                 var goesOn := !(asked && !off) && !raised;
                 var (closed, raises) := (!Active(week, offset, later), SearchRaises(week, offset, later));
                 && (gate.Runnable? <==> asked && !off)
                 && (gate.Raised? <==> raised || (goesOn && !Flooded(h, later) && raises))
                 && (gate.ClosedUntil? <==> goesOn && (Flooded(h, later) || (closed && !raises)))
                 && (gate.Unavailable? <==> goesOn && !Flooded(h, later) && !closed)
                 && (gate.ClosedUntil? && Flooded(h, later) ==> Some(gate.until) == h.floodUntil)
                 && (gate.ClosedUntil? && !Flooded(h, later) && !NeverWorks(week) ==>
                       IsNextOpening(week, offset, later, gate.until))
                 && (now == later && gate.Unavailable? ==> !MayAct(h, facing))
                 && var prepared := old(account.AfterPrepare(facing, service, now));
                    service.State() == if !goesOn || Flooded(h, later) then prepared
                      else Hours.Got(prepared, service.rng, account.id, account.hours, later, service.max)
    ensures gate.ClosedUntil? ==> gate.until > later
  {
    if account == null {
      return TaskStore.Unavailable;
    }
    Hours.GotAgain(service.State(), service.rng, account.id, account.hours, now, service.max);
    var runnable := account.Prepare(facing, service, now);
    if runnable.Raised? {
      return TaskStore.Raised;
    }
    if runnable.value {
      return TaskStore.Runnable;
    }
    var until := account.ComputeDeferUntil(service, later);
    gate := match until
      case Raised => TaskStore.Raised
      case Done(None) => TaskStore.Unavailable
      case Done(Some(instant)) => TaskStore.ClosedUntil(instant);
  }

  /** Every deferral a run writes lies ahead: as the gate and the flood wait only name later
      instants, the sweep that runs right after it never finds the row due. */
  lemma DeferralsLieAhead(rows: TaskRows.Table, t: nat, gate: TaskStore.Gate, result: TaskStore.Result, now: int)
    requires t in rows && rows[t].status.Queued?
    requires gate.ClosedUntil? ==> gate.until > now
    requires result.Flood? ==> result.until > now
    ensures var row := TaskStore.RowsAfter(rows, t, TaskStore.EndOf(rows, t, gate, result, now), now)[t];
            row.status.Deferred? ==> row.deferredUntil.Some? && row.deferredUntil.value > now && !TaskRows.Due(row, now)
  {
  }
}
