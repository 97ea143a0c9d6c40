/**
 Metered door runs (`apps/server/src/doors.rs`): the UTC-day window, the lease
 that holds a prepaid reservation while a door runs, and its settlement.
 Clocks are parameters, in nanoseconds: a wall clock for the day and a
 monotonic clock for the elapsed time.
 */
module Doors {
  import opened Base
  import opened DoorLedger

  const NS_PER_MS := 1_000_000
  const DAY_MILLIS := 86_400_000
  const DAY_NS := DAY_MILLIS * NS_PER_MS

  datatype Window = Window(day: nat, remaining: nat)

  /** `DailyWindow::at`: an error before the epoch or past 64 bits of milliseconds. */
  function WindowAt(wall: int): Option<Window> {
    if wall < 0 || wall / NS_PER_MS > MAX_U64 then None
    else
      var millis := wall / NS_PER_MS;
      Some(Window(millis / DAY_MILLIS, (DAY_MILLIS - millis % DAY_MILLIS) * NS_PER_MS))
  }

  /** `duration_ms`: rounded up. */
  function DurationMs(ns: nat): nat {
    Min((ns + NS_PER_MS - 1) / NS_PER_MS, MAX_U64)
  }

  function Elapsed(started: Option<int>, now: int): nat {
    if started.None? || now < started.value then 0 else now - started.value
  }

  function MinLimit(limit: Option<nat>, ns: nat): Option<nat> {
    if limit.None? then None else Some(Min(limit.value, ns))
  }

  class DoorUsage {
    var ledger: Ledger

    constructor (ledger: Ledger)
      ensures this.ledger == ledger
    {
      this.ledger := ledger;
    }

    method Reserve(budget: Budget, limit: nat, requested: nat) returns (r: Reserved)
      modifies this
      ensures (ledger, r) == DoorLedger.Reserve(old(ledger), budget, limit, requested)
    {
      var (next, answer) := DoorLedger.Reserve(ledger, budget, limit, requested);
      ledger := next;
      return answer;
    }

    /** A transaction that fails leaves the prepaid charge in place. */
    method Settle(id: nat, elapsedMs: nat, dbOk: bool)
      modifies this
      ensures ledger == if dbOk then DoorLedger.Settle(old(ledger), id, elapsedMs) else old(ledger)
    {
      if dbOk {
        ledger := DoorLedger.Settle(ledger, id, elapsedMs);
      }
    }
  }

  class UsageLease {
    var reservation: Option<nat>
    var limit: Option<nat>
    var day: Option<nat>
    var started: Option<int>

    /** The wall clock at the accepted start. */
    ghost var startedWall: int

    /** A started metered run has at most the rest of the day it was reserved for. */
    ghost predicate Valid()
      reads this
    {
      started.Some? && limit.Some? && day.Some? ==>
        && WindowAt(startedWall).Some? && WindowAt(startedWall).value.day == day.value
        && limit.value <= WindowAt(startedWall).value.remaining
    }

    constructor Metered(id: nat, grantedMs: nat, day: nat)
      ensures Valid()
      ensures reservation == Some(id) && limit == Some(grantedMs * NS_PER_MS) && this.day == Some(day)
          && started == None
    {
      reservation, limit, this.day, started := Some(id), Some(grantedMs * NS_PER_MS), Some(day), None;
    }

    constructor Unmetered(limit: Option<nat>)
      ensures Valid()
      ensures reservation == None && this.limit == limit && day == None && started == None
    {
      reservation, this.limit, day, started := None, limit, None, None;
    }

    /** The day is checked again just before the process starts, and the budget cut to what is left of it. */
    method Start(wall: int, now: int) returns (ok: Result<bool>)
      requires Valid()
      modifies this`limit, this`started, this`startedWall
      ensures Valid()
      ensures day.None? ==> ok == Ok(true) && limit == old(limit)
      ensures day.Some? ==>
        ok == match WindowAt(wall)
              case None => Err
              case Some(w) => Ok(w.day == day.value)
      ensures ok != Ok(true) ==> started == old(started) && limit == old(limit) && startedWall == old(startedWall)
      ensures ok == Ok(true) ==> started == Some(now) && startedWall == wall
      ensures ok == Ok(true) && day.Some? ==> limit == MinLimit(old(limit), WindowAt(wall).value.remaining)
    {
      if day.Some? {
        var w := WindowAt(wall);
        if w.None? {
          return Err;
        }
        if w.value.day != day.value {
          return Ok(false);
        }
        limit := MinLimit(limit, w.value.remaining);
      }
      started, startedWall := Some(now), wall;
      return Ok(true);
    }

    /**
     Known once the run has started with a budget. Carried over to the wall clock,
     a metered run's deadline is less than a millisecond past the midnight that
     ends the day it was reserved for.
     */
    method Deadline() returns (at: Option<int>)
      requires Valid()
      ensures at.Some? <==> started.Some? && limit.Some?
      ensures at.Some? ==> at.value - started.value == limit.value
      ensures at.Some? && day.Some? ==> startedWall + (at.value - started.value) < Midnight(day.value) + NS_PER_MS
    {
      if started.None? || limit.None? {
        return None;
      }
      if day.Some? {
        WindowEndsAtMidnight(startedWall);
      }
      return Some(started.value + limit.value);
    }

    /** `finish`, and the drop of a cancelled run: the reservation is taken out first, so it is settled at most once. */
    method Finish(usage: DoorUsage, now: int, dbOk: bool)
      modifies this`reservation, usage
      ensures reservation == None
      ensures usage.ledger ==
        if old(reservation).Some? && dbOk
        then DoorLedger.Settle(old(usage.ledger), old(reservation).value, DurationMs(Elapsed(started, now)))
        else old(usage.ledger)
    {
      if reservation.Some? {
        var id := reservation.value;
        reservation := None;
        usage.Settle(id, DurationMs(Elapsed(started, now)), dbOk);
      }
    }
  }

  /** What `DoorService::reserve` asks for: the rest of the day, under the session cap if there is one. */
  function Requested(window: Window, capSecs: nat): nat {
    DurationMs(if capSecs > 0 then Min(capSecs * 1000 * NS_PER_MS, window.remaining) else window.remaining)
  }

  /** `DoorService::reserve`. An unmetered door never touches the ledger. */
  method ReserveRun(usage: DoorUsage, account: int, door: string, dailyLimitMins: Option<nat>, capSecs: nat, wall: int)
    returns (r: Result<Option<UsageLease>>)
    modifies usage
    ensures dailyLimitMins.None? ==>
      && usage.ledger == old(usage.ledger) && r.Ok? && r.value.Some? && fresh(r.value.value)
      && r.value.value.reservation == None && r.value.value.day == None && r.value.value.started == None
      && r.value.value.limit == if capSecs > 0 then Some(capSecs * 1000 * NS_PER_MS) else None
    ensures dailyLimitMins.Some? && WindowAt(wall).None? ==> r.Err? && usage.ledger == old(usage.ledger)
    ensures dailyLimitMins.Some? && WindowAt(wall).Some? ==>
      var w := WindowAt(wall).value;
      var (next, answer) := DoorLedger.Reserve(old(usage.ledger), Budget(account, door, w.day),
                                               dailyLimitMins.value * 60_000, Requested(w, capSecs));
      && usage.ledger == next
      && (answer.NothingLeft? ==> r == Ok(None))
      && (answer.Failed? ==> r.Err?)
      && (answer.Granted? ==>
            && r.Ok? && r.value.Some? && fresh(r.value.value)
            && r.value.value.reservation == Some(answer.id) && r.value.value.limit == Some(answer.ms * NS_PER_MS)
            && r.value.value.day == Some(w.day) && r.value.value.started == None)
  {
    if dailyLimitMins.None? {
      var free := new UsageLease.Unmetered(if capSecs > 0 then Some(capSecs * 1000 * NS_PER_MS) else None);
      return Ok(Some(free));
    }
    var w := WindowAt(wall);
    if w.None? {
      return Err;
    }
    var answer :=
        usage.Reserve(Budget(account, door, w.value.day), dailyLimitMins.value * 60_000, Requested(w.value, capSecs));
    if answer.NothingLeft? {
      return Ok(None);
    }
    if answer.Failed? {
      return Err;
    }
    var lease := new UsageLease.Metered(answer.id, answer.ms, w.value.day);
    return Ok(Some(lease));
  }

  // ---- midnight --------------------------------------------------------------------------

  function Midnight(day: nat): nat {
    (day + 1) * DAY_NS
  }

  /** The window ends at the midnight after `wall`, give or take the fraction of a millisecond cut off. */
  lemma WindowEndsAtMidnight(wall: int)
    requires WindowAt(wall).Some?
    ensures var w := WindowAt(wall).value;
      && w.day * DAY_NS <= wall < Midnight(w.day)
      && wall + w.remaining == Midnight(w.day) + wall % NS_PER_MS
  {
    var millis := wall / NS_PER_MS;
    assert wall == millis * NS_PER_MS + wall % NS_PER_MS;
    assert millis == millis / DAY_MILLIS * DAY_MILLIS + millis % DAY_MILLIS;
  }

  /**
   A started run's deadline passes midnight exactly when its budget is the
   whole rest of the day and the start was not on a whole millisecond, and
   then by less than one millisecond.
   */
  lemma DeadlinePassesMidnightExactlyWhen(wall: int, grantedMs: nat)
    requires WindowAt(wall).Some?
    ensures var w := WindowAt(wall).value;
      var deadline := wall + Min(grantedMs * NS_PER_MS, w.remaining);
      && (deadline > Midnight(w.day) <==> grantedMs * NS_PER_MS >= w.remaining && wall % NS_PER_MS != 0)
      && deadline < Midnight(w.day) + NS_PER_MS
  {
    WindowEndsAtMidnight(wall);
    var millis := wall / NS_PER_MS;
    var left := DAY_MILLIS - millis % DAY_MILLIS;
    if grantedMs < left {
      assert grantedMs * NS_PER_MS <= (left - 1) * NS_PER_MS;
    }
  }

  /** It does pass it: a run started in the last nanosecond of a day still gets a whole millisecond. */
  lemma DeadlineDoesPassMidnight(l: Ledger, door: string, limit: nat)
    requires 1 in l.accounts && 0 < limit && Charged(l, Budget(1, door, 0)) == 0
    ensures var wall := DAY_NS - 1;
      && WindowAt(wall) == Some(Window(0, NS_PER_MS))
      && Reserve(l, Budget(1, door, 0), limit, Requested(WindowAt(wall).value, 0)).1 == Granted(l.nextId, 1)
      && wall + Min(1 * NS_PER_MS, WindowAt(wall).value.remaining) > Midnight(0)
  {
    assert (DAY_NS - 1) / NS_PER_MS == DAY_MILLIS - 1;
  }

  /** Rounding up never undercounts, and overcounts by less than a millisecond. */
  lemma RoundedUp(ns: nat)
    requires ns <= MAX_U64 * NS_PER_MS
    ensures DurationMs(ns) * NS_PER_MS >= ns > (DurationMs(ns) - 1) * NS_PER_MS
  {
  }
}
