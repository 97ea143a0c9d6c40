/**
 Conservation of door time over every interleaving of reservations, starts,
 ends, late or failed settlements, account deletions and crashes, seen through
 a book with one entry per reservation ever granted.
 */
module DoorRuns {
  import opened Base
  import opened DoorLedger
  import opened Doors

  /**
   The history of one reservation: the real time its process ran, what is
   charged for it now, and whether its row is still in the ledger. Deleting the
   account voids the entry.
   */
  datatype Entry = Entry(budget: Budget, granted: nat, used: nat, charge: nat, open: bool, voided: bool)

  /** A lease in memory; `started` is on the monotonic clock. */
  datatype Lease = Lease(day: nat, started: Option<int>)

  /** `pending` settlements have been taken out of their lease but have not reached the database. */
  datatype World = World(ledger: Ledger, book: seq<Entry>, leases: map<nat, Lease>, pending: map<nat, nat>)

  datatype Step =
    | CreateAccount(account: int)
    | Reserve(account: int, door: string, limit: nat, capSecs: nat, wall: int)
    | Start(id: nat, wall: int, now: int)
    | SpawnFails(id: nat)
    | End(id: nat, now: int)
    | Settle(id: nat, dbOk: bool)
    | DeleteAccount(account: int)
    | Crash(now: int)

  function Granting(w: World, b: Budget, limit: nat, requested: nat): World {
    var (ledger, r) := DoorLedger.Reserve(w.ledger, b, limit, requested);
    if r.Granted? then
      World(ledger, w.book + [Entry(b, r.ms, 0, r.ms, true, false)], w.leases[r.id := Lease(b.day, None)], w.pending)
    else w.(ledger := ledger)
  }

  function Settled(e: Entry, elapsedMs: nat): Entry {
    if e.open then e.(charge := Min(elapsedMs, e.granted), open := false) else e
  }

  function Voided(book: seq<Entry>, account: int): (r: seq<Entry>)
    ensures |r| == |book|
  {
    seq(|book|, i requires 0 <= i < |book| =>
      if book[i].budget.account == account then book[i].(charge := 0, open := false, voided := true) else book[i])
  }

  /** A crash ends every run without settling it. */
  function Crashed(book: seq<Entry>, leases: map<nat, Lease>, now: int): (r: seq<Entry>)
    ensures |r| == |book|
  {
    seq(|book|, i requires 0 <= i < |book| =>
      if i in leases then book[i].(used := Elapsed(leases[i].started, now)) else book[i])
  }

  function Next(w: World, step: Step): World {
    match step
    case CreateAccount(account) => w.(ledger := w.ledger.(accounts := w.ledger.accounts + {account}))
    case Reserve(account, door, limit, capSecs, wall) =>
      (match WindowAt(wall)
       case None => w
       case Some(window) => Granting(w, Budget(account, door, window.day), limit, Requested(window, capSecs)))
    case Start(id, wall, now) =>
      if id in w.leases && WindowAt(wall).Some? && WindowAt(wall).value.day == w.leases[id].day
      then w.(leases := w.leases[id := w.leases[id].(started := Some(now))]) else w
    case SpawnFails(id) =>
      if id in w.leases then w.(leases := w.leases[id := w.leases[id].(started := None)]) else w
    case End(id, now) =>
      if id !in w.leases || id >= |w.book| then w
      else
        var used := Elapsed(w.leases[id].started, now);
        w.(leases := w.leases - {id}, pending := w.pending[id := DurationMs(used)],
           book := w.book[id := w.book[id].(used := used)])
    case Settle(id, dbOk) =>
      if id !in w.pending || id >= |w.book| then w
      else if !dbOk then w.(pending := w.pending - {id})
      else
        w.(ledger := DoorLedger.Settle(w.ledger, id, w.pending[id]), pending := w.pending - {id},
           book := w.book[id := Settled(w.book[id], w.pending[id])])
    case DeleteAccount(account) =>
      w.(ledger := DoorLedger.DeleteAccount(w.ledger, account), book := Voided(w.book, account))
    case Crash(now) => w.(book := Crashed(w.book, w.leases, now), leases := map[], pending := map[])
  }

  function After(steps: seq<Step>): World {
    if |steps| == 0 then World(Ledger({}, map[], map[], 0), [], map[], map[])
    else Next(After(steps[..|steps| - 1]), steps[|steps| - 1])
  }

  // ---- sums over the book ----------------------------------------------------------------

  function Part(e: Entry, b: Budget): nat {
    if e.budget == b then e.charge else 0
  }

  /** Everything charged for a budget: live reservations in full, settled ones at their final charge. */
  function Total(book: seq<Entry>, b: Budget): nat {
    if |book| == 0 then 0 else Total(book[..|book| - 1], b) + Part(book[|book| - 1], b)
  }

  lemma {:induction false} TotalUpdate(book: seq<Entry>, i: nat, e: Entry, b: Budget)
    requires i < |book|
    ensures Total(book[i := e], b) == Total(book, b) - Part(book[i], b) + Part(e, b)
  {
    var last := |book| - 1;
    if i == last {
      assert book[i := e][..last] == book[..last];
    } else {
      TotalUpdate(book[..last], i, e, b);
      assert book[i := e][..last] == book[..last][i := e];
    }
  }

  lemma {:induction false} TotalSame(a: seq<Entry>, c: seq<Entry>, b: Budget)
    requires |a| == |c| && forall i :: 0 <= i < |a| ==> Part(a[i], b) == Part(c[i], b)
    ensures Total(a, b) == Total(c, b)
  {
    if |a| > 0 {
      TotalSame(a[..|a| - 1], c[..|a| - 1], b);
    }
  }

  lemma {:induction false} TotalVoided(book: seq<Entry>, account: int, b: Budget)
    ensures Total(Voided(book, account), b) == if b.account == account then 0 else Total(book, b)
  {
    if |book| > 0 {
      TotalVoided(book[..|book| - 1], account, b);
      assert Voided(book, account)[..|book| - 1] == Voided(book[..|book| - 1], account);
    }
  }

  // ---- what every run keeps ----------------------------------------------------------------

  predicate EntryOk(e: Entry) {
    && e.granted <= MAX_I64
    && (e.open ==> e.charge == e.granted && !e.voided)
    && (!e.open && !e.voided ==> e.charge == Min(DurationMs(e.used), e.granted))
    && (e.voided ==> e.charge == 0)
  }

  ghost predicate Balanced(l: Ledger, book: seq<Entry>) {
    forall b :: Charged(l, b) == Total(book, b)
  }

  /** The rows of the ledger are exactly the open entries, and each has its budget's row. */
  predicate RowsOk(l: Ledger, book: seq<Entry>) {
    && l.nextId == |book|
    && (forall id :: id in l.live ==> id < |book| && book[id].open)
    && (forall id :: 0 <= id < |book| && book[id].open ==>
          id in l.live && l.live[id] == Reservation(book[id].budget, book[id].granted) && book[id].budget in l.charged)
  }

  /** Nothing in memory has been settled; what is pending is the rounded time really used. */
  predicate LeasesOk(w: World) {
    && (forall id :: id in w.leases ==>
          id < |w.book| && id !in w.pending && (w.book[id].open || w.book[id].voided))
    && (forall id :: id in w.pending ==>
          id < |w.book| && w.pending[id] == DurationMs(w.book[id].used) && (w.book[id].open || w.book[id].voided))
  }

  ghost predicate Inv(w: World) {
    && Balanced(w.ledger, w.book) && RowsOk(w.ledger, w.book) && LeasesOk(w)
    && forall i :: 0 <= i < |w.book| ==> EntryOk(w.book[i])
  }

  lemma GrantingBalanced(w: World, b: Budget, limit: nat, requested: nat, c: Budget)
    requires Balanced(w.ledger, w.book)
    ensures Charged(Granting(w, b, limit, requested).ledger, c) == Total(Granting(w, b, limit, requested).book, c)
  {
    var w' := Granting(w, b, limit, requested);
    assert Charged(w.ledger, c) == Total(w.book, c);
    if w'.book != w.book {
      assert w'.book[..|w.book|] == w.book;
    }
  }

  lemma GrantingRows(w: World, b: Budget, limit: nat, requested: nat)
    requires RowsOk(w.ledger, w.book)
    ensures RowsOk(Granting(w, b, limit, requested).ledger, Granting(w, b, limit, requested).book)
  {
  }

  lemma GrantingLeases(w: World, b: Budget, limit: nat, requested: nat)
    requires LeasesOk(w) && w.ledger.nextId == |w.book|
    requires forall i :: 0 <= i < |w.book| ==> EntryOk(w.book[i])
    ensures var w' := Granting(w, b, limit, requested);
      LeasesOk(w') && forall i :: 0 <= i < |w'.book| ==> EntryOk(w'.book[i])
  {
  }

  lemma GrantingInv(w: World, b: Budget, limit: nat, requested: nat)
    requires Inv(w)
    ensures Inv(Granting(w, b, limit, requested))
  {
    GrantingRows(w, b, limit, requested);
    GrantingLeases(w, b, limit, requested);
    forall c
      ensures Charged(Granting(w, b, limit, requested).ledger, c) == Total(Granting(w, b, limit, requested).book, c)
    {
      GrantingBalanced(w, b, limit, requested, c);
    }
  }

  lemma EndBalanced(w: World, id: nat, used: nat)
    requires Balanced(w.ledger, w.book) && id < |w.book|
    ensures Balanced(w.ledger, w.book[id := w.book[id].(used := used)])
  {
    var e := w.book[id].(used := used);
    forall b
      ensures Charged(w.ledger, b) == Total(w.book[id := e], b)
    {
      TotalUpdate(w.book, id, e, b);
    }
  }

  lemma EndRows(w: World, id: nat, used: nat)
    requires RowsOk(w.ledger, w.book) && LeasesOk(w) && id in w.leases
    ensures var w' := w.(leases := w.leases - {id}, pending := w.pending[id := DurationMs(used)],
                         book := w.book[id := w.book[id].(used := used)]);
      RowsOk(w'.ledger, w'.book) && LeasesOk(w')
  {
    hide DurationMs;
  }

  lemma EndInv(w: World, id: nat, now: int)
    requires Inv(w)
    ensures Inv(Next(w, End(id, now)))
  {
    if id in w.leases {
      EndBalanced(w, id, Elapsed(w.leases[id].started, now));
      EndRows(w, id, Elapsed(w.leases[id].started, now));
      hide Balanced, RowsOk, Elapsed, DurationMs;
    }
  }

  lemma SettleBalanced(l: Ledger, book: seq<Entry>, id: nat, ms: nat)
    requires Balanced(l, book) && RowsOk(l, book) && id < |book| && EntryOk(book[id])
    ensures Balanced(DoorLedger.Settle(l, id, ms), book[id := Settled(book[id], ms)])
  {
    forall b
      ensures Charged(DoorLedger.Settle(l, id, ms), b) == Total(book[id := Settled(book[id], ms)], b)
    {
      TotalUpdate(book, id, Settled(book[id], ms), b);
    }
  }

  lemma SettleRows(l: Ledger, book: seq<Entry>, id: nat, ms: nat)
    requires RowsOk(l, book) && id < |book|
    ensures RowsOk(DoorLedger.Settle(l, id, ms), book[id := Settled(book[id], ms)])
  {
  }

  lemma SettleInv(w: World, id: nat, dbOk: bool)
    requires Inv(w)
    ensures Inv(Next(w, Settle(id, dbOk)))
  {
    if id in w.pending && dbOk {
      SettleBalanced(w.ledger, w.book, id, w.pending[id]);
      SettleRows(w.ledger, w.book, id, w.pending[id]);
      hide Balanced, RowsOk, DurationMs, DoorLedger.Settle;
    }
  }

  lemma DeleteInv(w: World, account: int)
    requires Inv(w)
    ensures Inv(Next(w, DeleteAccount(account)))
  {
    var w' := Next(w, DeleteAccount(account));
    forall b
      ensures Charged(w'.ledger, b) == Total(w'.book, b)
    {
      TotalVoided(w.book, account, b);
    }
  }

  lemma CrashInv(w: World, now: int)
    requires Inv(w)
    ensures Inv(Next(w, Crash(now)))
  {
    var w' := Next(w, Crash(now));
    forall b
      ensures Charged(w'.ledger, b) == Total(w'.book, b)
    {
      TotalSame(w.book, w'.book, b);
    }
    forall i | 0 <= i < |w'.book|
      ensures EntryOk(w'.book[i])
    {
      assert EntryOk(w.book[i]);
    }
  }

  lemma NextInv(w: World, step: Step)
    requires Inv(w)
    ensures Inv(Next(w, step))
  {
    match step {
      case Reserve(account, door, limit, capSecs, wall) =>
        if WindowAt(wall).Some? {
          var window := WindowAt(wall).value;
          GrantingInv(w, Budget(account, door, window.day), limit, Requested(window, capSecs));
        }
      case End(id, now) => EndInv(w, id, now);
      case Settle(id, dbOk) => SettleInv(w, id, dbOk);
      case DeleteAccount(account) => DeleteInv(w, account);
      case Crash(now) => CrashInv(w, now);
      case CreateAccount(account) =>
        assert forall b :: Charged(Next(w, step).ledger, b) == Charged(w.ledger, b);
      case _ =>
    }
  }

  lemma {:induction false} RunInv(steps: seq<Step>)
    ensures Inv(After(steps))
  {
    if |steps| > 0 {
      RunInv(steps[..|steps| - 1]);
      NextInv(After(steps[..|steps| - 1]), steps[|steps| - 1]);
    }
  }

  // ---- conservation --------------------------------------------------------------------------

  /** No reservation of the door was ever made under a daily limit above `limit`. */
  predicate LimitedTo(steps: seq<Step>, door: string, limit: nat) {
    forall i :: 0 <= i < |steps| && steps[i].Reserve? && steps[i].door == door ==> steps[i].limit <= limit
  }

  lemma ChargedGrowsByReserving(w: World, step: Step, b: Budget)
    requires Inv(w)
    ensures Charged(Next(w, step).ledger, b) <= Charged(w.ledger, b)
      || (step.Reserve? && step.door == b.door && Charged(Next(w, step).ledger, b) <= step.limit)
  {
    hide Total;
    if step.DeleteAccount? {
      PartsNonNegative(w, b);
    }
  }

  lemma PartsNonNegative(w: World, b: Budget)
    requires Inv(w)
    ensures Charged(w.ledger, b) >= 0
  {
    assert Charged(w.ledger, b) == Total(w.book, b);
  }

  /**
   Allowance. After any run, what a budget is charged is what is held by live
   reservations plus what settled ones really used, rounded up and capped at
   their grants; and it is within the largest daily limit ever in force.
   */
  lemma {:induction false} AllowanceConserved(steps: seq<Step>, b: Budget, limit: nat)
    requires LimitedTo(steps, b.door, limit)
    ensures var w := After(steps);
      && 0 <= Charged(w.ledger, b) == Total(w.book, b) <= limit
      && forall i :: 0 <= i < |w.book| && !w.book[i].voided ==>
           w.book[i].charge == if w.book[i].open then w.book[i].granted
               else Min(DurationMs(w.book[i].used), w.book[i].granted)
  {
    RunInv(steps);
    assert forall i :: 0 <= i < |After(steps).book| ==> EntryOk(After(steps).book[i]);
    if |steps| > 0 {
      AllowanceConserved(steps[..|steps| - 1], b, limit);
      RunInv(steps[..|steps| - 1]);
      ChargedGrowsByReserving(After(steps[..|steps| - 1]), steps[|steps| - 1], b);
    }
  }

  /** Real time used under a budget, each run up to its grant, in nanoseconds. */
  function Cost(book: seq<Entry>, b: Budget): nat {
    if |book| == 0 then 0
    else
      var e := book[|book| - 1];
      Cost(book[..|book| - 1], b) + if e.budget == b && !e.voided then Min(e.used, e.granted * NS_PER_MS) else 0
  }

  lemma {:induction false} TotalCoversCost(book: seq<Entry>, b: Budget)
    requires forall i :: 0 <= i < |book| ==> EntryOk(book[i])
    ensures Total(book, b) * NS_PER_MS >= Cost(book, b)
  {
    if |book| > 0 {
      TotalCoversCost(book[..|book| - 1], b);
      if !book[|book| - 1].voided {
        ChargeCoversUse(book[|book| - 1]);
      }
    }
  }

  lemma ChargeCoversUse(e: Entry)
    requires EntryOk(e) && !e.voided
    ensures e.charge * NS_PER_MS >= Min(e.used, e.granted * NS_PER_MS)
  {
    if e.used <= MAX_U64 * NS_PER_MS {
      RoundedUp(e.used);
    }
  }

  /** No run of starts, crashes and failed settlements buys a fraction of a millisecond for free. */
  lemma {:induction false} NeverUndercharged(steps: seq<Step>, b: Budget)
    ensures Charged(After(steps).ledger, b) * NS_PER_MS >= Cost(After(steps).book, b)
  {
    RunInv(steps);
    TotalCoversCost(After(steps).book, b);
  }

  lemma StepLeavesSettled(w: World, step: Step, id: nat)
    requires RowsOk(w.ledger, w.book) && LeasesOk(w) && id < |w.book| && !w.book[id].open
    ensures id < |Next(w, step).book| && !Next(w, step).book[id].open
    ensures Next(w, step).book[id] == w.book[id] || Next(w, step).book[id].voided
  {
  }

  /** A settlement is final: nothing but deleting the account changes that charge again. */
  lemma {:induction false} SettledOnce(steps: seq<Step>, more: seq<Step>, id: nat)
    requires id < |After(steps).book| && !After(steps).book[id].open
    ensures id < |After(steps + more).book| && !After(steps + more).book[id].open
    ensures var then', now := After(steps).book[id], After(steps + more).book[id];
      now == then' || now.voided
  {
    if |more| == 0 {
      assert steps + more == steps;
    } else {
      SettledOnce(steps, more[..|more| - 1], id);
      assert (steps + more)[..|steps + more| - 1] == steps + more[..|more| - 1];
      RunInv(steps + more[..|more| - 1]);
      StepLeavesSettled(After(steps + more[..|more| - 1]), more[|more| - 1], id);
    }
  }

  /** A lease that never started, or whose process did not spawn, gives its whole grant back. */
  lemma UnstartedIsFree(w: World, id: nat, now: int)
    requires Inv(w) && id in w.leases && w.leases[id].started.None? && w.book[id].open
    ensures var b := w.book[id].budget;
      Charged(Next(Next(w, End(id, now)), Settle(id, true)).ledger, b) == Charged(w.ledger, b) - w.book[id].granted
  {
  }
}
