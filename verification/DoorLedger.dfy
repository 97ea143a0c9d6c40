/**
 The durable ledger of door time (`crates/store-server/src/doors.rs`): what
 each account has been charged for a door on a UTC day, and the prepaid
 reservations not settled yet. Each operation is one database transaction.
 */
module DoorLedger {
  import opened Base

  const MAX_I64 := 0x7FFF_FFFF_FFFF_FFFF
  const MAX_U64 := 0xFFFF_FFFF_FFFF_FFFF

  /** One budget: an account's time in one door on one UTC day. */
  datatype Budget = Budget(account: int, door: string, day: nat)

  datatype Reservation = Reservation(budget: Budget, granted: nat)

  /** `charged` is an SQLite integer with a check that it is not negative. */
  datatype Ledger = Ledger(accounts: set<int>, charged: map<Budget, int>, live: map<nat, Reservation>, nextId: nat)

  datatype Reserved = Granted(id: nat, ms: nat) | NothingLeft | Failed

  function Min(a: int, b: int): int {
    if a < b then a else b
  }

  function Charged(l: Ledger, b: Budget): int {
    if b in l.charged then l.charged[b] else 0
  }

  /** What is left of a budget for one more reservation. */
  function Left(l: Ledger, b: Budget, limit: nat): (left: nat) {
    var left := Min(limit, MAX_I64) - Charged(l, b);
    if left < 0 then 0 else left
  }

  /** `DoorUsageRepo::reserve`. */
  function Reserve(l: Ledger, b: Budget, limit: nat, requested: nat): (Ledger, Reserved) {
    if b.account <= 0 || requested == 0 || limit == 0 then (l, NothingLeft)
    else if b.account !in l.accounts then (l, Failed)
    else
      var granted := Min(Min(requested, MAX_I64), Left(l, b, limit));
      if granted == 0 then (l.(charged := l.charged[b := Charged(l, b)]), NothingLeft)
      else
        (l.(charged := l.charged[b := Charged(l, b) + granted],
            live := l.live[l.nextId := Reservation(b, granted)],
            nextId := l.nextId + 1),
         Granted(l.nextId, granted))
  }

  /** `DoorUsageRepo::settle`: a second settlement, or one after account deletion, finds no row. */
  function Settle(l: Ledger, id: nat, elapsedMs: nat): Ledger {
    if id !in l.live then l
    else
      var r := l.live[id];
      var refund := r.granted - Min(elapsedMs, r.granted);
      l.(charged := if r.budget in l.charged then l.charged[r.budget := l.charged[r.budget] - refund] else l.charged,
         live := l.live - {id})
  }

  /** Usage and reservations go with the account. */
  function DeleteAccount(l: Ledger, account: int): Ledger {
    l.(accounts := l.accounts - {account},
       charged := map b | b in l.charged && b.account != account :: l.charged[b],
       live := map id | id in l.live && l.live[id].budget.account != account :: l.live[id])
  }

  /**
   A reservation is granted exactly to a real account with time left, and then
   gets all it asked for or all there is.
   */
  lemma GrantedExactlyWhen(l: Ledger, b: Budget, limit: nat, requested: nat)
    requires limit <= MAX_I64 && requested <= MAX_I64
    ensures var (next, r) := Reserve(l, b, limit, requested);
      && (r.Granted? <==>
          b.account > 0 && b.account in l.accounts && requested > 0 && Charged(l, b) < limit && limit > 0)
      && (r.Granted? ==>
            && 0 < r.ms <= requested && Charged(next, b) == Charged(l, b) + r.ms <= limit
            && (r.ms == requested || Charged(next, b) == limit)
            && r.id in next.live && next.live[r.id] == Reservation(b, r.ms))
      && (forall c :: c != b ==> Charged(next, c) == Charged(l, c))
      && (!r.Granted? ==> Charged(next, b) == Charged(l, b) && next.live == l.live)
  {
  }
}
