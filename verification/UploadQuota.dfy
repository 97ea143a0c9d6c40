/**
 The upload quota under concurrency (`apps/server/src/upload_gate.rs` and its
 callers). Every surface that files bytes, ticketed or inline, takes one lock
 before it checks the account's space and keeps it until the file is recorded.
 */
module UploadQuota {
  import opened Base

  const MAX_U64 := 0xFFFF_FFFF_FFFF_FFFF

  /** One recorded file: who it counts against and its measured size. */
  datatype File = File(account: int, size: nat)

  /** How far one filing has got. From `Locked` to `Recorded` it holds the commit lock. */
  datatype Phase = Waiting | Locked | Checked | Stored | Recorded | Over

  datatype Filing = Filing(account: int, size: nat, phase: Phase)

  datatype World = World(files: map<nat, File>, filings: seq<Filing>, lock: Option<nat>)

  datatype Limits = Limits(maxFile: nat, quota: nat)

  datatype Verdict = Pass | TooBig | OverQuota | Unavailable

  datatype Step =
    | Arrive(account: int, size: nat)
    | Lock(i: nat)
    | Check(i: nat, readOk: bool)
    | Store(i: nat, ok: bool)
    | Record(i: nat, node: nat, ok: bool)
    | Leave(i: nat)
    | Delete(node: nat)

  function Sum(files: map<nat, File>, ids: set<nat>, account: int): nat
    requires ids <= files.Keys
  {
    if ids == {} then 0
    else
      var id := Least(ids);
      (if files[id].account == account then files[id].size else 0) + Sum(files, ids - {id}, account)
  }

  predicate IsLeast(ids: set<nat>, x: nat) {
    x in ids && forall y :: y in ids ==> x <= y
  }

  function Least(ids: set<nat>): (x: nat)
    requires ids != {}
    ensures IsLeast(ids, x)
  {
    LeastExists(ids);
    var x :| IsLeast(ids, x);
    x
  }

  lemma {:induction false} LeastExists(ids: set<nat>)
    requires ids != {}
    ensures exists x :: IsLeast(ids, x)
    decreases ids
  {
    var x :| x in ids;
    if ids == {x} {
      assert IsLeast(ids, x);
    } else {
      LeastExists(ids - {x});
      var m :| IsLeast(ids - {x}, m);
      assert forall y :: y in ids && y != x ==> y in ids - {x};
      assert IsLeast(ids, if x < m then x else m);
    }
  }

  /** `uploaded_bytes`: what the account keeps in the library. */
  function Uploaded(files: map<nat, File>, account: int): nat {
    Sum(files, files.Keys, account)
  }

  /** `upload_gate::check`, with the store's answer or its failure; the sum saturates. */
  function Gate(limits: Limits, files: map<nat, File>, account: int, size: nat, readOk: bool): Verdict {
    if limits.maxFile != 0 && size > limits.maxFile then TooBig
    else if limits.quota == 0 then Pass
    else if !readOk then Unavailable
    else
      var sum := Uploaded(files, account) + size;
      if (if sum > MAX_U64 then MAX_U64 else sum) > limits.quota then OverQuota else Pass
  }

  function Moved(w: World, i: nat, phase: Phase): World
    requires i < |w.filings|
  {
    w.(filings := w.filings[i := w.filings[i].(phase := phase)])
  }

  /** The guard is dropped on every way out. */
  function Ended(w: World, i: nat): World
    requires i < |w.filings|
  {
    Moved(w, i, Over).(lock := if w.lock == Some(i) then None else w.lock)
  }

  predicate At(w: World, i: nat, phase: Phase) {
    i < |w.filings| && w.filings[i].phase == phase
  }

  function Next(limits: Limits, w: World, step: Step): World {
    match step
    case Arrive(account, size) => w.(filings := w.filings + [Filing(account, size, Waiting)])
    case Lock(i) => if At(w, i, Waiting) && w.lock == None then Moved(w, i, Locked).(lock := Some(i)) else w
    case Check(i, readOk) =>
      if !At(w, i, Locked) then w
      else if Gate(limits, w.files, w.filings[i].account, w.filings[i].size, readOk) == Pass then Moved(w, i, Checked)
      else Ended(w, i)
    case Store(i, ok) => if !At(w, i, Checked) then w else if ok then Moved(w, i, Stored) else Ended(w, i)
    case Record(i, node, ok) =>
      if !At(w, i, Stored) || node in w.files then w
      else if !ok then Ended(w, i)
      else Moved(w, i, Recorded).(files := w.files[node := File(w.filings[i].account, w.filings[i].size)])
    case Leave(i) => if i < |w.filings| then Ended(w, i) else w
    case Delete(node) => w.(files := w.files - {node})
  }

  function After(limits: Limits, w: World, steps: seq<Step>): World {
    if |steps| == 0 then w else Next(limits, After(limits, w, steps[..|steps| - 1]), steps[|steps| - 1])
  }

  /**
   The gate passes a file exactly when it is within the per-file limit and, if
   there is a quota, the space in use is known and the file still fits. A quota
   of the largest 64-bit number fits everything, because the sum saturates there.
   */
  lemma GatePassesExactlyWhen(limits: Limits, files: map<nat, File>, account: int, size: nat, readOk: bool)
    requires limits.quota <= MAX_U64
    ensures Gate(limits, files, account, size, readOk) == Pass
        <==> && (limits.maxFile == 0 || size <= limits.maxFile)
             && (limits.quota != 0 ==>
                 readOk && (limits.quota == MAX_U64 || Uploaded(files, account) + size <= limits.quota))
  {
  }

  // ---- sums -----------------------------------------------------------------------------------

  lemma {:induction false} SumWithout(files: map<nat, File>, ids: set<nat>, id: nat, account: int)
    requires ids <= files.Keys && id in ids
    ensures Sum(files, ids, account)
         == (if files[id].account == account then files[id].size else 0) + Sum(files, ids - {id}, account)
    decreases ids
  {
    var x := Least(ids);
    if x != id {
      SumWithout(files, ids - {x}, id, account);
      assert ids - {x} - {id} == ids - {id} - {x};
      SumWithout(files, ids - {id}, x, account);
    }
  }

  lemma {:induction false} SumSame(a: map<nat, File>, b: map<nat, File>, ids: set<nat>, account: int)
    requires ids <= a.Keys && ids <= b.Keys && forall id :: id in ids ==> a[id] == b[id]
    ensures Sum(a, ids, account) == Sum(b, ids, account)
    decreases ids
  {
    if ids != {} {
      SumSame(a, b, ids - {Least(ids)}, account);
    }
  }

  lemma UploadedAfterRecord(files: map<nat, File>, node: nat, f: File, account: int)
    requires node !in files
    ensures Uploaded(files[node := f], account) == Uploaded(files, account) + if f.account == account then f.size else 0
  {
    var more := files[node := f];
    SumWithout(more, more.Keys, node, account);
    assert more.Keys - {node} == files.Keys;
    SumSame(files, more, files.Keys, account);
  }

  lemma UploadedAfterDelete(files: map<nat, File>, node: nat, account: int)
    ensures Uploaded(files - {node}, account) <= Uploaded(files, account)
  {
    if node in files {
      var less := files - {node};
      SumWithout(files, files.Keys, node, account);
      assert less.Keys == files.Keys - {node};
      SumSame(files, less, less.Keys, account);
    } else {
      assert files - {node} == files;
    }
  }

  // ---- the lock --------------------------------------------------------------------------------

  predicate Holds(p: Phase) {
    p.Locked? || p.Checked? || p.Stored? || p.Recorded?
  }

  predicate Passed(p: Phase) {
    p.Checked? || p.Stored?
  }

  /** Only the lock's owner is between its check and its record, and what it checked still holds. */
  predicate Inv(limits: Limits, w: World) {
    && (forall i :: 0 <= i < |w.filings| && Holds(w.filings[i].phase) ==> w.lock == Some(i))
    && (limits.quota != 0 ==> forall i :: 0 <= i < |w.filings| && Passed(w.filings[i].phase) ==>
          Uploaded(w.files, w.filings[i].account) + w.filings[i].size <= limits.quota)
  }

  predicate WithinQuota(limits: Limits, w: World, account: int) {
    limits.quota != 0 ==> Uploaded(w.files, account) <= limits.quota
  }

  lemma RecordKeeps(limits: Limits, w: World, i: nat, node: nat, account: int)
    requires limits.quota < MAX_U64 && Inv(limits, w) && At(w, i, Stored) && node !in w.files
    ensures var w' := Next(limits, w, Record(i, node, true));
      Inv(limits, w') && (WithinQuota(limits, w, account) ==> WithinQuota(limits, w', account))
  {
    UploadedAfterRecord(w.files, node, File(w.filings[i].account, w.filings[i].size), account);
  }

  lemma DeleteKeeps(limits: Limits, w: World, node: nat, account: int)
    requires Inv(limits, w)
    ensures var w' := Next(limits, w, Delete(node));
      Inv(limits, w') && (WithinQuota(limits, w, account) ==> WithinQuota(limits, w', account))
  {
    UploadedAfterDelete(w.files, node, account);
    forall i | 0 <= i < |w.filings|
      ensures Uploaded(w.files - {node}, w.filings[i].account) <= Uploaded(w.files, w.filings[i].account)
    {
      UploadedAfterDelete(w.files, node, w.filings[i].account);
    }
  }

  lemma NextKeeps(limits: Limits, w: World, step: Step, account: int)
    requires limits.quota < MAX_U64 && Inv(limits, w)
    ensures Inv(limits, Next(limits, w, step))
    ensures WithinQuota(limits, w, account) ==> WithinQuota(limits, Next(limits, w, step), account)
  {
    if step.Check? && At(w, step.i, Locked) {
      GatePassesExactlyWhen(limits, w.files, w.filings[step.i].account, w.filings[step.i].size, step.readOk);
    } else if step.Record? && At(w, step.i, Stored) && step.node !in w.files && step.ok {
      RecordKeeps(limits, w, step.i, step.node, account);
    } else if step.Delete? {
      DeleteKeeps(limits, w, step.node, account);
    } else {
      assert Next(limits, w, step).files == w.files;
    }
  }

  /**
   Quota safety. Under one fixed limit, however many filings are under way and
   however their steps interleave, fail or are given up, no account that starts
   within its quota ever keeps more than its quota.
   */
  lemma {:induction false} NeverOverQuota(limits: Limits, w: World, steps: seq<Step>, account: int)
    requires 0 < limits.quota < MAX_U64 && w.lock == None && forall i ::
        0 <= i < |w.filings| ==> w.filings[i].phase == Waiting
    requires Uploaded(w.files, account) <= limits.quota
    ensures Inv(limits, After(limits, w, steps))
    ensures Uploaded(After(limits, w, steps).files, account) <= limits.quota
  {
    if |steps| > 0 {
      NeverOverQuota(limits, w, steps[..|steps| - 1], account);
      NextKeeps(limits, After(limits, w, steps[..|steps| - 1]), steps[|steps| - 1], account);
    }
  }

  /**
   Two filings of the whole quota may be open at once and each pass the gate: only the
   check under the lock decides.
   */
  lemma {:induction false} OpenFilingsMayExceed(quota: nat, account: int)
    requires 0 < quota < MAX_U64
    ensures var w := After(Limits(0, quota), World(map[], [], None), [Arrive(account, quota), Arrive(account, quota)]);
      && w.filings == [Filing(account, quota, Waiting), Filing(account, quota, Waiting)]
      && Gate(Limits(0, quota), w.files, account, quota, true) == Pass
  {
    var one := Arrive(account, quota);
    assert [one, one][..1] == [one] && [one][..0] == [];
    assert After(Limits(0, quota), World(map[], [], None), [one]).filings == [Filing(account, quota, Waiting)];
  }
}
