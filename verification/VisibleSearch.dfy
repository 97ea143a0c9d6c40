/**
 Library search with authorization ahead of the limit (`apps/server/src/handlers8.rs`):
 candidates come in bounded pages, newest first, and are checked one by one
 until enough visible ones are found.
 */
module VisibleSearch {
  import opened Base

  const PAGE := 64
  const MIN_I64 := -0x8000_0000_0000_0000

  /** What the session's permissions and the library say about one row; walking its folders may fail. */
  datatype Checks = Checks(
    listable: bool, quarantined: bool, moderator: bool,
    seesDropboxes: bool, managesArea: bool, belowDropbox: Result<bool>)

  datatype Row = Row(createdAt: int, id: int, checks: Checks)

  type Cursor = Option<(int, int)>

  /** `metadata_visible`: the folder walk is only made, and can only fail, when nothing else decides. */
  function MetadataVisible(c: Checks): Result<bool> {
    if !c.listable || (c.quarantined && !c.moderator) then Ok(false)
    else if c.seesDropboxes || c.managesArea then Ok(true)
    else
      match c.belowDropbox
      case Ok(below) => Ok(!below)
      case Err => Err
  }

  /** Newest first; ids break ties. */
  predicate Before(a: (int, int), b: (int, int)) {
    a.0 > b.0 || (a.0 == b.0 && a.1 > b.1)
  }

  function Key(r: Row): (int, int) {
    (r.createdAt, r.id)
  }

  predicate RowsOk(rows: set<Row>) {
    && (forall r :: r in rows ==> r.createdAt >= MIN_I64 && r.id >= MIN_I64)
    && forall a, b :: a in rows && b in rows && Key(a) == Key(b) ==> a == b
  }

  predicate IsTop(rows: set<Row>, r: Row) {
    r in rows && forall x :: x in rows && x != r ==> Before(Key(r), Key(x))
  }

  lemma {:induction false} TopExists(rows: set<Row>)
    requires RowsOk(rows) && rows != {}
    ensures exists r :: IsTop(rows, r)
    decreases rows
  {
    var x :| x in rows;
    if rows == {x} {
      assert IsTop(rows, x);
    } else {
      TopExists(rows - {x});
      var y :| IsTop(rows - {x}, y);
      assert forall z :: z in rows && z != x ==> z in rows - {x};
      assert IsTop(rows, if Before(Key(x), Key(y)) then x else y);
    }
  }

  function Top(rows: set<Row>): (r: Row)
    requires RowsOk(rows) && rows != {}
    ensures IsTop(rows, r)
  {
    TopExists(rows);
    var r :| IsTop(rows, r);
    r
  }

  /** The full order a search would list without pages. */
  function Descending(rows: set<Row>): (s: seq<Row>)
    requires RowsOk(rows)
    ensures |s| == |rows| && forall r :: r in s <==> r in rows
    decreases rows
  {
    if rows == {} then [] else [Top(rows)] + Descending(rows - {Top(rows)})
  }

  predicate IsDescending(s: seq<Row>) {
    forall i, j :: 0 <= i < j < |s| ==> Before(Key(s[i]), Key(s[j]))
  }

  lemma {:induction false} DescendingIsSorted(rows: set<Row>)
    requires RowsOk(rows)
    ensures IsDescending(Descending(rows))
    decreases rows
  {
    if rows != {} {
      var rest := Descending(rows - {Top(rows)});
      DescendingIsSorted(rows - {Top(rows)});
      assert forall j :: 0 <= j < |rest| ==> rest[j] in rest;
    }
  }

  function Below(rows: set<Row>, before: Cursor): set<Row> {
    set r | r in rows && (before.None? || Before(before.value, Key(r)))
  }

  /** `search_page`: the next rows under the cursor. */
  function SearchPage(rows: set<Row>, before: Cursor): (page: seq<Row>)
    requires RowsOk(rows)
    ensures |page| <= PAGE
  {
    var all := Descending(Below(rows, before));
    if |all| <= PAGE then all else all[..PAGE]
  }

  /** The simple search: check the rows in order, stop at the limit; a check that fails fails the search. */
  function FirstVisible(rows: seq<Row>, limit: nat): Result<seq<Row>> {
    if rows == [] || limit == 0 then Ok([])
    else
      match MetadataVisible(rows[0].checks)
      case Err => Err
      case Ok(visible) =>
        var rest := FirstVisible(rows[1..], if visible then limit - 1 else limit);
        if visible && rest.Ok? then Ok([rows[0]] + rest.value) else rest
  }

  function Clamp(limit: int): nat {
    if limit < 1 then 1 else if limit > 200 then 200 else limit
  }

  // ---- pages tile the order --------------------------------------------------------------

  lemma BelowTop(rows: set<Row>)
    requires RowsOk(rows) && rows != {}
    ensures Below(rows, Some(Key(Top(rows)))) == rows - {Top(rows)}
  {
  }

  lemma BelowOther(rows: set<Row>, r: Row)
    requires RowsOk(rows) && rows != {} && r in rows - {Top(rows)}
    ensures Below(rows, Some(Key(r))) == Below(rows - {Top(rows)}, Some(Key(r)))
  {
  }

  lemma Shifted<T>(top: T, later: seq<T>, n: nat)
    requires 1 < n <= |later| + 1
    ensures ([top] + later)[n - 1] == later[n - 2] && later[n - 2] in later
    ensures ([top] + later)[n..] == later[n - 1..]
  {
  }

  lemma FirstThenRest(rows: set<Row>)
    requires RowsOk(rows) && rows != {}
    ensures Descending(rows) == [Top(rows)] + Descending(rows - {Top(rows)})
    ensures Descending(rows)[1..] == Descending(rows - {Top(rows)})
  {
    assert ([Top(rows)] + Descending(rows - {Top(rows)}))[1..] == Descending(rows - {Top(rows)});
  }

  /** Below the n-th row is exactly what follows it in the order. */
  lemma {:induction false} BelowIsTheRest(rows: set<Row>, n: nat)
    requires RowsOk(rows) && 0 < n <= |rows|
    ensures Descending(Below(rows, Some(Key(Descending(rows)[n - 1])))) == Descending(rows)[n..]
    decreases n
  {
    var rest := rows - {Top(rows)};
    var later := Descending(rest);
    FirstThenRest(rows);
    if n == 1 {
      BelowTop(rows);
    } else {
      hide Below, Descending;
      Shifted(Top(rows), later, n);
      BelowIsTheRest(rest, n - 1);
      BelowOther(rows, later[n - 2]);
    }
  }

  /** Going below a row of what lies below the cursor is going below that row. */
  lemma BelowTwice(rows: set<Row>, before: Cursor, r: Row)
    requires RowsOk(rows) && r in Below(rows, before)
    ensures RowsOk(Below(rows, before)) && Below(Below(rows, before), Some(Key(r))) == Below(rows, Some(Key(r)))
    ensures r in rows && (before.Some? ==> Before(before.value, Key(r)))
  {
  }

  lemma BelowOk(rows: set<Row>, before: Cursor)
    requires RowsOk(rows)
    ensures RowsOk(Below(rows, before))
  {
  }

  lemma PageIsPrefix(rows: set<Row>, before: Cursor)
    requires RowsOk(rows)
    ensures RowsOk(Below(rows, before))
    ensures var page, d := SearchPage(rows, before), Descending(Below(rows, before));
      |page| <= |d| && page == d[..|page|] && (page == [] ==> d == [])
  {
    BelowOk(rows, before);
  }

  /** The next page starts where this one ended, and the cursor has moved down. */
  lemma NextPage(rows: set<Row>, before: Cursor)
    requires RowsOk(rows) && SearchPage(rows, before) != []
    ensures var page := SearchPage(rows, before);
      var last := Key(page[|page| - 1]);
      && Descending(Below(rows, before)) == page + Descending(Below(rows, Some(last)))
      && (before.Some? ==> Before(before.value, last)) && last.0 >= MIN_I64 && last.1 >= MIN_I64
  {
    hide Below, SearchPage;
    PageIsPrefix(rows, before);
    var all := Below(rows, before);
    var page, d := SearchPage(rows, before), Descending(all);
    hide Descending;
    var r := page[|page| - 1];
    assert r == d[|page| - 1] && r in d && r in all;
    BelowTwice(rows, before, r);
    BelowIsTheRest(all, |page|);
    assert d == d[..|page|] + d[|page|..];
  }

  /** What is found so far, followed by what the rows still to come would add. */
  function Extended(found: seq<Row>, more: Result<seq<Row>>): Result<seq<Row>> {
    if more.Ok? then Ok(found + more.value) else Err
  }

  /** One more row checked. */
  lemma ScanOne(found: seq<Row>, row: Row, rest: seq<Row>, limit: nat)
    requires limit > 0
    ensures var visible := MetadataVisible(row.checks);
      Extended(found, FirstVisible([row] + rest, limit))
      == if visible.Err? then Err
         else if visible.value then Extended(found + [row], FirstVisible(rest, limit - 1))
         else Extended(found, FirstVisible(rest, limit))
  {
    assert ([row] + rest)[1..] == rest;
    if MetadataVisible(row.checks) == Ok(true) {
      var more := FirstVisible(rest, limit - 1);
      if more.Ok? {
        assert found + ([row] + more.value) == found + [row] + more.value;
      }
    }
  }

  lemma NothingExtended(more: Result<seq<Row>>)
    ensures Extended([], more) == more
  {
    if more.Ok? {
      assert [] + more.value == more.value;
    }
  }

  /** How far the scan of one page got. */
  datatype Scan = Scan(found: seq<Row>, full: bool, failed: bool)

  /** The inner loop: one page, checked in order. */
  method ScanPage(page: seq<Row>, found: seq<Row>, limit: nat, ghost later: seq<Row>) returns (s: Scan)
    requires |found| < limit
    ensures s.failed ==> FirstVisible(page + later, limit - |found|).Err?
    ensures !s.failed && s.full ==>
        Extended(found, FirstVisible(page + later, limit - |found|)) == Ok(s.found) && |s.found| == limit
    ensures !s.failed && !s.full ==>
      && |s.found| < limit
      && Extended(s.found, FirstVisible(later, limit - |s.found|))
          == Extended(found, FirstVisible(page + later, limit - |found|))
    ensures forall r :: r in s.found ==> r in found || (r in page && MetadataVisible(r.checks) == Ok(true))
  {
    s := Scan(found, false, false);
    for i := 0 to |page|
      invariant !s.full && !s.failed && |s.found| < limit
      invariant Extended(s.found, FirstVisible(page[i..] + later, limit - |s.found|))
             == Extended(found, FirstVisible(page + later, limit - |found|))
      invariant forall r :: r in s.found ==> r in found || (r in page && MetadataVisible(r.checks) == Ok(true))
    {
      assert page[i..] + later == [page[i]] + (page[i + 1..] + later);
      ScanOne(s.found, page[i], page[i + 1..] + later, limit - |s.found|);
      var visible := MetadataVisible(page[i].checks);
      if visible.Err? {
        return Scan(s.found, false, true);
      }
      if visible.value {
        s := Scan(s.found + [page[i]], false, false);
        if |s.found| == limit {
          assert FirstVisible(page[i + 1..] + later, 0) == Ok([]) && s.found + [] == s.found;
          return Scan(s.found, true, false);
        }
      }
    }
    assert page[|page|..] + later == later;
  }

  predicate CursorOk(before: Cursor) {
    before.Some? ==> before.value.0 >= MIN_I64 && before.value.1 >= MIN_I64
  }

  /** How far a cursor can still move down: 64-bit times and ids. */
  function Depth(before: Cursor): (nat, nat)
    requires CursorOk(before)
  {
    if before.None? then (0, 0) else (before.value.0 - MIN_I64, before.value.1 - MIN_I64)
  }

  /** What the rest of the search will return, if the library stays as it is. */
  function Remaining(rows: set<Row>, before: Cursor, found: seq<Row>, most: nat): Result<seq<Row>>
    requires RowsOk(rows) && |found| < most
  {
    Extended(found, FirstVisible(Descending(Below(rows, before)), most - |found|))
  }

  lemma AtStart(rows: set<Row>, most: nat)
    requires RowsOk(rows) && most > 0
    ensures Remaining(rows, None, [], most) == FirstVisible(Descending(rows), most)
  {
    assert Below(rows, None) == rows;
    NothingExtended(FirstVisible(Descending(rows), most));
  }

  /** No page means nothing remains; a page is the front of what remains. */
  lemma PageOfRemaining(rows: set<Row>, before: Cursor, found: seq<Row>, most: nat)
    requires RowsOk(rows) && |found| < most
    ensures var page := SearchPage(rows, before);
      Remaining(rows, before, found, most)
      == if page == [] then Ok(found)
         else Extended(found, FirstVisible(page + Descending(Below(rows, Some(Key(page[|page| - 1])))), most - |found|))
  {
    if SearchPage(rows, before) == [] {
      assert found + [] == found;
    } else {
      NextPage(rows, before);
    }
  }

  lemma PageRows(rows: set<Row>, before: Cursor)
    requires RowsOk(rows)
    ensures forall r :: r in SearchPage(rows, before) ==> r in rows
  {
    assert forall r :: r in SearchPage(rows, before) ==> r in Descending(Below(rows, before));
  }

  /** One turn of the search: the next page, scanned. An empty page ends it. */
  method TurnPage(rows: set<Row>, before: Cursor, found: seq<Row>, most: nat) returns (s: Scan, cursor: Cursor)
    requires RowsOk(rows) && |found| < most && CursorOk(before)
    ensures s.failed ==> Remaining(rows, before, found, most).Err?
    ensures !s.failed && s.full ==> Remaining(rows, before, found, most) == Ok(s.found) && |s.found| <= most
    ensures !s.failed && !s.full ==>
      && |s.found| < most && cursor.Some? && CursorOk(cursor) && (before.Some? ==> Before(before.value, cursor.value))
      && Remaining(rows, cursor, s.found, most) == Remaining(rows, before, found, most)
    ensures forall r :: r in s.found ==> r in found || (r in rows && MetadataVisible(r.checks) == Ok(true))
  {
    hide Below, SearchPage, Descending, FirstVisible, MetadataVisible;
    var page := SearchPage(rows, before);
    PageOfRemaining(rows, before, found, most);
    if page == [] {
      return Scan(found, true, false), before;
    }
    NextPage(rows, before);
    cursor := Some(Key(page[|page| - 1]));
    BelowOk(rows, cursor);
    s := ScanPage(page, found, most, Descending(Below(rows, cursor)));
    PageRows(rows, before);
  }

  /**
   `visible_search`. `at(k)` is the library as the k-th page query finds it. Over
   any such library the search ends, because the cursor moves down; and over one
   that stays the same it finds exactly what the simple search of the full
   order finds.
   */
  method Search(at: nat -> set<Row>, limit: int) returns (r: Result<seq<Row>>)
    requires forall k :: RowsOk(at(k))
    ensures (forall k :: at(k) == at(0)) ==> r == FirstVisible(Descending(at(0)), Clamp(limit))
    ensures r.Ok? ==> |r.value| <= Clamp(limit)
    ensures r.Ok? ==> forall x :: x in r.value ==> MetadataVisible(x.checks) == Ok(true) && exists k :: x in at(k)
  {
    var most := Clamp(limit);
    var found: seq<Row> := [];
    var before: Cursor := None;
    var k: nat := 0;
    ghost var still := forall k :: at(k) == at(0);
    AtStart(at(0), most);
    while true
      invariant |found| < most && CursorOk(before)
      invariant still ==> Remaining(at(0), before, found, most) == FirstVisible(Descending(at(0)), most)
      invariant forall x :: x in found ==> MetadataVisible(x.checks) == Ok(true) && exists k :: x in at(k)
      decreases before.None?, Depth(before).0, Depth(before).1
    {
      var s, cursor := TurnPage(at(k), before, found, most);
      if s.failed {
        return Err;
      }
      if s.full {
        return Ok(s.found);
      }
      found, before, k := s.found, cursor, k + 1;
    }
  }

  // ---- what the simple search means --------------------------------------------------------

  /** The rows the session may see. */
  function VisibleOf(rows: seq<Row>): seq<Row> {
    if rows == [] then []
    else (if MetadataVisible(rows[0].checks) == Ok(true) then [rows[0]] else []) + VisibleOf(rows[1..])
  }

  function FirstOf(rows: seq<Row>, limit: nat): seq<Row> {
    if |rows| <= limit then rows else rows[..limit]
  }

  /** Some check fails before the limit is reached. */
  predicate FailsEarly(rows: seq<Row>, limit: nat) {
    exists i :: 0 <= i < |rows| && MetadataVisible(rows[i].checks).Err? && |VisibleOf(rows[..i])| < limit
  }

  lemma FailsEarlyStep(rows: seq<Row>, limit: nat)
    requires rows != [] && limit > 0 && MetadataVisible(rows[0].checks).Ok?
    ensures FailsEarly(rows, limit)
        <==> FailsEarly(rows[1..], if MetadataVisible(rows[0].checks).value then limit - 1 else limit)
  {
    var rest, one := rows[1..], if MetadataVisible(rows[0].checks).value then 1 else 0;
    forall i | 0 < i < |rows|
      ensures |VisibleOf(rows[..i])| == one + |VisibleOf(rest[..i - 1])|
    {
      assert rows[..i][1..] == rest[..i - 1];
    }
    if FailsEarly(rows, limit) {
      var i :| 0 <= i < |rows| && MetadataVisible(rows[i].checks).Err? && |VisibleOf(rows[..i])| < limit;
      assert MetadataVisible(rest[i - 1].checks).Err?;
    }
    if FailsEarly(rest, limit - one) {
      var j :| 0 <= j < |rest| && MetadataVisible(rest[j].checks).Err? && |VisibleOf(rest[..j])| < limit - one;
      assert MetadataVisible(rows[j + 1].checks).Err? && |VisibleOf(rows[..j + 1])| == one + |VisibleOf(rest[..j])|;
    }
  }

  /**
   The search answers with the first visible rows, up to the limit: authorization
   comes before the limit. It fails exactly when some check fails before enough
   have been found.
   */
  lemma {:induction false} FirstVisibleExactly(rows: seq<Row>, limit: nat)
    ensures FirstVisible(rows, limit).Err? <==> FailsEarly(rows, limit)
    ensures FirstVisible(rows, limit).Ok? ==> FirstVisible(rows, limit).value == FirstOf(VisibleOf(rows), limit)
    decreases |rows|
  {
    if rows != [] && limit > 0 {
      var visible := MetadataVisible(rows[0].checks);
      if visible.Err? {
        assert VisibleOf(rows[..0]) == [];
        assert FailsEarly(rows, limit);
      } else {
        FailsEarlyStep(rows, limit);
        FirstVisibleExactly(rows[1..], if visible.value then limit - 1 else limit);
      }
    }
  }
}
