/**
 Snapshots of a data directory and their offline restore
 (`apps/server/src/backup.rs`). A directory is the map of its files; a hash is
 ideal; the manifest's JSON text decodes to what was encoded. Timestamps, file
 modes and empty directories are not part of this model.
 */
module Backup {
  import opened Base
  import opened BackupPaths

  type BlobId = string

  /** What a file holds. Of a database file only the blobs its rows reference matter here. */
  datatype Content = Plain(bytes: seq<byte>) | Database(refs: set<BlobId>)

  type Files = map<Path, Content>

  datatype Digest = Digest(of: Content)

  datatype Entry = Entry(path: string, size: nat, hash: Digest)

  datatype Manifest = Manifest(version: nat, files: seq<Entry>)

  /** A snapshot directory; without a readable manifest it is not one. */
  datatype Snapshot = Snapshot(files: Files, manifest: Option<Manifest>)

  const MANIFEST_VERSION := 1
  const DATABASE: Path := ["burrow.db"]
  const BLOBS: Path := ["blobs"]

  function Size(c: Content): nat {
    match c
    case Plain(bytes) => |bytes|
    case Database(refs) => |refs|
  }

  /** Files have plain names, and nothing is both a file and a directory. */
  predicate FileTree(files: Files) {
    (forall p :: p in files ==> NormalPath(p)) && forall p, q :: p in files && q in files ==> !(p < q)
  }

  function Last(p: Path): string
    requires p != []
  {
    p[|p| - 1]
  }

  function Parent(p: Path): Path
    requires p != []
  {
    p[..|p| - 1]
  }

  /** `extension() == "tmp"`: a name that is only an extension has none. */
  predicate IsTmp(name: string) {
    |name| > 4 && name[|name| - 4..] == ".tmp"
  }

  predicate StoredBlob(p: Path) {
    |p| >= 2 && BLOBS <= p && !IsTmp(Last(p))
  }

  /** The files beside the database that a snapshot takes. */
  predicate Taken(p: Path) {
    || (|p| == 2 && p[0] == "identity")
    || p in [["federation", "approved_peers.json"], ["federation", "origin_keys.json"], ["federation", "catalog.bin"]]
    || StoredBlob(p)
  }

  function EntryOf(p: Path, c: Content): Entry
    requires NormalPath(p)
  {
    Entry(RelToSlash(p), Size(c), Digest(c))
  }

  // ---- the walk ------------------------------------------------------------------------

  /** A directory is known by the files below it. */
  predicate IsDir(files: Files, d: Path) {
    exists p :: p in files && d < p
  }

  function Entries(files: Files, d: Path): set<Path> {
    set p | p in files && d < p :: p[..|d| + 1]
  }

  function Dirs(files: Files): set<Path> {
    set p, k | p in files && 0 <= k < |p| :: p[..k]
  }

  /** Everything below a directory that was read is in a directory that was read. */
  lemma {:induction false} ReadThrough(files: Files, seen: set<Path>, p: Path, k: nat)
    requires p in files && BLOBS in seen && BLOBS < p && 1 <= k < |p|
    requires forall d, c :: d in seen && c in Entries(files, d) && IsDir(files, c) ==> c in seen
    ensures p[..k] in seen
  {
    if k == 1 {
      assert p[..1] == BLOBS;
    } else {
      ReadThrough(files, seen, p, k - 1);
      var d, c := p[..k - 1], p[..k];
      assert d < p && p[..|d| + 1] == c;
      assert c in Entries(files, d);
      assert c < p;
    }
  }

  /** What one `read_dir` finds, in whatever order: subdirectories for the stack, files for the plan. */
  method ReadDir(files: Files, d: Path) returns (dirs: seq<Path>, plain: seq<Path>)
    ensures Distinct(dirs) && forall c :: c in dirs <==> c in Entries(files, d) && IsDir(files, c)
    ensures Distinct(plain) && forall c :: c in plain <==> c in Entries(files, d) && !IsDir(files, c) && !IsTmp(Last(c))
  {
    dirs, plain := [], [];
    var todo := Entries(files, d);
    while todo != {}
      invariant todo <= Entries(files, d)
      invariant Distinct(dirs) && forall c :: c in dirs <==> c in Entries(files, d) && c !in todo && IsDir(files, c)
      invariant Distinct(plain)
      invariant forall c :: c in plain <==> c in Entries(files, d) && c !in todo && !IsDir(files, c) && !IsTmp(Last(c))
      decreases todo
    {
      var c :| c in todo;
      todo := todo - {c};
      if IsDir(files, c) {
        dirs := dirs + [c];
      } else if !IsTmp(Last(c)) {
        plain := plain + [c];
      }
    }
  }

  predicate Distinct<T(==)>(s: seq<T>) {
    forall i, j :: 0 <= i < j < |s| ==> s[i] != s[j]
  }

  lemma DistinctAppend<T>(a: seq<T>, b: seq<T>)
    requires Distinct(a) && Distinct(b) && forall x :: x in a ==> x !in b
    ensures Distinct(a + b)
  {
    forall i, j | 0 <= i < j < |a + b|
      ensures (a + b)[i] != (a + b)[j]
    {
      if i < |a| <= j {
        assert a[i] in a && b[j - |a|] in b;
      }
    }
  }

  /** Directories still to read, and those read: below `blobs`, reached through their parents, none twice. */
  ghost predicate WalkOk(files: Files, stack: seq<Path>, seen: set<Path>) {
    && Distinct(stack)
    && (forall d :: d in stack ==> d in Dirs(files) && d !in seen)
    && (forall d :: d in seen || d in stack ==> BLOBS <= d && (d == BLOBS || Parent(d) in seen))
    && (forall d, c :: d in seen && c in Entries(files, d) && IsDir(files, c) ==> c in seen || c in stack)
    && (BLOBS in seen || BLOBS in stack)
  }

  predicate PlanOk(files: Files, seen: set<Path>, plan: seq<Path>) {
    && Distinct(plan)
    && (forall p :: p in plan ==> p in files && |p| >= 2 && Parent(p) in seen && !IsTmp(Last(p)))
    && (forall p :: p in files && |p| >= 2 && Parent(p) in seen && !IsTmp(Last(p)) ==> p in plan)
  }

  lemma EntryIs(files: Files, d: Path, c: Path)
    requires c in Entries(files, d)
    ensures |c| == |d| + 1 && Parent(c) == d && (!IsDir(files, c) ==> c in files)
        && (IsDir(files, c) ==> c in Dirs(files))
  {
    var p :| p in files && d < p && c == p[..|d| + 1];
    assert p[..|d| + 1][..|d|] == p[..|d|] == d;
    if |p| == |d| + 1 {
      assert p[..|d| + 1] == p;
    } else {
      assert c < p;
    }
    if IsDir(files, c) {
      var q :| q in files && c < q;
      assert q[..|c|] == c;
    }
  }

  lemma FileIsEntry(files: Files, p: Path)
    requires FileTree(files) && p in files && p != []
    ensures p in Entries(files, Parent(p)) && !IsDir(files, p)
  {
    assert p[..|Parent(p)| + 1] == p;
  }

  lemma WalkStep(files: Files, stack: seq<Path>, seen: set<Path>, d: Path, dirs: seq<Path>)
    requires WalkOk(files, stack + [d], seen)
    requires Distinct(dirs) && forall c :: c in dirs <==> c in Entries(files, d) && IsDir(files, c)
    ensures WalkOk(files, stack + dirs, seen + {d})
    ensures d in Dirs(files) && d !in seen && d != []
  {
    var before := stack + [d];
    assert before[|stack|] == d && before[..|stack|] == stack;
    assert d in before && forall x :: x in stack ==> x in before;
    forall x | x in stack
      ensures x != d && x !in seen && x in Dirs(files)
    {
      var i :| 0 <= i < |stack| && stack[i] == x;
      assert before[i] == x;
    }
    assert Distinct(stack) by {
      forall i, j | 0 <= i < j < |stack|
        ensures stack[i] != stack[j]
      {
        assert before[i] == stack[i] && before[j] == stack[j];
      }
    }
    forall c | c in dirs
      ensures c in Dirs(files) && c !in seen + {d} && c !in stack && BLOBS <= c && Parent(c) == d
    {
      EntryIs(files, d, c);
      assert c !in before && c !in seen;
    }
    DistinctAppend(stack, dirs);
    forall e, c | e in seen + {d} && c in Entries(files, e) && IsDir(files, c)
      ensures c in seen + {d} || c in stack + dirs
    {
      if e in seen {
        assert c in seen || c in before;
      }
    }
  }

  lemma PlanStep(files: Files, seen: set<Path>, plan: seq<Path>, d: Path, plain: seq<Path>)
    requires FileTree(files) && PlanOk(files, seen, plan) && d !in seen && d != []
    requires Distinct(plain) && forall c ::
        c in plain <==> c in Entries(files, d) && !IsDir(files, c) && !IsTmp(Last(c))
    ensures PlanOk(files, seen + {d}, plan + plain)
  {
    forall c | c in plain
      ensures c in files && |c| >= 2 && Parent(c) == d && c !in plan
    {
      EntryIs(files, d, c);
    }
    DistinctAppend(plan, plain);
    forall p | p in files && |p| >= 2 && Parent(p) in seen + {d} && !IsTmp(Last(p))
      ensures p in plan + plain
    {
      FileIsEntry(files, p);
    }
  }

  /** When the stack is empty, every stored blob is in the plan. */
  lemma WalkDone(files: Files, seen: set<Path>, plan: seq<Path>)
    requires FileTree(files) && WalkOk(files, [], seen) && PlanOk(files, seen, plan)
    ensures Distinct(plan) && forall p :: p in plan <==> p in files && StoredBlob(p)
  {
    forall p | p in files && StoredBlob(p)
      ensures p in plan
    {
      ReadThrough(files, seen, p, |p| - 1);
    }
    forall p | p in plan
      ensures StoredBlob(p)
    {
      assert BLOBS <= Parent(p);
    }
  }

  lemma WalkStarts(files: Files)
    ensures IsDir(files, BLOBS) ==> WalkOk(files, [BLOBS], {}) && PlanOk(files, {}, [])
    ensures !IsDir(files, BLOBS) ==> forall p :: p in files ==> !StoredBlob(p)
  {
    if p :| p in files && BLOBS < p {
      assert p[..1] == BLOBS;
      assert BLOBS in Dirs(files);
    }
    if p :| p in files && StoredBlob(p) {
      assert BLOBS < p;
    }
  }

  /** The directory-stack walk over `blobs/`: every file there but temporaries, once. */
  method WalkBlobs(files: Files) returns (plan: seq<Path>)
    requires FileTree(files)
    ensures Distinct(plan) && forall p :: p in plan <==> p in files && StoredBlob(p)
  {
    hide PlanOk, WalkOk, FileTree;
    plan := [];
    WalkStarts(files);
    if !IsDir(files, BLOBS) {
      return;
    }
    var stack := [BLOBS];
    ghost var seen: set<Path> := {};
    while stack != []
      invariant WalkOk(files, stack, seen) && PlanOk(files, seen, plan) && seen <= Dirs(files)
      decreases Dirs(files) - seen
    {
      var d := stack[|stack| - 1];
      var rest := stack[..|stack| - 1];
      assert stack == rest + [d];
      var dirs, plain := ReadDir(files, d);
      assert d in stack;
      WalkStep(files, rest, seen, d, dirs);
      PlanStep(files, seen, plan, d, plain);
      stack, plan := rest + dirs, plan + plain;
      seen := seen + {d};
    }
    assert stack == [];
    WalkDone(files, seen, plan);
  }

  // ---- copy and manifest -----------------------------------------------------------------

  /** The entries describe exactly these files, each once. */
  predicate Describes(entries: seq<Entry>, files: Files) {
    && (forall p :: p in files ==> NormalPath(p))
    && Distinct(entries)
    && (forall e :: e in entries ==>
          SafeRelPath(e.path).Ok? && var p := SafeRelPath(e.path).value; p in files && e == EntryOf(p, files[p]))
    && (forall p :: p in files ==> EntryOf(p, files[p]) in entries)
  }

  predicate Sorted(entries: seq<Entry>) {
    forall i, j :: 0 <= i < j < |entries| ==> StrLeq(entries[i].path, entries[j].path)
  }

  lemma DescribesMore(entries: seq<Entry>, files: Files, p: Path, c: Content)
    requires Describes(entries, files) && p !in files && NormalPath(p)
    ensures Describes(entries + [EntryOf(p, c)], files[p := c])
  {
    var e := EntryOf(p, c);
    SlashRoundTrip(p);
    assert Distinct([e]);
    DistinctAppend(entries, [e]);
    forall q | q in files
      ensures EntryOf(q, files[p := c][q]) in entries + [e]
    {
      assert EntryOf(q, files[q]) in entries;
    }
  }

  /** One insertion by name, after the names not above it. */
  function Inserted(entries: seq<Entry>, e: Entry): seq<Entry> {
    if entries == [] || !StrLeq(entries[0].path, e.path) then [e] + entries
    else [entries[0]] + Inserted(entries[1..], e)
  }

  /** `sort_by` on the names. */
  function SortedEntries(entries: seq<Entry>): seq<Entry> {
    if entries == [] then []
    else Inserted(SortedEntries(entries[..|entries| - 1]), entries[|entries| - 1])
  }

  lemma {:induction false} InsertedIs(entries: seq<Entry>, e: Entry)
    requires Sorted(entries)
    ensures Sorted(Inserted(entries, e)) && forall x :: x in Inserted(entries, e) <==> x in entries || x == e
    ensures Distinct(entries) && e !in entries ==> Distinct(Inserted(entries, e))
  {
    if entries == [] {
    } else if !StrLeq(entries[0].path, e.path) {
      forall j | 0 <= j < |entries|
        ensures StrLeq(e.path, entries[j].path)
      {
        StrTotal(entries[0].path, e.path);
        if j > 0 {
          StrTransitive(e.path, entries[0].path, entries[j].path);
        }
      }
    } else {
      var first, rest := entries[0], entries[1..];
      assert entries == [first] + rest;
      assert forall x :: x in rest ==> StrLeq(first.path, x.path);
      InsertedIs(rest, e);
      InsertedAfter(first, Inserted(rest, e));
      if Distinct(entries) && e !in entries {
        assert first !in rest && first != e;
        DistinctAppend([first], Inserted(rest, e));
      }
    }
  }

  lemma InsertedAfter(first: Entry, rest: seq<Entry>)
    requires Sorted(rest) && forall x :: x in rest ==> StrLeq(first.path, x.path)
    ensures Sorted([first] + rest)
  {
  }

  /** Sorting orders the names and loses, adds or doubles nothing. */
  lemma {:induction false} SortedEntriesIs(entries: seq<Entry>)
    ensures Sorted(SortedEntries(entries)) && forall x :: x in SortedEntries(entries) <==> x in entries
    ensures Distinct(entries) ==> Distinct(SortedEntries(entries))
  {
    if entries != [] {
      var n := |entries| - 1;
      SortedEntriesIs(entries[..n]);
      InsertedIs(SortedEntries(entries[..n]), entries[n]);
      assert entries == entries[..n] + [entries[n]];
    }
  }

  lemma InsertedFrom(entries: seq<Entry>, e: Entry, i: nat)
    requires i <= |entries|
    ensures Inserted(entries[i..], e)
         == if i == |entries| || !StrLeq(entries[i].path, e.path) then [e] + entries[i..]
            else [entries[i]] + Inserted(entries[i + 1..], e)
  {
    if i < |entries| {
      assert entries[i..][0] == entries[i] && entries[i..][1..] == entries[i + 1..];
    }
  }

  method Insert(entries: seq<Entry>, e: Entry) returns (r: seq<Entry>)
    ensures r == Inserted(entries, e)
  {
    hide StrLeq, Inserted;
    var i := 0;
    assert entries[0..] == entries;
    while i < |entries| && StrLeq(entries[i].path, e.path)
      invariant 0 <= i <= |entries|
      invariant Inserted(entries, e) == entries[..i] + Inserted(entries[i..], e)
    {
      InsertedFrom(entries, e, i);
      assert entries[..i + 1] == entries[..i] + [entries[i]];
      i := i + 1;
    }
    InsertedFrom(entries, e, i);
    r := entries[..i] + [e] + entries[i..];
  }

  method SortEntries(entries: seq<Entry>) returns (r: seq<Entry>)
    ensures r == SortedEntries(entries)
  {
    r := [];
    for i := 0 to |entries|
      invariant r == SortedEntries(entries[..i])
    {
      assert entries[..i + 1][..i] == entries[..i];
      r := Insert(r, entries[i]);
    }
    assert entries[..|entries|] == entries;
  }

  function Picked(data: Files, plan: seq<Path>): Files {
    map p | p in data && p in plan :: data[p]
  }

  /** One copy: by name, into the snapshot, with the entry taken from what was written. */
  lemma CopyOne(data: Files, plan: seq<Path>, i: nat, entries: seq<Entry>)
    requires i < |plan| && Distinct(plan) && plan[i] in data && NormalPath(plan[i])
    requires Describes(entries, Picked(data, plan[..i]))
    ensures Picked(data, plan[..i + 1]) == Picked(data, plan[..i])[plan[i] := data[plan[i]]]
    ensures Describes(entries + [EntryOf(plan[i], data[plan[i]])], Picked(data, plan[..i + 1]))
  {
    assert plan[i] !in plan[..i];
    assert plan[..i + 1] == plan[..i] + [plan[i]];
    DescribesMore(entries, Picked(data, plan[..i]), plan[i], data[plan[i]]);
    assert Picked(data, plan[..i + 1]) == Picked(data, plan[..i])[plan[i] := data[plan[i]]];
  }

  /** Whether a copy goes wrong is a parameter: `room` files are copied before one fails. */
  method CopyPlan(data: Files, plan: seq<Path>, room: nat) returns (files: Files, entries: seq<Entry>, ok: bool)
    requires Distinct(plan) && forall p :: p in plan ==> p in data && NormalPath(p)
    ensures ok <==> room >= |plan|
    ensures ok ==> files == Picked(data, plan) && Describes(entries, files)
  {
    files, entries := map[], [];
    for i := 0 to |plan|
      invariant files == Picked(data, plan[..i]) && Describes(entries, files) && i <= room
    {
      if i == room {
        return files, entries, false;
      }
      assert plan[i] in plan;
      SlashRoundTrip(plan[i]);
      var dst := SafeRelPath(RelToSlash(plan[i])).value;
      CopyOne(data, plan, i, entries);
      files := files[dst := data[plan[i]]];
      entries := entries + [EntryOf(dst, files[dst])];
    }
    assert plan[..|plan|] == plan;
    return files, entries, true;
  }

  lemma PickedIsCaptured(data: Files, plan: seq<Path>, database: Content)
    requires forall p :: p in plan <==> p in Wanted(data)
    ensures Picked(data, plan)[DATABASE := database] == Captured(data, database)
    ensures DATABASE !in Picked(data, plan)
  {
    assert !Taken(DATABASE);
    assert Picked(data, plan) == map p | p in data && Taken(p) :: data[p] by {
      assert forall p :: p in data && p in plan <==> p in data && Taken(p);
    }
  }

  lemma SameEntriesDescribe(a: seq<Entry>, b: seq<Entry>, files: Files)
    requires Describes(a, files) && Distinct(b) && forall x :: x in b <==> x in a
    ensures Describes(b, files)
  {
  }

  /** `copy_and_manifest`, with the database copy already in place. */
  method CopyAndManifest(data: Files, database: Content, room: nat) returns (r: Result<Snapshot>)
    requires FileTree(data)
    ensures r.Ok? <==> room >= |Wanted(data)|
    ensures r.Ok? ==>
      && r.value.files == Captured(data, database)
      && r.value.manifest.Some? && r.value.manifest.value.version == MANIFEST_VERSION
      && Sorted(r.value.manifest.value.files) && Describes(r.value.manifest.value.files, Captured(data, database))
  {
    var plan := Plan(data);
    PlanSize(data, plan);
    var files, entries, ok := CopyPlan(data, plan, room);
    if !ok {
      return Err;
    }
    PickedIsCaptured(data, plan, database);
    DescribesMore(entries, files, DATABASE, database);
    entries := entries + [EntryOf(DATABASE, database)];
    var sorted := SortEntries(entries);
    SortedEntriesIs(entries);
    SameEntriesDescribe(entries, sorted, Captured(data, database));
    return Ok(Snapshot(files[DATABASE := database], Some(Manifest(MANIFEST_VERSION, sorted))));
  }

  function Wanted(data: Files): set<Path> {
    set p | p in data && Taken(p)
  }

  /** What a snapshot of a quiet data directory holds. */
  function Captured(data: Files, database: Content): Files {
    (map p | p in data && Taken(p) :: data[p])[DATABASE := database]
  }

  lemma {:induction false} DistinctSize(s: seq<Path>)
    requires Distinct(s)
    ensures |set p | p in s| == |s|
  {
    if s != [] {
      var n := |s| - 1;
      DistinctSize(s[..n]);
      assert (set p | p in s) == (set p | p in s[..n]) + {s[n]};
    }
  }

  lemma PlanSize(data: Files, plan: seq<Path>)
    requires Distinct(plan) && forall p :: p in plan <==> p in Wanted(data)
    ensures |plan| == |Wanted(data)|
  {
    DistinctSize(plan);
    assert (set p | p in plan) == Wanted(data);
  }

  method Plan(data: Files) returns (plan: seq<Path>)
    requires FileTree(data)
    ensures Distinct(plan) && forall p :: p in plan <==> p in Wanted(data)
  {
    var todo := data.Keys;
    plan := [];
    while todo != {}
      invariant todo <= data.Keys && Distinct(plan)
      invariant forall p :: p in plan <==> p in data && p !in todo && Taken(p) && !StoredBlob(p)
      decreases todo
    {
      var p :| p in todo;
      todo := todo - {p};
      if Taken(p) && !StoredBlob(p) {
        plan := plan + [p];
      }
    }
    var blobs := WalkBlobs(data);
    DistinctAppend(plan, blobs);
    plan := plan + blobs;
  }

  // ---- verify and restore ------------------------------------------------------------------

  predicate EntryHolds(files: Files, e: Entry) {
    SafeRelPath(e.path).Ok? && var p := SafeRelPath(e.path).value;
    p in files && Size(files[p]) == e.size && Digest(files[p]) == e.hash
  }

  predicate Verifies(s: Snapshot) {
    s.manifest.Some? && s.manifest.value.version == MANIFEST_VERSION
    && forall e :: e in s.manifest.value.files ==> EntryHolds(s.files, e)
  }

  /** `verify_snapshot`: the first entry that does not hold refuses the whole. */
  method VerifySnapshot(s: Snapshot) returns (r: Result<Manifest>)
    ensures r == if Verifies(s) then Ok(s.manifest.value) else Err
  {
    if s.manifest.None? || s.manifest.value.version != MANIFEST_VERSION {
      return Err;
    }
    var entries := s.manifest.value.files;
    for i := 0 to |entries|
      invariant forall j :: 0 <= j < i ==> EntryHolds(s.files, entries[j])
    {
      if !EntryHolds(s.files, entries[i]) {
        return Err;
      }
    }
    return Ok(s.manifest.value);
  }

  function Target(e: Entry): Path {
    if SafeRelPath(e.path).Ok? then SafeRelPath(e.path).value else []
  }

  predicate IsNamed(entries: seq<Entry>, p: Path) {
    exists i :: 0 <= i < |entries| && Target(entries[i]) == p
  }

  /** The files of the snapshot that the entries name. */
  function Named(files: Files, entries: seq<Entry>): Files {
    map p | p in files && IsNamed(entries, p) :: files[p]
  }

  /**
   `restore_offline`. Refused before anything moves while a burrow answers or
   the snapshot does not verify; otherwise the old directory is set aside whole,
   and `room` files are copied before a copy fails.
   */
  method RestoreOffline(s: Snapshot, data: Option<Files>, running: bool, room: nat)
    returns (data': Option<Files>, aside: Option<Files>, r: Result<nat>)
    ensures running || !Verifies(s) ==> r.Err? && data' == data && aside == None
    ensures !running && Verifies(s) ==>
      var entries := s.manifest.value.files;
      && aside == data
      && (room >= |entries| ==> r == Ok(|entries|) && data' == Some(Named(s.files, entries)))
      && (room < |entries| ==> r.Err? && data' == Some(Named(s.files, entries[..room])))
  {
    data', aside := data, None;
    if running {
      return data', aside, Err;
    }
    var m := VerifySnapshot(s);
    if m.Err? {
      return data', aside, Err;
    }
    var entries := m.value.files;
    aside := data;
    var restored: Files := map[];
    for i := 0 to |entries|
      invariant i <= room && restored == Named(s.files, entries[..i])
    {
      if i == room {
        return Some(restored), aside, Err;
      }
      assert EntryHolds(s.files, entries[i]);
      NamedMore(s.files, entries, i);
      restored := restored[Target(entries[i]) := s.files[Target(entries[i])]];
    }
    assert entries[..|entries|] == entries;
    return Some(restored), aside, Ok(|entries|);
  }

  lemma IsNamedMore(entries: seq<Entry>, i: nat, p: Path)
    requires i < |entries|
    ensures IsNamed(entries[..i + 1], p) <==> IsNamed(entries[..i], p) || Target(entries[i]) == p
  {
    var more, some := entries[..i + 1], entries[..i];
    assert more == some + [entries[i]];
    if IsNamed(some, p) {
      var j :| 0 <= j < i && Target(some[j]) == p;
      assert Target(more[j]) == p;
    }
    if Target(entries[i]) == p {
      assert Target(more[i]) == p;
    }
    if IsNamed(more, p) {
      var j :| 0 <= j <= i && Target(more[j]) == p;
      assert j < i ==> Target(some[j]) == p;
    }
  }

  lemma NamedMore(files: Files, entries: seq<Entry>, i: nat)
    requires i < |entries| && Target(entries[i]) in files
    ensures Named(files, entries[..i + 1])
        == Named(files, entries[..i])[Target(entries[i]) := files[Target(entries[i])]]
  {
    forall p | p in files
      ensures IsNamed(entries[..i + 1], p) <==> IsNamed(entries[..i], p) || Target(entries[i]) == p
    {
      IsNamedMore(entries, i, p);
    }
  }

  /**
   Round trip: a manifest that describes its files verifies, whatever else lies beside
   them, and restores exactly them.
   */
  lemma DescribedRestores(s: Snapshot, files: Files)
    requires s.manifest.Some? && s.manifest.value.version == MANIFEST_VERSION
    requires Describes(s.manifest.value.files, files)
    requires forall p :: p in files ==> p in s.files && s.files[p] == files[p]
    ensures Verifies(s) && Named(s.files, s.manifest.value.files) == files
  {
    hide SafeRelPath, RelToSlash, NormalPath, Distinct;
    var entries := s.manifest.value.files;
    forall p | p in files
      ensures IsNamed(entries, p)
    {
      SlashRoundTrip(p);
      var i :| 0 <= i < |entries| && entries[i] == EntryOf(p, files[p]);
      assert Target(entries[i]) == p;
    }
    forall i | 0 <= i < |entries|
      ensures EntryHolds(s.files, entries[i]) && Target(entries[i]) in files
    {
      assert entries[i] in entries;
    }
  }
}
