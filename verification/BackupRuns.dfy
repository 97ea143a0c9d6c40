/**
 A live snapshot, taken while uploads and other writers go on between any two
 of its steps. The database is captured first; then the directories are read
 and the files copied, in any order. Blobs are never removed meanwhile.

 `content` gives what each blob id stands for: ids are content hashes.
 */
module BackupRuns {
  import opened Base
  import opened BackupPaths
  import opened Backup

  predicate ValidId(id: BlobId) {
    |id| == 64 && forall c :: c in id ==> '0' <= c <= '9' || 'a' <= c <= 'f'
  }

  /** `blob_path`: fanned out by the first two pairs of digits. */
  function BlobPath(id: BlobId): Path
    requires ValidId(id)
  {
    ["blobs", id[..2], id[2..4], id]
  }

  predicate IsBlob(p: Path) {
    |p| == 4 && ValidId(p[3]) && p == BlobPath(p[3])
  }

  datatype Phase = Idle | Planning | Walking(dirs: set<Path>) | Copying(todo: set<Path>) | Done | Failed

  /**
   `rows` are the blobs the live database references, `refs` those of the captured
   one; `entries` describe the copies made so far, and become the manifest.
   */
  datatype World = World(
    data: Files, rows: set<BlobId>, refs: set<BlobId>, plan: set<Path>,
    snap: Files, entries: seq<Entry>, manifest: Option<Manifest>, phase: Phase)

  /** A sound burrow whose snapshot has not begun. */
  predicate Ready(content: BlobId -> seq<byte>, w: World) {
    Sound(content, w) && w.phase.Idle? && w.plan == {} && w.snap == map[] && w.entries == [] && w.manifest == None
  }

  datatype Step =
    | PutBlob(id: BlobId)
    | AddRow(id: BlobId)
    | DropRow(id: BlobId)
    | Write(path: Path, content: Content)
    | Remove(path: Path)
    | Capture
    | PlanFlat
    | ReadOne(dir: Path)
    | StartCopying
    | CopyOneFile(path: Path, torn: Content)
    | Finish

  /** The identity and federation files there are at the time. */
  function FlatPlan(data: Files): set<Path> {
    set p | p in data && Taken(p) && !StoredBlob(p)
  }

  function PlainIn(data: Files, d: Path): set<Path> {
    set c | c in Entries(data, d) && !IsDir(data, c) && !IsTmp(Last(c))
  }

  function DirsIn(data: Files, d: Path): set<Path> {
    set c | c in Entries(data, d) && IsDir(data, c)
  }

  /** No file is in the way, and the path is not a directory. */
  predicate CanCreate(data: Files, p: Path) {
    NormalPath(p) && forall q :: q in data ==> !(q < p) && !(p < q)
  }

  function Next(content: BlobId -> seq<byte>, w: World, step: Step): World {
    match step
    case PutBlob(id) =>
      if ValidId(id) && BlobPath(id) !in w.data && CanCreate(w.data, BlobPath(id))
      then w.(data := w.data[BlobPath(id) := Plain(content(id))]) else w
    case AddRow(id) => if ValidId(id) && BlobPath(id) in w.data then w.(rows := w.rows + {id}) else w
    case DropRow(id) => w.(rows := w.rows - {id})
    case Write(p, c) => if !IsBlob(p) && CanCreate(w.data, p) then w.(data := w.data[p := c]) else w
    case Remove(p) => if !IsBlob(p) then w.(data := w.data - {p}) else w
    case Capture =>
      if w.phase == Idle then w.(refs := w.rows, snap := map[DATABASE := Database(w.rows)], phase := Planning) else w
    case PlanFlat =>
      if w.phase == Planning then
        w.(plan := FlatPlan(w.data), phase := Walking(if IsDir(w.data, BLOBS) then {BLOBS} else {}))
      else w
    case ReadOne(d) =>
      if w.phase.Walking? && d in w.phase.dirs then
        w.(plan := w.plan + PlainIn(w.data, d), phase := Walking(w.phase.dirs - {d} + DirsIn(w.data, d)))
      else w
    case StartCopying => if w.phase == Walking({}) then w.(phase := Copying(w.plan)) else w
    case CopyOneFile(p, torn) =>
      if !w.phase.Copying? || p !in w.phase.todo then w
      else if p !in w.data || !NormalPath(p) then w.(phase := Failed)
      else
        var copy := if IsBlob(p) then w.data[p] else torn;
        w.(snap := w.snap[p := copy], entries := w.entries + [EntryOf(p, copy)], phase := Copying(w.phase.todo - {p}))
    case Finish =>
      if w.phase == Copying({}) && DATABASE in w.snap then
        var all := w.entries + [EntryOf(DATABASE, w.snap[DATABASE])];
        w.(manifest := Some(Manifest(MANIFEST_VERSION, SortedEntries(all))), phase := Done)
      else w
  }

  function After(content: BlobId -> seq<byte>, w: World, steps: seq<Step>): World {
    if |steps| == 0 then w else Next(content, After(content, w, steps[..|steps| - 1]), steps[|steps| - 1])
  }

  /** A sound burrow before the snapshot: rows only for blobs that are there, and blobs that are what their ids say. */
  predicate Sound(content: BlobId -> seq<byte>, w: World) {
    && FileTree(w.data)
    && (forall p :: p in w.data && IsBlob(p) ==> w.data[p] == Plain(content(p[3])))
    && (forall id :: id in w.rows ==> ValidId(id) && BlobPath(id) in w.data)
  }

  /** The walk still has to pass above the blob, or has planned it. */
  predicate Reached(w: World, id: BlobId)
    requires ValidId(id)
  {
    match w.phase
    case Idle => true
    case Planning => true
    case Failed => true
    case Walking(dirs) => BlobPath(id) in w.plan || exists d :: d in dirs && d < BlobPath(id)
    case Copying(todo) => BlobPath(id) in todo || InSnap(w, id)
    case Done => InSnap(w, id)
  }

  predicate InSnap(w: World, id: BlobId)
    requires ValidId(id)
  {
    BlobPath(id) in w.snap && BlobPath(id) in w.data && w.snap[BlobPath(id)] == w.data[BlobPath(id)]
  }

  predicate DatabaseKept(w: World) {
    w.phase.Idle? || (DATABASE in w.snap && w.snap[DATABASE] == Database(w.refs) && DATABASE !in w.plan)
  }

  predicate PlanNormal(w: World) {
    && (forall p :: p in w.plan ==> NormalPath(p) && p != DATABASE)
    && (forall p :: p in w.snap ==> NormalPath(p))
    && (w.phase.Copying? ==> w.phase.todo <= w.plan)
    && (w.phase.Walking? ==> forall d :: d in w.phase.dirs ==> BLOBS <= d)
  }

  /** The entries describe the files copied so far, and at the end the manifest describes the whole snapshot. */
  predicate Listed(w: World) {
    match w.phase
    case Idle => w.entries == []
    case Failed => true
    case Done =>
      w.manifest.Some? && w.manifest.value.version == MANIFEST_VERSION
      && Sorted(w.manifest.value.files) && Describes(w.manifest.value.files, w.snap)
    case Copying(todo) => Describes(w.entries, w.snap - {DATABASE}) && todo !! w.snap.Keys
    case _ => w.entries == [] && w.snap.Keys == {DATABASE}
  }

  predicate Inv(content: BlobId -> seq<byte>, w: World) {
    && Sound(content, w) && DatabaseKept(w) && PlanNormal(w) && Listed(w)
    && (!w.phase.Idle? ==> forall id :: id in w.refs ==> ValidId(id) && BlobPath(id) in w.data && Reached(w, id))
  }

  lemma BlobFacts(id: BlobId)
    requires ValidId(id)
    ensures NormalPath(BlobPath(id)) && IsBlob(BlobPath(id)) && !IsTmp(Last(BlobPath(id))) && BLOBS < BlobPath(id)
  {
    assert id[60] in id;
    assert forall c :: c in id[..2] ==> c in id;
    assert forall c :: c in id[2..4] ==> c in id;
    forall part | part in BlobPath(id)
      ensures Normal(part)
    {
      if part != "blobs" {
        assert part[0] in id;
      }
    }
  }

  predicate Others(step: Step) {
    step.PutBlob? || step.AddRow? || step.DropRow? || step.Write? || step.Remove?
  }

  /** Other writers leave every blob where it is and what it is. */
  lemma OthersSound(content: BlobId -> seq<byte>, w: World, step: Step)
    requires Sound(content, w) && Others(step)
    ensures var w' := Next(content, w, step);
      && Sound(content, w')
      && forall id :: ValidId(id) && BlobPath(id) in w.data ==>
          BlobPath(id) in w'.data && w'.data[BlobPath(id)] == w.data[BlobPath(id)]
  {
    forall id: BlobId | ValidId(id)
      ensures IsBlob(BlobPath(id))
    {
      BlobFacts(id);
    }
  }

  lemma OthersInv(content: BlobId -> seq<byte>, w: World, step: Step)
    requires Inv(content, w) && Others(step)
    ensures Inv(content, Next(content, w, step))
  {
    OthersSound(content, w, step);
    var w' := Next(content, w, step);
    forall id | !w'.phase.Idle? && id in w'.refs
      ensures ValidId(id) && BlobPath(id) in w'.data && Reached(w', id)
    {
      assert Reached(w, id);
    }
  }

  /** Reading one directory hands a blob on to the plan or to a directory below. */
  lemma ReadReaches(content: BlobId -> seq<byte>, w: World, d: Path, id: BlobId)
    requires Sound(content, w) && w.phase.Walking? && d in w.phase.dirs
    requires ValidId(id) && BlobPath(id) in w.data && Reached(w, id)
    ensures Reached(Next(content, w, ReadOne(d)), id)
  {
    var p := BlobPath(id);
    BlobFacts(id);
    if p !in w.plan {
      var e :| e in w.phase.dirs && e < p;
      if e == d {
        var c := p[..|d| + 1];
        assert c in Entries(w.data, d);
        if c == p {
          assert p in PlainIn(w.data, d);
        } else {
          assert c < p;
          assert c in DirsIn(w.data, d);
        }
      } else {
        assert e in Next(content, w, ReadOne(d)).phase.dirs;
      }
    }
  }

  lemma ReadInv(content: BlobId -> seq<byte>, w: World, d: Path)
    requires Inv(content, w)
    ensures Inv(content, Next(content, w, ReadOne(d)))
  {
    var w' := Next(content, w, ReadOne(d));
    if w.phase.Walking? && d in w.phase.dirs {
      forall c | c in Entries(w.data, d)
        ensures |c| >= 2 && BLOBS <= c && (!IsDir(w.data, c) ==> c in w.data)
      {
        EntryIs(w.data, d, c);
      }
      forall id | id in w.refs
        ensures Reached(w', id)
      {
        ReadReaches(content, w, d, id);
      }
    }
  }

  lemma PlanFlatInv(content: BlobId -> seq<byte>, w: World)
    requires Inv(content, w)
    ensures Inv(content, Next(content, w, PlanFlat))
  {
    var w' := Next(content, w, PlanFlat);
    if w.phase.Planning? {
      forall id | id in w.refs
        ensures Reached(w', id)
      {
        BlobFacts(id);
        assert BLOBS in w'.phase.dirs;
      }
    }
  }

  lemma CopyListed(w: World, p: Path, c: Content)
    requires Listed(w) && w.phase.Copying? && p in w.phase.todo && NormalPath(p) && p != DATABASE
    ensures Listed(w.(snap := w.snap[p := c], entries := w.entries + [EntryOf(p, c)],
                      phase := Copying(w.phase.todo - {p})))
  {
    DescribesMore(w.entries, w.snap - {DATABASE}, p, c);
    assert (w.snap - {DATABASE})[p := c] == w.snap[p := c] - {DATABASE};
  }

  /** With the database's entry added and all of them sorted, the entries describe the whole snapshot. */
  lemma AllListed(entries: seq<Entry>, snap: Files)
    requires DATABASE in snap && Describes(entries, snap - {DATABASE})
    ensures var all := SortedEntries(entries + [EntryOf(DATABASE, snap[DATABASE])]);
      Sorted(all) && Describes(all, snap)
  {
    hide Describes, Sorted, SortedEntries;
    var rest, db := snap - {DATABASE}, snap[DATABASE];
    var all := entries + [EntryOf(DATABASE, db)];
    DescribesMore(entries, rest, DATABASE, db);
    assert rest[DATABASE := db] == snap;
    DescribedOnce(all, snap);
    SortedEntriesIs(all);
    SameEntriesDescribe(all, SortedEntries(all), snap);
  }

  lemma DescribedOnce(entries: seq<Entry>, files: Files)
    requires Describes(entries, files)
    ensures Distinct(entries)
  {
  }

  lemma FinishListed(content: BlobId -> seq<byte>, w: World)
    requires Listed(w) && w.phase == Copying({}) && DATABASE in w.snap
    ensures Listed(Next(content, w, Finish))
  {
    hide Describes, Sorted, SortedEntries;
    AllListed(w.entries, w.snap);
  }

  lemma StartListed(content: BlobId -> seq<byte>, w: World)
    requires Listed(w) && w.phase == Walking({}) && DATABASE !in w.plan
    ensures Listed(Next(content, w, StartCopying))
  {
    assert w.snap - {DATABASE} == map[];
  }

  lemma CopyInv(content: BlobId -> seq<byte>, w: World, p: Path, torn: Content)
    requires Inv(content, w)
    ensures Inv(content, Next(content, w, CopyOneFile(p, torn)))
  {
    hide Describes, FileTree, EntryOf;
    var w' := Next(content, w, CopyOneFile(p, torn));
    if w'.phase.Copying? && w' != w {
      CopyListed(w, p, w'.snap[p]);
      forall id | id in w.refs
        ensures Reached(w', id)
      {
        BlobFacts(id);
        assert Reached(w, id);
      }
    }
  }

  lemma CaptureInv(content: BlobId -> seq<byte>, w: World)
    requires Inv(content, w)
    ensures Inv(content, Next(content, w, Capture))
  {
    hide IsBlob, FileTree, BlobPath, ValidId;
  }

  lemma StartInv(content: BlobId -> seq<byte>, w: World)
    requires Inv(content, w)
    ensures Inv(content, Next(content, w, StartCopying))
  {
    hide Describes, IsBlob, FileTree, BlobPath, ValidId;
    if w.phase == Walking({}) {
      StartListed(content, w);
      forall id | id in w.refs
        ensures Reached(Next(content, w, StartCopying), id)
      {
        assert Reached(w, id);
      }
    }
  }

  lemma FinishInv(content: BlobId -> seq<byte>, w: World)
    requires Inv(content, w)
    ensures Inv(content, Next(content, w, Finish))
  {
    hide Describes, IsBlob, FileTree, BlobPath, ValidId, Sorted, SortedEntries;
    if w.phase == Copying({}) {
      FinishListed(content, w);
      forall id | id in w.refs
        ensures Reached(Next(content, w, Finish), id)
      {
        assert Reached(w, id);
      }
    }
  }

  lemma NextInv(content: BlobId -> seq<byte>, w: World, step: Step)
    requires Inv(content, w)
    ensures Inv(content, Next(content, w, step))
  {
    if Others(step) {
      OthersInv(content, w, step);
    } else if step.PlanFlat? {
      PlanFlatInv(content, w);
    } else if step.ReadOne? {
      ReadInv(content, w, step.dir);
    } else if step.CopyOneFile? {
      CopyInv(content, w, step.path, step.torn);
    } else if step.Capture? {
      CaptureInv(content, w);
    } else if step.StartCopying? {
      StartInv(content, w);
    } else {
      FinishInv(content, w);
    }
  }

  lemma {:induction false} RunInv(content: BlobId -> seq<byte>, w: World, steps: seq<Step>)
    requires Ready(content, w)
    ensures Inv(content, After(content, w, steps))
  {
    if |steps| > 0 {
      RunInv(content, w, steps[..|steps| - 1]);
      NextInv(content, After(content, w, steps[..|steps| - 1]), steps[|steps| - 1]);
    }
  }

  /**
   A live snapshot is consistent. However uploads, deletions of rows and other
   writes interleave with it, a snapshot that completes holds the database it
   captured and, for every blob that database references, the bytes the blob's
   id stands for.
   */
  lemma {:induction false} SnapshotHoldsItsBlobs(content: BlobId -> seq<byte>, w: World, steps: seq<Step>, id: BlobId)
    requires Ready(content, w)
    requires After(content, w, steps).phase.Done?
    ensures var now := After(content, w, steps);
      && DATABASE in now.snap && now.snap[DATABASE] == Database(now.refs)
      && (id in now.refs ==> ValidId(id) && BlobPath(id) in now.snap && now.snap[BlobPath(id)] == Plain(content(id)))
  {
    RunInv(content, w, steps);
    var now := After(content, w, steps);
    if id in now.refs {
      BlobFacts(id);
      assert Reached(now, id);
    }
  }

  /**
   And it restores. The manifest that the run itself has built out of its copies
   verifies, and restoring the snapshot yields exactly what was copied: the
   captured database with every blob it references.
   */
  lemma {:induction false} SnapshotRestores(content: BlobId -> seq<byte>, w: World, steps: seq<Step>)
    requires Ready(content, w) && After(content, w, steps).phase.Done?
    ensures var now := After(content, w, steps);
      var s := Snapshot(now.snap, now.manifest);
      && Verifies(s) && Sorted(s.manifest.value.files)
      && var back := Named(s.files, s.manifest.value.files);
         && back == now.snap && DATABASE in back && back[DATABASE] == Database(now.refs)
         && forall id ::
             id in now.refs ==> ValidId(id) && BlobPath(id) in back && back[BlobPath(id)] == Plain(content(id))
  {
    var now := After(content, w, steps);
    RunInv(content, w, steps);
    DescribedRestores(Snapshot(now.snap, now.manifest), now.snap);
    SnapshotHoldsItsBlobs(content, w, steps, "");
    forall id | id in now.refs
      ensures ValidId(id) && BlobPath(id) in now.snap && now.snap[BlobPath(id)] == Plain(content(id))
    {
      SnapshotHoldsItsBlobs(content, w, steps, id);
    }
  }
}
