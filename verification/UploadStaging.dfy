/**
 Resumable uploads (`apps/server/src/handlers9.rs`): position-addressed writes
 into a staging file, the bounded bulk stream, and why the order, the size and
 the repetition of the pieces do not matter.
 */
module UploadStaging {
  import opened Base

  const CHUNK_MAX := 256 * 1024

  function Min(a: nat, b: nat): nat {
    if a < b then a else b
  }

  function Max(a: nat, b: nat): nat {
    if a < b then b else a
  }

  function Zeros(n: nat): (z: seq<byte>)
    ensures |z| == n && forall i :: 0 <= i < n ==> z[i] == 0
  {
    seq(n, i => 0)
  }

  /** A seek and a write: a gap before the offset reads as zeros, and writing nothing changes nothing. */
  function WriteAt(f: seq<byte>, offset: nat, data: seq<byte>): seq<byte> {
    if data == [] then f
    else
      var head := if |f| < offset then f + Zeros(offset - |f|) else f[..offset];
      head + data + if offset + |data| < |f| then f[offset + |data|..] else []
  }

  lemma Written(f: seq<byte>, offset: nat, data: seq<byte>)
    ensures |WriteAt(f, offset, data)| == if data == [] then |f| else Max(|f|, offset + |data|)
    ensures forall i :: offset <= i < offset + |data| ==> WriteAt(f, offset, data)[i] == data[i - offset]
    ensures forall i :: 0 <= i < |WriteAt(f, offset, data)| && !(offset <= i < offset + |data|) ==>
      WriteAt(f, offset, data)[i] == if i < |f| then f[i] else 0
  {
  }

  /** Two adjacent writes are one. */
  lemma WriteJoins(f: seq<byte>, offset: nat, a: seq<byte>, b: seq<byte>)
    ensures WriteAt(WriteAt(f, offset, a), offset + |a|, b) == WriteAt(f, offset, a + b)
  {
    var first := WriteAt(f, offset, a);
    var once, twice := WriteAt(f, offset, a + b), WriteAt(first, offset + |a|, b);
    Written(f, offset, a);
    Written(first, offset + |a|, b);
    Written(f, offset, a + b);
    assert |once| == |twice|;
    forall i | 0 <= i < |once|
      ensures once[i] == twice[i]
    {
      if offset <= i < offset + |a| + |b| {
        assert once[i] == (a + b)[i - offset];
      }
    }
  }

  // ---- the bulk stream -----------------------------------------------------------------

  /**
   How many of the sent bytes land in the file: never past the declared size,
   and no more than the disk takes.
   */
  function Landed(sent: seq<byte>, offset: nat, size: nat, room: nat): nat {
    if offset > size then 0 else Min(Min(|sent|, size - offset), room)
  }

  /** The stream is accepted exactly when it ends, cleanly, at the declared size and the disk took it. */
  predicate Accepted(sent: seq<byte>, closed: bool, offset: nat, size: nat, room: nat, flushOk: bool) {
    offset <= size && |sent| == size - offset && closed && room >= |sent| && flushOk
  }

  lemma NextRead(file: seq<byte>, start: nat, sent: seq<byte>, got: nat, n: nat)
    requires got + n <= |sent|
    ensures WriteAt(WriteAt(file, start, sent[..got]), start + got, sent[got..got + n])
        == WriteAt(file, start, sent[..got + n])
  {
    WriteJoins(file, start, sent[..got], sent[got..got + n]);
    assert sent[..got] + sent[got..got + n] == sent[..got + n];
  }

  lemma NothingRead(file: seq<byte>, start: nat, sent: seq<byte>)
    ensures WriteAt(file, start, sent[..0]) == file
  {
  }

  /**
   `receive_bounded_upload`. `sent` is everything the peer gets across before
   it closes or fails; how reads cut it up is arbitrary, and so the outcome
   does not depend on it. `room` is what the disk takes before a write fails.
   */
  method ReceiveBoundedUpload(file: seq<byte>, sent: seq<byte>, closed: bool, start: nat, size: nat, room: nat,
      flushOk: bool)
    returns (file': seq<byte>, r: Result<nat>)
    ensures r == if Accepted(sent, closed, start, size, room, flushOk) then Ok(size) else Err
    ensures file' == WriteAt(file, start, sent[..Landed(sent, start, size, room)])
  {
    hide WriteAt;
    file' := file;
    NothingRead(file, start, sent);
    if start > size {
      return file', Err;
    }
    var offset, got := start, 0;
    while offset < size
      invariant got <= |sent| && got <= room && offset == start + got <= size
      invariant file' == WriteAt(file, start, sent[..got])
      decreases size - offset
    {
      var want := Min(size - offset, CHUNK_MAX);
      if got == |sent| {
        return file', Err;
      }
      var n :| 1 <= n <= want && n <= |sent| - got;
      var m := Min(n, room - got);
      NextRead(file, start, sent, got, m);
      file' := WriteAt(file', offset, sent[got..got + m]);
      got := got + m;
      if m < n {
        return file', Err;
      }
      offset := offset + n;
    }
    if !flushOk || got < |sent| || !closed {
      return file', Err;
    }
    return file', Ok(offset);
  }

  // ---- tickets ---------------------------------------------------------------------------

  datatype Direction = Download | Upload

  /** The parts of a ticket that uploading reads; `staging` names its staging file. */
  datatype Ticket = Ticket(account: int, session: nat, direction: Direction, token: nat, size: nat,
      staging: Option<nat>, have: nat)

  datatype Refusal = NotFound | Forbidden | TooLarge | Internal

  /** What a chunk put may do: its staging file and the end of the chunk, or a refusal. */
  function PutTarget(tickets: map<nat, Ticket>, account: int, id: nat, offset: nat,
      len: nat): (Option<(nat, nat)>, Refusal) {
    if id !in tickets then (None, NotFound)
    else
      var t := tickets[id];
      if t.account != account || t.direction != Upload then (None, Forbidden)
      else if t.staging.None? then (None, Internal)
      else if len > CHUNK_MAX || offset + len > t.size then (None, TooLarge)
      else (Some((t.staging.value, offset + len)), Internal)
  }

  function Raise(tickets: map<nat, Ticket>, id: nat, to: nat): map<nat, Ticket> {
    if id in tickets then tickets[id := tickets[id].(have := Max(tickets[id].have, to))] else tickets
  }

  class TransferRegistry {
    var tickets: map<nat, Ticket>
    /** The staging files that exist. */
    var staged: map<nat, seq<byte>>

    constructor ()
      ensures tickets == map[] && staged == map[]
    {
      tickets, staged := map[], map[];
    }

    /**
     The `FileChunkPut` arm: refused before any write, or written where it says.
     `room` is what the disk takes; a write cut short is refused but has landed.
     */
    method ChunkPut(account: int, id: nat, offset: nat, bytes: seq<byte>, room: nat, flushOk: bool)
        returns (refused: Option<Refusal>)
      modifies this
      ensures var (target, why) := PutTarget(old(tickets), account, id, offset, |bytes|);
        if target.None? then
          refused == Some(why) && tickets == old(tickets) && staged == old(staged)
        else if target.value.0 !in old(staged) then
          refused == Some(Internal) && tickets == old(tickets) && staged == old(staged)
        else
          && staged == old(staged)[target.value.0 :=
              WriteAt(old(staged)[target.value.0], offset, bytes[..Min(|bytes|, room)])]
          && (room >= |bytes| && flushOk ==> refused == None && tickets == Raise(old(tickets), id, target.value.1))
          && (!(room >= |bytes| && flushOk) ==> refused == Some(Internal) && tickets == old(tickets))
    {
      var (target, why) := PutTarget(tickets, account, id, offset, |bytes|);
      if target.None? {
        return Some(why);
      }
      var (file, end) := target.value;
      if file !in staged {
        return Some(Internal);
      }
      staged := staged[file := WriteAt(staged[file], offset, bytes[..Min(|bytes|, room)])];
      if room < |bytes| || !flushOk {
        return Some(Internal);
      }
      tickets := Raise(tickets, id, end);
      return None;
    }

    /** The upload arm of `serve_bulk_stream`: `have` is raised only by a stream accepted whole. */
    method BulkUpload(account: int, id: nat, token: nat, start: nat, sent: seq<byte>, closed: bool, room: nat,
        flushOk: bool)
      returns (acked: bool)
      modifies this
      ensures
        var open := id in old(tickets) && old(tickets)[id].account == account && old(tickets)[id].token == token
                    && old(tickets)[id].direction == Upload && old(tickets)[id].staging.Some?
                    && old(tickets)[id].staging.value in old(staged);
        if !open then !acked && tickets == old(tickets) && staged == old(staged)
        else
          var t := old(tickets)[id];
          && acked == Accepted(sent, closed, start, t.size, room, flushOk)
          && tickets == (if acked then Raise(old(tickets), id, t.size) else old(tickets))
          && staged == old(staged)[t.staging.value :=
               WriteAt(old(staged)[t.staging.value], start, sent[..Landed(sent, start, t.size, room)])]
    {
      if id !in tickets || tickets[id].account != account || tickets[id].token != token
          || tickets[id].direction != Upload {
        return false;
      }
      var t := tickets[id];
      if t.staging.None? || t.staging.value !in staged {
        return false;
      }
      var file, r := ReceiveBoundedUpload(staged[t.staging.value], sent, closed, start, t.size, room, flushOk);
      staged := staged[t.staging.value := file];
      if r.Err? {
        return false;
      }
      tickets := Raise(tickets, id, r.value);
      return true;
    }

    /** `close_session`: the session's tickets go, and their staging files are handed back for deletion. */
    method CloseSession(session: nat) returns (files: set<nat>)
      modifies this`tickets
      ensures tickets == map id | id in old(tickets) && old(tickets)[id].session != session :: old(tickets)[id]
      ensures files == set id | id in old(tickets) && old(tickets)[id].session == session
          && old(tickets)[id].staging.Some?
                       :: old(tickets)[id].staging.value
    {
      var keep: map<nat, Ticket> := map[];
      files := {};
      var todo := tickets.Keys;
      while todo != {}
        invariant todo <= tickets.Keys
        invariant keep == map id | id in tickets && id !in todo && tickets[id].session != session :: tickets[id]
        invariant forall f :: f in files ==> HasFile(tickets, tickets.Keys - todo, session, f)
        invariant forall f :: HasFile(tickets, tickets.Keys - todo, session, f) ==> f in files
        decreases todo
      {
        var id :| id in todo;
        todo := todo - {id};
        if tickets[id].session != session {
          keep := keep[id := tickets[id]];
        } else if tickets[id].staging.Some? {
          files := files + {tickets[id].staging.value};
          assert HasFile(tickets, tickets.Keys - todo, session, tickets[id].staging.value);
        }
      }
      tickets := keep;
    }
  }

  predicate HasFile(tickets: map<nat, Ticket>, among: set<nat>, session: nat, f: nat) {
    exists id :: id in among && id in tickets && tickets[id].session == session && tickets[id].staging == Some(f)
  }

  // ---- any order of pieces -----------------------------------------------------------------

  /**
   What happens to one staging file, at the grain of single writes, so that
   chunk puts and bulk streams may interleave: a piece lands, or `have` is
   raised by a put or stream that succeeded.
   */
  datatype Event = Piece(offset: nat, bytes: seq<byte>) | RaiseTo(have: nat)

  datatype Stage = Stage(file: seq<byte>, have: nat)

  function Next(s: Stage, e: Event): Stage {
    match e
    case Piece(offset, bytes) => s.(file := WriteAt(s.file, offset, bytes))
    case RaiseTo(to) => s.(have := Max(s.have, to))
  }

  function After(events: seq<Event>): Stage {
    if |events| == 0 then Stage([], 0) else Next(After(events[..|events| - 1]), events[|events| - 1])
  }

  predicate Within(e: Event, size: nat) {
    match e
    case Piece(offset, bytes) => bytes != [] ==> offset + |bytes| <= size
    case RaiseTo(have) => have <= size
  }

  /** The piece is a slice of the declared content. */
  predicate Slice(e: Event, content: seq<byte>) {
    Within(e, |content|) && (e.Piece? && e.bytes != [] ==> e.bytes == content[e.offset..e.offset + |e.bytes|])
  }

  predicate Covers(e: Event, p: nat) {
    e.Piece? && e.offset <= p < e.offset + |e.bytes|
  }

  predicate Covered(events: seq<Event>, p: nat) {
    exists i :: 0 <= i < |events| && Covers(events[i], p)
  }

  lemma CoveredStep(events: seq<Event>, p: nat)
    requires |events| > 0
    ensures Covered(events, p) <==> Covered(events[..|events| - 1], p) || Covers(events[|events| - 1], p)
  {
    var n := |events| - 1;
    if Covered(events, p) {
      var i :| 0 <= i < |events| && Covers(events[i], p);
      assert i < n ==> Covers(events[..n][i], p);
    }
    if Covered(events[..n], p) {
      var i :| 0 <= i < n && Covers(events[..n][i], p);
      assert Covers(events[i], p);
    }
  }

  lemma {:induction false} WrittenBy(events: seq<Event>)
    requires |events| > 0
    ensures var f, e := After(events[..|events| - 1]).file, events[|events| - 1];
      && (e.RaiseTo? ==> After(events).file == f)
      && (e.Piece? ==>
            && |After(events).file| == (if e.bytes == [] then |f| else Max(|f|, e.offset + |e.bytes|))
            && forall i :: 0 <= i < |After(events).file| ==>
                 After(events).file[i]
                 == if Covers(e, i) then e.bytes[i - e.offset] else if i < |f| then f[i] else 0)
  {
    if events[|events| - 1].Piece? {
      Written(After(events[..|events| - 1]).file, events[|events| - 1].offset, events[|events| - 1].bytes);
    }
  }

  /** The file ends just after its last covered position. */
  lemma {:induction false} FileEnd(events: seq<Event>, p: nat)
    ensures Covered(events, p) ==> p < |After(events).file|
    ensures p + 1 == |After(events).file| ==> Covered(events, p)
  {
    if |events| > 0 {
      FileEnd(events[..|events| - 1], p);
      CoveredStep(events, p);
      WrittenBy(events);
    }
  }

  /** A staged byte is the content's where some piece covered it, and zero in a hole. */
  lemma {:induction false} StagedByte(events: seq<Event>, content: seq<byte>, p: nat)
    requires forall i :: 0 <= i < |events| ==> Slice(events[i], content)
    requires p < |After(events).file|
    ensures |After(events).file| <= |content|
    ensures After(events).file[p] == if Covered(events, p) then content[p] else 0
  {
    if |events| > 0 {
      var before, e := events[..|events| - 1], events[|events| - 1];
      CoveredStep(events, p);
      if p < |After(before).file| {
        StagedByte(before, content, p);
      } else {
        FileEnd(before, p);
      }
      SizeBound(before, |content|);
      WrittenBy(events);
      if Covers(e, p) {
        assert After(events).file[p] == e.bytes[p - e.offset];
      }
    }
  }

  /** No accepted write reaches the declared size or past it, and `have` never exceeds it. */
  lemma {:induction false} SizeBound(events: seq<Event>, size: nat)
    requires forall i :: 0 <= i < |events| ==> Within(events[i], size)
    ensures |After(events).file| <= size && After(events).have <= size
  {
    if |events| > 0 {
      SizeBound(events[..|events| - 1], size);
      WrittenBy(events);
    }
  }

  /**
   Order independence. Whatever the order, repetition and cutting of the
   pieces, two runs over one content that cover the same positions leave the
   same file.
   */
  lemma {:induction false} OrderIndependent(a: seq<Event>, b: seq<Event>, content: seq<byte>)
    requires forall i :: 0 <= i < |a| ==> Slice(a[i], content)
    requires forall i :: 0 <= i < |b| ==> Slice(b[i], content)
    requires forall p :: Covered(a, p) <==> Covered(b, p)
    ensures After(a).file == After(b).file
  {
    SameEnd(a, b);
    SameEnd(b, a);
    var fa, fb := After(a).file, After(b).file;
    forall p | 0 <= p < |fa|
      ensures fa[p] == fb[p]
    {
      StagedByte(a, content, p);
      StagedByte(b, content, p);
    }
  }

  lemma {:induction false} SameEnd(a: seq<Event>, b: seq<Event>)
    requires forall p :: Covered(a, p) ==> Covered(b, p)
    ensures |After(a).file| <= |After(b).file|
  {
    var n := |After(a).file|;
    if n > 0 {
      FileEnd(a, n - 1);
      FileEnd(b, n - 1);
    }
  }

  /** Exactly when the staged file is the content: it is long enough, and every hole is a zero of the content. */
  lemma {:induction false} StagedExactlyWhen(events: seq<Event>, content: seq<byte>)
    requires forall i :: 0 <= i < |events| ==> Slice(events[i], content)
    ensures After(events).file == content
        <==> |After(events).file| == |content| && forall p ::
            0 <= p < |content| && content[p] != 0 ==> Covered(events, p)
  {
    var f := After(events).file;
    if |f| == |content| {
      forall p | 0 <= p < |content|
        ensures f[p] == if Covered(events, p) then content[p] else 0
      {
        StagedByte(events, content, p);
      }
    }
  }

  lemma {:induction false} CoveringGivesContent(events: seq<Event>, content: seq<byte>)
    requires forall i :: 0 <= i < |events| ==> Slice(events[i], content)
    requires forall p :: 0 <= p < |content| ==> Covered(events, p)
    ensures After(events).file == content
  {
    SizeBound(events, |content|);
    if |content| > 0 {
      FileEnd(events, |content| - 1);
    }
    StagedExactlyWhen(events, content);
  }

  /**
   What the handlers let through: a chunk put that is accepted, and whatever a
   bulk stream lands whether or not it is accepted, stay inside the declared
   size; and when the peer sends the declared content they are slices of it.
   */
  lemma HandlersStageSlices(tickets: map<nat, Ticket>, account: int, id: nat, offset: nat, bytes: seq<byte>,
                            room: nat, content: seq<byte>)
    requires id in tickets && tickets[id].size == |content|
    ensures PutTarget(tickets, account, id, offset, |bytes|).0.Some? ==>
      var part := bytes[..Min(|bytes|, room)];
      && Within(Piece(offset, part), |content|) && Within(RaiseTo(offset + |bytes|), |content|)
      && (bytes == content[offset..offset + |bytes|] ==> Slice(Piece(offset, part), content))
    ensures var landed := bytes[..Landed(bytes, offset, |content|, room)];
      && Within(Piece(offset, landed), |content|)
      && (offset <= |content| && bytes <= content[offset..] ==> Slice(Piece(offset, landed), content))
  {
    var n := Landed(bytes, offset, |content|, room);
    if offset <= |content| && bytes <= content[offset..] {
      assert bytes[..n] == content[offset..offset + n];
    }
  }

  // ---- the resume high-water ------------------------------------------------------------------

  /** Everything below `have` has really been staged. */
  predicate PrefixStaged(events: seq<Event>) {
    forall p :: 0 <= p < After(events).have ==> Covered(events, p)
  }

  /** A put accepted by `ChunkPut`. */
  function Put(offset: nat, bytes: seq<byte>): seq<Event> {
    [Piece(offset, bytes), RaiseTo(offset + |bytes|)]
  }

  lemma {:induction false} PutEffect(events: seq<Event>, offset: nat, bytes: seq<byte>)
    ensures After(events + Put(offset, bytes)).have == Max(After(events).have, offset + |bytes|)
    ensures forall p: nat ::
        Covered(events + Put(offset, bytes), p) <==> Covered(events, p) || offset <= p < offset + |bytes|
  {
    var one := events + [Piece(offset, bytes)];
    var two := events + Put(offset, bytes);
    assert two[..|two| - 1] == one;
    assert one[..|one| - 1] == events;
    assert After(two).have == Max(After(one).have, offset + |bytes|);
    forall p: nat
      ensures Covered(two, p) <==> Covered(events, p) || offset <= p < offset + |bytes|
    {
      CoveredStep(two, p);
      CoveredStep(one, p);
    }
  }

  /**
   `have` is the largest end of anything accepted, not the length of a staged
   prefix: a put keeps it one exactly when nothing is missing between the old
   mark and the put's offset.
   */
  lemma {:induction false} HighWaterIsPrefixExactlyWhen(events: seq<Event>, offset: nat, bytes: seq<byte>)
    requires PrefixStaged(events)
    ensures PrefixStaged(events + Put(offset, bytes))
        <==> forall p :: After(events).have <= p < offset ==> Covered(events, p)
  {
    PutEffect(events, offset, bytes);
  }

  /** An empty put at the very end raises the mark to the whole size with nothing staged. */
  lemma {:induction false} EmptyPutRaisesTheMark(size: nat)
    requires size > 0
    ensures After(Put(size, [])) == Stage([], size) && !PrefixStaged(Put(size, []))
  {
    assert [] + Put(size, []) == Put(size, []);
    PutEffect([], size, []);
    assert Put(size, [])[..1][..0] == [];
    assert !Covered(Put(size, []), 0);
  }
}
