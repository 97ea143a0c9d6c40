/**
 The binkp socket pump (`apps/server/src/ftn.rs`): blocks are decoded out of
 whatever pieces the socket delivers and fed to a session, and a file leaves
 in blocks and arrives by appends.
 */
module BinkpPump {
  import opened Base
  import opened BinkpFrame

  const READ_MAX := 8192

  // ---- the pump, for any session -------------------------------------------------------

  datatype Verdict = More | Finished | Failed

  /** What a session does with one block, once its actions are performed. */
  datatype Turn<S> = Turn(next: S, verdict: Verdict)

  datatype Exit = SessionOver | PeerClosed | Error

  /** How a drive ends: the session, and the blocks it was fed. */
  datatype Outcome<S> = Outcome(session: S, fed: seq<RawBlock>, exit: Exit)

  /** The meaning of a byte stream: decode it from the front, as if it were all there. */
  function Drive<S>(advance: (S, RawBlock) -> Turn<S>, s: S, fed: seq<RawBlock>, input: seq<byte>,
      closed: bool): Outcome<S>
    decreases |input|
  {
    match Decode(input)
    case Incomplete => Outcome(s, fed, if closed then PeerClosed else Error)
    case EmptyCommand => Outcome(s, fed, Error)
    case Block(b, used) =>
      var turn := advance(s, b);
      if turn.verdict.More? then Drive(advance, turn.next, fed + [b], input[used..], closed)
      else Outcome(turn.next, fed + [b], if turn.verdict.Finished? then SessionOver else Error)
  }

  lemma DriveLonger<S>(advance: (S, RawBlock) -> Turn<S>, s: S, fed: seq<RawBlock>, buffered: seq<byte>,
      coming: seq<byte>, closed: bool)
    requires Decode(buffered).Block?
    ensures var d := Decode(buffered);
      var turn := advance(s, d.block);
      Drive(advance, s, fed, buffered + coming, closed)
      == if turn.verdict.More? then Drive(advance, turn.next, fed + [d.block], buffered[d.used..] + coming, closed)
         else Outcome(turn.next, fed + [d.block], if turn.verdict.Finished? then SessionOver else Error)
  {
    DecodeIgnoresTheRest(buffered, coming);
    assert (buffered + coming)[Decode(buffered).used..] == buffered[Decode(buffered).used..] + coming;
  }

  /** The same, as the pump holds it: what is buffered from `pos` on, and what has not been read. */
  lemma DriveOn<S>(advance: (S, RawBlock) -> Turn<S>, s: S, fed: seq<RawBlock>, inbuf: seq<byte>, pos: nat,
      coming: seq<byte>, closed: bool)
    requires pos <= |inbuf| && Decode(inbuf[pos..]).Block?
    ensures var d := Decode(inbuf[pos..]);
      var turn := advance(s, d.block);
      var whole := Drive(advance, s, fed, inbuf[pos..] + coming, closed);
      && pos + d.used <= |inbuf|
      && (turn.verdict.More? ==>
          Drive(advance, turn.next, fed + [d.block], inbuf[pos + d.used..] + coming, closed) == whole)
      && (!turn.verdict.More? ==>
          Outcome(turn.next, fed + [d.block], if turn.verdict.Finished? then SessionOver else Error) == whole)
  {
    var d := Decode(inbuf[pos..]);
    DriveLonger(advance, s, fed, inbuf[pos..], coming, closed);
    assert inbuf[pos..][d.used..] == inbuf[pos + d.used..];
  }

  lemma DriveStops<S>(advance: (S, RawBlock) -> Turn<S>, s: S, fed: seq<RawBlock>, buffered: seq<byte>,
      coming: seq<byte>, closed: bool)
    requires Decode(buffered).EmptyCommand? || (Decode(buffered).Incomplete? && coming == [])
    ensures Drive(advance, s, fed, buffered + coming, closed)
         == Outcome(s, fed, if Decode(buffered).Incomplete? && closed then PeerClosed else Error)
  {
    if coming == [] {
      assert buffered + coming == buffered;
    } else {
      DecodeIgnoresTheRest(buffered, coming);
    }
  }

  /**
   `drive_session`. `sent` is everything the peer gets across before it closes
   or the socket fails; the sizes of the reads are arbitrary. The outcome is the
   meaning of `sent`, so it does not depend on how TCP cut it up.
   */
  method DriveSession<S>(advance: (S, RawBlock) -> Turn<S>, start: S, sent: seq<byte>, closed: bool)
      returns (r: Outcome<S>)
    ensures r == Drive(advance, start, [], sent, closed)
  {
    hide Drive, Decode;
    var session, fed := start, [];
    var inbuf: seq<byte>, pos: nat, taken: nat := [], 0, 0;
    assert inbuf[pos..] + sent[taken..] == sent;
    ghost var meaning := Drive(advance, start, [], sent, closed);
    while true
      invariant pos <= |inbuf| && taken <= |sent|
      invariant Drive(advance, session, fed, inbuf[pos..] + sent[taken..], closed) == meaning
      decreases |inbuf| - pos + |sent| - taken, |sent| - taken
    {
      var d := Decode(inbuf[pos..]);
      if d.Block? {
        var turn := advance(session, d.block);
        DriveOn(advance, session, fed, inbuf, pos, sent[taken..], closed);
        if !turn.verdict.More? {
          return Outcome(turn.next, fed + [d.block], if turn.verdict.Finished? then SessionOver else Error);
        }
        session, fed, pos := turn.next, fed + [d.block], pos + d.used;
      } else if d.EmptyCommand? || taken == |sent| {
        DriveStops(advance, session, fed, inbuf[pos..], sent[taken..], closed);
        return Outcome(session, fed, if d.Incomplete? && closed then PeerClosed else Error);
      } else {
        ghost var before := inbuf[pos..] + sent[taken..];
        var n :| 1 <= n <= READ_MAX && n <= |sent| - taken;
        inbuf := ReadMore(inbuf, pos, sent, taken, n, sent[taken..taken + n]);
        pos, taken := 0, taken + n;
        assert inbuf[pos..] + sent[taken..] == before;
      }
    }
  }

  /** Drop what was decoded and append what was read. */
  method ReadMore(inbuf: seq<byte>, pos: nat, ghost sent: seq<byte>, ghost taken: nat, ghost n: nat, read: seq<byte>)
      returns (next: seq<byte>)
    requires pos <= |inbuf| && taken + n <= |sent| && read == sent[taken..taken + n]
    ensures next[0..] + sent[taken + n..] == inbuf[pos..] + sent[taken..]
    ensures |next| == |inbuf| - pos + n
  {
    next := inbuf[pos..] + read;
    assert next[0..] == next;
    assert sent[taken..] == read + sent[taken + n..];
  }

  // ---- what the actions do -----------------------------------------------------------------

  datatype Action =
    | SendCommand(id: byte, args: seq<byte>)
    | StreamFile(name: string)
    | ExpectFile(name: string)
    | WriteData(bytes: seq<byte>)
    | FileComplete
    | Authenticated
    | FinishedAction
    | Aborted

  /** The socket's written side, the open inbound file, the inbound directory and the list of arrivals. */
  datatype Spool = Spool(wire: seq<byte>, open: Option<string>, files: map<string, seq<byte>>, received: seq<string>)

  /** The blocks a file body is cut into. */
  function Chunks(bytes: seq<byte>): seq<seq<byte>> {
    if bytes == [] then []
    else if |bytes| <= BLOCK_MAX then [bytes]
    else [bytes[..BLOCK_MAX]] + Chunks(bytes[BLOCK_MAX..])
  }

  function EncodeData(chunk: seq<byte>): seq<byte> {
    [(|chunk| / 256 % 256) as byte, (|chunk| % 256) as byte] + chunk
  }

  function Streamed(chunks: seq<seq<byte>>): seq<byte> {
    if chunks == [] then [] else EncodeData(chunks[0]) + Streamed(chunks[1..])
  }

  function Append(s: Spool, bytes: seq<byte>): Spool
    requires s.open.Some? && s.open.value in s.files
  {
    s.(files := s.files[s.open.value := s.files[s.open.value] + bytes])
  }

  predicate SpoolOk(s: Spool) {
    s.open.Some? ==> s.open.value in s.files
  }

  datatype Performed = Performed(spool: Spool, verdict: Verdict)

  /** One action of `perform_actions`. Names are taken to be sanitized already. */
  function PerformOne(outgoing: map<string, seq<byte>>, s: Spool, a: Action): (p: Performed)
    requires SpoolOk(s)
    ensures SpoolOk(p.spool)
  {
    match a
    case SendCommand(id, args) =>
      var block := Encode(Command(id, args));
      if block.Ok? then Performed(s.(wire := s.wire + block.value), More) else Performed(s, Failed)
    case StreamFile(name) =>
      Performed(if name in outgoing then s.(wire := s.wire + Streamed(Chunks(outgoing[name]))) else s, More)
    case ExpectFile(name) => Performed(s.(open := Some(name), files := s.files[name := []]), More)
    case WriteData(bytes) => if s.open.Some? then Performed(Append(s, bytes), More) else Performed(s, Failed)
    case FileComplete =>
      Performed(if s.open.Some? then s.(open := None, received := s.received + [s.open.value]) else s, More)
    case Authenticated => Performed(s, More)
    case FinishedAction => Performed(s, Finished)
    case Aborted => Performed(s, Failed)
  }

  function PerformAll(outgoing: map<string, seq<byte>>, s: Spool, actions: seq<Action>): (p: Performed)
    requires SpoolOk(s)
    ensures SpoolOk(p.spool)
    decreases |actions|
  {
    if actions == [] then Performed(s, More)
    else
      var p := PerformOne(outgoing, s, actions[0]);
      if p.verdict.More? then PerformAll(outgoing, p.spool, actions[1..]) else p
  }

  class Pump {
    var wire: seq<byte>
    var open: Option<string>
    var files: map<string, seq<byte>>
    var received: seq<string>

    function Now(): Spool
      reads this
    {
      Spool(wire, open, files, received)
    }

    constructor (files: map<string, seq<byte>>)
      ensures Now() == Spool([], None, files, [])
    {
      wire, open, this.files, received := [], None, files, [];
    }

    /** The body goes out in blocks of at most 32767 bytes. */
    method Stream(bytes: seq<byte>)
      modifies this`wire
      ensures wire == old(wire) + Streamed(Chunks(bytes))
    {
      var rest := bytes;
      while rest != []
        invariant wire + Streamed(Chunks(rest)) == old(wire) + Streamed(Chunks(bytes))
        decreases |rest|
      {
        var n := if |rest| < BLOCK_MAX then |rest| else BLOCK_MAX;
        ghost var before := wire;
        FirstChunk(rest);
        wire := wire + EncodeData(rest[..n]);
        assert before + (EncodeData(rest[..n]) + Streamed(Chunks(rest[n..]))) == wire + Streamed(Chunks(rest[n..]));
        rest := rest[n..];
      }
    }

    /** `perform_actions`: true once the session has finished. */
    method Perform(outgoing: map<string, seq<byte>>, actions: seq<Action>) returns (r: Result<bool>)
      requires SpoolOk(Now())
      modifies this
      ensures var p := PerformAll(outgoing, old(Now()), actions);
        && Now() == p.spool
        && r == if p.verdict.More? then Ok(false) else if p.verdict.Finished? then Ok(true) else Err
    {
      for i := 0 to |actions|
        invariant SpoolOk(Now())
        invariant PerformAll(outgoing, Now(), actions[i..]) == PerformAll(outgoing, old(Now()), actions)
      {
        assert actions[i..][0] == actions[i] && actions[i..][1..] == actions[i + 1..];
        var a := actions[i];
        if a.SendCommand? {
          var block := Encode(Command(a.id, a.args));
          if block.Err? {
            return Err;
          }
          wire := wire + block.value;
        } else if a.StreamFile? {
          if a.name in outgoing {
            Stream(outgoing[a.name]);
          }
        } else if a.ExpectFile? {
          open, files := Some(a.name), files[a.name := []];
        } else if a.WriteData? {
          if open.None? {
            return Err;
          }
          files := files[open.value := files[open.value] + a.bytes];
        } else if a.FileComplete? {
          if open.Some? {
            received := received + [open.value];
            open := None;
          }
        } else if a.FinishedAction? {
          return Ok(true);
        } else if a.Aborted? {
          return Err;
        }
      }
      assert actions[|actions|..] == [];
      return Ok(false);
    }
  }

  lemma FirstChunk(bytes: seq<byte>)
    requires bytes != []
    ensures var n := if |bytes| < BLOCK_MAX then |bytes| else BLOCK_MAX;
      Streamed(Chunks(bytes)) == EncodeData(bytes[..n]) + Streamed(Chunks(bytes[n..]))
  {
    hide EncodeData;
    var n := if |bytes| < BLOCK_MAX then |bytes| else BLOCK_MAX;
    var first, rest := bytes[..n], Chunks(bytes[n..]);
    assert Chunks(bytes) == [first] + rest by {
      if |bytes| <= BLOCK_MAX {
        assert first == bytes && bytes[n..] == [];
      }
    }
    StreamedFirst(first, rest);
  }

  lemma StreamedFirst(first: seq<byte>, rest: seq<seq<byte>>)
    ensures Streamed([first] + rest) == EncodeData(first) + Streamed(rest)
  {
    assert ([first] + rest)[1..] == rest;
  }

  // ---- a file across the wire ------------------------------------------------------------------

  const M_GOT: byte := 6

  /** The receiving half of a session in its transfer phase: the announced size and how much has come. */
  datatype Inbound = Inbound(receiving: Option<(nat, nat)>, spool: Spool)

  /** `on_file`, after the announcement has been parsed. */
  function OnFile(s: Inbound, name: string, size: nat, ack: seq<byte>): (Option<(nat, nat)>, seq<Action>)
    requires s.receiving.None?
  {
    if size == 0 then (None, [ExpectFile(name), SendCommand(M_GOT, ack), FileComplete])
    else (Some((size, 0)), [ExpectFile(name)])
  }

  /** `on_data`: complete as soon as the announced size is reached, at the end of a block. */
  function OnData(s: Inbound, bytes: seq<byte>, ack: seq<byte>): Option<(Option<(nat, nat)>, seq<Action>)> {
    if s.receiving.None? then None
    else
      var (size, got) := s.receiving.value;
      if got + |bytes| >= size then Some((None, [WriteData(bytes), SendCommand(M_GOT, ack), FileComplete]))
      else Some((Some((size, got + |bytes|)), [WriteData(bytes)]))
  }

  /** A whole turn: the session, then its actions. Commands other than data end this model's part. */
  function Receive(ack: seq<byte>, s: Inbound, b: RawBlock): Turn<Inbound> {
    if b.Command? then Turn(s, Failed)
    else
      var d := OnData(s, b.payload, ack);
      if d.None? || !SpoolOk(s.spool) then Turn(s, Failed)
      else
        var p := PerformAll(map[], s.spool, d.value.1);
        Turn(Inbound(d.value.0, p.spool), p.verdict)
  }

  function Receiver(ack: seq<byte>): (Inbound, RawBlock) -> Turn<Inbound> {
    (s, b) => Receive(ack, s, b)
  }

  /** Waiting for `size` bytes of `name`, of which `soFar` have been written. */
  predicate Awaiting(s: Inbound, name: string, size: nat, soFar: seq<byte>) {
    && s.receiving == Some((size, |soFar|)) && s.spool.open == Some(name)
    && name in s.spool.files && s.spool.files[name] == soFar
  }

  /** The acknowledgement of the file fits a block. */
  predicate AckFits(ack: seq<byte>) {
    1 + |ack| <= BLOCK_MAX
  }

  lemma DecodeStreamed(chunk: seq<byte>, rest: seq<byte>)
    requires |chunk| <= BLOCK_MAX
    ensures Decode(EncodeData(chunk) + rest) == Block(Data(chunk), |EncodeData(chunk)|)
    ensures (EncodeData(chunk) + rest)[|EncodeData(chunk)|..] == rest
  {
    assert Encode(Data(chunk)) == Ok(EncodeData(chunk));
    DecodeEncoded(Data(chunk), rest);
  }

  /** One data block that does not reach the announced size is appended. */
  lemma PartArrives(ack: seq<byte>, s: Inbound, name: string, size: nat, soFar: seq<byte>, part: seq<byte>)
    requires Awaiting(s, name, size, soFar) && |soFar| + |part| < size
    ensures var t := Receive(ack, s, Data(part));
      && t.verdict.More? && Awaiting(t.next, name, size, soFar + part)
      && t.next.spool == s.spool.(files := s.spool.files[name := soFar + part])
  {
    var actions := [WriteData(part)];
    assert actions[1..] == [];
    assert PerformAll(map[], s.spool, actions) == Performed(Append(s.spool, part), More);
  }

  /** The block that reaches it closes the file and acknowledges it. */
  lemma LastPartArrives(ack: seq<byte>, s: Inbound, name: string, size: nat, soFar: seq<byte>, part: seq<byte>)
    requires Awaiting(s, name, size, soFar) && |soFar| + |part| >= size && AckFits(ack)
    ensures var t := Receive(ack, s, Data(part));
      && t.verdict.More? && t.next.receiving == None && t.next.spool.open == None
      && t.next.spool.files == s.spool.files[name := soFar + part] && t.next.spool.received == s.spool.received + [name]
  {
    var actions := [WriteData(part), SendCommand(M_GOT, ack), FileComplete];
    assert actions[1..] == [SendCommand(M_GOT, ack), FileComplete];
    assert actions[1..][1..] == [FileComplete];
    assert actions[1..][1..][1..] == [];
    var written := Append(s.spool, part);
    var acked := written.(wire := written.wire + Encode(Command(M_GOT, ack)).value);
    assert PerformAll(map[], acked, [FileComplete])
        == Performed(acked.(open := None, received := acked.received + [name]), More);
    assert PerformAll(map[], written, [SendCommand(M_GOT, ack), FileComplete])
        == PerformAll(map[], acked, [FileComplete]);
  }

  function Short(bytes: seq<byte>): nat {
    if |bytes| < BLOCK_MAX then |bytes| else BLOCK_MAX
  }

  lemma DriveFirstChunk(ack: seq<byte>, s: Inbound, fed: seq<RawBlock>, bytes: seq<byte>, closed: bool)
    requires bytes != []
    ensures var n := Short(bytes);
      var t := Receive(ack, s, Data(bytes[..n]));
      Drive(Receiver(ack), s, fed, Streamed(Chunks(bytes)), closed)
      == if t.verdict.More? then
           Drive(Receiver(ack), t.next, fed + [Data(bytes[..n])], Streamed(Chunks(bytes[n..])), closed)
         else Outcome(t.next, fed + [Data(bytes[..n])], if t.verdict.Finished? then SessionOver else Error)
  {
    var n := Short(bytes);
    FirstChunk(bytes);
    DecodeStreamed(bytes[..n], Streamed(Chunks(bytes[n..])));
  }

  lemma DriveNothing(ack: seq<byte>, s: Inbound, fed: seq<RawBlock>)
    ensures Drive(Receiver(ack), s, fed, Streamed(Chunks([])), true) == Outcome(s, fed, PeerClosed)
  {
  }

  /** What a receiver makes of the rest of a file and the end of the stream. */
  function Across(ack: seq<byte>, s: Inbound, fed: seq<RawBlock>, rest: seq<byte>): Outcome<Inbound> {
    Drive(Receiver(ack), s, fed, Streamed(Chunks(rest)), true)
  }

  /** The stream ended after the file was closed, with exactly this content, and nothing else changed on disk. */
  predicate ArrivedWhole(r: Outcome<Inbound>, before: Spool, name: string, content: seq<byte>) {
    && r.exit == PeerClosed && r.session.receiving == None && r.session.spool.open == None
    && r.session.spool.files == before.files[name := content]
    && r.session.spool.received == before.received + [name]
  }

  lemma ArrivedFromLater(r: Outcome<Inbound>, before: Spool, name: string, part: seq<byte>, content: seq<byte>)
    requires ArrivedWhole(r, before.(files := before.files[name := part]), name, content)
    ensures ArrivedWhole(r, before, name, content)
  {
    assert before.files[name := part][name := content] == before.files[name := content];
  }

  lemma MiddleChunk(ack: seq<byte>, s: Inbound, fed: seq<RawBlock>, name: string, size: nat, soFar: seq<byte>,
      rest: seq<byte>)
    returns (next: Inbound, fed': seq<RawBlock>)
    requires Awaiting(s, name, size, soFar) && |rest| > BLOCK_MAX && |soFar| + BLOCK_MAX < size
    ensures Across(ack, s, fed, rest) == Across(ack, next, fed', rest[BLOCK_MAX..])
    ensures Awaiting(next, name, size, soFar + rest[..BLOCK_MAX])
    ensures next.spool == s.spool.(files := s.spool.files[name := soFar + rest[..BLOCK_MAX]])
  {
    var first := rest[..BLOCK_MAX];
    DriveFirstChunk(ack, s, fed, rest, true);
    PartArrives(ack, s, name, size, soFar, first);
    next, fed' := Receive(ack, s, Data(first)).next, fed + [Data(first)];
  }

  lemma LastChunk(ack: seq<byte>, s: Inbound, fed: seq<RawBlock>, name: string, size: nat, soFar: seq<byte>,
      rest: seq<byte>)
    requires AckFits(ack) && Awaiting(s, name, size, soFar) && 0 < |rest| <= BLOCK_MAX && |soFar| + |rest| >= size
    ensures ArrivedWhole(Across(ack, s, fed, rest), s.spool, name, soFar + rest)
  {
    DriveFirstChunk(ack, s, fed, rest, true);
    assert rest[..|rest|] == rest && rest[|rest|..] == [];
    LastPartArrives(ack, s, name, size, soFar, rest);
    DriveNothing(ack, Receive(ack, s, Data(rest)).next, fed + [Data(rest)]);
  }

  /** A size too small: the file is closed before its last block, which is then refused. */
  lemma ClosedTooSoon(ack: seq<byte>, s: Inbound, fed: seq<RawBlock>, name: string, size: nat, soFar: seq<byte>,
      rest: seq<byte>)
    requires AckFits(ack) && Awaiting(s, name, size, soFar) && |rest| > BLOCK_MAX && |soFar| + BLOCK_MAX >= size
    ensures Across(ack, s, fed, rest).exit == Error
  {
    var first, more := rest[..BLOCK_MAX], rest[BLOCK_MAX..];
    DriveFirstChunk(ack, s, fed, rest, true);
    LastPartArrives(ack, s, name, size, soFar, first);
    DriveFirstChunk(ack, Receive(ack, s, Data(first)).next, fed + [Data(first)], more, true);
  }

  /** A size too large: the stream ends and the file is still open. */
  lemma NeverClosed(ack: seq<byte>, s: Inbound, fed: seq<RawBlock>, name: string, size: nat, soFar: seq<byte>,
      rest: seq<byte>)
    requires Awaiting(s, name, size, soFar) && 0 < |rest| <= BLOCK_MAX && |soFar| + |rest| < size
    ensures Across(ack, s, fed, rest).session.receiving.Some?
  {
    DriveFirstChunk(ack, s, fed, rest, true);
    assert rest[..|rest|] == rest && rest[|rest|..] == [];
    PartArrives(ack, s, name, size, soFar, rest);
    DriveNothing(ack, Receive(ack, s, Data(rest)).next, fed + [Data(rest)]);
  }

  /**
   A file arrives. What `StreamFile` cuts into blocks, the pump on the other
   side appends back to the same bytes, and the file is complete with the last
   block: announced with its true size, from any point of its transfer on.
   */
  lemma {:induction false} FileArrives(ack: seq<byte>, s: Inbound, fed: seq<RawBlock>, name: string, soFar: seq<byte>,
      rest: seq<byte>)
    requires AckFits(ack) && rest != [] && Awaiting(s, name, |soFar| + |rest|, soFar)
    ensures ArrivedWhole(Across(ack, s, fed, rest), s.spool, name, soFar + rest)
    decreases |rest|
  {
    hide Drive, Streamed, Chunks;
    var size := |soFar| + |rest|;
    if |rest| <= BLOCK_MAX {
      LastChunk(ack, s, fed, name, size, soFar, rest);
    } else {
      var next, fed' := MiddleChunk(ack, s, fed, name, size, soFar, rest);
      assert soFar + rest[..BLOCK_MAX] + rest[BLOCK_MAX..] == soFar + rest;
      FileArrives(ack, next, fed', name, soFar + rest[..BLOCK_MAX], rest[BLOCK_MAX..]);
      ArrivedFromLater(Across(ack, s, fed, rest), s.spool, name, soFar + rest[..BLOCK_MAX], soFar + rest);
    }
  }

  /** The announcement opens an empty file, and completes it at once when the size is zero. */
  lemma AnnouncementOpens(s: Inbound, name: string, size: nat, ack: seq<byte>)
    requires s.receiving.None? && SpoolOk(s.spool) && AckFits(ack)
    ensures var (receiving, actions) := OnFile(s, name, size, ack);
      var p := PerformAll(map[], s.spool, actions);
      && p.verdict.More? && p.spool.files == s.spool.files[name := []]
      && (size > 0 ==> Awaiting(Inbound(receiving, p.spool), name, size, []) && p.spool.received == s.spool.received)
      && (size == 0 ==> receiving.None? && p.spool.open.None? && p.spool.received == s.spool.received + [name])
  {
    var begun := s.spool.(open := Some(name), files := s.spool.files[name := []]);
    if size == 0 {
      var actions := [ExpectFile(name), SendCommand(M_GOT, ack), FileComplete];
      assert actions[1..] == [SendCommand(M_GOT, ack), FileComplete];
      assert actions[1..][1..] == [FileComplete];
      assert actions[1..][1..][1..] == [];
      var acked := begun.(wire := begun.wire + Encode(Command(M_GOT, ack)).value);
      assert PerformAll(map[], acked, [FileComplete])
          == Performed(acked.(open := None, received := acked.received + [name]), More);
      assert PerformAll(map[], begun, actions[1..]) == PerformAll(map[], acked, [FileComplete]);
    } else {
      var actions := [ExpectFile(name)];
      assert actions[1..] == [];
    }
  }

  /**
   The announced size is only compared at the end of a block, so a file of
   `rest` more bytes also arrives whole, with nothing left over, under some
   wrong sizes: exactly those that fall within its last block.
   */
  lemma {:induction false} ArrivesExactlyWhen(ack: seq<byte>, s: Inbound, fed: seq<RawBlock>, name: string, size: nat,
                                              soFar: seq<byte>, rest: seq<byte>)
    requires AckFits(ack) && rest != [] && Awaiting(s, name, size, soFar) && |soFar| < size
    ensures var r := Across(ack, s, fed, rest);
      (r.exit == PeerClosed && r.session.receiving == None)
      <==> |soFar| + (|rest| - 1) / BLOCK_MAX * BLOCK_MAX < size <= |soFar| + |rest|
    decreases |rest|
  {
    if |rest| <= BLOCK_MAX {
      if |soFar| + |rest| >= size {
        LastChunk(ack, s, fed, name, size, soFar, rest);
      } else {
        NeverClosed(ack, s, fed, name, size, soFar, rest);
      }
    } else {
      assert (|rest| - 1) / BLOCK_MAX == (|rest| - BLOCK_MAX - 1) / BLOCK_MAX + 1;
      if |soFar| + BLOCK_MAX >= size {
        ClosedTooSoon(ack, s, fed, name, size, soFar, rest);
      } else {
        var next, fed' := MiddleChunk(ack, s, fed, name, size, soFar, rest);
        ArrivesExactlyWhen(ack, next, fed', name, size, soFar + rest[..BLOCK_MAX], rest[BLOCK_MAX..]);
      }
    }
  }
}
