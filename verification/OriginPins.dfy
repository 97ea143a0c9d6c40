/**
 The trusted origin-key registry (`apps/server/src/fed_flood.rs`): a bounded
 bijection between origins and keys, written to its file before readers see it.
 The JSON text of the file is taken to decode to what was encoded.
 */
module OriginPins {
  import opened Base
  import opened Hex
  import opened Names

  type Key = b: seq<byte> | |b| == 32 witness seq(32, i => 0)

  datatype Trust = DirectPeer | Operator

  datatype TrustedKey = TrustedKey(key: Key, trust: Trust)

  type Pins = map<string, TrustedKey>

  datatype PersistedPin = PersistedPin(key: string, trust: Trust)

  /** What the pin file holds. Anything but the versioned shape fails to decode. */
  datatype PinFile = Missing | Undecodable | PinFile(version: nat, origins: map<string, PersistedPin>)

  const MAX_ORIGINS := 4096
  const PIN_FILE_VERSION := 2

  function KeyOf(pin: PersistedPin): Option<Key> {
    match Decode(pin.key)
    case Some(bytes) => if |bytes| == 32 then Some(bytes) else None
    case None => None
  }

  /** Valid names, one key each, no key twice, within the bound. */
  predicate Registry(m: Pins) {
    && |m| <= MAX_ORIGINS
    && (forall o :: o in m ==> ValidServerName(o))
    && forall o, p :: o in m && p in m && m[o].key == m[p].key ==> o == p
  }

  predicate EntriesOk(origins: map<string, PersistedPin>) {
    && (forall o :: o in origins ==> ValidServerName(o) && KeyOf(origins[o]).Some?)
    && forall o, p :: o in origins && p in origins && KeyOf(origins[o]) == KeyOf(origins[p]) ==> o == p
  }

  predicate FileOk(f: PinFile) {
    f.PinFile? && f.version == PIN_FILE_VERSION && |f.origins| <= MAX_ORIGINS && EntriesOk(f.origins)
  }

  /** `read_pins`: all of the file or none of it. */
  function ReadPins(f: PinFile): (m: Pins)
    ensures Registry(m)
  {
    if !FileOk(f) then map[]
    else
      var m := map o | o in f.origins :: TrustedKey(KeyOf(f.origins[o]).value, f.origins[o].trust);
      assert m.Keys == f.origins.Keys;
      assert |m| == |m.Keys| && |f.origins| == |f.origins.Keys|;
      m
  }

  /** What a boot starts from: a file that cannot be read counts as an empty one, and stays where it is. */
  function Loaded(f: PinFile, readOk: bool): Pins {
    if readOk then ReadPins(f) else map[]
  }

  function Persisted(m: Pins): PinFile {
    PinFile(PIN_FILE_VERSION, map o | o in m :: PersistedPin(Encode(m[o].key), m[o].trust))
  }

  lemma PersistedKeys(m: Pins)
    ensures Persisted(m).origins.Keys == m.Keys && |Persisted(m).origins| == |m|
    ensures forall o :: o in m ==> KeyOf(Persisted(m).origins[o]) == Some(m[o].key)
  {
    var f := Persisted(m);
    assert f.origins.Keys == m.Keys;
    assert |m| == |m.Keys| && |f.origins| == |f.origins.Keys|;
    forall o | o in m
      ensures KeyOf(f.origins[o]) == Some(m[o].key)
    {
      DecodeEncode(m[o].key);
    }
  }

  /** Round trip: every registry is read back exactly as it was written. */
  lemma ReadPersisted(m: Pins)
    requires Registry(m)
    ensures FileOk(Persisted(m)) && ReadPins(Persisted(m)) == m
  {
    hide KeyOf, ValidServerName;
    PersistedKeys(m);
  }

  // ---- the imperative registry ---------------------------------------------------------

  datatype Outcome = Inserted | Existing | BadName | OriginTaken | KeyTaken | Full | WriteFailed

  /** What one `trust` does: the readers' map, the file and the answer. */
  function Trusted(m: Pins, f: PinFile, origin: string, key: Key, trust: Trust, writeOk: bool)
      : (Pins, PinFile, Outcome)
  {
    if !ValidServerName(origin) then (m, f, BadName)
    else if origin in m then (m, f, if m[origin].key == key then Existing else OriginTaken)
    else if exists o :: o in m && m[o].key == key then (m, f, KeyTaken)
    else if |m| >= MAX_ORIGINS then (m, f, Full)
    else if !writeOk then (m, f, WriteFailed)
    else
      var next := m[origin := TrustedKey(key, trust)];
      (next, Persisted(next), Inserted)
  }

  class FloodState {
    /** What readers resolve against. */
    var origins: Pins
    /** The pin file. */
    var file: PinFile

    constructor (file: PinFile, readOk: bool)
      ensures this.file == file && origins == Loaded(file, readOk)
    {
      var loaded := ReadPinFile(file, readOk);
      origins, this.file := loaded, file;
    }

    /** `persist_pins`: a temporary file renamed over the old one, or the old one untouched. */
    method PersistPins(m: Pins, writeOk: bool) returns (ok: bool)
      modifies this`file
      ensures ok == writeOk
      ensures file == if writeOk then Persisted(m) else old(file)
    {
      hide Encode;
      var records: map<string, PersistedPin> := map[];
      var todo := m.Keys;
      while todo != {}
        invariant todo <= m.Keys
        invariant records == map o | o in m && o !in todo :: PersistedPin(Encode(m[o].key), m[o].trust)
        decreases todo
      {
        var o :| o in todo;
        records := records[o := PersistedPin(Encode(m[o].key), m[o].trust)];
        todo := todo - {o};
      }
      if writeOk {
        assert PinFile(PIN_FILE_VERSION, records) == Persisted(m);
        file := PinFile(PIN_FILE_VERSION, records);
      }
      ok := writeOk;
    }

    /** `trust`: persisted before it is published. */
    method Trust(origin: string, key: Key, trust: Trust, writeOk: bool) returns (outcome: Outcome)
      modifies this
      ensures (origins, file, outcome) == Trusted(old(origins), old(file), origin, key, trust, writeOk)
    {
      if !ValidServerName(origin) {
        return BadName;
      }
      var next := origins;
      if origin in next {
        return if next[origin].key == key then Existing else OriginTaken;
      }
      var claimed := FindKey(next, key);
      if claimed.Some? {
        return KeyTaken;
      }
      if |next| >= MAX_ORIGINS {
        return Full;
      }
      next := next[origin := TrustedKey(key, trust)];
      var ok := PersistPins(next, writeOk);
      if !ok {
        return WriteFailed;
      }
      origins := next;
      return Inserted;
    }

    method Resolve(origin: string) returns (key: Option<Key>)
      ensures key == if origin in origins then Some(origins[origin].key) else None
    {
      return if origin in origins then Some(origins[origin].key) else None;
    }
  }

  method FindKey(m: Pins, key: Key) returns (claimed: Option<string>)
    ensures claimed.Some? ==> claimed.value in m && m[claimed.value].key == key
    ensures claimed.None? ==> forall o :: o in m ==> m[o].key != key
  {
    var todo := m.Keys;
    while todo != {}
      invariant todo <= m.Keys
      invariant forall o :: o in m && o !in todo ==> m[o].key != key
      decreases todo
    {
      var o :| o in todo;
      if m[o].key == key {
        return Some(o);
      }
      todo := todo - {o};
    }
    return None;
  }

  /** `read_pins`: entries are taken one at a time, and the first bad one empties the result. */
  method ReadPinFile(f: PinFile, readOk: bool) returns (loaded: Pins)
    ensures loaded == Loaded(f, readOk)
  {
    hide ValidServerName, Decode;
    if !readOk {
      return map[];
    }
    if !f.PinFile? || f.version != PIN_FILE_VERSION || |f.origins| > MAX_ORIGINS {
      return map[];
    }
    loaded := map[];
    var todo := f.origins.Keys;
    while todo != {}
      invariant todo <= f.origins.Keys
      invariant loaded.Keys == f.origins.Keys - todo
      invariant forall o :: o in loaded ==>
        ValidServerName(o) && KeyOf(f.origins[o]) == Some(loaded[o].key) && f.origins[o].trust == loaded[o].trust
      invariant forall o, p :: o in loaded && p in loaded && loaded[o].key == loaded[p].key ==> o == p
      decreases todo
    {
      var o :| o in todo;
      var key := KeyOf(f.origins[o]);
      if key.None? {
        return map[];
      }
      var taken := FindKey(loaded, key.value);
      if !ValidServerName(o) || taken.Some? {
        return map[];
      }
      loaded := loaded[o := TrustedKey(key.value, f.origins[o].trust)];
      todo := todo - {o};
    }
  }

  // ---- runs ------------------------------------------------------------------------------

  /**
   How a `trust` call ends: it returns, or the process dies before or after the
   rename; `readOk` tells whether the boot that follows can read the file.
   */
  datatype End = Returns(writeOk: bool) | DiesBeforeRename(readOk: bool) | DiesAfterRename(readOk: bool)

  datatype Step = Trust(origin: string, key: Key, trust: Trust, end: End) | Restart(readOk: bool)

  datatype State = State(pins: Pins, file: PinFile)

  function Boot(f: PinFile, readOk: bool): State {
    State(Loaded(f, readOk), f)
  }

  function Next(s: State, step: Step): State {
    match step
    case Restart(readOk) => Boot(s.file, readOk)
    case Trust(origin, key, trust, Returns(ok)) =>
      var (pins, file, _) := Trusted(s.pins, s.file, origin, key, trust, ok);
      State(pins, file)
    case Trust(_, _, _, DiesBeforeRename(readOk)) => Boot(s.file, readOk)
    case Trust(origin, key, trust, DiesAfterRename(readOk)) =>
      var (_, file, _) := Trusted(s.pins, s.file, origin, key, trust, true);
      Boot(file, readOk)
  }

  function After(s: State, steps: seq<Step>): State {
    if |steps| == 0 then s else Next(After(s, steps[..|steps| - 1]), steps[|steps| - 1])
  }

  predicate Extends(a: Pins, b: Pins) {
    forall o :: o in a ==> o in b && b[o] == a[o]
  }

  /** What readers see is a registry, and a reload would show all of it. */
  predicate Durable(s: State) {
    Registry(s.pins) && Extends(s.pins, ReadPins(s.file))
  }

  lemma AddedPin(m: Pins, origin: string, pin: TrustedKey)
    requires Registry(m) && ValidServerName(origin) && origin !in m && |m| < MAX_ORIGINS
    requires forall o :: o in m ==> m[o].key != pin.key
    ensures Registry(m[origin := pin]) && ReadPins(Persisted(m[origin := pin])) == m[origin := pin]
  {
    var m' := m[origin := pin];
    assert m'.Keys == m.Keys + {origin};
    assert |m'| == |m'.Keys| && |m| == |m.Keys|;
    ReadPersisted(m');
  }

  lemma TrustKeepsRegistry(m: Pins, f: PinFile, origin: string, key: Key, trust: Trust, ok: bool)
    requires Registry(m)
    ensures var t := Trusted(m, f, origin, key, trust, ok);
      && (t.2 == Inserted ==> Registry(t.0) && Extends(m, t.0) && ReadPins(t.1) == t.0)
      && (t.2 != Inserted ==> t.0 == m && t.1 == f)
  {
    hide FileOk, Persisted, ReadPins, Registry, ValidServerName;
    if Trusted(m, f, origin, key, trust, ok).2 == Inserted {
      AddedPin(m, origin, TrustedKey(key, trust));
    }
  }

  /** The pins the file holds, whether or not the last boot could read them. */
  function Held(s: State): Pins {
    ReadPins(s.file)
  }

  /**
   A new pin is written while the readers miss one that the file holds, other
   than the very one being trusted: the file is replaced without it.
   */
  predicate Overwrites(s: State, step: Step) {
    && step.Trust?
    && (step.end.Returns? ==> step.end.writeOk) && !step.end.DiesBeforeRename?
    && Trusted(s.pins, s.file, step.origin, step.key, step.trust, true).2 == Inserted
    && exists o :: o in Held(s) && o !in s.pins
                   && !(o == step.origin && Held(s)[o] == TrustedKey(step.key, step.trust))
  }

  predicate ReadsItsFile(step: Step) {
    match step
    case Restart(readOk) => readOk
    case Trust(_, _, _, end) => end.Returns? || end.readOk
  }

  lemma BootDurable(f: PinFile, readOk: bool)
    ensures Durable(Boot(f, readOk))
    ensures readOk ==> Boot(f, readOk).pins == Held(Boot(f, readOk))
  {
    assert Registry(map[]);
  }

  lemma NextDurable(s: State, step: Step)
    requires Durable(s)
    ensures Durable(Next(s, step))
    ensures Overwrites(s, step) <==> !Extends(Held(s), Held(Next(s, step)))
    ensures ReadsItsFile(step) && s.pins == Held(s) ==> Next(s, step).pins == Held(Next(s, step))
  {
    hide FileOk, Persisted, ReadPins, Registry, ValidServerName, Encode, Decode;
    if step.Trust? {
      var ok := if step.end.Returns? then step.end.writeOk else step.end.DiesAfterRename?;
      var t := Trusted(s.pins, s.file, step.origin, step.key, step.trust, ok);
      TrustKeepsRegistry(s.pins, s.file, step.origin, step.key, step.trust, ok);
      if step.end.Returns? {
        assert Next(s, step) == State(t.0, t.1);
      } else {
        BootDurable(t.1, step.end.readOk);
      }
    } else {
      BootDurable(s.file, step.readOk);
    }
  }

  lemma {:induction false} RunDurable(s: State, steps: seq<Step>)
    requires Durable(s)
    ensures Durable(After(s, steps))
  {
    if |steps| > 0 {
      RunDurable(s, steps[..|steps| - 1]);
      NextDurable(After(s, steps[..|steps| - 1]), steps[|steps| - 1]);
    }
  }

  /** No step from the `i`th up to the `j`th overwrites. */
  predicate NoneOverwrites(s: State, steps: seq<Step>, i: nat, j: nat)
    requires j <= |steps|
  {
    forall k :: i <= k < j ==> !Overwrites(After(s, steps[..k]), steps[k])
  }

  /** Every pin the file holds after `i` steps, it holds unchanged after `j`. */
  predicate Keeps(s: State, steps: seq<Step>, i: nat, j: nat)
    requires i <= |steps| && j <= |steps|
  {
    Extends(Held(After(s, steps[..i])), Held(After(s, steps[..j])))
  }

  lemma {:induction false} KeepsOneStep(s: State, steps: seq<Step>, k: nat)
    requires Durable(s) && k < |steps|
    ensures Overwrites(After(s, steps[..k]), steps[k]) <==> !Keeps(s, steps, k, k + 1)
  {
    hide Durable, Overwrites, Extends, Held, Next;
    RunDurable(s, steps[..k]);
    NextDurable(After(s, steps[..k]), steps[k]);
    assert steps[..k + 1][..k] == steps[..k];
  }

  lemma {:induction false} KeepsOn(s: State, steps: seq<Step>, i: nat, j: nat)
    requires Durable(s) && i <= j <= |steps| && NoneOverwrites(s, steps, i, j)
    ensures Keeps(s, steps, i, j)
    decreases j
  {
    hide Durable, Overwrites, Held, After;
    if i < j {
      KeepsOn(s, steps, i, j - 1);
      KeepsOneStep(s, steps, j - 1);
    }
  }

  /**
   Nothing that was once pinned on disk is ever dropped or rebound, exactly
   when no pin is written over a file holding one the last boot did not read.
   */
  lemma {:induction false} PinsKeptExactlyWhen(file: PinFile, readOk: bool, steps: seq<Step>)
    ensures (forall i, j :: 0 <= i <= j <= |steps| ==> Keeps(Boot(file, readOk), steps, i, j))
       <==> NoneOverwrites(Boot(file, readOk), steps, 0, |steps|)
  {
    hide Durable, Overwrites, Keeps, After, Boot;
    var start := Boot(file, readOk);
    BootDurable(file, readOk);
    if NoneOverwrites(start, steps, 0, |steps|) {
      forall i, j | 0 <= i <= j <= |steps|
        ensures Keeps(start, steps, i, j)
      {
        KeepsOn(start, steps, i, j);
      }
    } else {
      var k :| 0 <= k < |steps| && Overwrites(After(start, steps[..k]), steps[k]);
      KeepsOneStep(start, steps, k);
    }
  }

  /** No origin is seen under two keys. */
  predicate Agree(a: Pins, b: Pins) {
    forall o :: o in a && o in b ==> a[o] == b[o]
  }

  /**
   From whatever the file held at boot, through every run of trusts, failed
   writes, deaths around the rename and restarts, readable or not: the registry
   is a bounded bijection and readers never see a pin the file does not hold.
   Unless something is overwritten in between, later readers see no origin
   under another key than earlier ones did, and miss none if they see all of
   the file.
   */
  lemma {:induction false} RegistryOnlyGrows(file: PinFile, readOk: bool, steps: seq<Step>, i: nat, j: nat)
    requires i <= j <= |steps|
    ensures var start := Boot(file, readOk);
      var now, later := After(start, steps[..i]), After(start, steps[..j]);
      && Durable(now) && Durable(later)
      && (NoneOverwrites(start, steps, i, j) ==>
            Agree(now.pins, later.pins) && (later.pins == Held(later) ==> Extends(now.pins, later.pins)))
  {
    hide Registry, ReadPins, NoneOverwrites, After;
    var start := Boot(file, readOk);
    BootDurable(file, readOk);
    RunDurable(start, steps[..i]);
    RunDurable(start, steps[..j]);
    if NoneOverwrites(start, steps, i, j) {
      KeepsOn(start, steps, i, j);
    }
  }

  /** While every boot reads its file, readers see all that it holds, and nothing is ever overwritten. */
  lemma {:induction false} ReadableRunsHideNothing(file: PinFile, steps: seq<Step>)
    requires forall step :: step in steps ==> ReadsItsFile(step)
    ensures After(Boot(file, true), steps).pins == Held(After(Boot(file, true), steps))
    ensures forall step :: !Overwrites(After(Boot(file, true), steps), step)
  {
    if |steps| > 0 {
      var start, before := Boot(file, true), steps[..|steps| - 1];
      BootDurable(file, true);
      ReadableRunsHideNothing(file, before);
      RunDurable(start, before);
      NextDurable(After(start, before), steps[|steps| - 1]);
    }
  }

  lemma FirstPin(f: PinFile, key: Key)
    ensures var pins: Pins := map["o" := TrustedKey(key, DirectPeer)];
      && Trusted(map[], f, "o", key, DirectPeer, true) == (pins, Persisted(pins), Inserted)
      && ReadPins(Persisted(pins)) == pins
  {
    hide Persisted, ReadPins;
    assert ValidServerName("o");
    assert Registry(map[]);
    TrustKeepsRegistry(map[], f, "o", key, DirectPeer, true);
  }

  lemma MissingIsEmpty()
    ensures Boot(Missing, true) == State(map[], Missing)
  {
  }

  /** An unreadable boot in between, and an origin pinned to one key is pinned to another. */
  lemma {:induction false} UnreadableBootRebinds(a: Key, b: Key)
    requires a != b
    ensures var first, second := Trust("o", a, DirectPeer, Returns(true)), Trust("o", b, DirectPeer, Returns(true));
      var steps := [first, Restart(false), second];
      && After(Boot(Missing, true), steps[..1]).pins == map["o" := TrustedKey(a, DirectPeer)]
      && Overwrites(After(Boot(Missing, true), steps[..2]), second)
      && After(Boot(Missing, true), steps).pins == map["o" := TrustedKey(b, DirectPeer)]
  {
    hide Persisted, ReadPins, Trusted;
    var first, second := Trust("o", a, DirectPeer, Returns(true)), Trust("o", b, DirectPeer, Returns(true));
    var steps := [first, Restart(false), second];
    var pins: Pins := map["o" := TrustedKey(a, DirectPeer)];
    assert steps[..1][..0] == [] && steps[..2][..1] == steps[..1];
    FirstPin(Missing, a);
    MissingIsEmpty();
    assert After(Boot(Missing, true), steps[..1]) == State(pins, Persisted(pins));
    assert After(Boot(Missing, true), steps[..2]) == State(map[], Persisted(pins));
    FirstPin(Persisted(pins), b);
    assert "o" in Held(State(map[], Persisted(pins)));
  }

  /** A pin is refused for exactly one of these reasons, and a refusal changes nothing. */
  lemma InsertedExactlyWhen(m: Pins, f: PinFile, origin: string, key: Key, trust: Trust, ok: bool)
    requires Registry(m)
    ensures var (m', f', outcome) := Trusted(m, f, origin, key, trust, ok);
      && (outcome == Inserted <==>
            ok && ValidServerName(origin) && origin !in m && (forall o :: o in m ==> m[o].key != key)
                && |m| < MAX_ORIGINS)
      && (outcome == Inserted || outcome == Existing <==> origin in m' && m'[origin].key == key)
      && (outcome != Inserted ==> m' == m && f' == f)
  {
    assert origin in m ==> ValidServerName(origin);
  }

  /** One bad entry anywhere voids the file: what loads is everything or nothing. */
  lemma OneBadEntryVoidsTheFile(f: PinFile, o: string)
    requires f.PinFile? && o in f.origins
    requires !ValidServerName(o) || KeyOf(f.origins[o]).None?
             || exists p :: p in f.origins && p != o && KeyOf(f.origins[p]) == KeyOf(f.origins[o])
    ensures ReadPins(f) == map[]
  {
  }
}
