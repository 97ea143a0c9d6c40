/**
 The path rules of a snapshot manifest (`apps/server/src/backup.rs`), on Unix
 path syntax: a manifest name is slash-separated, and only plain components
 may be followed on disk.
 */
module BackupPaths {
  import opened Base

  /** A path below some directory: its components, outermost first. */
  type Path = seq<string>

  predicate Normal(part: string) {
    part != "" && part != "." && part != ".." && '/' !in part
  }

  predicate NormalPath(p: Path) {
    p != [] && forall part :: part in p ==> Normal(part)
  }

  /** The text between slashes; there is always at least one piece. */
  function Split(s: string): (pieces: seq<string>)
    ensures pieces != [] && forall part :: part in pieces ==> '/' !in part
  {
    if s == "" then [""]
    else if s[0] == '/' then [""] + Split(s[1..])
    else
      var rest := Split(s[1..]);
      assert forall part :: part in rest[1..] ==> part in rest;
      [[s[0]] + rest[0]] + rest[1..]
  }

  function Join(p: Path): string
    requires p != []
  {
    if |p| == 1 then p[0] else p[0] + "/" + Join(p[1..])
  }

  /** `rel_to_slash` on a path of plain components. */
  function RelToSlash(p: Path): string
    requires NormalPath(p)
  {
    Join(p)
  }

  /** What a path is made of, as `Path::components` tells it. */
  datatype Component = RootDir | CurDir | ParentDir | Part(name: string)

  /** Empty pieces and dots are skipped, but for a dot at the very front of a path without root. */
  function PartsOf(pieces: seq<string>, leading: bool): seq<Component> {
    if pieces == [] then []
    else
      var first :=
        if pieces[0] == "" then []
        else if pieces[0] == "." then (if leading then [CurDir] else [])
        else if pieces[0] == ".." then [ParentDir]
        else [Part(pieces[0])];
      first + PartsOf(pieces[1..], false)
  }

  predicate Rooted(s: string) {
    s != "" && s[0] == '/'
  }

  function Components(s: string): seq<Component> {
    if Rooted(s) then [RootDir] + PartsOf(Split(s), false) else PartsOf(Split(s), true)
  }

  predicate AllPlain(cs: seq<Component>) {
    forall c :: c in cs ==> c.Part?
  }

  function Names(cs: seq<Component>): Path
    requires AllPlain(cs)
  {
    seq(|cs|, i requires 0 <= i < |cs| => assert cs[i] in cs; cs[i].name)
  }

  /** The pieces of a name without the empty ones and the dots. */
  function Kept(pieces: seq<string>): Path {
    if pieces == [] then []
    else (if pieces[0] == "" || pieces[0] == "." then [] else [pieces[0]]) + Kept(pieces[1..])
  }

  /** `safe_rel_path`: refused when empty, or when any component is other than a plain name. */
  function SafeRelPath(s: string): (r: Result<Path>)
    ensures r.Ok? ==> NormalPath(r.value)
  {
    if s == "" || !AllPlain(Components(s)) then Err
    else
      SafeNames(s);
      Ok(Names(Components(s)))
  }

  lemma NamesAppend(a: seq<Component>, b: seq<Component>)
    ensures AllPlain(a + b) <==> AllPlain(a) && AllPlain(b)
    ensures AllPlain(a + b) ==> Names(a + b) == Names(a) + Names(b)
  {
    assert forall c :: c in a + b <==> c in a || c in b;
  }

  lemma {:induction false} PlainParts(pieces: seq<string>, leading: bool)
    requires forall part :: part in pieces ==> '/' !in part
    ensures AllPlain(PartsOf(pieces, leading))
        <==> ".." !in pieces && !(leading && pieces != [] && pieces[0] == ".")
    ensures AllPlain(PartsOf(pieces, leading)) ==>
      && Names(PartsOf(pieces, leading)) == Kept(pieces)
      && forall c :: c in PartsOf(pieces, leading) ==> Normal(c.name)
  {
    if pieces != [] {
      var piece, rest := pieces[0], pieces[1..];
      assert pieces == [piece] + rest;
      PlainParts(rest, false);
      if piece == "" || (piece == "." && !leading) {
        assert PartsOf(pieces, leading) == PartsOf(rest, false);
        assert Kept(pieces) == Kept(rest);
      } else {
        var first := if piece == "." then CurDir else if piece == ".." then ParentDir else Part(piece);
        assert PartsOf(pieces, leading) == [first] + PartsOf(rest, false);
        NamesAppend([first], PartsOf(rest, false));
        assert AllPlain([first]) <==> first.Part? by { assert first in [first]; }
        assert first.Part? ==> Names([first]) == [piece] && Kept(pieces) == [piece] + Kept(rest);
      }
    }
  }

  lemma RootIsNotPlain(s: string)
    requires Rooted(s)
    ensures !AllPlain(Components(s))
  {
    assert Components(s)[0] == RootDir;
    assert RootDir in Components(s);
  }

  lemma SafeNames(s: string)
    requires s != "" && AllPlain(Components(s))
    ensures NormalPath(Names(Components(s)))
  {
    if Rooted(s) {
      RootIsNotPlain(s);
    }
    PlainParts(Split(s), true);
    var cs := Components(s);
    assert cs[0].Part?;
    forall part | part in Names(cs)
      ensures Normal(part)
    {
      var i :| 0 <= i < |cs| && Names(cs)[i] == part;
      assert cs[i] in cs;
    }
  }

  lemma {:induction false} SplitPlain(part: string)
    requires '/' !in part
    ensures Split(part) == [part]
  {
    if part != "" {
      SplitPlain(part[1..]);
      assert part[0] in part && part == [part[0]] + part[1..];
    }
  }

  lemma {:induction false} SplitJoined(part: string, rest: string)
    requires '/' !in part
    ensures Split(part + "/" + rest) == [part] + Split(rest)
  {
    var s := part + "/" + rest;
    if part == "" {
      assert s[1..] == rest;
    } else {
      SplitJoined(part[1..], rest);
      assert part[0] in part && part == [part[0]] + part[1..];
      assert s[1..] == part[1..] + "/" + rest;
      var tail := Split(s[1..]);
      assert tail == [part[1..]] + Split(rest);
      assert Split(s) == [[part[0]] + tail[0]] + tail[1..];
    }
  }

  lemma {:induction false} SplitJoin(p: Path)
    requires p != [] && forall part :: part in p ==> '/' !in part
    ensures Split(Join(p)) == p
  {
    if |p| == 1 {
      SplitPlain(p[0]);
    } else {
      SplitJoin(p[1..]);
      SplitJoined(p[0], Join(p[1..]));
    }
  }

  lemma {:induction false} KeptAll(pieces: seq<string>)
    requires forall part :: part in pieces ==> part != "" && part != "."
    ensures Kept(pieces) == pieces
  {
    if pieces != [] {
      assert pieces[0] in pieces && forall part :: part in pieces[1..] ==> part in pieces;
      KeptAll(pieces[1..]);
    }
  }

  /**
   In terms of the text: a name is refused if and only if it is empty, starts at
   the root or with a dot component, or climbs to a parent anywhere; equivalently,
   unless it has components and all of them are plain. An accepted name is read
   as its remaining pieces, in order.
   */
  lemma RefusedExactlyWhen(s: string)
    ensures SafeRelPath(s).Err? <==> s == "" || s[0] == '/' || Split(s)[0] == "." || ".." in Split(s)
    ensures SafeRelPath(s).Err? <==> Components(s) == [] || !AllPlain(Components(s))
    ensures SafeRelPath(s).Ok? ==> SafeRelPath(s).value == Kept(Split(s))
  {
    if Rooted(s) {
      RootIsNotPlain(s);
    } else {
      PlainParts(Split(s), true);
    }
  }

  /** What the snapshot writes as a name is read back as the same path. */
  lemma SlashRoundTrip(p: Path)
    requires NormalPath(p)
    ensures SafeRelPath(RelToSlash(p)) == Ok(p)
  {
    var s := Join(p);
    SplitJoin(p);
    KeptAll(p);
    assert p[0] in p;
    assert s[0] == p[0][0];
    assert p[0][0] in p[0];
    RefusedExactlyWhen(s);
  }

  // ---- the order of manifest entries -------------------------------------------------

  predicate StrLeq(a: string, b: string) {
    a == "" || (b != "" && (a[0] < b[0] || (a[0] == b[0] && StrLeq(a[1..], b[1..]))))
  }

  lemma {:induction false} StrTotal(a: string, b: string)
    ensures StrLeq(a, b) || StrLeq(b, a)
  {
    if a != "" && b != "" && a[0] == b[0] {
      StrTotal(a[1..], b[1..]);
    }
  }

  lemma {:induction false} StrTransitive(a: string, b: string, c: string)
    requires StrLeq(a, b) && StrLeq(b, c)
    ensures StrLeq(a, c)
  {
    if a != "" && a[0] == b[0] == c[0] {
      StrTransitive(a[1..], b[1..], c[1..]);
    }
  }
}
