/**
 The generation chain of the burrow's own catalog (`local_catalog` in
 `apps/server/src/fed_catalog.rs`): reused while the listing is the same,
 superseded by the next generation when it changes, and persisted as best it
 can. Collecting the listing happens before the lock and is a parameter.
 A catalog's id is the catalog: ids are content hashes.
 */
module LocalCatalog {
  import opened Base

  datatype Catalog = Catalog(generation: nat, prev: Option<Catalog>, listing: nat)

  /** The write replaces the file in place: it may fail before or after cutting the old one off. */
  datatype WriteEnd = Written | Kept | Torn

  /** `file` is the persisted copy, if there is one that verifies. */
  datatype State = State(current: Option<Catalog>, file: Option<Catalog>)

  function Successor(current: Option<Catalog>, listing: nat): Catalog {
    match current
    case None => Catalog(1, None, listing)
    case Some(prev) => Catalog(prev.generation + 1, Some(prev), listing)
  }

  function Persisted(before: Option<Catalog>, c: Catalog, end: WriteEnd): Option<Catalog> {
    match end
    case Written => Some(c)
    case Kept => before
    case Torn => None
  }

  function Asked(s: State, listing: nat, end: WriteEnd): (State, Catalog) {
    if s.current.Some? && s.current.value.listing == listing then (s, s.current.value)
    else
      var c := Successor(s.current, listing);
      (State(Some(c), Persisted(s.file, c, end)), c)
  }

  function Booted(file: Option<Catalog>, readOk: bool): State {
    State(if readOk then file else None, file)
  }

  class Local {
    var current: Option<Catalog>
    var file: Option<Catalog>

    /** Boot: the persisted catalog, or nothing if it is missing or cannot be read. */
    constructor (file: Option<Catalog>, readOk: bool)
      ensures Now() == Booted(file, readOk)
    {
      current, this.file := if readOk then file else None, file;
    }

    function Now(): State
      reads this
    {
      State(current, file)
    }

    method LocalCatalog(listing: nat, end: WriteEnd) returns (c: Catalog)
      modifies this
      ensures (Now(), c) == Asked(old(Now()), listing, end)
    {
      if current.Some? && current.value.listing == listing {
        return current.value;
      }
      var generation, prev := 1, None;
      if current.Some? {
        generation, prev := current.value.generation + 1, Some(current.value);
      }
      c := Catalog(generation, prev, listing);
      if end.Written? {
        file := Some(c);
      } else if end.Torn? {
        file := None;
      }
      current := Some(c);
    }
  }

  datatype Step = Ask(listing: nat, end: WriteEnd) | Restart(readOk: bool)

  function Next(s: State, step: Step): State {
    match step
    case Ask(listing, end) => Asked(s, listing, end).0
    case Restart(readOk) => Booted(s.file, readOk)
  }

  function After(steps: seq<Step>): State {
    if |steps| == 0 then State(None, None) else Next(After(steps[..|steps| - 1]), steps[|steps| - 1])
  }

  /** Generations count up by one along the links, from one. */
  predicate Chained(c: Catalog)
    decreases c
  {
    match c.prev
    case None => c.generation == 1
    case Some(p) => c.generation == p.generation + 1 && Chained(p) && c.listing != p.listing
  }

  /** `a` is `c` or a catalog that `c` supersedes. */
  predicate Supersedes(c: Catalog, a: Catalog)
    decreases c
  {
    c == a || (c.prev.Some? && Supersedes(c.prev.value, a))
  }

  lemma {:induction false} OlderGeneration(c: Catalog, a: Catalog)
    requires Chained(c) && Supersedes(c, a)
    ensures Chained(a) && a.generation <= c.generation && (a.generation == c.generation ==> a == c)
    decreases c
  {
    if c != a {
      OlderGeneration(c.prev.value, a);
    }
  }

  lemma {:induction false} BothChained(steps: seq<Step>)
    ensures After(steps).current.Some? ==> Chained(After(steps).current.value)
    ensures After(steps).file.Some? ==> Chained(After(steps).file.value)
  {
    if |steps| > 0 {
      BothChained(steps[..|steps| - 1]);
    }
  }

  /** What is on disk is what is shown, or superseded by it. */
  predicate OnOneChain(s: State) {
    s.file.Some? ==> s.current.Some? && Supersedes(s.current.value, s.file.value)
  }

  /** A boot that cannot read the catalog on disk. */
  predicate BootsBlind(s: State, step: Step) {
    step.Restart? && !step.readOk && s.file.Some?
  }

  lemma {:induction false} StepStaysOnChain(steps: seq<Step>)
    requires |steps| > 0 && OnOneChain(After(steps[..|steps| - 1]))
    ensures OnOneChain(After(steps)) <==> !BootsBlind(After(steps[..|steps| - 1]), steps[|steps| - 1])
  {
  }

  lemma {:induction false} StaysOnChain(steps: seq<Step>, j: nat)
    requires j <= |steps| && forall i :: 0 <= i < j ==> !BootsBlind(After(steps[..i]), steps[i])
    ensures OnOneChain(After(steps[..j]))
  {
    hide BootsBlind, Next;
    if j > 0 {
      StaysOnChain(steps, j - 1);
      assert steps[..j][..j - 1] == steps[..j - 1];
      StepStaysOnChain(steps[..j]);
    }
  }

  /**
   What is shown and what is on disk are links of one chain at every moment of
   a run of rebuilds, bad writes and restarts, exactly when no boot fails to
   read a catalog that is there.
   */
  lemma {:induction false} OneChainExactlyWhen(steps: seq<Step>)
    ensures (forall i :: 0 <= i <= |steps| ==> OnOneChain(After(steps[..i])))
       <==> (forall i :: 0 <= i < |steps| ==> !BootsBlind(After(steps[..i]), steps[i]))
  {
    hide OnOneChain, BootsBlind, After;
    if forall i :: 0 <= i < |steps| ==> !BootsBlind(After(steps[..i]), steps[i]) {
      forall i | 0 <= i <= |steps|
        ensures OnOneChain(After(steps[..i]))
      {
        StaysOnChain(steps, i);
      }
    } else {
      var i :| 0 <= i < |steps| && BootsBlind(After(steps[..i]), steps[i]);
      if OnOneChain(After(steps[..i])) {
        assert steps[..i + 1][..i] == steps[..i];
        StepStaysOnChain(steps[..i + 1]);
        assert !OnOneChain(After(steps[..i + 1]));
      }
    }
  }

  /**
   While the server stays up, a changed listing supersedes what peers were shown
   before, by exactly one generation.
   */
  lemma {:induction false} ChangedListingSupersedes(steps: seq<Step>, listing: nat, end: WriteEnd)
    requires After(steps).current.Some? && After(steps).current.value.listing != listing
    ensures var shown, c := After(steps).current.value, Asked(After(steps), listing, end).1;
      Chained(c) && c.prev == Some(shown) && c.generation == shown.generation + 1 && Supersedes(c, shown)
  {
    BothChained(steps);
  }

  /** Generations go on rising over a restart: every changed listing gets one not shown before. */
  ghost predicate Continues(s: State, readOk: bool)
    requires s.current.Some?
  {
    forall listing, end :: s.file.None? || s.file.value.listing != listing ==>
      Asked(Booted(s.file, readOk), listing, end).1.generation > s.current.value.generation
  }

  /**
   The chain survives a restart exactly when the boot reads a file that is not
   behind what was shown, which on one chain means it is the last catalog
   shown. The write is only a best effort: after one that failed, a restarted
   burrow reissues a generation its peers have already seen.
   */
  lemma {:induction false} RestartContinuesExactlyWhen(steps: seq<Step>, readOk: bool)
    requires After(steps).current.Some?
    ensures var s := After(steps);
      && (Continues(s, readOk) <==>
            readOk && s.file.Some? && s.file.value.generation >= s.current.value.generation)
      && (OnOneChain(s) ==> (Continues(s, readOk) <==> readOk && s.file == s.current))
  {
    var s := After(steps);
    BothChained(steps);
    assert s.current.value.generation >= 1;
    if s.file.Some? && Supersedes(s.current.value, s.file.value) {
      OlderGeneration(s.current.value, s.file.value);
    }
    var listing := if s.file.Some? then s.file.value.listing + 1 else 0;
    var c := Asked(Booted(s.file, readOk), listing, Written).1;
    assert Continues(s, readOk) ==> c.generation > s.current.value.generation;
  }

  /** Such a run: the second catalog is shown but not written, and after the restart its generation is issued again. */
  lemma {:induction false} GenerationReissued()
    ensures var steps := [Ask(0, Written), Ask(1, Kept)];
      var first := Catalog(1, None, 0);
      && After(steps) == State(Some(Catalog(2, Some(first), 1)), Some(first))
      && Asked(Next(After(steps), Restart(true)), 2, Written).1 == Catalog(2, Some(first), 2)
  {
    var steps := [Ask(0, Written), Ask(1, Kept)];
    assert steps[..1] == [Ask(0, Written)] && steps[..1][..0] == [];
    assert After(steps[..1][..0]) == State(None, None);
    assert After(steps[..1]) == State(Some(Catalog(1, None, 0)), Some(Catalog(1, None, 0)));
  }
}
