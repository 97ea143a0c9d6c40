/**
 A hand revocation is final for everything accepted before it. Once the
 withdrawal of the approval is on disk, no earlier payload is listed again,
 through any later crash, reload and new approval, and even if the cache write
 of that revocation failed and the old payload is still in the cache file.
 */
module CatalogRevocation {
  import opened Base
  import opened CatalogModel
  import opened CatalogRuns

  /** While a revocation waits to be written, its key is unapproved and shows nothing. */
  predicate OpOk(configured: map<Key, Origin>, w: World) {
    w.op.Withdrawn? ==>
      && w.op.key !in configured
      && (w.op.key in w.registry ==> !w.registry[w.op.key].approved)
      && (w.op.key in w.store.peers ==> w.store.peers[w.op.key].signed.None?)
  }

  predicate Unapproved(r: Registry, k: Key) {
    k in r ==> !r[k].approved
  }

  /**
   Everything of `k` up to generation `g` is buried: not visible, below the
   watermark, and if it is still in the cache file then nothing approves `k`
   and no approval of it has passed its flush.
   */
  predicate Buried(configured: map<Key, Origin>, w: World, k: Key, g: int) {
    && k !in configured
    && (k in w.store.peers && w.store.peers[k].signed.Some? ==> w.store.peers[k].signed.value.generation > g)
    && (g >= 0 ==> k in w.store.peers && w.store.peers[k].generation.Some? && w.store.peers[k].generation.value >= g)
    && (InFile(w.store, k, g) ==>
          Unapproved(w.registry, k) && k !in w.approvals && !(w.op.Flushed? && w.op.key == k))
  }

  predicate InFile(s: Store, k: Key, g: int) {
    k in s.disk && s.disk[k].signed.Some? && s.disk[k].signed.value.generation <= g
  }

  /** A write leaves in the file only what is visible. */
  lemma WritesAreClean(s: Store, k: Key, g: int, ok: bool)
    requires k in s.peers && s.peers[k].signed.Some? ==> s.peers[k].signed.value.generation > g
    ensures InFile(Persist(s, ok), k, g) ==> InFile(s, k, g)
    ensures ok && CanEncode(s.peers) ==> !InFile(Persist(s, ok), k, g)
  {
  }

  lemma RevokeBuries(s: Store, key: Key, ok: bool, k: Key, g: int)
    requires k in s.peers && s.peers[k].signed.Some? ==> s.peers[k].signed.value.generation > g
    ensures var s' := RevokePeer(s, key, ok);
      && (k in s'.peers && s'.peers[k].signed.Some? ==> s'.peers[k].signed.value.generation > g)
      && (InFile(s', k, g) ==> InFile(s, k, g))
  {
  }

  lemma IngestBuries(s: Store, r: Registry, f: Fetch, c: SignedCatalog, end: WriteEnd, k: Key, g: int)
    requires StoreOk(s)
    requires k in s.peers && s.peers[k].signed.Some? ==> s.peers[k].signed.value.generation > g
    requires g >= 0 ==> k in s.peers && s.peers[k].generation.Some? && s.peers[k].generation.value >= g
    ensures var s' := Ingest(s, r, f, c, end);
      && (k in s'.peers && s'.peers[k].signed.Some? ==> s'.peers[k].signed.value.generation > g)
      && (InFile(s', k, g) ==> InFile(s, k, g))
  {
    hide FileOk, Over, Trim, Covered, PeerOk;
    if VerifiesUnder(c, f.key) && Admissible(s, r, f, c) {
      NextKeeps(s, r, f, c);
      StoredSurvives(s, r, f, c);
    }
  }

  /** A reboot that reads the cache file lists nothing that only the file remembers. */
  lemma RebootBuries(configured: map<Key, Origin>, w: World, boot: Boot, k: Key, g: int)
    requires FileOk(w.store.disk) && k !in configured && boot.cacheRead
    requires g >= 0 ==> k in w.store.disk && w.store.disk[k].generation >= g
    requires InFile(w.store, k, g) ==> k !in w.approvals
    ensures Buried(configured, Rebooted(w, configured, boot), k, g)
  {
    LoadGives(w.store.(peers := map[]), Rebooted(w, configured, boot).registry);
  }

  lemma DeliverBuries(configured: map<Key, Origin>, w: World, step: Step, k: Key, g: int)
    requires WorldOk(w) && Buried(configured, w, k, g) && step.Deliver? && !BootsBlind(w, step)
    ensures Buried(configured, Next(configured, w, step), k, g)
  {
    hide Sound, Over, RecordOk;
    var f := step.fetch;
    if f in w.issued {
      var mid := w.(store := Ingest(w.store, w.registry, f, step.catalog, step.end), issued := w.issued - {f});
      IngestBuries(w.store, w.registry, f, step.catalog, step.end, k, g);
      IngestOk(w.store, w.registry, f, step.catalog, step.end);
      if step.end.DiesBeforePublishing? {
        RebootBuries(configured, mid, step.end.boot, k, g);
      }
    }
  }

  lemma OperatorBuries(configured: map<Key, Origin>, w: World, step: Step, k: Key, g: int)
    requires WorldOk(w) && Buried(configured, w, k, g)
    requires step.ApproveFlush? || step.ApproveRollback? || step.RevokeStore?
    ensures Buried(configured, Next(configured, w, step), k, g)
  {
    hide FileOk, Sound, Over;
    WritesAreClean(w.store, k, g, true);
    if step.ApproveRollback? && w.op.RollingBack? {
      RevokeBuries(w.store, w.op.key, step.ok, k, g);
      RevokeGrows(w.store, w.op.key, step.ok);
    }
    if step.RevokeStore? {
      RevokeBuries(w.store, step.key, step.ok, k, g);
      RevokeGrows(w.store, step.key, step.ok);
    }
  }

  lemma StepBuries(configured: map<Key, Origin>, w: World, step: Step, k: Key, g: int)
    requires WorldOk(w) && Buried(configured, w, k, g) && !BootsBlind(w, step)
    ensures Buried(configured, Next(configured, w, step), k, g)
  {
    hide FileOk, Sound, Over, Ingest, Load;
    if step.Deliver? {
      DeliverBuries(configured, w, step, k, g);
    } else if step.ApproveFlush? || step.ApproveRollback? || step.RevokeStore? {
      OperatorBuries(configured, w, step, k, g);
    } else if step.Crash? {
      RebootBuries(configured, w, step.boot, k, g);
    }
  }

  /** Some boot of the run cannot read the cache file. */
  ghost predicate SomeBootBlind(configured: map<Key, Origin>, w: World, steps: seq<Step>) {
    exists i :: 0 <= i < |steps| && BootsBlind(After(configured, w, steps[..i]), steps[i])
  }

  lemma {:induction false} EarlierBootBlind(configured: map<Key, Origin>, w: World, steps: seq<Step>)
    requires |steps| > 0
    ensures SomeBootBlind(configured, w, steps[..|steps| - 1]) ==> SomeBootBlind(configured, w, steps)
  {
    hide BootsBlind;
    var before := steps[..|steps| - 1];
    if SomeBootBlind(configured, w, before) {
      var i :| 0 <= i < |before| && BootsBlind(After(configured, w, before[..i]), before[i]);
      assert before[..i] == steps[..i];
    }
  }

  lemma {:induction false} BuriedForever(configured: map<Key, Origin>, w: World, steps: seq<Step>, k: Key, g: int)
    requires WorldOk(w) && Buried(configured, w, k, g) && !SomeBootBlind(configured, w, steps)
    ensures Buried(configured, After(configured, w, steps), k, g)
  {
    hide Buried, WorldOk, Next;
    if |steps| > 0 {
      EarlierBootBlind(configured, w, steps);
      BuriedForever(configured, w, steps[..|steps| - 1], k, g);
      RunOk(configured, w, steps[..|steps| - 1]);
      StepBuries(configured, After(configured, w, steps[..|steps| - 1]), steps[|steps| - 1], k, g);
    }
  }

  /** No fetch of an unapproved key commits. */
  lemma IngestLeavesUnapproved(s: Store, r: Registry, f: Fetch, c: SignedCatalog, end: WriteEnd, k: Key)
    requires StoreOk(s) && Unapproved(r, k) && (k in s.peers ==> s.peers[k].signed.None?)
    ensures k in Ingest(s, r, f, c, end).peers ==> Ingest(s, r, f, c, end).peers[k].signed.None?
  {
    if VerifiesUnder(c, f.key) && Admissible(s, r, f, c) {
      NextKeeps(s, r, f, c);
    }
  }

  lemma BeginLeavesUnapproved(s: Store, r: Registry, key: Key, k: Key)
    requires Unapproved(r, k) && BeginFetch(s, r, key).Some?
    ensures key != k
  {
  }

  lemma StepKeepsOp(configured: map<Key, Origin>, w: World, step: Step)
    requires WorldOk(w) && OpOk(configured, w)
    ensures OpOk(configured, Next(configured, w, step))
  {
    hide FileOk, Sound, Over;
    if w.op.Withdrawn? {
      if step.Deliver? {
        IngestLeavesUnapproved(w.store, w.registry, step.fetch, step.catalog, step.end, w.op.key);
      } else if step.Begin? {
        if BeginFetch(w.store, w.registry, step.key).Some? {
          BeginLeavesUnapproved(w.store, w.registry, step.key, w.op.key);
        }
      }
    }
  }

  lemma {:induction false} RunKeepsOp(configured: map<Key, Origin>, w: World, steps: seq<Step>)
    requires WorldOk(w) && OpOk(configured, w)
    ensures OpOk(configured, After(configured, w, steps))
  {
    if |steps| > 0 {
      RunKeepsOp(configured, w, steps[..|steps| - 1]);
      RunOk(configured, w, steps[..|steps| - 1]);
      StepKeepsOp(configured, After(configured, w, steps[..|steps| - 1]), steps[|steps| - 1]);
    }
  }

  /** The last accepted generation of a key, or -1. */
  function Watermark(s: Store, k: Key): int {
    if k in s.peers && s.peers[k].generation.Some? then s.peers[k].generation.value else -1
  }

  /**
   Revocation survives. In any run, at a moment when a hand revocation of `k`
   gets its approval withdrawal written, everything accepted from `k` so far
   has a generation up to the watermark; and whatever is listed for `k` at any
   later time has a strictly greater one, unless some boot in between could not
   read the cache file and so lost the watermark.
   */
  lemma {:induction false} RevocationSurvives(configured: map<Key, Origin>, w: World, before: seq<Step>,
      more: seq<Step>, k: Key)
    requires WorldOk(w) && w.op.Idle?
    requires After(configured, w, before).op == Withdrawn(k)
    ensures var at := Next(configured, After(configured, w, before), RevokePersist(true));
      var now := After(configured, at, more);
      && k !in Listed(at.store, at.registry)
      && (k in Listed(now.store, now.registry) ==>
            Listed(now.store, now.registry)[k].generation > Watermark(at.store, k)
                || SomeBootBlind(configured, at, more))
  {
    hide FileOk, Sound, Over;
    RunOk(configured, w, before);
    RunKeepsOp(configured, w, before);
    var at := Next(configured, After(configured, w, before), RevokePersist(true));
    StepOk(configured, After(configured, w, before), RevokePersist(true));
    assert Buried(configured, at, k, Watermark(at.store, k));
    if !SomeBootBlind(configured, at, more) {
      BuriedForever(configured, at, more, k, Watermark(at.store, k));
    }
  }
}
