/**
 Theorems about the peer-catalog store over every interleaving of fetches,
 stores, operator approvals and revocations, failed writes, crashes and
 reloads. An approval or a revocation is a transaction of several steps; only
 other operator transactions wait for it.
 */
module CatalogRuns {
  import opened Base
  import opened Names
  import opened CatalogModel

  /** Where the operator transaction in progress has got to. */
  datatype Op =
    | Idle
    | Flushed(key: Key, origin: Origin)
    | Approved(key: Key, wasApproved: bool)
    | RollingBack(key: Key)
    | Withdrawn(key: Key)

  /** `approvals` is the approval file; `configured` the keys listed as dial targets. */
  datatype World = World(
    store: Store,
    registry: Registry,
    approvals: map<Key, Origin>,
    op: Op,
    issued: set<Fetch>)

  datatype Step =
    | NotePending(key: Key, origin: Origin)
    | Dialed(key: Key, origin: Origin)
    | Begin(key: Key)
    | Deliver(fetch: Fetch, catalog: SignedCatalog, end: WriteEnd)
    | ApproveFlush(key: Key, origin: Origin, ok: bool)
    | ApproveCommit
    | ApprovePersist(ok: bool)
    | ApproveRollback(ok: bool)
    | RevokeStore(key: Key, ok: bool)
    | RevokePersist(ok: bool)
    | Crash(boot: Boot)

  function ApprovedTuples(r: Registry): map<Key, Origin> {
    map k | k in r && r[k].approved && r[k].origin.Some? :: r[k].origin.value
  }

  const MAX_APPROVED_PEERS := 4096

  /** `load_approved`: one bad name or one repeated origin voids the whole file. */
  predicate ApprovalsOk(file: map<Key, Origin>) {
    && |file| <= MAX_APPROVED_PEERS
    && (forall k :: k in file ==> ValidServerName(file[k]))
    && forall j, k :: j in file && k in file && file[j] == file[k] ==> j == k
  }

  /** The registry after a boot: the file's tuples, then the configured dial targets. */
  function Booted(file: map<Key, Origin>, configured: map<Key, Origin>): Registry {
    var seeded: map<Key, Origin> := if ApprovalsOk(file) then file else map[];
    map k | k in seeded.Keys + configured.Keys
      :: PeerRecord(Some(if k in seeded then seeded[k] else configured[k]), true)
  }

  function Seeded(r: Registry, key: Key, origin: Origin): Registry {
    r[key := PeerRecord(if key in r && r[key].origin.Some? then r[key].origin else Some(origin), true)]
  }

  ghost function Rebooted(w: World, configured: map<Key, Origin>, boot: Boot): World {
    var r := Booted(if boot.approvalsRead then w.approvals else map[], configured);
    World(Load(w.store.(peers := map[]), r, boot.cacheRead), r, w.approvals, Idle, {})
  }

  ghost function Next(configured: map<Key, Origin>, w: World, step: Step): World {
    match step
    case NotePending(key, origin) =>
      if key in w.registry && w.registry[key].approved then w
      else w.(registry := w.registry[key := PeerRecord(Some(origin), false)])
    case Dialed(key, origin) =>
      if key in configured then w.(registry := Seeded(w.registry, key, origin)) else w
    case Begin(key) =>
      (match BeginFetch(w.store, w.registry, key)
       case Some((store, fetch)) => w.(store := store, issued := w.issued + {fetch})
       case None => w)
    case Deliver(fetch, catalog, end) =>
      if fetch !in w.issued then w
      else
        var next := w.(store := Ingest(w.store, w.registry, fetch, catalog, end), issued := w.issued - {fetch});
        if end.DiesBeforePublishing? then Rebooted(next, configured, end.boot) else next
    case ApproveFlush(key, origin, ok) =>
      if !w.op.Idle? || !ValidServerName(origin)
         || (key in w.registry && w.registry[key].origin.Some? && w.registry[key].origin != Some(origin)) then w
      else if !ok || !CanEncode(w.store.peers) then w
      else w.(store := Persist(w.store, true), op := Flushed(key, origin))
    case ApproveCommit =>
      if !w.op.Flushed? then w
      else w.(registry := w.registry[w.op.key := PeerRecord(Some(w.op.origin), true)],
              op := Approved(w.op.key, IsApprovedOrigin(w.registry, w.op.key, w.op.origin)))
    case ApprovePersist(ok) =>
      if !w.op.Approved? then w
      else if ok then w.(approvals := ApprovedTuples(w.registry), op := Idle)
      else w.(op := if w.op.wasApproved then Idle else RollingBack(w.op.key))
    case ApproveRollback(ok) =>
      if !w.op.RollingBack? then w
      else w.(store := RevokePeer(w.store, w.op.key, ok), registry := Revoked(w.registry, w.op.key), op := Idle)
    case RevokeStore(key, ok) =>
      if !w.op.Idle? || IsConfigured(configured, key, if key in w.registry then w.registry[key].origin else None) then w
      else w.(store := RevokePeer(w.store, key, ok), registry := Revoked(w.registry, key), op := Withdrawn(key))
    case RevokePersist(ok) =>
      if !w.op.Withdrawn? then w
      else w.(approvals := if ok then ApprovedTuples(w.registry) else w.approvals, op := Idle)
    case Crash(boot) => Rebooted(w, configured, boot)
  }

  /** `is_configured_peer`: listed by key, or by the origin it is known under. */
  predicate IsConfigured(configured: map<Key, Origin>, key: Key, origin: Option<Origin>) {
    key in configured || (origin.Some? && origin.value in configured.Values)
  }

  ghost function After(configured: map<Key, Origin>, w: World, steps: seq<Step>): World {
    if |steps| == 0 then w
    else Next(configured, After(configured, w, steps[..|steps| - 1]), steps[|steps| - 1])
  }

  // ---- every store stays sound ---------------------------------------------------

  /** The watermark of `b` for each key is at least that of `a`. */
  predicate WatermarksGrow(a: Peers, b: Peers) {
    forall k :: k in a && a[k].generation.Some? ==>
      k in b && b[k].generation.Some? && b[k].generation.value >= a[k].generation.value
  }

  lemma PersistOk(s: Store, ok: bool)
    requires StoreOk(s)
    ensures StoreOk(Persist(s, ok)) && Persist(s, ok).peers == s.peers
  {
    ReadBack(s.peers, 0);
  }

  /** Replacing or adding one entry that has no payload. */
  lemma EmptyEntrySound(peers: Peers, key: Key, p: PeerCatalog)
    requires Sound(peers) && (key in peers || |peers| < MAX_TRACKED_PEERS)
    requires PeerOk(key, p) && p.signed.None?
    ensures Sound(peers[key := p])
  {
    assert peers[key := p].Keys == peers.Keys + {key};
    assert |peers[key := p]| == |peers[key := p].Keys| && |peers| == |peers.Keys|;
    SoundFrom(peers, peers[key := p]);
  }

  lemma RevokeOk(s: Store, key: Key, ok: bool)
    requires StoreOk(s)
    ensures StoreOk(RevokePeer(s, key, ok))
  {
    if key in s.peers {
      assert PeerOk(key, s.peers[key]);
      var p := Hidden(s.peers[key]).(revision := s.nextRevision);
      EmptyEntrySound(s.peers, key, p);
      PersistOk(s.(peers := s.peers[key := p], nextRevision := s.nextRevision + 1), ok);
    }
  }

  lemma RevokeGrows(s: Store, key: Key, ok: bool)
    ensures WatermarksGrow(s.peers, RevokePeer(s, key, ok).peers)
  {
  }

  lemma BeginOk(s: Store, r: Registry, key: Key)
    requires StoreOk(s) && BeginFetch(s, r, key).Some?
    ensures StoreOk(BeginFetch(s, r, key).value.0)
  {
    var s' := BeginFetch(s, r, key).value.0;
    if s' != s {
      if key in s.peers {
        assert PeerOk(key, s.peers[key]);
      }
      assert PeerOk(key, s'.peers[key]);
      EmptyEntrySound(s.peers, key, s'.peers[key]);
    }
  }

  lemma BeginGrows(s: Store, r: Registry, key: Key)
    requires BeginFetch(s, r, key).Some?
    ensures WatermarksGrow(s.peers, BeginFetch(s, r, key).value.0.peers)
  {
  }

  /** What an admissible store is about to write: the old entries with one replaced, some hidden. */
  lemma NextKeeps(s: Store, r: Registry, f: Fetch, c: SignedCatalog)
    requires Admissible(s, r, f, c)
    ensures var next := Trim(WithCatalog(s.peers, f.key, c));
      && next.Keys == s.peers.Keys && WatermarksGrow(s.peers, next)
      && (forall k :: k in next ==> next[k].revision == s.peers[k].revision)
      && (forall k :: k in next && k != f.key ==> next[k] == s.peers[k] || next[k] == Hidden(s.peers[k]))
  {
    TrimKeeps(WithCatalog(s.peers, f.key, c));
  }

  /** The stored catalog itself is never the one evicted. */
  lemma StoredSurvives(s: Store, r: Registry, f: Fetch, c: SignedCatalog)
    requires StoreOk(s) && VerifiesUnder(c, f.key) && Admissible(s, r, f, c)
    ensures var next := Trim(WithCatalog(s.peers, f.key, c));
      f.key in next && next[f.key] == WithCatalog(s.peers, f.key, c)[f.key]
  {
    NewestSurvives(WithCatalog(s.peers, f.key, c), f.key);
  }

  lemma NextPeerOk(s: Store, r: Registry, f: Fetch, c: SignedCatalog, k: Key)
    requires StoreOk(s) && VerifiesUnder(c, f.key) && Admissible(s, r, f, c)
        && k in Trim(WithCatalog(s.peers, f.key, c))
    ensures PeerOk(k, Trim(WithCatalog(s.peers, f.key, c))[k])
  {
    hide FileOk, Over, Trim, ValidServerName;
    NextKeeps(s, r, f, c);
    StoredSurvives(s, r, f, c);
    assert PeerOk(k, s.peers[k]);
    assert s.peers[f.key].origin.Some? && ValidServerName(s.peers[f.key].origin.value) by {
      assert PeerOk(f.key, s.peers[f.key]);
    }
  }

  lemma NextSound(s: Store, r: Registry, f: Fetch, c: SignedCatalog)
    requires StoreOk(s) && VerifiesUnder(c, f.key) && Admissible(s, r, f, c)
    ensures Sound(Trim(WithCatalog(s.peers, f.key, c)))
  {
    hide FileOk, Over, Trim, PeerOk;
    var next := Trim(WithCatalog(s.peers, f.key, c));
    NextKeeps(s, r, f, c);
    TrimKeeps(WithCatalog(s.peers, f.key, c));
    SameKeysSameSize(s.peers, next);
    forall k | k in next
      ensures PeerOk(k, next[k])
    {
      NextPeerOk(s, r, f, c, k);
    }
  }

  lemma StoreVerifiedOk(s: Store, r: Registry, f: Fetch, c: SignedCatalog, end: WriteEnd)
    requires StoreOk(s) && VerifiesUnder(c, f.key)
    ensures var s' := StoreVerified(s, r, f, c, end);
      && FileOk(s'.disk) && Covered(s.peers, s'.disk)
      && (!end.DiesBeforePublishing? ==> StoreOk(s') && WatermarksGrow(s.peers, s'.peers))
  {
    hide FileOk, Sound, Over, Trim;
    if Admissible(s, r, f, c) {
      NextSound(s, r, f, c);
      NextKeeps(s, r, f, c);
      ReadBack(Trim(WithCatalog(s.peers, f.key, c)), 0);
    }
  }

  /** A reload gives back every watermark the file has, and no unapproved payload. */
  lemma LoadGives(s: Store, r: Registry)
    requires s.peers == map[] && FileOk(s.disk)
    ensures var s' := Load(s, r, true);
      && s'.disk == s.disk && s'.peers.Keys == s.disk.Keys && s'.nextRevision == s.nextRevision + 1
      && forall k :: k in s.disk ==>
           && s'.peers[k].origin == Some(s.disk[k].origin)
           && s'.peers[k].generation == Some(s.disk[k].generation)
           && s'.peers[k].signed == (if IsApprovedOrigin(r, k, s.disk[k].origin) then s.disk[k].signed else None)
           && s'.peers[k].revision == s.nextRevision
  {
  }

  lemma FileSound(disk: map<Key, Record>, revision: nat)
    requires FileOk(disk)
    ensures Sound(AsPeers(disk, revision))
  {
    hide ValidServerName, SumBytes;
    var all, zero := AsPeers(disk, revision), AsPeers(disk, 0);
    assert all.Keys == disk.Keys;
    assert |all| == |all.Keys| && |disk| == |disk.Keys|;
    assert Retained(all) == Retained(zero);
    SumSame(all, zero, Retained(zero));
  }

  lemma LoadOk(s: Store, r: Registry)
    requires s.peers == map[] && FileOk(s.disk)
    ensures StoreOk(Load(s, r, true))
  {
    hide FileOk, Over, ValidServerName;
    var all, s' := AsPeers(s.disk, s.nextRevision), Load(s, r, true);
    FileSound(s.disk, s.nextRevision);
    LoadGives(s, r);
    SameKeysSameSize(all, s'.peers);
    SoundFrom(all, s'.peers);
  }

  ghost predicate WorldOk(w: World) {
    StoreOk(w.store) && Live(w.issued, w.store)
  }

  /** Outstanding fetches are of tracked keys and carry markers already handed out. */
  predicate Live(issued: set<Fetch>, s: Store) {
    forall f :: f in issued ==> f.key in s.peers && f.revision < s.nextRevision
  }

  /** A boot that cannot read the cache starts from nothing. */
  lemma EmptyOk(s: Store)
    requires s.peers == map[] && FileOk(s.disk)
    ensures StoreOk(s)
  {
    hide FileOk;
    assert Retained(s.peers) == {};
  }

  lemma RebootOk(w: World, configured: map<Key, Origin>, boot: Boot)
    requires FileOk(w.store.disk)
    ensures WorldOk(Rebooted(w, configured, boot))
    ensures boot.cacheRead ==>
      forall peers :: Covered(peers, w.store.disk) ==> WatermarksGrow(peers, Rebooted(w, configured, boot).store.peers)
    ensures !boot.cacheRead ==> Rebooted(w, configured, boot).store.peers == map[]
  {
    hide FileOk, Sound, Over;
    var s, r := w.store.(peers := map[]), Rebooted(w, configured, boot).registry;
    if boot.cacheRead {
      LoadOk(s, r);
      LoadGives(s, r);
    } else {
      EmptyOk(s);
    }
  }

  lemma IngestOk(s: Store, r: Registry, f: Fetch, c: SignedCatalog, end: WriteEnd)
    requires StoreOk(s)
    ensures var s' := Ingest(s, r, f, c, end);
      && FileOk(s'.disk) && Covered(s.peers, s'.disk)
      && (!end.DiesBeforePublishing? ==> StoreOk(s') && WatermarksGrow(s.peers, s'.peers))
  {
    if VerifiesUnder(c, f.key) {
      StoreVerifiedOk(s, r, f, c, end);
    }
  }

  lemma IngestLive(s: Store, r: Registry, f: Fetch, c: SignedCatalog, end: WriteEnd, issued: set<Fetch>)
    requires StoreOk(s) && Live(issued, s)
    ensures Live(issued, Ingest(s, r, f, c, end))
  {
    if VerifiesUnder(c, f.key) && Admissible(s, r, f, c) {
      NextKeeps(s, r, f, c);
    }
  }

  lemma DeliverOk(configured: map<Key, Origin>, w: World, step: Step)
    requires WorldOk(w) && step.Deliver?
    ensures WorldOk(Next(configured, w, step))
  {
    var f := step.fetch;
    if f in w.issued {
      var mid := w.(store := Ingest(w.store, w.registry, f, step.catalog, step.end), issued := w.issued - {f});
      IngestOk(w.store, w.registry, f, step.catalog, step.end);
      if step.end.DiesBeforePublishing? {
        RebootOk(mid, configured, step.end.boot);
      } else {
        IngestLive(w.store, w.registry, f, step.catalog, step.end, mid.issued);
        assert Next(configured, w, step) == mid;
      }
    }
  }

  /** The step ends in a boot that cannot read the cache file. */
  predicate BootsBlind(w: World, step: Step) {
    match step
    case Crash(boot) => !boot.cacheRead
    case Deliver(fetch, _, end) => fetch in w.issued && end.DiesBeforePublishing? && !end.boot.cacheRead
    case _ => false
  }

  lemma DeliverGrows(configured: map<Key, Origin>, w: World, step: Step)
    requires WorldOk(w) && step.Deliver?
    ensures !BootsBlind(w, step) ==> WatermarksGrow(w.store.peers, Next(configured, w, step).store.peers)
    ensures BootsBlind(w, step) ==> Next(configured, w, step).store.peers == map[]
  {
    hide FileOk, Sound, Over, Ingest;
    var f := step.fetch;
    if f in w.issued {
      var mid := w.(store := Ingest(w.store, w.registry, f, step.catalog, step.end), issued := w.issued - {f});
      IngestOk(w.store, w.registry, f, step.catalog, step.end);
      if step.end.DiesBeforePublishing? {
        RebootOk(mid, configured, step.end.boot);
      }
    }
  }

  lemma BeginStepOk(configured: map<Key, Origin>, w: World, key: Key)
    requires WorldOk(w)
    ensures WorldOk(Next(configured, w, Begin(key)))
  {
    hide FileOk, Sound, Over;
    if BeginFetch(w.store, w.registry, key).Some? {
      BeginOk(w.store, w.registry, key);
    }
  }

  lemma RevokeStepOk(w: World, key: Key, ok: bool)
    requires WorldOk(w)
    ensures WorldOk(w.(store := RevokePeer(w.store, key, ok)))
  {
    RevokeOk(w.store, key, ok);
    assert RevokePeer(w.store, key, ok).peers.Keys == w.store.peers.Keys;
  }

  /** Operator steps touch the store only by persisting or revoking. */
  lemma OperatorStepOk(configured: map<Key, Origin>, w: World, step: Step)
    requires WorldOk(w) && (step.ApproveFlush? || step.ApproveRollback? || step.RevokeStore?)
    ensures WorldOk(Next(configured, w, step))
  {
    hide FileOk, Sound, Over;
    PersistOk(w.store, true);
    var key := if step.RevokeStore? then step.key else if w.op.RollingBack? then w.op.key else 0;
    RevokeStepOk(w, key, step.ok);
    var w' := Next(configured, w, step);
    assert w'.issued == w.issued;
    assert w'.store == w.store || w'.store == Persist(w.store, true) || w'.store == RevokePeer(w.store, key, step.ok);
  }

  lemma StepOk(configured: map<Key, Origin>, w: World, step: Step)
    requires WorldOk(w)
    ensures WorldOk(Next(configured, w, step))
  {
    hide FileOk, Sound, Over, Covered;
    if step.Begin? {
      BeginStepOk(configured, w, step.key);
    } else if step.Deliver? {
      DeliverOk(configured, w, step);
    } else if step.ApproveFlush? || step.ApproveRollback? || step.RevokeStore? {
      OperatorStepOk(configured, w, step);
    } else if step.Crash? {
      RebootOk(w, configured, step.boot);
    } else {
      assert Next(configured, w, step).store == w.store && Next(configured, w, step).issued == w.issued;
    }
  }

  predicate HasWatermark(peers: Peers) {
    exists k :: k in peers && peers[k].generation.Some?
  }

  /** The step boots blind over a visible watermark. */
  predicate Forgets(w: World, step: Step) {
    BootsBlind(w, step) && HasWatermark(w.store.peers)
  }

  lemma StepGrows(configured: map<Key, Origin>, w: World, step: Step)
    requires WorldOk(w)
    ensures WatermarksGrow(w.store.peers, Next(configured, w, step).store.peers) <==> !Forgets(w, step)
  {
    hide FileOk, Sound, Over, Ingest;
    match step {
      case Begin(key) =>
        if BeginFetch(w.store, w.registry, key).Some? {
          BeginGrows(w.store, w.registry, key);
        }
      case Deliver(_, _, _) => DeliverGrows(configured, w, step);
      case ApproveRollback(ok) =>
        if w.op.RollingBack? {
          RevokeGrows(w.store, w.op.key, ok);
        }
      case RevokeStore(key, ok) => RevokeGrows(w.store, key, ok);
      case Crash(boot) => RebootOk(w, configured, boot);
      case _ =>
    }
  }

  lemma {:induction false} RunOk(configured: map<Key, Origin>, w: World, steps: seq<Step>)
    requires WorldOk(w)
    ensures WorldOk(After(configured, w, steps))
  {
    if |steps| > 0 {
      RunOk(configured, w, steps[..|steps| - 1]);
      StepOk(configured, After(configured, w, steps[..|steps| - 1]), steps[|steps| - 1]);
    }
  }

  // ---- watermarks ------------------------------------------------------------------

  ghost predicate NoneForgets(configured: map<Key, Origin>, w: World, steps: seq<Step>, i: nat, j: nat)
    requires j <= |steps|
  {
    forall n :: i <= n < j ==> !Forgets(After(configured, w, steps[..n]), steps[n])
  }

  /** No watermark seen after `i` steps is lower after `j`. */
  ghost predicate Stands(configured: map<Key, Origin>, w: World, steps: seq<Step>, i: nat, j: nat)
    requires i <= |steps| && j <= |steps|
  {
    WatermarksGrow(After(configured, w, steps[..i]).store.peers, After(configured, w, steps[..j]).store.peers)
  }

  lemma {:induction false} StandsOneStep(configured: map<Key, Origin>, w: World, steps: seq<Step>, n: nat)
    requires WorldOk(w) && n < |steps|
    ensures Stands(configured, w, steps, n, n + 1) <==> !Forgets(After(configured, w, steps[..n]), steps[n])
  {
    hide WorldOk, Next, WatermarksGrow, Forgets;
    RunOk(configured, w, steps[..n]);
    StepGrows(configured, After(configured, w, steps[..n]), steps[n]);
    assert steps[..n + 1][..n] == steps[..n];
  }

  lemma {:induction false} StandsOn(configured: map<Key, Origin>, w: World, steps: seq<Step>, i: nat, j: nat)
    requires WorldOk(w) && i <= j <= |steps| && NoneForgets(configured, w, steps, i, j)
    ensures Stands(configured, w, steps, i, j)
    decreases j
  {
    hide WorldOk, After, Forgets;
    if i < j {
      StandsOn(configured, w, steps, i, j - 1);
      StandsOneStep(configured, w, steps, j - 1);
    }
  }

  /**
   The generation watermark of a key never decreases, through any
   interleaving of fetches, failed writes, operator transactions, evictions,
   crashes and reloads, exactly when no boot fails to read the cache file while
   there is a watermark to lose.
   */
  lemma {:induction false} WatermarkNeverFallsExactlyWhen(configured: map<Key, Origin>, w: World, steps: seq<Step>)
    requires WorldOk(w)
    ensures (forall i, j :: 0 <= i <= j <= |steps| ==> Stands(configured, w, steps, i, j))
       <==> NoneForgets(configured, w, steps, 0, |steps|)
  {
    hide WorldOk, After, Forgets, Stands;
    if NoneForgets(configured, w, steps, 0, |steps|) {
      forall i, j | 0 <= i <= j <= |steps|
        ensures Stands(configured, w, steps, i, j)
      {
        StandsOn(configured, w, steps, i, j);
      }
    } else {
      var n :| 0 <= n < |steps| && Forgets(After(configured, w, steps[..n]), steps[n]);
      StandsOneStep(configured, w, steps, n);
    }
  }

  /** The file is never behind what is visible, whatever a boot could read. */
  lemma {:induction false} FileCoversTheVisible(configured: map<Key, Origin>, w: World, steps: seq<Step>)
    requires WorldOk(w)
    ensures var now := After(configured, w, steps).store;
      FileOk(now.disk) && Covered(now.peers, now.disk)
  {
    RunOk(configured, w, steps);
  }

  /** A verified, in-time catalog of a live fetch is stored exactly when `wants` says it is fresher. */
  lemma StoredExactlyWhenWanted(s: Store, r: Registry, f: Fetch, c: SignedCatalog)
    requires StoreOk(s) && VerifiesUnder(c, f.key) && c.size <= MAX_CATALOG_BYTES
    requires f.key in s.peers && s.peers[f.key].revision == f.revision && IsApprovedOrigin(r, f.key, f.origin)
    requires NextOrder(s.peers, s.peers.Keys) <= MAX_U64
    ensures var s' := Ingest(s, r, f, c, Published);
      && (Wants(s, f.key, c.generation) ==>
            f.key in s'.peers && s'.peers[f.key].signed == Some(c)
            && !Wants(s', f.key, c.generation) && s'.disk == Snapshot(s'.peers))
      && (!Wants(s, f.key, c.generation) ==> s' == s)
  {
    hide FileOk, Over;
    if Wants(s, f.key, c.generation) {
      NextSound(s, r, f, c);
      StoredSurvives(s, r, f, c);
      ReadBack(Trim(WithCatalog(s.peers, f.key, c)), 0);
    }
  }

  /** With nothing remembered, the first catalog fetched from an approved peer is stored. */
  lemma FirstCatalogIsStored(s: Store, r: Registry, k: Key, origin: Origin, c: SignedCatalog)
    requires StoreOk(s) && s.peers == map[] && IsApprovedOrigin(r, k, origin) && ValidServerName(origin)
    requires VerifiesUnder(c, k) && c.size <= MAX_CATALOG_BYTES
    ensures var f := Fetch(k, s.nextRevision, origin);
      var begun := s.(peers := map[k := PeerCatalog(f.revision, Some(origin), None, None, 0, 0)],
                      nextRevision := s.nextRevision + 1);
      && BeginFetch(s, r, k) == Some((begun, f))
      && Listed(Ingest(begun, r, f, c, Published), r) == map[k := c]
  {
    hide FileOk, Over, ValidServerName, Trim;
    var f := Fetch(k, s.nextRevision, origin);
    var p := PeerCatalog(f.revision, Some(origin), None, None, 0, 0);
    assert map[][k := p] == map[k := p];
    var begun := s.(peers := map[k := p], nextRevision := s.nextRevision + 1);
    assert BeginFetch(s, r, k) == Some((begun, f));
    BeginOk(s, r, k);
    assert NextOrder(begun.peers, {k}) == NextOrder(begun.peers, {}) == 1 by {
      assert begun.peers.Keys == {k} && {k} - {k} == {};
    }
    StoredExactlyWhenWanted(begun, r, f, c);
    NextKeeps(begun, r, f, c);
    StoredSurvives(begun, r, f, c);
    var after := Ingest(begun, r, f, c, Published);
    assert after.peers.Keys == {k} && after.peers[k].origin == Some(origin);
    assert Listed(after, r) == map[k := c];
  }

  lemma {:induction false} AfterThree(configured: map<Key, Origin>, w: World, a: Step, b: Step, c: Step)
    ensures After(configured, w, [a, b, c]) == Next(configured, Next(configured, Next(configured, w, a), b), c)
  {
    hide Next;
    var steps := [a, b, c];
    assert steps[..2] == [a, b] && [a, b][..1] == [a] && [a][..0] == [];
    assert After(configured, w, [a]) == Next(configured, w, a);
    assert After(configured, w, [a, b]) == Next(configured, Next(configured, w, a), b);
  }

  /**
   What a blind boot costs: a catalog of an approved peer is then listed
   whatever its generation, even one below the watermark of before.
   */
  lemma BlindBootTakesAnything(configured: map<Key, Origin>, w: World, k: Key, c: SignedCatalog)
    requires WorldOk(w) && ApprovalsOk(w.approvals) && k in w.approvals
    requires VerifiesUnder(c, k) && c.size <= MAX_CATALOG_BYTES
    ensures var f := Fetch(k, w.store.nextRevision, w.approvals[k]);
      var now := After(configured, w, [Crash(Boot(false, true)), Begin(k), Deliver(f, c, Published)]);
      Listed(now.store, now.registry) == map[k := c]
  {
    hide FileOk, Over, Sound, Ingest, BeginFetch, ValidServerName, Listed, After, StoreOk, VerifiesUnder, ApprovalsOk;
    var f, boot := Fetch(k, w.store.nextRevision, w.approvals[k]), Boot(false, true);
    AfterThree(configured, w, Crash(boot), Begin(k), Deliver(f, c, Published));
    var booted := Rebooted(w, configured, boot);
    BlindBootGives(configured, w, k);
    FirstCatalogIsStored(booted.store, booted.registry, k, w.approvals[k], c);
    var begun := Next(configured, booted, Begin(k));
    assert begun.issued == {f} && begun.registry == booted.registry;
    assert Next(configured, begun, Deliver(f, c, Published)).store
        == Ingest(begun.store, begun.registry, f, c, Published);
  }

  lemma BlindBootGives(configured: map<Key, Origin>, w: World, k: Key)
    requires WorldOk(w) && ApprovalsOk(w.approvals) && k in w.approvals
    ensures var booted := Rebooted(w, configured, Boot(false, true));
      && StoreOk(booted.store) && booted.store == w.store.(peers := map[]) && booted.issued == {}
      && IsApprovedOrigin(booted.registry, k, w.approvals[k]) && ValidServerName(w.approvals[k])
  {
    hide FileOk;
    RebootOk(w, configured, Boot(false, true));
  }

  // ---- listing -----------------------------------------------------------------------

  /** Whatever search may list is signed by its own key, current, and of a tuple approved right now. */
  lemma {:induction false} ListedIsCurrent(configured: map<Key, Origin>, w: World, steps: seq<Step>, k: Key)
    requires WorldOk(w)
    requires k in Listed(After(configured, w, steps).store, After(configured, w, steps).registry)
    ensures var now := After(configured, w, steps);
      var c := Listed(now.store, now.registry)[k];
      && VerifiesUnder(c, k)
      && now.store.peers[k].generation == Some(c.generation)
      && now.store.peers[k].origin.Some?
      && IsApprovedOrigin(now.registry, k, now.store.peers[k].origin.value)
  {
    RunOk(configured, w, steps);
    assert PeerOk(k, After(configured, w, steps).store.peers[k]);
  }

  // ---- no ABA --------------------------------------------------------------------------

  /** The fetch's marker is no longer its key's marker, and never will be again. */
  predicate Dead(s: Store, f: Fetch) {
    f.revision < s.nextRevision && (f.key in s.peers ==> s.peers[f.key].revision != f.revision)
  }

  lemma DeadIngest(s: Store, r: Registry, f: Fetch, c: SignedCatalog, end: WriteEnd, dead: Fetch)
    requires StoreOk(s) && Dead(s, dead)
    ensures Dead(Ingest(s, r, f, c, end), dead)
    ensures f == dead ==> Ingest(s, r, f, c, end) == s
  {
    if VerifiesUnder(c, f.key) && Admissible(s, r, f, c) {
      NextKeeps(s, r, f, c);
    }
  }

  lemma DeadReboot(w: World, configured: map<Key, Origin>, boot: Boot, f: Fetch)
    requires FileOk(w.store.disk) && f.revision < w.store.nextRevision
    ensures Dead(Rebooted(w, configured, boot).store, f)
  {
    hide FileOk;
    LoadGives(w.store.(peers := map[]), Rebooted(w, configured, boot).registry);
  }

  lemma StepKeepsDead(configured: map<Key, Origin>, w: World, step: Step, f: Fetch)
    requires WorldOk(w) && Dead(w.store, f)
    ensures Dead(Next(configured, w, step).store, f)
  {
    hide FileOk, Sound, Over;
    if step.Deliver? {
      DeadIngest(w.store, w.registry, step.fetch, step.catalog, step.end, f);
      if VerifiesUnder(step.catalog, step.fetch.key) {
        StoreVerifiedOk(w.store, w.registry, step.fetch, step.catalog, step.end);
      }
      if step.end.DiesBeforePublishing? {
        DeadReboot(w.(store := Ingest(w.store, w.registry, step.fetch, step.catalog, step.end)), configured,
            step.end.boot, f);
      }
    } else if step.Crash? {
      DeadReboot(w, configured, step.boot, f);
    }
  }

  lemma {:induction false} DeadForever(configured: map<Key, Origin>, w: World, steps: seq<Step>, f: Fetch)
    requires WorldOk(w) && Dead(w.store, f)
    ensures Dead(After(configured, w, steps).store, f)
  {
    if |steps| > 0 {
      DeadForever(configured, w, steps[..|steps| - 1], f);
      RunOk(configured, w, steps[..|steps| - 1]);
      StepKeepsDead(configured, After(configured, w, steps[..|steps| - 1]), steps[|steps| - 1], f);
    }
  }

  /**
   The step withdraws what `f` was begun under: a revoke or rollback of its key, or its
   key fetched under a new origin.
   */
  predicate Supersedes(configured: map<Key, Origin>, w: World, step: Step, f: Fetch) {
    match step
    case RevokeStore(key, _) =>
      key == f.key && w.op.Idle?
      && !IsConfigured(configured, key, if key in w.registry then w.registry[key].origin else None)
    case ApproveRollback(_) => w.op == RollingBack(f.key)
    case Begin(key) =>
      && key == f.key && BeginFetch(w.store, w.registry, key).Some?
      && BeginFetch(w.store, w.registry, key).value.1.origin != f.origin
      && key in w.store.peers && w.store.peers[key].origin == Some(f.origin)
    case _ => false
  }

  /**
   No ABA. A fetch begun before its key is revoked, or before its key is
   fetched under another origin, never commits afterwards, however often the
   key is approved again and whatever catalog it brings.
   */
  lemma {:induction false} NoLateCommit(configured: map<Key, Origin>, w: World, step: Step, more: seq<Step>, f: Fetch,
      c: SignedCatalog, end: WriteEnd)
    requires WorldOk(w) && f in w.issued && Supersedes(configured, w, step, f)
    ensures var now := After(configured, Next(configured, w, step), more);
      Ingest(now.store, now.registry, f, c, end) == now.store
  {
    StepOk(configured, w, step);
    DeadForever(configured, Next(configured, w, step), more, f);
    RunOk(configured, Next(configured, w, step), more);
    var now := After(configured, Next(configured, w, step), more);
    DeadIngest(now.store, now.registry, f, c, end, f);
  }

  // ---- the approval file ---------------------------------------------------------------

  /** Exactly when a reboot gives back the approvals of the registry that was persisted. */
  lemma ApprovalsSurviveExactlyWhen(r: Registry)
    ensures (forall k: Key, o: Origin ::
               IsApprovedOrigin(Booted(ApprovedTuples(r), map[]), k, o) <==> IsApprovedOrigin(r, k, o))
         <==> ApprovedTuples(r) == map[] || ApprovalsOk(ApprovedTuples(r))
  {
    var file := ApprovedTuples(r);
    if file != map[] && !ApprovalsOk(file) {
      var k :| k in file;
      assert IsApprovedOrigin(r, k, file[k]) && !IsApprovedOrigin(Booted(file, map[]), k, file[k]);
    }
  }

  /** An approval does not look at other keys' origins, so two keys may come to be approved for one origin. */
  lemma ApprovalMayShareOrigin(configured: map<Key, Origin>, w: World, a: Key, b: Key, origin: Origin)
    requires a != b && IsApprovedOrigin(w.registry, a, origin)
    requires w.op.Idle? && b !in w.registry && ValidServerName(origin) && CanEncode(w.store.peers)
    ensures var now := Next(configured, Next(configured, w, ApproveFlush(b, origin, true)), ApproveCommit);
      IsApprovedOrigin(now.registry, a, origin) && IsApprovedOrigin(now.registry, b, origin)
  {
    var flushed := Next(configured, w, ApproveFlush(b, origin, true));
    assert flushed.op == Flushed(b, origin) && flushed.registry == w.registry;
  }

  /** Once two keys share an origin, a reboot from the persisted approvals forgets every one of them. */
  lemma SharedOriginVoidsTheFile(r: Registry, configured: map<Key, Origin>, a: Key, b: Key, origin: Origin)
    requires a != b && IsApprovedOrigin(r, a, origin) && IsApprovedOrigin(r, b, origin)
    ensures Booted(ApprovedTuples(r), configured).Keys == configured.Keys
  {
    var file := ApprovedTuples(r);
    assert a in file && b in file && file[a] == file[b];
    assert !ApprovalsOk(file);
  }
}
