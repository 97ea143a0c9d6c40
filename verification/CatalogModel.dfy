/**
 The peer-catalog store as values: what each operation of `CatalogState` does
 to the in-memory map and to the cache file, including writes that fail.
 `CatalogStore` holds the stateful operations proved against this, and
 `CatalogRuns` the theorems over interleavings, failures and crashes.
 */
module CatalogModel {
  import opened Base
  import opened Names

  type Key = nat
  type Origin = string

  /** `signer` is the key whose signature over the rest is attached, if it is valid for any. */
  datatype SignedCatalog = SignedCatalog(serverKey: Key, generation: nat, signer: Option<Key>, size: nat, listing: nat)

  predicate VerifiesUnder(c: SignedCatalog, key: Key) {
    c.serverKey == key && c.signer == Some(key)
  }

  /** `revision` stands for the identity of the marker allocation; only markers of one key are ever compared. */
  datatype PeerCatalog = PeerCatalog(
    revision: nat,
    origin: Option<Origin>,
    generation: Option<nat>,
    signed: Option<SignedCatalog>,
    bytes: nat,
    order: nat)

  type Peers = map<Key, PeerCatalog>

  /** One record of the cache file. The file is authenticated, so a record is as written. */
  datatype Record = Record(origin: Origin, generation: nat, order: nat, signed: Option<SignedCatalog>)

  datatype Store = Store(peers: Peers, disk: map<Key, Record>, nextRevision: nat)

  datatype Fetch = Fetch(key: Key, revision: nat, origin: Origin)

  /** What the peer registry knows about a key. */
  datatype PeerRecord = PeerRecord(origin: Option<Origin>, approved: bool)

  type Registry = map<Key, PeerRecord>

  const MAX_CATALOG_BYTES := 4 * 1024 * 1024
  const MAX_CACHED_CATALOGS := 64
  const MAX_CACHED_BYTES := 32 * 1024 * 1024
  const MAX_TRACKED_PEERS := 4096
  const MAX_U64 := 0xFFFF_FFFF_FFFF_FFFF

  predicate IsApprovedOrigin(r: Registry, key: Key, origin: Origin) {
    key in r && r[key].approved && r[key].origin == Some(origin)
  }

  function Revoked(r: Registry, key: Key): Registry {
    if key in r then r[key := r[key].(approved := false)] else r
  }

  function Hidden(p: PeerCatalog): PeerCatalog {
    p.(signed := None, bytes := 0)
  }

  function Hide(peers: Peers, key: Key): Peers
    requires key in peers
  {
    peers[key := Hidden(peers[key])]
  }

  // ---- retention ---------------------------------------------------------------

  function Retained(peers: Peers): set<Key> {
    set k | k in peers && peers[k].signed.Some?
  }

  ghost function SumBytes(peers: Peers, ks: set<Key>): nat
    requires ks <= peers.Keys
  {
    if ks == {} then 0
    else var k :| k in ks; peers[k].bytes + SumBytes(peers, ks - {k})
  }

  lemma {:induction false} SumRemove(peers: Peers, ks: set<Key>, x: Key)
    requires ks <= peers.Keys && x in ks
    ensures SumBytes(peers, ks) == peers[x].bytes + SumBytes(peers, ks - {x})
    decreases ks
  {
    var k :| k in ks && SumBytes(peers, ks) == peers[k].bytes + SumBytes(peers, ks - {k});
    if k != x {
      SumRemove(peers, ks - {k}, x);
      assert ks - {k} - {x} == ks - {x} - {k};
      SumRemove(peers, ks - {x}, k);
    }
  }

  lemma {:induction false} SumSame(a: Peers, b: Peers, ks: set<Key>)
    requires ks <= a.Keys && ks <= b.Keys && forall k :: k in ks ==> a[k].bytes == b[k].bytes
    ensures SumBytes(a, ks) == SumBytes(b, ks)
    decreases ks
  {
    if ks != {} {
      var k :| k in ks;
      SumRemove(a, ks, k);
      SumRemove(b, ks, k);
      SumSame(a, b, ks - {k});
    }
  }

  ghost predicate Over(peers: Peers) {
    |Retained(peers)| > MAX_CACHED_CATALOGS || SumBytes(peers, Retained(peers)) > MAX_CACHED_BYTES
  }

  predicate Older(peers: Peers, a: Key, b: Key)
    requires a in peers && b in peers
  {
    peers[a].order < peers[b].order || (peers[a].order == peers[b].order && a < b)
  }

  predicate IsOldest(peers: Peers, ks: set<Key>, k: Key)
    requires ks <= peers.Keys
  {
    k in ks && forall j :: j in ks && j != k ==> Older(peers, k, j)
  }

  lemma {:induction false} OldestExists(peers: Peers, ks: set<Key>)
    requires ks <= peers.Keys && ks != {}
    ensures exists k :: IsOldest(peers, ks, k)
    decreases ks
  {
    var x :| x in ks;
    if ks == {x} {
      assert IsOldest(peers, ks, x);
    } else {
      OldestExists(peers, ks - {x});
      var k :| IsOldest(peers, ks - {x}, k);
      assert forall j :: j in ks && j != x ==> j in ks - {x};
      assert IsOldest(peers, ks, if Older(peers, x, k) then x else k);
    }
  }

  ghost function Oldest(peers: Peers): (k: Key)
    requires Retained(peers) != {}
    ensures IsOldest(peers, Retained(peers), k)
  {
    OldestExists(peers, Retained(peers));
    var k :| IsOldest(peers, Retained(peers), k);
    k
  }

  lemma HideRetained(peers: Peers, k: Key)
    requires k in Retained(peers)
    ensures Retained(Hide(peers, k)) == Retained(peers) - {k}
    ensures SumBytes(Hide(peers, k), Retained(peers) - {k}) == SumBytes(peers, Retained(peers)) - peers[k].bytes
  {
    SumRemove(peers, Retained(peers), k);
    SumSame(peers, Hide(peers, k), Retained(peers) - {k});
  }

  /** `cache::trim`: hide the oldest payload until the limits hold. */
  ghost function Trim(peers: Peers): Peers
    decreases |Retained(peers)|
  {
    if !Over(peers) then peers
    else
      HideRetained(peers, Oldest(peers));
      Trim(Hide(peers, Oldest(peers)))
  }

  /** Everything but the payload survives; a payload is kept as it was or dropped. */
  predicate OnlyHides(a: Peers, b: Peers) {
    && a.Keys == b.Keys
    && forall k :: k in a ==> b[k] == a[k] || b[k] == Hidden(a[k])
  }

  /**
   Retention. Watermarks, origins and markers survive a trim; the limits hold
   afterwards; what is dropped is older than everything kept; and a store
   within its limits is left alone.
   */
  lemma {:induction false} TrimKeeps(peers: Peers)
    ensures OnlyHides(peers, Trim(peers)) && !Over(Trim(peers))
    ensures !Over(peers) ==> Trim(peers) == peers
    ensures forall j, k ::
        j in Retained(peers) - Retained(Trim(peers)) && k in Retained(Trim(peers)) ==> Older(peers, j, k)
    decreases |Retained(peers)|
  {
    if Over(peers) {
      var x := Oldest(peers);
      HideRetained(peers, x);
      TrimKeeps(Hide(peers, x));
      forall j, k | j in Retained(peers) - Retained(Trim(peers)) && k in Retained(Trim(peers))
        ensures Older(peers, j, k)
      {
        assert k in Retained(Hide(peers, x));
        if j != x {
          assert Older(Hide(peers, x), j, k);
        }
      }
    }
  }

  /** A newest payload of admissible size is never the one dropped. */
  lemma {:induction false} NewestSurvives(peers: Peers, k: Key)
    requires k in Retained(peers) && peers[k].bytes <= MAX_CATALOG_BYTES
    requires forall j :: j in peers && j != k ==> peers[j].order < peers[k].order
    ensures k in Trim(peers) && Trim(peers)[k] == peers[k]
    decreases |Retained(peers)|
  {
    if Retained(peers) == {k} {
      SumRemove(peers, {k}, k);
    } else if Over(peers) {
      var x := Oldest(peers);
      var j :| j in Retained(peers) && j != k;
      HideRetained(peers, x);
      NewestSurvives(Hide(peers, x), k);
    }
  }

  // ---- the cache file ------------------------------------------------------------

  /** `PeerCache::write` gives up on a watermark without an origin. */
  predicate CanEncode(peers: Peers) {
    forall k :: k in peers && peers[k].generation.Some? ==> peers[k].origin.Some?
  }

  function Snapshot(peers: Peers): map<Key, Record> {
    map k | k in peers && peers[k].generation.Some? && peers[k].origin.Some?
      :: Record(peers[k].origin.value, peers[k].generation.value, peers[k].order, peers[k].signed)
  }

  function AsPeers(disk: map<Key, Record>, revision: nat): Peers {
    map k | k in disk
      :: PeerCatalog(revision, Some(disk[k].origin), Some(disk[k].generation), disk[k].signed,
                     if disk[k].signed.Some? then disk[k].signed.value.size else 0, disk[k].order)
  }

  predicate RecordOk(k: Key, record: Record) {
    && ValidServerName(record.origin) && record.order <= MAX_U64
    && (record.signed.Some? ==>
          && VerifiesUnder(record.signed.value, k)
          && record.signed.value.generation == record.generation
          && record.signed.value.size <= MAX_CATALOG_BYTES)
  }

  /** Every check of `PeerCache::read` after the file's own signature. */
  ghost predicate FileOk(disk: map<Key, Record>) {
    && |disk| <= MAX_TRACKED_PEERS
    && (forall k :: k in disk ==> RecordOk(k, disk[k]))
    && !Over(AsPeers(disk, 0))
  }

  // ---- operations ------------------------------------------------------------------

  /** Boot-only: an invalid file is ignored like one that cannot be read, an unapproved payload stays out. */
  ghost function Load(s: Store, r: Registry, readOk: bool): Store {
    if s.peers != map[] || !readOk || !FileOk(s.disk) then s
    else
      var all := AsPeers(s.disk, s.nextRevision);
      s.(peers := map k | k in all :: if IsApprovedOrigin(r, k, s.disk[k].origin) then all[k] else Hidden(all[k]),
         nextRevision := s.nextRevision + 1)
  }

  function Persist(s: Store, writeOk: bool): Store {
    if writeOk && CanEncode(s.peers) then s.(disk := Snapshot(s.peers)) else s
  }

  /** `CatalogState::revoke_peer`: hide, invalidate fetches, then try to write. */
  function RevokePeer(s: Store, key: Key, writeOk: bool): Store {
    if key !in s.peers then s
    else
      Persist(s.(peers := s.peers[key := Hidden(s.peers[key]).(revision := s.nextRevision)],
                 nextRevision := s.nextRevision + 1), writeOk)
  }

  function BeginFetch(s: Store, r: Registry, key: Key): Option<(Store, Fetch)> {
    if key !in r || !r[key].approved || r[key].origin.None? || !ValidServerName(r[key].origin.value) then None
    else if key !in s.peers && |s.peers| >= MAX_TRACKED_PEERS then None
    else
      var origin := r[key].origin.value;
      if key in s.peers && s.peers[key].origin == Some(origin) then
        Some((s, Fetch(key, s.peers[key].revision, origin)))
      else
        var p := if key in s.peers then s.peers[key] else PeerCatalog(s.nextRevision, None, None, None, 0, 0);
        var next := Hidden(p).(origin := Some(origin), revision := s.nextRevision);
        Some((s.(peers := s.peers[key := next], nextRevision := s.nextRevision + 1),
              Fetch(key, s.nextRevision, origin)))
  }

  /** `wants`: fresher than the last accepted generation, revoked or not. */
  predicate Wants(s: Store, key: Key, generation: nat) {
    key in s.peers && s.peers[key].generation.Some? ==> generation > s.peers[key].generation.value
  }

  /** One more than the largest order in use, or 1. */
  ghost function NextOrder(peers: Peers, ks: set<Key>): (o: nat)
    requires ks <= peers.Keys
    ensures o > 0 && forall k :: k in ks ==> peers[k].order < o
  {
    if ks == {} then 1
    else
      var k :| k in ks;
      var rest := NextOrder(peers, ks - {k});
      if peers[k].order < rest then rest else peers[k].order + 1
  }

  /** The tests of `store_verified`, in one condition. */
  ghost predicate Admissible(s: Store, r: Registry, f: Fetch, c: SignedCatalog) {
    && c.size <= MAX_CATALOG_BYTES
    && IsApprovedOrigin(r, f.key, f.origin)
    && f.key in s.peers && s.peers[f.key].revision == f.revision
    && Wants(s, f.key, c.generation)
    && NextOrder(s.peers, s.peers.Keys) <= MAX_U64
  }

  ghost function WithCatalog(peers: Peers, key: Key, c: SignedCatalog): Peers
    requires key in peers
  {
    peers[key := peers[key].(generation := Some(c.generation), signed := Some(c), bytes := c.size,
                             order := NextOrder(peers, peers.Keys))]
  }

  /** Which of its two files a boot can read. */
  datatype Boot = Boot(cacheRead: bool, approvalsRead: bool)

  /** How the write inside a store ends: refused, published, or the process dies in between and boots again. */
  datatype WriteEnd = WriteFails | Published | DiesBeforePublishing(boot: Boot)

  /** `store_verified`: written first, published only if the write succeeded. */
  ghost function StoreVerified(s: Store, r: Registry, f: Fetch, c: SignedCatalog, end: WriteEnd): Store {
    if !Admissible(s, r, f, c) then s
    else
      var next := Trim(WithCatalog(s.peers, f.key, c));
      if end.WriteFails? || !CanEncode(next) then s
      else if end.Published? then s.(peers := next, disk := Snapshot(next))
      else s.(disk := Snapshot(next))
  }

  /** `ingest_fetched_catalog`: the signature is checked under the fetched key first. */
  ghost function Ingest(s: Store, r: Registry, f: Fetch, c: SignedCatalog, end: WriteEnd): Store {
    if c.size > MAX_CATALOG_BYTES || !VerifiesUnder(c, f.key) then s else StoreVerified(s, r, f, c, end)
  }

  /** `approved_peer_catalogs`: what search may list, by key. */
  function Listed(s: Store, r: Registry): map<Key, SignedCatalog> {
    map k | k in s.peers && s.peers[k].signed.Some?
            && s.peers[k].origin.Some? && IsApprovedOrigin(r, k, s.peers[k].origin.value)
      :: s.peers[k].signed.value
  }

  // ---- what every store keeps ---------------------------------------------------------

  predicate PeerOk(k: Key, p: PeerCatalog) {
    && p.origin.Some? && ValidServerName(p.origin.value)
    && (p.signed.Some? ==>
          && VerifiesUnder(p.signed.value, k) && p.generation == Some(p.signed.value.generation)
          && p.bytes == p.signed.value.size <= MAX_CATALOG_BYTES)
    && (p.signed.None? ==> p.bytes == 0)
    && p.order <= MAX_U64
  }

  ghost predicate Sound(peers: Peers) {
    && (forall k :: k in peers ==> PeerOk(k, peers[k]))
    && |peers| <= MAX_TRACKED_PEERS
    && !Over(peers)
  }

  /** The watermark on disk is never behind the visible one. */
  predicate Covered(peers: Peers, disk: map<Key, Record>) {
    forall k :: k in peers && peers[k].generation.Some? ==>
      k in disk && disk[k].generation >= peers[k].generation.value
  }

  ghost predicate StoreOk(s: Store) {
    && Sound(s.peers) && FileOk(s.disk) && Covered(s.peers, s.disk)
    && forall k :: k in s.peers ==> s.peers[k].revision < s.nextRevision
  }

  lemma {:induction false} SubsetSmaller<T>(a: set<T>, b: set<T>)
    requires a <= b
    ensures |a| <= |b|
    decreases a
  {
    if a != {} {
      var x :| x in a;
      SubsetSmaller(a - {x}, b - {x});
    }
  }

  lemma {:induction false} SumSubset(peers: Peers, ks: set<Key>, js: set<Key>)
    requires ks <= js <= peers.Keys
    ensures SumBytes(peers, ks) <= SumBytes(peers, js)
    decreases js
  {
    if js <= ks {
      assert ks == js;
    } else {
      var x :| x in js && x !in ks;
      SumRemove(peers, js, x);
      SumSubset(peers, ks, js - {x});
    }
  }

  /** A map with good entries and no payload that a sound map lacks is sound. */
  lemma SoundFrom(a: Peers, b: Peers)
    requires Sound(a) && |b| <= MAX_TRACKED_PEERS
    requires forall k :: k in b ==> PeerOk(k, b[k])
    requires forall k :: k in b && b[k].signed.Some? ==> k in a && a[k].signed.Some? && a[k].bytes == b[k].bytes
    ensures Sound(b)
  {
    assert Retained(b) <= Retained(a);
    SubsetSmaller(Retained(b), Retained(a));
    SumSame(a, b, Retained(b));
    SumSubset(a, Retained(b), Retained(a));
  }

  lemma SameKeysSameSize(a: Peers, b: Peers)
    requires a.Keys == b.Keys
    ensures |a| == |b|
  {
    assert |a| == |a.Keys| && |b| == |b.Keys|;
  }

  /**
   Round trip of the cache file: what a sound store writes is accepted on
   reading, and gives back every watermark, origin, order and payload.
   */
  lemma ReadBack(peers: Peers, revision: nat)
    requires Sound(peers)
    ensures CanEncode(peers) && FileOk(Snapshot(peers))
    ensures AsPeers(Snapshot(peers), revision)
         == map k | k in peers && peers[k].generation.Some? :: peers[k].(revision := revision)
  {
    var disk := Snapshot(peers);
    var back := AsPeers(disk, 0);
    assert forall k :: k in disk ==> PeerOk(k, peers[k]);
    assert disk.Keys <= peers.Keys;
    SubsetSmaller(disk.Keys, peers.Keys);
    assert Retained(back) == Retained(peers);
    SumSame(back, peers, Retained(peers));
  }
}
