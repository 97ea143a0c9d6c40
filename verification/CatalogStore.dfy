/**
 `CatalogState` as it is held in memory and mirrored to its cache file. Each
 method is one critical section under the mutation lock, and is proved to do
 what `CatalogModel` says. `writeOk` is whether the file write of that call
 succeeds; a clock, a disk and the peer registry are parameters.
 */
module CatalogStore {
  import opened Base
  import opened Names
  import opened CatalogModel

  class CatalogState {
    var peers: Peers
    var nextRevision: nat
    /** The cache file. */
    var disk: map<Key, Record>

    constructor (disk: map<Key, Record>)
      ensures View() == Store(map[], disk, 0)
    {
      peers, nextRevision, this.disk := map[], 0, disk;
    }

    ghost function View(): Store
      reads this
    {
      Store(peers, disk, nextRevision)
    }

    /** `PeerCache::write`: one record per watermark; false leaves the old file. */
    method WriteCache(from: Peers, writeOk: bool) returns (ok: bool)
      modifies this`disk
      ensures ok <==> writeOk && CanEncode(from)
      ensures disk == if ok then Snapshot(from) else old(disk)
    {
      var records: map<Key, Record> := map[];
      var todo := from.Keys;
      while todo != {}
        invariant todo <= from.Keys
        invariant records == map k | k in Snapshot(from) && k !in todo :: Snapshot(from)[k]
        invariant forall k :: k in from && k !in todo && from[k].generation.Some? ==> from[k].origin.Some?
        decreases todo
      {
        var k :| k in todo;
        if from[k].generation.Some? {
          if from[k].origin.None? {
            return false;
          }
          records := records[k :=
              Record(from[k].origin.value, from[k].generation.value, from[k].order, from[k].signed)];
        }
        todo := todo - {k};
      }
      assert records == Snapshot(from);
      if !writeOk {
        return false;
      }
      disk := records;
      return true;
    }

    method PersistCurrent(writeOk: bool) returns (ok: bool)
      modifies this`disk
      ensures View() == Persist(old(View()), writeOk)
      ensures ok <==> writeOk && CanEncode(peers)
    {
      ok := WriteCache(peers, writeOk);
    }

    /** Hides the payload and retires the marker before the write is even tried. */
    method RevokePeer(registry: Registry, key: Key, writeOk: bool)
        returns (registry': Registry, existed: bool, ok: bool)
      modifies this
      ensures View() == CatalogModel.RevokePeer(old(View()), key, writeOk)
      ensures registry' == Revoked(registry, key) && (existed <==> key in registry)
      ensures key !in old(peers) ==> ok
    {
      existed := key in registry;
      registry' := if existed then registry[key := registry[key].(approved := false)] else registry;
      if key !in peers {
        return registry', existed, true;
      }
      peers := peers[key := Hidden(peers[key]).(revision := nextRevision)];
      nextRevision := nextRevision + 1;
      ok := WriteCache(peers, writeOk);
    }

    method BeginFetch(registry: Registry, key: Key) returns (fetch: Option<Fetch>)
      modifies this`peers, this`nextRevision
      ensures match CatalogModel.BeginFetch(old(View()), registry, key)
        case Some((store, f)) => View() == store && fetch == Some(f)
        case None => View() == old(View()) && fetch == None
    {
      if key !in registry || !registry[key].approved || registry[key].origin.None? {
        return None;
      }
      var origin := registry[key].origin.value;
      if !ValidServerName(origin) {
        return None;
      }
      if key !in peers && |peers| >= MAX_TRACKED_PEERS {
        return None;
      }
      if key !in peers {
        peers := peers[key := PeerCatalog(nextRevision, None, None, None, 0, 0)];
      }
      if peers[key].origin != Some(origin) {
        peers := peers[key := Hidden(peers[key]).(origin := Some(origin), revision := nextRevision)];
        nextRevision := nextRevision + 1;
      }
      return Some(Fetch(key, peers[key].revision, origin));
    }

    method Wants(key: Key, generation: nat) returns (fresher: bool)
      ensures fresher <==> CatalogModel.Wants(View(), key, generation)
    {
      if key !in peers || peers[key].generation.None? {
        return true;
      }
      return generation > peers[key].generation.value;
    }

    /** `load_peers`: never over live state; unapproved payloads are hidden before anything is visible. */
    method LoadPeers(registry: Registry, readOk: bool)
      modifies this`peers, this`nextRevision
      ensures View() == Load(old(View()), registry, readOk)
    {
      hide FileOk, Over;
      if peers != map[] || !readOk {
        return;
      }
      var read := ReadCache(disk, nextRevision);
      if read.None? {
        return;
      }
      var loaded := HideUnapproved(read.value, registry);
      peers, nextRevision := loaded, nextRevision + 1;
    }

    /** `store_verified`: the cache is written first, and the new map is published only if that succeeded. */
    method StoreVerified(registry: Registry, fetch: Fetch, signed: SignedCatalog, writeOk: bool) returns (ok: bool)
      modifies this`peers, this`disk
      ensures View()
          == CatalogModel.StoreVerified(old(View()), registry, fetch, signed, if writeOk then Published else WriteFails)
      ensures ok ==> Admissible(old(View()), registry, fetch, signed)
    {
      if signed.size > MAX_CATALOG_BYTES || !IsApprovedOrigin(registry, fetch.key, fetch.origin) {
        return false;
      }
      if fetch.key !in peers || peers[fetch.key].revision != fetch.revision {
        return false;
      }
      var generation := peers[fetch.key].generation;
      if generation.Some? && signed.generation <= generation.value {
        return false;
      }
      var order := OrderAfter(peers);
      if order > MAX_U64 {
        return false;
      }
      var next := peers[fetch.key := peers[fetch.key].(generation := Some(signed.generation), signed := Some(signed),
                                                       bytes := signed.size, order := order)];
      next := TrimCache(next);
      ok := WriteCache(next, writeOk);
      if ok {
        peers := next;
      }
    }

    method IngestFetched(registry: Registry, fetch: Fetch, signed: SignedCatalog, writeOk: bool) returns (ok: bool)
      modifies this`peers, this`disk
      ensures View() == Ingest(old(View()), registry, fetch, signed, if writeOk then Published else WriteFails)
    {
      if signed.size > MAX_CATALOG_BYTES || !VerifiesUnder(signed, fetch.key) {
        return false;
      }
      ok := StoreVerified(registry, fetch, signed, writeOk);
    }

    /** `approved_peer_catalogs`: in key order, exactly what may be listed under the registry read here. */
    method ApprovedPeerCatalogs(registry: Registry) returns (catalogs: seq<SignedCatalog>)
      requires forall k :: k in peers && peers[k].signed.Some? ==> VerifiesUnder(peers[k].signed.value, k)
      ensures ByKey(catalogs)
      ensures forall k, c :: (c in catalogs && c.serverKey == k) <==> Lists(View(), registry, k, c)
    {
      catalogs := [];
      var todo := peers.Keys;
      while todo != {}
        invariant todo <= peers.Keys
        invariant ByKey(catalogs)
        invariant forall k, c :: (c in catalogs && c.serverKey == k) <==> (k !in todo && Lists(View(), registry, k, c))
        decreases todo
      {
        var k :| k in todo;
        var p := peers[k];
        if p.origin.Some? && IsApprovedOrigin(registry, k, p.origin.value) && p.signed.Some? {
          catalogs := InsertByKey(catalogs, p.signed.value);
        }
        todo := todo - {k};
      }
    }
  }

  predicate Lists(s: Store, r: Registry, k: Key, c: SignedCatalog) {
    k in Listed(s, r) && Listed(s, r)[k] == c
  }

  /** The payloads of keys whose stored origin is not approved are taken out. */
  method HideUnapproved(read: Peers, registry: Registry) returns (loaded: Peers)
    requires forall k :: k in read ==> read[k].origin.Some?
    ensures loaded ==
      map k | k in read :: if IsApprovedOrigin(registry, k, read[k].origin.value) then read[k] else Hidden(read[k])
  {
    loaded := read;
    var todo := read.Keys;
    while todo != {}
      invariant todo <= read.Keys && loaded.Keys == read.Keys
      invariant forall k :: k in loaded ==>
        loaded[k] == if k in todo || IsApprovedOrigin(registry, k, read[k].origin.value) then read[k]
            else Hidden(read[k])
      decreases todo
    {
      var k :| k in todo;
      if !IsApprovedOrigin(registry, k, loaded[k].origin.value) {
        loaded := Hide(loaded, k);
      }
      todo := todo - {k};
    }
  }

  /** Strictly ascending server keys: no source appears twice. */
  predicate ByKey(cs: seq<SignedCatalog>) {
    forall i, j :: 0 <= i < j < |cs| ==> cs[i].serverKey < cs[j].serverKey
  }

  method InsertByKey(cs: seq<SignedCatalog>, c: SignedCatalog) returns (r: seq<SignedCatalog>)
    requires ByKey(cs) && forall x :: x in cs ==> x.serverKey != c.serverKey
    ensures ByKey(r) && forall x :: x in r <==> x in cs || x == c
  {
    var i := 0;
    while i < |cs| && cs[i].serverKey < c.serverKey
      invariant 0 <= i <= |cs| && forall j :: 0 <= j < i ==> cs[j].serverKey < c.serverKey
    {
      i := i + 1;
    }
    assert i < |cs| ==> cs[i] in cs;
    assert cs == cs[..i] + cs[i..];
    r := cs[..i] + [c] + cs[i..];
  }

  /** `PeerCache::read` once the file is authenticated: every record is checked before any is used. */
  method ReadCache(disk: map<Key, Record>, revision: nat) returns (read: Option<Peers>)
    ensures read.Some? <==> FileOk(disk)
    ensures read.Some? ==> read.value == AsPeers(disk, revision)
  {
    if |disk| > MAX_TRACKED_PEERS {
      return None;
    }
    var all := AsPeers(disk, revision);
    var todo := disk.Keys;
    while todo != {}
      invariant todo <= disk.Keys
      invariant forall k :: k in disk && k !in todo ==> RecordOk(k, disk[k])
      decreases todo
    {
      var k :| k in todo;
      if !RecordOk(k, disk[k]) {
        return None;
      }
      todo := todo - {k};
    }
    var total := TotalBytes(all);
    assert Over(all) == Over(AsPeers(disk, 0)) by {
      assert Retained(all) == Retained(AsPeers(disk, 0));
      SumSame(all, AsPeers(disk, 0), Retained(all));
    }
    return if |Retained(all)| > MAX_CACHED_CATALOGS || total > MAX_CACHED_BYTES then None else Some(all);
  }

  // ---- the retention counter -----------------------------------------------------------

  /** One more than the largest order in use. */
  method OrderAfter(peers: Peers) returns (order: nat)
    ensures order == NextOrder(peers, peers.Keys)
  {
    order := 1;
    var todo := peers.Keys;
    while todo != {}
      invariant todo <= peers.Keys
      invariant IsNextOrder(peers, peers.Keys - todo, order)
      decreases todo
    {
      var k :| k in todo;
      order := if peers[k].order < order then order else peers[k].order + 1;
      todo := todo - {k};
    }
    assert peers.Keys - todo == peers.Keys;
    NextOrderIs(peers, peers.Keys);
  }

  predicate IsNextOrder(peers: Peers, ks: set<Key>, o: nat)
    requires ks <= peers.Keys
  {
    && o > 0 && (forall k :: k in ks ==> peers[k].order < o)
    && (o > 1 ==> exists k :: k in ks && peers[k].order + 1 == o)
  }

  lemma {:induction false} NextOrderIs(peers: Peers, ks: set<Key>)
    requires ks <= peers.Keys
    ensures IsNextOrder(peers, ks, NextOrder(peers, ks))
    decreases ks
  {
    if ks != {} {
      var k :| k in ks && NextOrder(peers, ks) ==
        (if peers[k].order < NextOrder(peers, ks - {k}) then NextOrder(peers, ks - {k}) else peers[k].order + 1);
      NextOrderIs(peers, ks - {k});
    }
  }

  // ---- retention as the loop runs it -------------------------------------------------

  /** The oldest retained payload: what sorting by (order, key) puts first. */
  method FindOldest(peers: Peers, ks: set<Key>) returns (k: Key)
    requires ks <= peers.Keys && ks != {}
    ensures IsOldest(peers, ks, k)
  {
    k :| k in ks;
    var todo := ks - {k};
    while todo != {}
      invariant todo <= ks && k in ks && k !in todo
      invariant forall j :: j in ks && j !in todo && j != k ==> Older(peers, k, j)
      decreases todo
    {
      var j :| j in todo;
      if Older(peers, j, k) {
        k := j;
      }
      todo := todo - {j};
    }
  }

  lemma OldestIsUnique(peers: Peers, k: Key)
    requires IsOldest(peers, Retained(peers), k)
    ensures k == Oldest(peers)
  {
  }

  method TotalBytes(peers: Peers) returns (total: nat)
    ensures total == SumBytes(peers, Retained(peers))
  {
    total := 0;
    var todo := Retained(peers);
    while todo != {}
      invariant todo <= Retained(peers)
      invariant total + SumBytes(peers, todo) == SumBytes(peers, Retained(peers))
      decreases todo
    {
      var k :| k in todo;
      SumRemove(peers, todo, k);
      total := total + peers[k].bytes;
      todo := todo - {k};
    }
  }

  /** `cache::trim`: running counts go down with each eviction. */
  method TrimCache(peers: Peers) returns (next: Peers)
    ensures next == Trim(peers)
  {
    next := peers;
    var retained := Retained(peers);
    var count := |retained|;
    var bytes := TotalBytes(peers);
    while count > MAX_CACHED_CATALOGS || bytes > MAX_CACHED_BYTES
      invariant retained == Retained(next) && count == |retained|
      invariant bytes == SumBytes(next, retained)
      invariant Trim(next) == Trim(peers)
      decreases retained
    {
      assert retained != {};
      var k := FindOldest(next, retained);
      OldestIsUnique(next, k);
      HideRetained(next, k);
      count, bytes := count - 1, bytes - next[k].bytes;
      next := Hide(next, k);
      retained := retained - {k};
    }
  }
}
