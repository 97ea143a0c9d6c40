/**
 What one burrow does with board-event gossip: the trusted-key lookup, the
 ingest of one delivered event, and the replies to offers and pulls. These are
 the specification functions; `FloodHandlers` holds the stateful handlers that
 are proved against them, and `FloodNet` runs many burrows at once.

 A board is named by its case-folded slug. A content id is the signed core
 itself: the blake3 of the canonical core is taken to be collision free.
 A signature is the pair of the key that made it and what it covers.
 */
module FloodNode {
  import opened Base

  type Key = nat
  type Origin = nat
  type Board = nat

  datatype Body =
    | Post(board: Board, text: nat)
    | Edit(target: Core, text: nat)
    | Tombstone(target: Core)

  datatype Core = Core(author: Key, origin: Origin, at: int, body: Body)

  type Id = Core

  datatype Sig = Sig(signer: Key, over: Core) | Garbage

  datatype Signed = Signed(id: Id, core: Core, authorSig: Sig, originSig: Sig)

  /** A stored post: the signed event unchanged, under the local board's name. */
  datatype PostRow = PostRow(event: Signed, board: Board)

  /** A stored follow-up: parked until its target arrives, then applied. */
  datatype Followup = Followup(event: Signed, target: Id, board: Board, applied: bool)

  datatype Node = Node(
    origin: Origin,
    key: Key,
    boards: set<Board>,
    posts: map<Id, PostRow>,
    followups: map<Id, Followup>,
    dedup: set<Id>,
    pins: map<Origin, Key>)

  /** One event on the wire: the claimed id, the event, the carried origin key. */
  datatype Delivery = Delivery(id: Id, event: Signed, key: Key)

  datatype Fired = Fired(board: Board, id: Id)

  const MAX_IHAVE_IDS := 1024
  const MAX_PULL_IDS := 1024
  const MAX_EVENTS_PER_MSG := 256

  predicate Verify(e: Signed, originKey: Key) {
    && e.id == e.core
    && e.authorSig == Sig(e.core.author, e.core)
    && e.originSig == Sig(originKey, e.core)
  }

  /** `mint`: the author and the home server both sign the core. */
  function Mint(n: Node, author: Key, at: int, body: Body): Signed {
    var core := Core(author, n.origin, at, body);
    Signed(core, core, Sig(author, core), Sig(n.key, core))
  }

  /** The only key under which `n` accepts or vouches for `origin`. */
  function OriginKey(n: Node, origin: Origin): Option<Key> {
    if origin == n.origin then Some(n.key)
    else if origin in n.pins then Some(n.pins[origin])
    else None
  }

  /** `trusted_origin_key`: a carried key selects a binding, it never makes one. */
  function TrustedOriginKey(n: Node, claimed: Origin, carried: Key): Option<Key> {
    var known := OriginKey(n, claimed);
    if known == Some(carried) then known else None
  }

  predicate FollowupAuthorized(followup: Core, target: Core) {
    followup.author == target.author || followup.origin == target.origin
  }

  predicate Held(n: Node, id: Id) {
    id in n.posts || id in n.followups
  }

  predicate Lacks(n: Node, id: Id) {
    id !in n.dedup && !Held(n, id)
  }

  predicate Parked(f: Followup, post: Id) {
    !f.applied && f.target == post
  }

  /** `reconcile_followups`: re-run the gate for follow-ups parked for `post`. */
  function Reconcile(followups: map<Id, Followup>, post: Core, board: Board): map<Id, Followup> {
    map id | id in followups
             && (Parked(followups[id], post) ==> FollowupAuthorized(followups[id].event.core, post))
      :: if Parked(followups[id], post) then followups[id].(board := board, applied := true)
         else followups[id]
  }

  datatype Outcome = Stored(node: Node, fired: Fired) | Forbidden

  /** `BoardService::ingest_event`; the caller checked that the board exists. */
  function BoardIngest(n: Node, e: Signed, board: Board): Outcome {
    match e.core.body
    case Post(own, _) =>
      Stored(n.(posts := if e.id in n.posts then n.posts else n.posts[e.id := PostRow(e, own)],
                followups := Reconcile(n.followups, e.id, own)),
             Fired(own, e.id))
    case Edit(target, _) => IngestFollowup(n, e, target, board)
    case Tombstone(target) => IngestFollowup(n, e, target, board)
  }

  function IngestFollowup(n: Node, e: Signed, target: Id, board: Board): Outcome {
    if target in n.posts then
      if FollowupAuthorized(e.core, n.posts[target].event.core) then
        var home := n.posts[target].board;
        Stored(AddFollowup(n, Followup(e, target, home, true)), Fired(home, e.id))
      else Forbidden
    else
      Stored(AddFollowup(n, Followup(e, target, board, false)), Fired(board, e.id))
  }

  function AddFollowup(n: Node, f: Followup): Node {
    if f.event.id in n.followups then n else n.(followups := n.followups[f.event.id := f])
  }

  /** What one ingest did: the new node, whether the edge marked the id, and the re-fire. */
  datatype Ingested = Ingested(node: Node, touched: bool, fired: Option<Fired>)

  /** `ingest_fed_event`, every refusal being "nothing changed". */
  function IngestEvent(n: Node, board: Board, d: Delivery): Ingested {
    var e := d.event;
    var key := TrustedOriginKey(n, e.core.origin, d.key);
    if e.id != d.id then Ingested(n, false, None)
    else if e.core.body.Post? && e.core.body.board != board then Ingested(n, false, None)
    else if key.None? || !Verify(e, key.value) then Ingested(n, false, None)
    else if (if e.core.body.Post? then d.id in n.posts else d.id in n.followups) then
      Ingested(n, true, None)
    else if d.id in n.dedup then Ingested(n, true, None)
    else
      var seen := n.dedup + {d.id};
      match BoardIngest(n, e, board)
      case Stored(n', fired) => Ingested(n'.(dedup := seen), true, Some(fired))
      case Forbidden => Ingested(n.(dedup := seen), true, None)
  }

  /** What a whole delivery did to the node, the edge's seen set and the bus. */
  datatype Batch = Batch(node: Node, seen: set<Id>, fired: seq<Fired>)

  function IngestAll(n: Node, seen: set<Id>, board: Board, ds: seq<Delivery>): Batch {
    if |ds| == 0 then Batch(n, seen, [])
    else
      var b := IngestAll(n, seen, board, ds[..|ds| - 1]);
      var d := ds[|ds| - 1];
      var i := IngestEvent(b.node, board, d);
      Batch(i.node,
            if i.touched then b.seen + {d.id} else b.seen,
            if i.fired.Some? then b.fired + [i.fired.value] else b.fired)
  }

  /** `handle_events` on a delivery within bounds: the board must exist here. */
  function Deliver(n: Node, seen: set<Id>, board: Board, ds: seq<Delivery>): Batch {
    if board in n.boards then IngestAll(n, seen, board, ds) else Batch(n, seen, [])
  }

  /** The ids of an offer that this burrow lacks, in order. */
  function Wanted(n: Node, ids: seq<Id>): seq<Id> {
    if |ids| == 0 then []
    else
      var id := ids[|ids| - 1];
      Wanted(n, ids[..|ids| - 1]) + if Lacks(n, id) then [id] else []
  }

  /** One pulled id: held, of the named board, and with an origin key we can vouch for. */
  function Serve(n: Node, board: Board, id: Id): Option<Delivery> {
    if id in n.posts then
      if n.posts[id].board == board then Vouch(n, id, n.posts[id].event) else None
    else if id in n.followups then
      if n.followups[id].board == board then Vouch(n, id, n.followups[id].event) else None
    else None
  }

  function Vouch(n: Node, id: Id, e: Signed): Option<Delivery> {
    match OriginKey(n, e.core.origin)
    case Some(key) => Some(Delivery(id, e, key))
    case None => None
  }

  function ServeAll(n: Node, board: Board, ids: seq<Id>): seq<Delivery> {
    if |ids| == 0 then []
    else
      var s := Serve(n, board, ids[|ids| - 1]);
      ServeAll(n, board, ids[..|ids| - 1]) + if s.Some? then [s.value] else []
  }

  function Ids(ds: seq<Delivery>): set<Id> {
    set d | d in ds :: d.id
  }

  function Take<T>(s: seq<T>, k: nat): seq<T> {
    if |s| <= k then s else s[..k]
  }
}
