/**
 A mesh of burrows gossiping board events over peer sessions.

 Every session is a pair of directed edges; `rev` swaps the two. Edge `e`
 holds what its source keeps for that session (the peer's declared interest,
 the seen set and the unread bus events) and the FIFO of messages on their way
 from `src[e]` to `dst[e]`. Burrows outside `honest` do whatever they like,
 except sign for an honest server key.

 A frame over its bound closes the session in the source. Here the frame is
 dropped, and no run is obliged to take further steps on that edge.
 */
module FloodNet {
  import opened Base
  import opened FloodNode

  datatype Interest = NoInterest | AllBoards | Boards(slugs: set<Board>)

  predicate Covers(i: Interest, board: Board) {
    match i
    case NoInterest => false
    case AllBoards => true
    case Boards(slugs) => board in slugs
  }

  datatype Msg =
    | IHave(board: Board, ids: seq<Id>)
    | Pull(board: Board, ids: seq<Id>)
    | Events(board: Board, ds: seq<Delivery>)

  datatype Edge = Edge(interest: Interest, seen: set<Id>, bus: seq<Fired>, chan: seq<Msg>)

  /** The fixed part: who is connected to whom, and the servers' identities. */
  datatype Topo = Topo(
    src: seq<nat>, dst: seq<nat>, rev: seq<nat>,
    honest: set<nat>, keys: seq<Key>, origins: seq<Origin>)

  /** `issued` records every core an honest server key has signed as origin. */
  datatype Net = Net(nodes: seq<Node>, edges: seq<Edge>, issued: set<(Key, Core)>)

  predicate ValidTopo(t: Topo) {
    && |t.src| == |t.dst| == |t.rev|
    && |t.keys| == |t.origins|
    && (forall e :: 0 <= e < |t.src| ==> t.src[e] < |t.keys| && t.dst[e] < |t.keys|)
    && (forall e :: 0 <= e < |t.rev| ==>
          t.rev[e] < |t.rev| && t.rev[e] != e && t.rev[t.rev[e]] == e
          && t.src[t.rev[e]] == t.dst[e] && t.dst[t.rev[e]] == t.src[e])
  }

  predicate Fits(t: Topo, s: Net) {
    && ValidTopo(t)
    && |s.edges| == |t.src|
    && |s.nodes| == |t.keys|
    && forall n :: 0 <= n < |s.nodes| ==> s.nodes[n].key == t.keys[n] && s.nodes[n].origin == t.origins[n]
  }

  predicate HonestKey(t: Topo, k: Key) {
    exists n :: n in t.honest && n < |t.keys| && t.keys[n] == k
  }

  /** Nobody but its holder signs for an honest key. */
  predicate Unforged(t: Topo, issued: set<(Key, Core)>, e: Signed) {
    e.originSig.Sig? && HonestKey(t, e.originSig.signer)
    ==> (e.originSig.signer, e.originSig.over) in issued
  }

  datatype Step =
    | Author(n: nat, author: Key, at: int, body: Body)
    | Offer(e: nat, reported: bool)
    | Lag(e: nat)
    | Receive(e: nat)
    | Reoffer(e: nat, board: Board, ids: seq<Id>)
    | Trust(n: nat, origin: Origin, key: Key)
    | Inject(e: nat, msg: Msg)
    | Discard(e: nat)

  /** The history pass offers at most this many ids in one frame. */
  const OFFER_IDS := 128

  predicate Enabled(t: Topo, s: Net, step: Step) {
    Fits(t, s) &&
    match step
    case Author(n, _, _, body) =>
      n in t.honest && n < |s.nodes| && Postable(s.nodes[n], body)
    case Offer(e, reported) =>
      && e < |s.edges| && t.src[e] in t.honest && |s.edges[e].bus| > 0
      && (s.edges[e].bus[0].id in s.edges[e].seen ==> reported)
    case Lag(e) =>
      e < |s.edges| && t.src[e] in t.honest && |s.edges[e].bus| > 0
    case Receive(e) =>
      e < |s.edges| && t.dst[e] in t.honest && |s.edges[e].chan| > 0
    case Reoffer(e, board, ids) =>
      && e < |s.edges| && t.src[e] in t.honest && |ids| <= OFFER_IDS
      && Covers(s.edges[e].interest, board)
      && forall id :: id in ids ==> HeldOn(s.nodes[t.src[e]], board, id)
    case Trust(n, origin, key) =>
      && n in t.honest && n < |s.nodes|
      && origin !in s.nodes[n].pins && key !in s.nodes[n].pins.Values
    case Inject(e, msg) =>
      && e < |s.edges| && !(t.src[e] in t.honest && t.dst[e] in t.honest)
      && (msg.Events? ==> forall d :: d in msg.ds ==> Unforged(t, s.issued, d.event))
    case Discard(e) =>
      e < |s.edges| && t.dst[e] !in t.honest && |s.edges[e].chan| > 0
  }

  /** A local author needs a postable board, or a post to follow up. */
  predicate Postable(n: Node, body: Body) {
    match body
    case Post(board, _) => board in n.boards
    case Edit(target, _) => target in n.posts
    case Tombstone(target) => target in n.posts
  }

  predicate HeldOn(n: Node, board: Board, id: Id) {
    || (id in n.posts && n.posts[id].board == board)
    || (id in n.followups && n.followups[id].board == board)
  }

  function AuthoredRow(n: Node, e: Signed): (Node, Fired)
    requires Postable(n, e.core.body)
  {
    match e.core.body
    case Post(board, _) =>
      (n.(posts := if e.id in n.posts then n.posts else n.posts[e.id := PostRow(e, board)]),
       Fired(board, e.id))
    case Edit(target, _) => AuthoredFollowup(n, e, target)
    case Tombstone(target) => AuthoredFollowup(n, e, target)
  }

  function AuthoredFollowup(n: Node, e: Signed, target: Id): (Node, Fired)
    requires target in n.posts
  {
    var board := n.posts[target].board;
    (AddFollowup(n, Followup(e, target, board, true)), Fired(board, e.id))
  }

  /** The bus reaches every session task of node `n`. */
  function Publish(t: Topo, edges: seq<Edge>, n: nat, fired: seq<Fired>): (r: seq<Edge>)
    requires |edges| == |t.src|
    ensures |r| == |edges|
    ensures forall i :: 0 <= i < |r| ==>
      r[i] == if t.src[i] == n then edges[i].(bus := edges[i].bus + fired) else edges[i]
  {
    seq(|edges|, i requires 0 <= i < |edges| =>
      if t.src[i] == n then edges[i].(bus := edges[i].bus + fired) else edges[i])
  }

  /**
   `maybe_offer` for the oldest unread bus event. `reported` is what the edge's
   Bloom filter answers: true for every id inserted, and perhaps for others.
   */
  function OfferOne(x: Edge, reported: bool): Edge
    requires |x.bus| > 0
  {
    var f := x.bus[0];
    if !Covers(x.interest, f.board) || reported then x.(bus := x.bus[1..])
    else x.(bus := x.bus[1..], seen := x.seen + {f.id}, chan := x.chan + [IHave(f.board, [f.id])])
  }

  function SetOf(ids: seq<Id>): set<Id> {
    set id | id in ids
  }

  /** `handle_ihave` on the receiver's own edge. */
  function ReplyIHave(n: Node, x: Edge, board: Board, ids: seq<Id>): Edge {
    var want := Wanted(n, ids);
    if |ids| > MAX_IHAVE_IDS || want == [] then x
    else x.(seen := x.seen + SetOf(want), chan := x.chan + [Pull(board, want)])
  }

  /** `handle_pull` on the receiver's own edge. */
  function ReplyPull(n: Node, x: Edge, board: Board, ids: seq<Id>): Edge {
    var ds := ServeAll(n, board, Take(ids, MAX_EVENTS_PER_MSG));
    if |ids| > MAX_PULL_IDS || ds == [] then x
    else x.(seen := x.seen + Ids(ds), chan := x.chan + [Events(board, ds)])
  }

  /** `handle_events`: an over-long delivery changes nothing. */
  function Accept(n: Node, x: Edge, board: Board, ds: seq<Delivery>): Batch {
    if |ds| > MAX_EVENTS_PER_MSG then Batch(n, x.seen, []) else Deliver(n, x.seen, board, ds)
  }

  function ReceiveOne(t: Topo, s: Net, e: nat): Net
    requires Enabled(t, s, Receive(e))
  {
    var n, r := t.dst[e], t.rev[e];
    var popped := s.edges[e := s.edges[e].(chan := s.edges[e].chan[1..])];
    match s.edges[e].chan[0]
    case IHave(board, ids) => s.(edges := popped[r := ReplyIHave(s.nodes[n], popped[r], board, ids)])
    case Pull(board, ids) => s.(edges := popped[r := ReplyPull(s.nodes[n], popped[r], board, ids)])
    case Events(board, ds) =>
      var b := Accept(s.nodes[n], popped[r], board, ds);
      s.(nodes := s.nodes[n := b.node],
         edges := Publish(t, popped[r := popped[r].(seen := b.seen)], n, b.fired))
  }

  function AuthorOne(t: Topo, s: Net, n: nat, author: Key, at: int, body: Body): Net
    requires Enabled(t, s, Author(n, author, at, body))
  {
    var e := Mint(s.nodes[n], author, at, body);
    var (node, fired) := AuthoredRow(s.nodes[n], e);
    Net(s.nodes[n := node], Publish(t, s.edges, n, [fired]), s.issued + {(s.nodes[n].key, e.core)})
  }

  function Next(t: Topo, s: Net, step: Step): Net {
    if !Enabled(t, s, step) then s
    else
      match step
      case Author(n, author, at, body) => AuthorOne(t, s, n, author, at, body)
      case Offer(e, reported) => s.(edges := s.edges[e := OfferOne(s.edges[e], reported)])
      case Lag(e) => s.(edges := s.edges[e := s.edges[e].(bus := s.edges[e].bus[1..])])
      case Receive(e) => ReceiveOne(t, s, e)
      case Reoffer(e, board, ids) =>
        var x := s.edges[e];
        s.(edges := s.edges[e := x.(chan := x.chan + [IHave(board, ids)], seen := x.seen + SetOf(ids))])
      case Trust(n, origin, key) =>
        s.(nodes := s.nodes[n := s.nodes[n].(pins := s.nodes[n].pins[origin := key])])
      case Inject(e, msg) =>
        s.(edges := s.edges[e := s.edges[e].(chan := s.edges[e].chan + [msg])])
      case Discard(e) =>
        s.(edges := s.edges[e := s.edges[e].(chan := s.edges[e].chan[1..])])
  }

  /** The state after a run; a step that is not enabled changes nothing. */
  function After(t: Topo, s: Net, steps: seq<Step>): (r: Net)
    ensures Fits(t, s) ==> Fits(t, r)
  {
    if |steps| == 0 then s
    else
      var before := After(t, s, steps[..|steps| - 1]);
      NextFits(t, before, steps[|steps| - 1]);
      Next(t, before, steps[|steps| - 1])
  }

  /** Sessions are up and nothing has been authored or exchanged yet. */
  predicate Init(t: Topo, s: Net) {
    && Fits(t, s)
    && s.issued == {}
    && (forall n :: 0 <= n < |s.nodes| ==>
          s.nodes[n].posts == map[] && s.nodes[n].followups == map[] && s.nodes[n].dedup == {})
    && (forall e :: 0 <= e < |s.edges| ==>
          s.edges[e].bus == [] && s.edges[e].chan == [] && s.edges[e].seen == {})
  }

  /** A delivery changes the rows and the duplicate gate, never who a node is or whom it trusts. */
  predicate SameIdentity(a: Node, b: Node) {
    a.key == b.key && a.origin == b.origin && a.boards == b.boards && a.pins == b.pins
  }

  lemma {:induction false} IngestKeepsIdentity(n: Node, seen: set<Id>, board: Board, ds: seq<Delivery>)
    ensures SameIdentity(n, IngestAll(n, seen, board, ds).node)
  {
    if |ds| > 0 {
      IngestKeepsIdentity(n, seen, board, ds[..|ds| - 1]);
    }
  }

  lemma NextFits(t: Topo, s: Net, step: Step)
    ensures Fits(t, s) ==> Fits(t, Next(t, s, step))
  {
    if Enabled(t, s, step) && step.Receive? && s.edges[step.e].chan[0].Events? {
      var x := s.edges[t.rev[step.e]];
      IngestKeepsIdentity(s.nodes[t.dst[step.e]], x.seen, s.edges[step.e].chan[0].board, s.edges[step.e].chan[0].ds);
    }
  }
}
