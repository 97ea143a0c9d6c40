/**
 Mesh convergence. Follow one post `p`, signed under its origin's key `k`. On
 a session between two honest burrows, an id in a seen set always means that
 the peer holds the post or a message carrying it is on its way, so a quiet
 mesh has the post at every burrow of a connected, ready, subscribed set.
 Hostile burrows may be attached anywhere.
 */
module FloodConvergence {
  import opened Base
  import opened FloodNode
  import opened FloodNet
  import P = FloodProvenance

  // ---- one burrow and one post ----------------------------------------------

  lemma {:induction false} WantedMember(n: Node, ids: seq<Id>, id: Id)
    ensures id in Wanted(n, ids) <==> id in ids && Lacks(n, id)
    ensures |Wanted(n, ids)| <= |ids|
  {
    if |ids| > 0 {
      WantedMember(n, ids[..|ids| - 1], id);
    }
  }

  lemma {:induction false} ServedMember(n: Node, board: Board, ids: seq<Id>, p: Id)
    ensures |ServeAll(n, board, ids)| <= |ids|
    ensures forall d :: d in ServeAll(n, board, ids) ==> d.id in ids && Serve(n, board, d.id) == Some(d)
    ensures p in ids && Serve(n, board, p).Some? ==> Serve(n, board, p).value in ServeAll(n, board, ids)
  {
    if |ids| > 0 {
      ServedMember(n, board, ids[..|ids| - 1], p);
    }
  }

  /** The duplicate gate only holds a post's id once the post is stored. */
  predicate Gated(n: Node, p: Id) {
    p in n.dedup ==> p in n.posts
  }

  /** A delivery that an honest, ready burrow must accept as the post `p`. */
  predicate Genuine(d: Delivery, p: Id, k: Key) {
    d.id == p && d.event.id == p && d.key == k && Verify(d.event, k)
  }

  lemma IngestOneFacts(n: Node, board: Board, d: Delivery, p: Id, k: Key)
    requires p.body.Post? && Gated(n, p)
    ensures var i := IngestEvent(n, board, d);
      && Gated(i.node, p)
      && (p in n.posts ==> p in i.node.posts)
      && (p in i.node.posts && p !in n.posts ==> i.fired == Some(Fired(p.body.board, p)))
      && (i.fired.Some? && i.fired.value.id == p ==> i.fired.value.board == p.body.board && p in i.node.posts)
      && (Genuine(d, p, k) && board == p.body.board && OriginKey(n, p.origin) == Some(k) ==> p in i.node.posts)
  {
  }

  lemma {:induction false} IngestFacts(n: Node, seen: set<Id>, board: Board, ds: seq<Delivery>, p: Id, k: Key)
    requires p.body.Post? && Gated(n, p)
    ensures var b := IngestAll(n, seen, board, ds);
      && Gated(b.node, p)
      && (p in n.posts ==> p in b.node.posts)
      && (p in b.node.posts && p !in n.posts ==> Fired(p.body.board, p) in b.fired)
      && (forall f :: f in b.fired && f.id == p ==> f.board == p.body.board && p in b.node.posts)
      && (p in seen ==> p in b.seen)
      && (p in b.seen ==> p in seen || exists d :: d in ds && d.id == p)
    ensures forall d :: d in ds && Genuine(d, p, k) && board == p.body.board && OriginKey(n, p.origin) == Some(k)
              ==> p in IngestAll(n, seen, board, ds).node.posts
  {
    if |ds| > 0 {
      var last := |ds| - 1;
      IngestFacts(n, seen, board, ds[..last], p, k);
      IngestKeepsIdentity(n, seen, board, ds[..last]);
      IngestOneFacts(IngestAll(n, seen, board, ds[..last]).node, board, ds[last], p, k);
    }
  }

  // ---- one session ----------------------------------------------------------

  predicate MsgOk(p: Id, srcHas: bool, dstHas: bool, srcKey: Option<Key>, m: Msg)
    requires p.body.Post?
  {
    match m
    case IHave(board, ids) =>
      |ids| <= MAX_EVENTS_PER_MSG && (p in ids ==> srcHas && board == p.body.board)
    case Pull(board, ids) =>
      |ids| <= MAX_EVENTS_PER_MSG && (p in ids ==> dstHas && board == p.body.board)
    case Events(board, ds) =>
      |ds| <= MAX_EVENTS_PER_MSG
      && forall d :: d in ds && d.id == p ==>
           srcHas && board == p.body.board && srcKey == Some(d.key) && Genuine(d, p, d.key)
  }

  predicate Carries(m: Msg, p: Id) {
    match m
    case IHave(_, ids) => p in ids
    case Pull(_, ids) => p in ids
    case Events(_, ds) => exists d :: d in ds && d.id == p
  }

  /** Something about `p` is on its way: an offer or the event forward, or a pull back. */
  predicate Flying(p: Id, chan: seq<Msg>, back: seq<Msg>) {
    || (exists m :: m in chan && !m.Pull? && Carries(m, p))
    || (exists m :: m in back && m.Pull? && Carries(m, p))
  }

  /** The state of one directed edge, as far as `p` is concerned. */
  predicate LinkOk(p: Id, ready: bool, srcHas: bool, dstHas: bool, srcKey: Option<Key>, x: Edge, back: seq<Msg>)
    requires p.body.Post?
  {
    && (forall m :: m in x.chan ==> MsgOk(p, srcHas, dstHas, srcKey, m))
    && (forall f :: f in x.bus && f.id == p ==> srcHas && f.board == p.body.board)
    && (ready && p in x.seen ==> dstHas || Flying(p, x.chan, back))
  }

  /** `p` and its key are acceptable at burrow `n` from the start. */
  predicate Ready(t: Topo, base: Net, p: Id, k: Key, n: nat) {
    && n in t.honest && n < |base.nodes|
    && p.body.Post? && p.body.board in base.nodes[n].boards
    && OriginKey(base.nodes[n], p.origin) == Some(k)
  }

  predicate HonestLink(t: Topo, e: nat)
    requires e < |t.src| == |t.dst|
  {
    t.src[e] in t.honest && t.dst[e] in t.honest
  }

  predicate LinkAt(t: Topo, base: Net, s: Net, p: Id, k: Key, e: nat)
    requires Fits(t, s) && e < |s.edges| && p.body.Post?
  {
    var a, b := t.src[e], t.dst[e];
    LinkOk(p, Ready(t, base, p, k, a) && Ready(t, base, p, k, b),
           p in s.nodes[a].posts, p in s.nodes[b].posts, OriginKey(s.nodes[a], p.origin),
           s.edges[e], s.edges[t.rev[e]].chan)
  }

  /** Boards stay, pins only grow. */
  predicate Grown(a: Node, b: Node) {
    && a.boards == b.boards && a.key == b.key && a.origin == b.origin
    && forall o :: o in a.pins ==> o in b.pins && b.pins[o] == a.pins[o]
  }

  predicate Inv(t: Topo, base: Net, s: Net, p: Id, k: Key) {
    && p.body.Post?
    && P.Inv(t, s)
    && |base.nodes| == |s.nodes|
    && (forall n :: 0 <= n < |s.nodes| ==> Grown(base.nodes[n], s.nodes[n]))
    && (forall n :: n in t.honest && n < |s.nodes| ==> Gated(s.nodes[n], p))
    && (forall e :: 0 <= e < |s.edges| && HonestLink(t, e) ==> LinkAt(t, base, s, p, k, e))
  }

  // ---- what each action does to one session ----------------------------------

  lemma BackGrows(p: Id, ready: bool, sh: bool, dh: bool, sk: Option<Key>, x: Edge, back: seq<Msg>, more: seq<Msg>)
    requires p.body.Post? && LinkOk(p, ready, sh, dh, sk, x, back)
    ensures LinkOk(p, ready, sh, dh, sk, x, back + more)
  {
  }

  /** Reading a message that is not a pull takes nothing from the reverse direction. */
  lemma BackPops(p: Id, ready: bool, sh: bool, dh: bool, sk: Option<Key>, x: Edge, back: seq<Msg>)
    requires p.body.Post? && LinkOk(p, ready, sh, dh, sk, x, back)
    requires |back| > 0
        && (back[0].Pull? && Carries(back[0], p) && ready && p in x.seen ==> dh || Flying(p, x.chan, back[1..]))
    ensures LinkOk(p, ready, sh, dh, sk, x, back[1..])
  {
    if ready && p in x.seen && !dh {
      assert forall m :: m in back && m != back[0] ==> m in back[1..];
    }
  }

  lemma OfferKeeps(p: Id, ready: bool, sh: bool, dh: bool, sk: Option<Key>, x: Edge, back: seq<Msg>, reported: bool)
    requires p.body.Post? && LinkOk(p, ready, sh, dh, sk, x, back) && |x.bus| > 0
    ensures LinkOk(p, ready, sh, dh, sk, OfferOne(x, reported), back)
  {
    var f, y := x.bus[0], OfferOne(x, reported);
    assert forall m :: m in x.chan ==> m in y.chan;
    if p in y.seen && p !in x.seen {
      assert Carries(y.chan[|x.chan|], p);
    }
  }

  lemma ReofferKeeps(p: Id, ready: bool, sh: bool, dh: bool, sk: Option<Key>, x: Edge, back: seq<Msg>,
      board: Board, ids: seq<Id>)
    requires p.body.Post? && LinkOk(p, ready, sh, dh, sk, x, back)
    requires |ids| <= OFFER_IDS && (p in ids ==> sh && board == p.body.board)
    ensures LinkOk(p, ready, sh, dh, sk, x.(chan := x.chan + [IHave(board, ids)], seen := x.seen + SetOf(ids)), back)
  {
    var m := IHave(board, ids);
    assert m in x.chan + [m];
    assert p in ids ==> Carries(m, p);
  }

  /** Reading the head of the forward channel. */
  lemma Pops(p: Id, ready: bool, sh: bool, dh: bool, sk: Option<Key>, x: Edge, back: seq<Msg>)
    requires p.body.Post? && LinkOk(p, ready, sh, dh, sk, x, back) && |x.chan| > 0
    requires ready && p in x.seen && !x.chan[0].Pull? && Carries(x.chan[0], p) ==> dh || Flying(p, x.chan[1..], back)
    ensures LinkOk(p, ready, sh, dh, sk, x.(chan := x.chan[1..]), back)
  {
    assert forall m :: m in x.chan && m != x.chan[0] ==> m in x.chan[1..];
  }

  /** The post reached one of the ends; if it is the source, the bus was told. */
  lemma Gains(p: Id, ready: bool, sh: bool, dh: bool, sk: Option<Key>, x: Edge, back: seq<Msg>,
              sh': bool, dh': bool, sk': Option<Key>, more: seq<Fired>)
    requires p.body.Post? && LinkOk(p, ready, sh, dh, sk, x, back)
    requires (sh ==> sh') && (dh ==> dh') && (sk.Some? ==> sk' == sk)
    requires sh' && !sh ==> Fired(p.body.board, p) in more
    requires forall f :: f in more && f.id == p ==> f.board == p.body.board && sh'
    ensures LinkOk(p, ready, sh', dh', sk', x.(bus := x.bus + more), back)
  {
  }

  lemma SeenGrows(p: Id, ready: bool, sh: bool, dh: bool, sk: Option<Key>, x: Edge, back: seq<Msg>, seen: set<Id>)
    requires p.body.Post? && LinkOk(p, ready, sh, dh, sk, x, back)
    requires p in x.seen ==> p in seen
    requires p in seen ==> p in x.seen || dh
    ensures LinkOk(p, ready, sh, dh, sk, x.(seen := seen), back)
  {
  }

  /** The receiver of an offer either has the post or now pulls it. */
  lemma IHaveForward(p: Id, ready: bool, sh: bool, sk: Option<Key>, x: Edge, y: Edge, n: Node,
      board: Board, ids: seq<Id>)
    requires p.body.Post? && Gated(n, p) && p !in n.followups
    requires LinkOk(p, ready, sh, p in n.posts, sk, x, y.chan)
    requires |x.chan| > 0 && x.chan[0] == IHave(board, ids)
    ensures LinkOk(p, ready, sh, p in n.posts, sk, x.(chan := x.chan[1..]), ReplyIHave(n, y, board, ids).chan)
  {
    var y' := ReplyIHave(n, y, board, ids);
    WantedMember(n, ids, p);
    var more := if y'.chan == y.chan then [] else [Pull(board, Wanted(n, ids))];
    assert y'.chan == y.chan + more;
    BackGrows(p, ready, sh, p in n.posts, sk, x, y.chan, more);
    if p in ids && p !in n.posts {
      assert x.chan[0] in x.chan;
      assert y'.chan[|y.chan|] == Pull(board, Wanted(n, ids));
    }
    Pops(p, ready, sh, p in n.posts, sk, x, y'.chan);
  }

  /** Pulling marks only ids that the offering peer holds. */
  lemma IHaveBackward(p: Id, ready: bool, dh: bool, sk: Option<Key>, y: Edge, back: seq<Msg>, n: Node,
      board: Board, ids: seq<Id>)
    requires p.body.Post? && LinkOk(p, ready, p in n.posts, dh, sk, y, back)
    requires |back| > 0 && back[0] == IHave(board, ids)
    requires |ids| <= MAX_EVENTS_PER_MSG && (p in ids ==> dh && board == p.body.board)
    ensures LinkOk(p, ready, p in n.posts, dh, sk, ReplyIHave(n, y, board, ids), back[1..])
  {
    BackPops(p, ready, p in n.posts, dh, sk, y, back);
    WantedMember(n, ids, p);
    var y' := ReplyIHave(n, y, board, ids);
    assert forall m :: m in y.chan ==> m in y'.chan;
  }

  /** A pulled post is delivered: the pull that carried it is replaced by the event. */
  lemma PullAnswered(p: Id, ready: bool, dh: bool, y: Edge, back: seq<Msg>, n: Node, board: Board, ids: seq<Id>)
    requires p.body.Post? && LinkOk(p, ready, p in n.posts, dh, OriginKey(n, p.origin), y, back)
    requires p in n.posts ==> n.posts[p].board == p.body.board && n.posts[p].event.id == p
                              && OriginKey(n, p.origin).Some? && Verify(n.posts[p].event, OriginKey(n, p.origin).value)
    requires p !in n.followups
    requires |back| > 0 && back[0] == Pull(board, ids)
    requires |ids| <= MAX_EVENTS_PER_MSG && (p in ids ==> p in n.posts && board == p.body.board)
    ensures LinkOk(p, ready, p in n.posts, dh, OriginKey(n, p.origin), ReplyPull(n, y, board, ids), back[1..])
  {
    var y' := ReplyPull(n, y, board, ids);
    var ds := ServeAll(n, board, ids);
    ServedMember(n, board, ids, p);
    assert forall m :: m in y.chan ==> m in y'.chan;
    assert forall m :: m in back && m != back[0] ==> m in back[1..];
    if ds != [] {
      assert y'.chan[|y.chan|] == Events(board, ds);
      if p in ids {
        assert Serve(n, board, p).value in ds;
        assert Carries(Events(board, ds), p);
      }
    }
  }

  lemma PullForward(p: Id, ready: bool, sh: bool, dh: bool, sk: Option<Key>, x: Edge, y: Edge, n: Node,
      board: Board, ids: seq<Id>)
    requires p.body.Post? && LinkOk(p, ready, sh, dh, sk, x, y.chan)
    requires |x.chan| > 0 && x.chan[0] == Pull(board, ids)
    ensures LinkOk(p, ready, sh, dh, sk, x.(chan := x.chan[1..]), ReplyPull(n, y, board, ids).chan)
  {
    var y' := ReplyPull(n, y, board, ids);
    var more := if y'.chan == y.chan then [] else [Events(board, ServeAll(n, board, Take(ids, MAX_EVENTS_PER_MSG)))];
    assert y'.chan == y.chan + more;
    BackGrows(p, ready, sh, dh, sk, x, y.chan, more);
    Pops(p, ready, sh, dh, sk, x, y'.chan);
  }

  // ---- the whole mesh ---------------------------------------------------------

  /** What the provenance invariant says about `p` at an honest burrow. */
  lemma NodeFacts(t: Topo, s: Net, p: Id, n: nat)
    requires P.Inv(t, s) && p.body.Post? && n in t.honest && n < |s.nodes|
    ensures p !in s.nodes[n].followups
    ensures p in s.nodes[n].posts ==>
      && s.nodes[n].posts[p].board == p.body.board && s.nodes[n].posts[p].event.id == p
      && OriginKey(s.nodes[n], p.origin).Some?
      && Verify(s.nodes[n].posts[p].event, OriginKey(s.nodes[n], p.origin).value)
  {
    var node := s.nodes[n];
    assert P.Authentic(t, s.issued, node);
    if p in node.posts {
      assert P.Vouched(t, s.issued, node, p, node.posts[p].event);
    }
  }

  lemma {:induction false} InitInv(t: Topo, s: Net, p: Id, k: Key)
    requires Init(t, s) && p.body.Post?
    ensures Inv(t, s, s, p, k)
  {
  }

  /** One edge changed; only it and its reverse need looking at. */
  lemma EdgeStep(t: Topo, base: Net, s: Net, p: Id, k: Key, e: nat, x: Edge)
    requires Inv(t, base, s, p, k) && e < |s.edges|
    requires P.Inv(t, s.(edges := s.edges[e := x]))
    requires HonestLink(t, e) ==>
      LinkAt(t, base, s.(edges := s.edges[e := x]), p, k, e)
          && LinkAt(t, base, s.(edges := s.edges[e := x]), p, k, t.rev[e])
    ensures Inv(t, base, s.(edges := s.edges[e := x]), p, k)
  {
    var s' := s.(edges := s.edges[e := x]);
    forall i | 0 <= i < |s.edges| && HonestLink(t, i)
      ensures LinkAt(t, base, s', p, k, i)
    {
      assert LinkAt(t, base, s, p, k, i);
    }
  }

  lemma OfferStep(t: Topo, base: Net, s: Net, p: Id, k: Key, e: nat, reported: bool)
    requires Inv(t, base, s, p, k) && Enabled(t, s, Offer(e, reported))
    ensures Inv(t, base, Next(t, s, Offer(e, reported)), p, k)
  {
    P.StepInv(t, s, Offer(e, reported));
    var x, y := s.edges[e], OfferOne(s.edges[e], reported);
    if HonestLink(t, e) {
      var r, a, b := t.rev[e], t.src[e], t.dst[e];
      var ready := Ready(t, base, p, k, a) && Ready(t, base, p, k, b);
      assert LinkAt(t, base, s, p, k, e) && LinkAt(t, base, s, p, k, r);
      OfferKeeps(p, ready, p in s.nodes[a].posts, p in s.nodes[b].posts, OriginKey(s.nodes[a], p.origin),
                 x, s.edges[r].chan, reported);
      BackGrows(p, ready, p in s.nodes[b].posts, p in s.nodes[a].posts, OriginKey(s.nodes[b], p.origin),
                s.edges[r], x.chan, y.chan[|x.chan|..]);
      assert y.chan == x.chan + y.chan[|x.chan|..];
    }
    EdgeStep(t, base, s, p, k, e, y);
  }

  lemma LagStep(t: Topo, base: Net, s: Net, p: Id, k: Key, e: nat)
    requires Inv(t, base, s, p, k) && Enabled(t, s, Lag(e))
    ensures Inv(t, base, Next(t, s, Lag(e)), p, k)
  {
    P.StepInv(t, s, Lag(e));
    if HonestLink(t, e) {
      assert LinkAt(t, base, s, p, k, e) && LinkAt(t, base, s, p, k, t.rev[e]);
    }
    EdgeStep(t, base, s, p, k, e, s.edges[e].(bus := s.edges[e].bus[1..]));
  }

  lemma ReofferStep(t: Topo, base: Net, s: Net, p: Id, k: Key, e: nat, board: Board, ids: seq<Id>)
    requires Inv(t, base, s, p, k) && Enabled(t, s, Reoffer(e, board, ids))
    ensures Inv(t, base, Next(t, s, Reoffer(e, board, ids)), p, k)
  {
    var step := Reoffer(e, board, ids);
    P.StepInv(t, s, step);
    var x' := Next(t, s, step).edges[e];
    if HonestLink(t, e) {
      var r, a, b := t.rev[e], t.src[e], t.dst[e];
      var ready := Ready(t, base, p, k, a) && Ready(t, base, p, k, b);
      assert LinkAt(t, base, s, p, k, e) && LinkAt(t, base, s, p, k, r);
      NodeFacts(t, s, p, a);
      ReofferKeeps(p, ready, p in s.nodes[a].posts, p in s.nodes[b].posts, OriginKey(s.nodes[a], p.origin),
                   s.edges[e], s.edges[r].chan, board, ids);
      BackGrows(p, ready, p in s.nodes[b].posts, p in s.nodes[a].posts, OriginKey(s.nodes[b], p.origin),
                s.edges[r], s.edges[e].chan, [IHave(board, ids)]);
    }
    EdgeStep(t, base, s, p, k, e, x');
  }

  /** A reply to an offer or a pull changes the two edges of one session. */
  lemma SessionStep(t: Topo, base: Net, s: Net, p: Id, k: Key, e: nat, s': Net)
    requires Inv(t, base, s, p, k) && e < |s.edges| && P.Inv(t, s')
    requires s'.nodes == s.nodes && s'.edges == s.edges[e := s'.edges[e]][t.rev[e] := s'.edges[t.rev[e]]]
    requires HonestLink(t, e) ==> LinkAt(t, base, s', p, k, e) && LinkAt(t, base, s', p, k, t.rev[e])
    ensures Inv(t, base, s', p, k)
  {
    forall i | 0 <= i < |s.edges| && HonestLink(t, i)
      ensures LinkAt(t, base, s', p, k, i)
    {
      assert LinkAt(t, base, s, p, k, i);
    }
  }

  lemma IHaveStep(t: Topo, base: Net, s: Net, p: Id, k: Key, e: nat)
    requires Inv(t, base, s, p, k) && Enabled(t, s, Receive(e)) && s.edges[e].chan[0].IHave? && HonestLink(t, e)
    ensures var s' := ReceiveOne(t, s, e);
      LinkAt(t, base, s', p, k, e) && LinkAt(t, base, s', p, k, t.rev[e])
  {
    hide Serve, Take, P.Inv;
    var r, a, b := t.rev[e], t.src[e], t.dst[e];
    var x, y, n := s.edges[e], s.edges[r], s.nodes[b];
    var ready := Ready(t, base, p, k, a) && Ready(t, base, p, k, b);
    var sh, sk := p in s.nodes[a].posts, OriginKey(s.nodes[a], p.origin);
    assert LinkAt(t, base, s, p, k, e) && LinkAt(t, base, s, p, k, r);
    NodeFacts(t, s, p, b);
    assert x.chan[0] in x.chan;
    IHaveForward(p, ready, sh, sk, x, y, n, x.chan[0].board, x.chan[0].ids);
    IHaveBackward(p, ready, sh, OriginKey(n, p.origin), y, x.chan, n, x.chan[0].board, x.chan[0].ids);
  }

  lemma PullStep(t: Topo, base: Net, s: Net, p: Id, k: Key, e: nat)
    requires Inv(t, base, s, p, k) && Enabled(t, s, Receive(e)) && s.edges[e].chan[0].Pull? && HonestLink(t, e)
    ensures var s' := ReceiveOne(t, s, e);
      LinkAt(t, base, s', p, k, e) && LinkAt(t, base, s', p, k, t.rev[e])
  {
    hide Serve, Take, P.Inv;
    var r, a, b := t.rev[e], t.src[e], t.dst[e];
    var x, y, n := s.edges[e], s.edges[r], s.nodes[b];
    var ready := Ready(t, base, p, k, a) && Ready(t, base, p, k, b);
    var sh, sk := p in s.nodes[a].posts, OriginKey(s.nodes[a], p.origin);
    assert LinkAt(t, base, s, p, k, e) && LinkAt(t, base, s, p, k, r);
    NodeFacts(t, s, p, b);
    assert x.chan[0] in x.chan;
    PullForward(p, ready, sh, p in n.posts, sk, x, y, n, x.chan[0].board, x.chan[0].ids);
    PullAnswered(p, ready, sh, y, x.chan, n, x.chan[0].board, x.chan[0].ids);
  }

  lemma ReplyStep(t: Topo, base: Net, s: Net, p: Id, k: Key, e: nat)
    requires Inv(t, base, s, p, k) && Enabled(t, s, Receive(e)) && !s.edges[e].chan[0].Events?
    ensures Inv(t, base, ReceiveOne(t, s, e), p, k)
  {
    hide Serve, Take, LinkAt;
    P.StepInv(t, s, Receive(e));
    if HonestLink(t, e) {
      if s.edges[e].chan[0].IHave? {
        IHaveStep(t, base, s, p, k, e);
      } else {
        PullStep(t, base, s, p, k, e);
      }
    }
    SessionStep(t, base, s, p, k, e, ReceiveOne(t, s, e));
  }

  /** What a node's change and its bus events must satisfy for the sessions to follow. */
  predicate NodeStep(p: Id, n: Node, n': Node, fired: seq<Fired>)
    requires p.body.Post?
  {
    && Grown(n, n') && Gated(n', p)
    && (p in n.posts ==> p in n'.posts)
    && (p in n'.posts && p !in n.posts ==> Fired(p.body.board, p) in fired)
    && (forall f :: f in fired && f.id == p ==> f.board == p.body.board && p in n'.posts)
  }

  /** Any session, after node `n` became `n'` and published `fired`. */
  lemma Republished(t: Topo, base: Net, s: Net, p: Id, k: Key, n: nat, n': Node, fired: seq<Fired>, i: nat)
    requires Inv(t, base, s, p, k) && n < |s.nodes| && NodeStep(p, s.nodes[n], n', fired)
    requires i < |s.edges| && HonestLink(t, i)
    ensures var nodes, a, b := s.nodes[n := n'], t.src[i], t.dst[i];
      LinkOk(p, Ready(t, base, p, k, a) && Ready(t, base, p, k, b),
             p in nodes[a].posts, p in nodes[b].posts, OriginKey(nodes[a], p.origin),
             Publish(t, s.edges, n, fired)[i], s.edges[t.rev[i]].chan)
  {
    var nodes, a, b := s.nodes[n := n'], t.src[i], t.dst[i];
    assert LinkAt(t, base, s, p, k, i);
    Gains(p, Ready(t, base, p, k, a) && Ready(t, base, p, k, b),
          p in s.nodes[a].posts, p in s.nodes[b].posts, OriginKey(s.nodes[a], p.origin),
          s.edges[i], s.edges[t.rev[i]].chan,
          p in nodes[a].posts, p in nodes[b].posts, OriginKey(nodes[a], p.origin), if a == n then fired else []);
    if a != n {
      assert s.edges[i].(bus := s.edges[i].bus + []) == s.edges[i];
    }
  }

  /** A burrow changed and told its bus; no channel moved. */
  lemma LocalStep(t: Topo, base: Net, s: Net, p: Id, k: Key, n: nat, n': Node, fired: seq<Fired>,
      issued: set<(Key, Core)>)
    requires Inv(t, base, s, p, k) && n < |s.nodes| && NodeStep(p, s.nodes[n], n', fired)
    requires P.Inv(t, Net(s.nodes[n := n'], Publish(t, s.edges, n, fired), issued))
    ensures Inv(t, base, Net(s.nodes[n := n'], Publish(t, s.edges, n, fired), issued), p, k)
  {
    var s' := Net(s.nodes[n := n'], Publish(t, s.edges, n, fired), issued);
    forall i | 0 <= i < |s.edges| && HonestLink(t, i)
      ensures LinkAt(t, base, s', p, k, i)
    {
      Republished(t, base, s, p, k, n, n', fired, i);
    }
    assert Grown(base.nodes[n], s.nodes[n]);
  }

  lemma AcceptFacts(t: Topo, base: Net, s: Net, p: Id, k: Key, e: nat)
    requires Inv(t, base, s, p, k) && Enabled(t, s, Receive(e)) && s.edges[e].chan[0].Events?
    ensures var m, n, y := s.edges[e].chan[0], s.nodes[t.dst[e]], s.edges[t.rev[e]];
      var b := Accept(n, y, m.board, m.ds);
      && NodeStep(p, n, b.node, b.fired)
      && (p in y.seen ==> p in b.seen)
      && (HonestLink(t, e) && p in b.seen && p !in y.seen ==> p in s.nodes[t.src[e]].posts)
      && (HonestLink(t, e) && Carries(m, p) && Ready(t, base, p, k, t.src[e]) && Ready(t, base, p, k, t.dst[e])
          ==> p in b.node.posts)
  {
    hide IngestAll;
    var m, n, y := s.edges[e].chan[0], s.nodes[t.dst[e]], s.edges[t.rev[e]];
    IngestFacts(n, y.seen, m.board, m.ds, p, k);
    IngestKeepsIdentity(n, y.seen, m.board, m.ds);
    assert Grown(base.nodes[t.dst[e]], n) && Grown(base.nodes[t.src[e]], s.nodes[t.src[e]]);
    if HonestLink(t, e) {
      assert LinkAt(t, base, s, p, k, e);
      assert m in s.edges[e].chan;
    }
  }

  /** The session that carried the delivery, after it was read. */
  lemma EventsLinks(t: Topo, base: Net, s: Net, p: Id, k: Key, e: nat)
    requires Inv(t, base, s, p, k) && Enabled(t, s, Receive(e)) && s.edges[e].chan[0].Events?
    requires HonestLink(t, e)
    ensures Fits(t, ReceiveOne(t, s, e))
    ensures LinkAt(t, base, ReceiveOne(t, s, e), p, k, e)
    ensures LinkAt(t, base, ReceiveOne(t, s, e), p, k, t.rev[e])
  {
    hide Accept, Ready, LinkOk, OriginKey, P.Inv;
    NextFits(t, s, Receive(e));
    var m, n, r := s.edges[e].chan[0], t.dst[e], t.rev[e];
    var b := Accept(s.nodes[n], s.edges[r], m.board, m.ds);
    AcceptFacts(t, base, s, p, k, e);
    var mid, nodes, c := Publish(t, s.edges, n, b.fired), s.nodes[n := b.node], t.src[e];
    var ready := Ready(t, base, p, k, c) && Ready(t, base, p, k, n);
    Republished(t, base, s, p, k, n, b.node, b.fired, e);
    Pops(p, ready, p in nodes[c].posts, p in nodes[n].posts, OriginKey(nodes[c], p.origin), mid[e], s.edges[r].chan);
    Republished(t, base, s, p, k, n, b.node, b.fired, r);
    SeenGrows(p, ready, p in nodes[n].posts, p in nodes[c].posts, OriginKey(nodes[n], p.origin), mid[r],
        s.edges[e].chan, b.seen);
    BackPops(p, ready, p in nodes[n].posts, p in nodes[c].posts, OriginKey(nodes[n], p.origin),
        mid[r].(seen := b.seen), s.edges[e].chan);
  }

  /** Every other session sees at most a bus event. */
  lemma OtherLink(t: Topo, base: Net, s: Net, p: Id, k: Key, e: nat, i: nat)
    requires Inv(t, base, s, p, k) && Enabled(t, s, Receive(e)) && s.edges[e].chan[0].Events?
    requires i < |s.edges| && i != e && i != t.rev[e] && HonestLink(t, i)
    ensures Fits(t, ReceiveOne(t, s, e)) && LinkAt(t, base, ReceiveOne(t, s, e), p, k, i)
  {
    hide Accept, Ready, LinkOk, OriginKey, P.Inv;
    NextFits(t, s, Receive(e));
    var m, n := s.edges[e].chan[0], t.dst[e];
    var b := Accept(s.nodes[n], s.edges[t.rev[e]], m.board, m.ds);
    AcceptFacts(t, base, s, p, k, e);
    Republished(t, base, s, p, k, n, b.node, b.fired, i);
  }

  lemma Assemble(t: Topo, base: Net, s: Net, s': Net, p: Id, k: Key, n: nat)
    requires Inv(t, base, s, p, k) && P.Inv(t, s') && n < |s.nodes|
    requires s'.nodes == s.nodes[n := s'.nodes[n]] && Grown(s.nodes[n], s'.nodes[n]) && Gated(s'.nodes[n], p)
    requires forall i :: 0 <= i < |s'.edges| && HonestLink(t, i) ==> LinkAt(t, base, s', p, k, i)
    ensures Inv(t, base, s', p, k)
  {
    assert Grown(base.nodes[n], s.nodes[n]);
  }

  lemma EventsStep(t: Topo, base: Net, s: Net, p: Id, k: Key, e: nat)
    requires Inv(t, base, s, p, k) && Enabled(t, s, Receive(e)) && s.edges[e].chan[0].Events?
    ensures Inv(t, base, ReceiveOne(t, s, e), p, k)
  {
    P.StepInv(t, s, Receive(e));
    var s' := ReceiveOne(t, s, e);
    forall i | 0 <= i < |s'.edges| && HonestLink(t, i)
      ensures LinkAt(t, base, s', p, k, i)
    {
      if i == e || i == t.rev[e] {
        EventsLinks(t, base, s, p, k, e);
      } else {
        OtherLink(t, base, s, p, k, e, i);
      }
    }
    AcceptFacts(t, base, s, p, k, e);
    Assemble(t, base, s, s', p, k, t.dst[e]);
  }

  lemma AuthorStep(t: Topo, base: Net, s: Net, p: Id, k: Key, n: nat, author: Key, at: int, body: Body)
    requires Inv(t, base, s, p, k) && Enabled(t, s, Author(n, author, at, body))
    ensures Inv(t, base, AuthorOne(t, s, n, author, at, body), p, k)
  {
    hide ValidTopo, LinkOk;
    P.StepInv(t, s, Author(n, author, at, body));
    var (n', fired) := AuthoredRow(s.nodes[n], Mint(s.nodes[n], author, at, body));
    LocalStep(t, base, s, p, k, n, n', [fired], AuthorOne(t, s, n, author, at, body).issued);
  }

  lemma TrustStep(t: Topo, base: Net, s: Net, p: Id, k: Key, n: nat, origin: Origin, key: Key)
    requires Inv(t, base, s, p, k) && Enabled(t, s, Trust(n, origin, key))
    ensures Inv(t, base, Next(t, s, Trust(n, origin, key)), p, k)
  {
    P.StepInv(t, s, Trust(n, origin, key));
    var n' := Next(t, s, Trust(n, origin, key)).nodes[n];
    forall i | 0 <= i < |s.edges|
      ensures Publish(t, s.edges, n, [])[i] == s.edges[i]
    {
      assert s.edges[i].bus + [] == s.edges[i].bus;
    }
    assert Publish(t, s.edges, n, []) == s.edges;
    LocalStep(t, base, s, p, k, n, n', [], s.issued);
  }

  lemma StepInv(t: Topo, base: Net, s: Net, p: Id, k: Key, step: Step)
    requires Inv(t, base, s, p, k)
    ensures Inv(t, base, Next(t, s, step), p, k)
  {
    if Enabled(t, s, step) {
      match step {
        case Author(n, author, at, body) => AuthorStep(t, base, s, p, k, n, author, at, body);
        case Offer(e, reported) => OfferStep(t, base, s, p, k, e, reported);
        case Lag(e) => LagStep(t, base, s, p, k, e);
        case Receive(e) =>
          if s.edges[e].chan[0].Events? {
            EventsStep(t, base, s, p, k, e);
          } else {
            ReplyStep(t, base, s, p, k, e);
          }
        case Reoffer(e, board, ids) => ReofferStep(t, base, s, p, k, e, board, ids);
        case Trust(n, origin, key) => TrustStep(t, base, s, p, k, n, origin, key);
        case Inject(e, _) =>
          P.StepInv(t, s, step);
          EdgeStep(t, base, s, p, k, e, Next(t, s, step).edges[e]);
        case Discard(e) =>
          P.StepInv(t, s, step);
          EdgeStep(t, base, s, p, k, e, Next(t, s, step).edges[e]);
      }
    }
  }

  lemma {:induction false} RunInv(t: Topo, s: Net, p: Id, k: Key, steps: seq<Step>)
    requires Init(t, s) && p.body.Post?
    ensures Inv(t, s, After(t, s, steps), p, k)
  {
    if |steps| == 0 {
      InitInv(t, s, p, k);
    } else {
      RunInv(t, s, p, k, steps[..|steps| - 1]);
      StepInv(t, s, After(t, s, steps[..|steps| - 1]), p, k, steps[|steps| - 1]);
    }
  }

  // ---- lost offers ---------------------------------------------------------------

  /**
   The step reads the bus event of `p` on edge `e`, which should be offered, and does
   not: the filter or a lagging bus.
   */
  predicate Loses(t: Topo, s: Net, step: Step, p: Id, e: nat)
    requires p.body.Post?
  {
    && (step == Offer(e, true) || step == Lag(e)) && Enabled(t, s, step)
    && s.edges[e].bus[0].id == p && Covers(s.edges[e].interest, p.body.board) && p !in s.edges[e].seen
  }

  /** In this run the offer of `p` on edge `e` was lost, and nothing about `p` has gone out on `e` since. */
  ghost predicate Unrepaired(t: Topo, s: Net, steps: seq<Step>, p: Id, e: nat)
    requires Fits(t, s) && p.body.Post? && e < |t.src|
  {
    exists i :: 0 <= i < |steps| && Loses(t, After(t, s, steps[..i]), steps[i], p, e)
                && forall j :: i < j <= |steps| ==> p !in After(t, s, steps[..j]).edges[e].seen
  }

  /** A holder that should offer `p` has it marked, has its bus event unread, or has lost it. */
  predicate Heard(t: Topo, s: Net, p: Id, e: nat, lost: bool)
    requires Fits(t, s) && p.body.Post? && e < |t.src|
  {
    p in s.nodes[t.src[e]].posts && Covers(s.edges[e].interest, p.body.board)
    ==> p in s.edges[e].seen || Fired(p.body.board, p) in s.edges[e].bus || lost
  }

  lemma HeardOffer(t: Topo, base: Net, s: Net, p: Id, k: Key, e: nat, lost: bool, step: Step)
    requires Inv(t, base, s, p, k) && e < |t.src| && HonestLink(t, e) && Heard(t, s, p, e, lost)
    requires Enabled(t, s, step) && (step.Offer? || step.Lag?)
    ensures Fits(t, Next(t, s, step)) && Heard(t, Next(t, s, step), p, e, lost || Loses(t, s, step, p, e))
    ensures s.edges[e].seen <= Next(t, s, step).edges[e].seen
        && Next(t, s, step).edges[e].interest == s.edges[e].interest
  {
    if step.e == e {
      var x := s.edges[e];
      assert LinkAt(t, base, s, p, k, e);
      assert x.bus[0] in x.bus;
      assert forall g :: g in x.bus && g != x.bus[0] ==> g in x.bus[1..];
    }
  }

  /** A burrow that changed has told its bus; edges only gain events and marks. */
  lemma HeardNode(t: Topo, s: Net, s': Net, p: Id, e: nat, lost: bool, n: nat, fired: seq<Fired>)
    requires Fits(t, s) && Fits(t, s') && p.body.Post? && e < |t.src| && Heard(t, s, p, e, lost) && n < |s.nodes|
    requires s'.nodes == s.nodes[n := s'.nodes[n]] && NodeStep(p, s.nodes[n], s'.nodes[n], fired)
    requires s'.edges[e].interest == s.edges[e].interest && s.edges[e].seen <= s'.edges[e].seen
    requires s'.edges[e].bus == if t.src[e] == n then s.edges[e].bus + fired else s.edges[e].bus
    ensures Heard(t, s', p, e, lost)
  {
  }

  lemma {:induction false} SeenStays(n: Node, seen: set<Id>, board: Board, ds: seq<Delivery>)
    ensures seen <= IngestAll(n, seen, board, ds).seen
  {
    if |ds| > 0 {
      SeenStays(n, seen, board, ds[..|ds| - 1]);
    }
  }

  lemma HeardAuthor(t: Topo, base: Net, s: Net, p: Id, k: Key, e: nat, lost: bool, n: nat, author: Key,
      at: int, body: Body)
    requires Inv(t, base, s, p, k) && e < |t.src| && Heard(t, s, p, e, lost)
        && Enabled(t, s, Author(n, author, at, body))
    ensures var s' := AuthorOne(t, s, n, author, at, body);
      Fits(t, s') && Heard(t, s', p, e, lost) && s.edges[e].seen <= s'.edges[e].seen
          && s'.edges[e].interest == s.edges[e].interest
  {
    NextFits(t, s, Author(n, author, at, body));
    var (n', fired) := AuthoredRow(s.nodes[n], Mint(s.nodes[n], author, at, body));
    HeardNode(t, s, AuthorOne(t, s, n, author, at, body), p, e, lost, n, [fired]);
  }

  lemma HeardEvents(t: Topo, base: Net, s: Net, p: Id, k: Key, e: nat, lost: bool, i: nat)
    requires Inv(t, base, s, p, k) && e < |t.src| && Heard(t, s, p, e, lost)
    requires Enabled(t, s, Receive(i)) && s.edges[i].chan[0].Events?
    ensures var s' := ReceiveOne(t, s, i);
      Fits(t, s') && Heard(t, s', p, e, lost) && s.edges[e].seen <= s'.edges[e].seen
          && s'.edges[e].interest == s.edges[e].interest
  {
    hide IngestAll, LinkOk, P.Inv, BoardIngest;
    NextFits(t, s, Receive(i));
    var m, n, y := s.edges[i].chan[0], t.dst[i], s.edges[t.rev[i]];
    var b := Accept(s.nodes[n], y, m.board, m.ds);
    AcceptFacts(t, base, s, p, k, i);
    SeenStays(s.nodes[n], y.seen, m.board, m.ds);
    HeardNode(t, s, ReceiveOne(t, s, i), p, e, lost, n, b.fired);
  }

  /** Pins, re-offers, injections, discards and replies touch neither posts nor buses, and only add marks. */
  lemma HeardElse(t: Topo, s: Net, p: Id, e: nat, lost: bool, step: Step)
    requires Fits(t, s) && p.body.Post? && e < |t.src| && Heard(t, s, p, e, lost) && Enabled(t, s, step)
    requires !step.Offer? && !step.Lag? && !step.Author? && !(step.Receive? && s.edges[step.e].chan[0].Events?)
    ensures Fits(t, Next(t, s, step)) && Heard(t, Next(t, s, step), p, e, lost)
    ensures s.edges[e].seen <= Next(t, s, step).edges[e].seen
        && Next(t, s, step).edges[e].interest == s.edges[e].interest
  {
    hide Wanted, ServeAll, Unforged;
    NextFits(t, s, step);
    assert Next(t, s, step).nodes[t.src[e]].posts == s.nodes[t.src[e]].posts;
    assert Next(t, s, step).edges[e].bus == s.edges[e].bus;
  }

  lemma HeardStep(t: Topo, base: Net, s: Net, p: Id, k: Key, e: nat, lost: bool, step: Step)
    requires Inv(t, base, s, p, k) && e < |t.src| && HonestLink(t, e) && Heard(t, s, p, e, lost)
    ensures Fits(t, Next(t, s, step)) && Heard(t, Next(t, s, step), p, e, lost || Loses(t, s, step, p, e))
    ensures s.edges[e].seen <= Next(t, s, step).edges[e].seen
        && Next(t, s, step).edges[e].interest == s.edges[e].interest
  {
    if Enabled(t, s, step) {
      if step.Offer? || step.Lag? {
        HeardOffer(t, base, s, p, k, e, lost, step);
      } else if step.Author? {
        HeardAuthor(t, base, s, p, k, e, lost, step.n, step.author, step.at, step.body);
      } else if step.Receive? && s.edges[step.e].chan[0].Events? {
        HeardEvents(t, base, s, p, k, e, lost, step.e);
      } else {
        HeardElse(t, s, p, e, lost, step);
      }
      hide Inv, Heard, ReceiveOne, AuthorOne, LinkAt;
    }
  }

  /** A subscription stays as it is. */
  lemma {:induction false} InterestStays(t: Topo, s: Net, steps: seq<Step>, p: Id, k: Key, e: nat)
    requires Init(t, s) && p.body.Post? && e < |t.src| && HonestLink(t, e)
    ensures After(t, s, steps).edges[e].interest == s.edges[e].interest
  {
    if |steps| > 0 {
      var last := |steps| - 1;
      InterestStays(t, s, steps[..last], p, k, e);
      RunInv(t, s, p, k, steps[..last]);
      HeardStep(t, s, After(t, s, steps[..last]), p, k, e, true, steps[last]);
    }
  }

  /** A mark once made stays. */
  lemma {:induction false} MarksStay(t: Topo, s: Net, steps: seq<Step>, p: Id, k: Key, e: nat, i: nat)
    requires Init(t, s) && p.body.Post? && e < |t.src| && HonestLink(t, e) && i <= |steps|
    ensures After(t, s, steps[..i]).edges[e].seen <= After(t, s, steps).edges[e].seen
    decreases |steps|
  {
    if i == |steps| {
      assert steps[..i] == steps;
    } else {
      var last := |steps| - 1;
      MarksStay(t, s, steps[..last], p, k, e, i);
      assert steps[..last][..i] == steps[..i];
      RunInv(t, s, p, k, steps[..last]);
      HeardStep(t, s, After(t, s, steps[..last]), p, k, e, true, steps[last]);
    }
  }

  /** After any run a holder that should offer `p` has it marked or unread, or there is a step that lost it. */
  lemma {:induction false} HeardOrLost(t: Topo, s: Net, steps: seq<Step>, p: Id, k: Key, e: nat) returns (i: int)
    requires Init(t, s) && p.body.Post? && e < |t.src| && HonestLink(t, e)
    ensures -1 <= i < |steps| && Heard(t, After(t, s, steps), p, e, i >= 0)
    ensures i >= 0 ==> Loses(t, After(t, s, steps[..i]), steps[i], p, e)
  {
    i := -1;
    if |steps| > 0 {
      var last := |steps| - 1;
      i := HeardOrLost(t, s, steps[..last], p, k, e);
      assert i >= 0 ==> steps[..last][..i] == steps[..i];
      RunInv(t, s, p, k, steps[..last]);
      HeardStep(t, s, After(t, s, steps[..last]), p, k, e, i >= 0, steps[last]);
      if Loses(t, After(t, s, steps[..last]), steps[last], p, e) {
        i := last;
      }
    }
  }

  /** When its bus is read out, a holder that should offer `p` has marked it exactly if no loss of it is outstanding. */
  lemma {:induction false} MarkedExactlyWhen(t: Topo, s: Net, steps: seq<Step>, p: Id, k: Key, e: nat)
    requires Init(t, s) && p.body.Post? && e < |t.src| && HonestLink(t, e)
    requires p in After(t, s, steps).nodes[t.src[e]].posts && Covers(s.edges[e].interest, p.body.board)
    requires After(t, s, steps).edges[e].bus == []
    ensures p in After(t, s, steps).edges[e].seen <==> !Unrepaired(t, s, steps, p, e)
  {
    var i := HeardOrLost(t, s, steps, p, k, e);
    InterestStays(t, s, steps, p, k, e);
    assert steps[..|steps|] == steps;
    if p !in After(t, s, steps).edges[e].seen {
      forall j | i < j <= |steps|
        ensures p !in After(t, s, steps[..j]).edges[e].seen
      {
        if j >= 0 {
          MarksStay(t, s, steps, p, k, e, j);
        }
      }
      assert i >= 0;
    }
  }

  // ---- convergence --------------------------------------------------------------

  /** A walk through edges between honest burrows that are ready for `p` and want its board. */
  predicate Walk(t: Topo, base: Net, s: Net, p: Id, k: Key, a: nat, path: seq<nat>, z: nat)
    requires Fits(t, s)
    decreases |path|
  {
    if |path| == 0 then a == z
    else
      var e := path[0];
      && e < |s.edges| && t.src[e] == a
      && Ready(t, base, p, k, a) && Ready(t, base, p, k, t.dst[e])
      && Covers(s.edges[e].interest, p.body.board)
      && Walk(t, base, s, p, k, t.dst[e], path[1..], z)
  }

  /** Nothing is waiting on the walk's sessions: no bus event, no message either way. */
  predicate Quiet(t: Topo, s: Net, path: seq<nat>)
    requires Fits(t, s)
  {
    forall i :: 0 <= i < |path| ==>
      && path[i] < |s.edges|
      && s.edges[path[i]].bus == [] && s.edges[path[i]].chan == [] && s.edges[t.rev[path[i]]].chan == []
  }

  /** On a quiet session between ready burrows, a marked post is at the far end. */
  lemma {:induction false} CarriedAcross(t: Topo, s: Net, steps: seq<Step>, p: Id, k: Key, e: nat)
    requires Init(t, s) && p.body.Post? && e < |t.src|
    requires Ready(t, s, p, k, t.src[e]) && Ready(t, s, p, k, t.dst[e]) && Quiet(t, After(t, s, steps), [e])
    requires p in After(t, s, steps).edges[e].seen
    ensures p in After(t, s, steps).nodes[t.dst[e]].posts
  {
    SeenMeansHeldOrFlying(t, s, steps, p, k, e);
    assert [e][0] == e;
  }

  lemma {:induction false} CarriedAlong(t: Topo, s: Net, steps: seq<Step>, p: Id, k: Key, a: nat,
      path: seq<nat>, z: nat)
    requires Init(t, s) && p.body.Post? && a < |t.keys| && p in After(t, s, steps).nodes[a].posts
    requires Walk(t, s, After(t, s, steps), p, k, a, path, z) && Quiet(t, After(t, s, steps), path)
    requires forall i :: 0 <= i < |path| ==> path[i] < |t.src| && !Unrepaired(t, s, steps, p, path[i])
    ensures z < |t.keys| && p in After(t, s, steps).nodes[z].posts
    decreases |path|
  {
    if |path| > 0 {
      var now, e := After(t, s, steps), path[0];
      InterestStays(t, s, steps, p, k, e);
      assert !Unrepaired(t, s, steps, p, path[0]) && now.edges[path[0]].bus == [];
      MarkedExactlyWhen(t, s, steps, p, k, e);
      CarriedAcross(t, s, steps, p, k, e);
      assert forall i :: 0 <= i < |path[1..]| ==> path[1..][i] == path[i + 1];
      hide Unrepaired, Ready;
      CarriedAlong(t, s, steps, p, k, t.dst[e], path[1..], z);
    }
  }

  /**
   Convergence. In any state reached by any run (live offers, false reports of
   the filter, a lagging bus, history re-offers, new pins and hostile injections
   in any order), if the sessions along a walk of ready, subscribed honest
   burrows are quiet, then a post stored at one end is stored at the other, or
   some session of the walk has lost its offer and nothing has made up for it.
   */
  lemma {:induction false} Convergence(t: Topo, s: Net, steps: seq<Step>, p: Id, k: Key, a: nat, path: seq<nat>, z: nat)
    requires Init(t, s) && p.body.Post?
    requires a < |t.keys| && p in After(t, s, steps).nodes[a].posts
    requires Walk(t, s, After(t, s, steps), p, k, a, path, z) && Quiet(t, After(t, s, steps), path)
    ensures z < |t.keys| && (forall i :: 0 <= i < |path| ==> path[i] < |t.src|)
    ensures p in After(t, s, steps).nodes[z].posts || exists i :: 0 <= i < |path| && Unrepaired(t, s, steps, p, path[i])
  {
    WalkEnds(t, s, After(t, s, steps), p, k, a, path, z);
    if forall i :: 0 <= i < |path| ==> !Unrepaired(t, s, steps, p, path[i]) {
      CarriedAlong(t, s, steps, p, k, a, path, z);
    }
  }

  lemma {:induction false} WalkEnds(t: Topo, base: Net, s: Net, p: Id, k: Key, a: nat, path: seq<nat>, z: nat)
    requires Fits(t, s) && a < |t.keys| && Walk(t, base, s, p, k, a, path, z)
    ensures z < |t.keys| && forall i :: 0 <= i < |path| ==> path[i] < |t.src|
    decreases |path|
  {
    if |path| > 0 {
      WalkEnds(t, base, s, p, k, t.dst[path[0]], path[1..], z);
      assert forall i :: 0 < i < |path| ==> path[i] == path[1..][i - 1];
    }
  }

  /**
   The reason: an id that was inserted in a seen set means the peer has the post,
   or a message about it is on its way, whatever else the filter may report.
   */
  lemma {:induction false} SeenMeansHeldOrFlying(t: Topo, s: Net, steps: seq<Step>, p: Id, k: Key, e: nat)
    requires Init(t, s) && p.body.Post? && e < |t.src|
    requires Ready(t, s, p, k, t.src[e]) && Ready(t, s, p, k, t.dst[e])
    requires p in After(t, s, steps).edges[e].seen
    ensures var n := After(t, s, steps);
      p in n.nodes[t.dst[e]].posts || Flying(p, n.edges[e].chan, n.edges[t.rev[e]].chan)
  {
    RunInv(t, s, p, k, steps);
    assert LinkAt(t, s, After(t, s, steps), p, k, e);
  }
}
