/**
 Provenance over whole runs: whatever relays and hostile peers send, every
 stored event verifies under the key its burrow trusts for the event's origin,
 and no flood message ever changes whom a burrow trusts.
 */
module FloodProvenance {
  import opened Base
  import opened FloodNode
  import opened FloodNet

  /** The event is itself, and verifies under the key `n` trusts for its origin. */
  predicate Vouched(t: Topo, issued: set<(Key, Core)>, n: Node, id: Id, e: Signed) {
    && e.id == id
    && OriginKey(n, e.core.origin).Some?
    && Verify(e, OriginKey(n, e.core.origin).value)
    && Unforged(t, issued, e)
  }

  /** A follow-up in force touches only its author's post or its home server's. */
  predicate Rightful(n: Node, f: Followup) {
    && !f.event.core.body.Post?
    && f.target == f.event.core.body.target
    && (f.applied && f.event.core.origin != n.origin ==> FollowupAuthorized(f.event.core, f.target))
  }

  predicate GoodPosts(t: Topo, issued: set<(Key, Core)>, n: Node) {
    forall id :: id in n.posts ==>
      Vouched(t, issued, n, id, n.posts[id].event) && id.body.Post? && id.body.board == n.posts[id].board
  }

  predicate GoodFollowups(t: Topo, issued: set<(Key, Core)>, n: Node) {
    forall id :: id in n.followups ==>
      Vouched(t, issued, n, id, n.followups[id].event) && Rightful(n, n.followups[id])
  }

  predicate Authentic(t: Topo, issued: set<(Key, Core)>, n: Node) {
    GoodPosts(t, issued, n) && GoodFollowups(t, issued, n)
  }

  predicate SoundMsg(t: Topo, issued: set<(Key, Core)>, m: Msg) {
    m.Events? ==> forall d :: d in m.ds ==> Unforged(t, issued, d.event)
  }

  predicate SoundChan(t: Topo, issued: set<(Key, Core)>, chan: seq<Msg>) {
    forall m :: m in chan ==> SoundMsg(t, issued, m)
  }

  /** An honest key only ever signed cores of its own origin. */
  predicate OwnersOnly(t: Topo, issued: set<(Key, Core)>) {
    forall p :: p in issued ==>
      exists n :: n in t.honest && n < |t.keys| && |t.keys| == |t.origins|
                  && t.keys[n] == p.0 && t.origins[n] == p.1.origin
  }

  predicate Inv(t: Topo, s: Net) {
    && Fits(t, s)
    && OwnersOnly(t, s.issued)
    && (forall n :: n in t.honest && n < |s.nodes| ==> Authentic(t, s.issued, s.nodes[n]))
    && (forall e :: 0 <= e < |s.edges| ==> SoundChan(t, s.issued, s.edges[e].chan))
  }

  /** Rows that are old or are the vouched event keep a node authentic. */
  lemma RowsAuthentic(t: Topo, issued: set<(Key, Core)>, n: Node, e: Signed, m: Node)
    requires Authentic(t, issued, n) && Vouched(t, issued, n, e.id, e)
    requires SameIdentity(n, m)
    requires forall id :: id in m.posts ==>
      (id in n.posts && m.posts[id] == n.posts[id])
      || (id == e.id && e.core.body.Post? && m.posts[id] == PostRow(e, e.core.body.board))
    requires forall id :: id in m.followups ==>
      Rightful(m, m.followups[id])
      && ((id in n.followups && m.followups[id].event == n.followups[id].event)
          || (id == e.id && m.followups[id].event == e))
    ensures Authentic(t, issued, m)
  {
  }

  lemma ReconcileRightful(n: Node, post: Id, board: Board, m: Node)
    requires forall id :: id in n.followups ==> Rightful(n, n.followups[id])
    requires SameIdentity(n, m) && m.followups == Reconcile(n.followups, post, board)
    ensures forall id :: id in m.followups ==>
      id in n.followups && Rightful(m, m.followups[id]) && m.followups[id].event == n.followups[id].event
  {
  }

  lemma BoardIngestAuthentic(t: Topo, issued: set<(Key, Core)>, n: Node, e: Signed, board: Board, m: Node)
    requires Authentic(t, issued, n) && Vouched(t, issued, n, e.id, e)
    requires BoardIngest(n, e, board).Stored? && m.followups == BoardIngest(n, e, board).node.followups
    requires m.posts == BoardIngest(n, e, board).node.posts && SameIdentity(n, m)
    ensures Authentic(t, issued, m)
  {
    hide Unforged, OriginKey;
    if e.core.body.Post? {
      ReconcileRightful(n, e.id, e.core.body.board, m);
    } else if e.core.body.target in n.posts {
      assert n.posts[e.core.body.target].event.core == e.core.body.target;
    }
    RowsAuthentic(t, issued, n, e, m);
  }

  lemma IngestOneAuthentic(t: Topo, issued: set<(Key, Core)>, n: Node, board: Board, d: Delivery)
    requires Authentic(t, issued, n) && Unforged(t, issued, d.event)
    ensures Authentic(t, issued, IngestEvent(n, board, d).node)
  {
    var m := IngestEvent(n, board, d).node;
    if m != n {
      assert Vouched(t, issued, n, d.event.id, d.event);
      if BoardIngest(n, d.event, board).Stored? {
        BoardIngestAuthentic(t, issued, n, d.event, board, m);
      } else {
        RowsAuthentic(t, issued, n, d.event, m);
      }
    }
  }

  lemma {:induction false} IngestAuthentic(t: Topo, issued: set<(Key, Core)>, n: Node, seen: set<Id>, board: Board,
      ds: seq<Delivery>)
    requires Authentic(t, issued, n)
    requires forall d :: d in ds ==> Unforged(t, issued, d.event)
    ensures Authentic(t, issued, IngestAll(n, seen, board, ds).node)
  {
    if |ds| > 0 {
      IngestAuthentic(t, issued, n, seen, board, ds[..|ds| - 1]);
      IngestOneAuthentic(t, issued, IngestAll(n, seen, board, ds[..|ds| - 1]).node, board, ds[|ds| - 1]);
    }
  }

  lemma {:induction false} ServedUnforged(t: Topo, issued: set<(Key, Core)>, n: Node, board: Board, ids: seq<Id>)
    requires Authentic(t, issued, n)
    ensures forall d :: d in ServeAll(n, board, ids) ==> Unforged(t, issued, d.event)
  {
    if |ids| > 0 {
      ServedUnforged(t, issued, n, board, ids[..|ids| - 1]);
    }
  }

  lemma GrowIssued(t: Topo, a: set<(Key, Core)>, b: set<(Key, Core)>, n: Node)
    requires a <= b && Authentic(t, a, n)
    ensures Authentic(t, b, n)
  {
  }

  lemma AuthoredAuthentic(t: Topo, s: Net, n: nat, author: Key, at: int, body: Body)
    requires Inv(t, s) && Enabled(t, s, Author(n, author, at, body))
    ensures Authentic(t, AuthorOne(t, s, n, author, at, body).issued, AuthorOne(t, s, n, author, at, body).nodes[n])
  {
    hide ValidTopo, Publish, HonestKey, OwnersOnly;
    var s' := AuthorOne(t, s, n, author, at, body);
    var e := Mint(s.nodes[n], author, at, body);
    GrowIssued(t, s.issued, s'.issued, s.nodes[n]);
    RowsAuthentic(t, s'.issued, s.nodes[n], e, s'.nodes[n]);
  }

  lemma AuthorInv(t: Topo, s: Net, n: nat, author: Key, at: int, body: Body)
    requires Inv(t, s) && Enabled(t, s, Author(n, author, at, body))
    ensures Inv(t, AuthorOne(t, s, n, author, at, body))
  {
    hide Authentic;
    var s' := AuthorOne(t, s, n, author, at, body);
    NextFits(t, s, Author(n, author, at, body));
    AuthoredAuthentic(t, s, n, author, at, body);
    forall m | m in t.honest && m < |s.nodes|
      ensures Authentic(t, s'.issued, s'.nodes[m])
    {
      if m != n {
        GrowIssued(t, s.issued, s'.issued, s.nodes[m]);
      }
    }
    assert OwnersOnly(t, s'.issued);
  }

  lemma EventsInv(t: Topo, s: Net, e: nat)
    requires Inv(t, s) && Enabled(t, s, Receive(e)) && s.edges[e].chan[0].Events?
    ensures Inv(t, ReceiveOne(t, s, e))
  {
    NextFits(t, s, Receive(e));
    var m := s.edges[e].chan[0];
    assert SoundMsg(t, s.issued, m);
    IngestAuthentic(t, s.issued, s.nodes[t.dst[e]], s.edges[t.rev[e]].seen, m.board, m.ds);
  }

  /** Changing one edge's state keeps the invariant when what it sends is unforged. */
  lemma EdgeInv(t: Topo, s: Net, e: nat, x: Edge)
    requires Inv(t, s) && e < |s.edges| && SoundChan(t, s.issued, x.chan)
    ensures Inv(t, s.(edges := s.edges[e := x]))
  {
  }

  lemma ReceiveInv(t: Topo, s: Net, e: nat)
    requires Inv(t, s) && Enabled(t, s, Receive(e))
    ensures Inv(t, ReceiveOne(t, s, e))
  {
    var n, r := t.dst[e], t.rev[e];
    match s.edges[e].chan[0] {
      case Events(_, _) => EventsInv(t, s, e);
      case IHave(board, ids) =>
        var popped := s.edges[e].(chan := s.edges[e].chan[1..]);
        EdgeInv(t, s, e, popped);
        EdgeInv(t, s.(edges := s.edges[e := popped]), r, ReplyIHave(s.nodes[n], s.edges[r], board, ids));
      case Pull(board, ids) =>
        var popped := s.edges[e].(chan := s.edges[e].chan[1..]);
        EdgeInv(t, s, e, popped);
        ServedUnforged(t, s.issued, s.nodes[n], board, Take(ids, MAX_EVENTS_PER_MSG));
        EdgeInv(t, s.(edges := s.edges[e := popped]), r, ReplyPull(s.nodes[n], s.edges[r], board, ids));
    }
  }

  lemma TrustInv(t: Topo, s: Net, n: nat, origin: Origin, key: Key)
    requires Inv(t, s) && Enabled(t, s, Trust(n, origin, key))
    ensures Inv(t, Next(t, s, Trust(n, origin, key)))
  {
    var a, b := s.nodes[n], Next(t, s, Trust(n, origin, key)).nodes[n];
    assert forall o :: OriginKey(a, o).Some? ==> OriginKey(b, o) == OriginKey(a, o);
    assert Authentic(t, s.issued, b);
  }

  lemma StepInv(t: Topo, s: Net, step: Step)
    requires Inv(t, s)
    ensures Inv(t, Next(t, s, step))
  {
    if Enabled(t, s, step) {
      match step {
        case Author(n, author, at, body) => AuthorInv(t, s, n, author, at, body);
        case Offer(e, reported) => EdgeInv(t, s, e, OfferOne(s.edges[e], reported));
        case Lag(e) => EdgeInv(t, s, e, Next(t, s, step).edges[e]);
        case Receive(e) => ReceiveInv(t, s, e);
        case Reoffer(e, board, ids) => EdgeInv(t, s, e, Next(t, s, step).edges[e]);
        case Trust(n, origin, key) => TrustInv(t, s, n, origin, key);
        case Inject(e, msg) => EdgeInv(t, s, e, Next(t, s, step).edges[e]);
        case Discard(e) => EdgeInv(t, s, e, Next(t, s, step).edges[e]);
      }
    }
  }

  lemma {:induction false} RunInv(t: Topo, s: Net, steps: seq<Step>)
    requires Init(t, s)
    ensures Inv(t, After(t, s, steps))
  {
    if |steps| > 0 {
      RunInv(t, s, steps[..|steps| - 1]);
      StepInv(t, After(t, s, steps[..|steps| - 1]), steps[|steps| - 1]);
    }
  }

  /** Every issued core was minted by an authoring step of the key's holder. */
  lemma {:induction false} IssuedWasAuthored(t: Topo, s: Net, steps: seq<Step>, k: Key, core: Core) returns (i: nat)
    requires Init(t, s) && (k, core) in After(t, s, steps).issued
    ensures i < |steps| && steps[i].Author? && steps[i].n in t.honest && steps[i].n < |t.keys| == |t.origins|
    ensures t.keys[steps[i].n] == k && t.origins[steps[i].n] == core.origin
    ensures core == Core(steps[i].author, core.origin, steps[i].at, steps[i].body)
  {
    var last := |steps| - 1;
    var before := After(t, s, steps[..last]);
    RunInv(t, s, steps[..last]);
    if (k, core) in before.issued {
      i := IssuedWasAuthored(t, s, steps[..last], k, core);
    } else {
      i := last;
    }
  }

  /**
   Provenance. After any run with hostile peers, an event stored at an honest
   burrow `n` under another origin verifies under the key `n` pinned for that
   origin; and when an honest burrow holds that key, that burrow authored the
   very event, under its own origin, in this run.
   */
  lemma {:induction false} Provenance(t: Topo, s: Net, steps: seq<Step>, n: nat, id: Id) returns (authored: int)
    requires Init(t, s) && n in t.honest && n < |t.keys|
    requires Held(After(t, s, steps).nodes[n], id)
    requires id.origin != t.origins[n]
    ensures id.origin in After(t, s, steps).nodes[n].pins
    ensures var node := After(t, s, steps).nodes[n];
      Verify(if id in node.posts then node.posts[id].event else node.followups[id].event, node.pins[id.origin])
    ensures HonestKey(t, After(t, s, steps).nodes[n].pins[id.origin]) ==>
      && 0 <= authored < |steps| && steps[authored].Author?
      && steps[authored].n in t.honest && steps[authored].n < |t.keys|
      && t.keys[steps[authored].n] == After(t, s, steps).nodes[n].pins[id.origin]
      && t.origins[steps[authored].n] == id.origin
      && id == Core(steps[authored].author, id.origin, steps[authored].at, steps[authored].body)
  {
    RunInv(t, s, steps);
    var node := After(t, s, steps).nodes[n];
    var e := if id in node.posts then node.posts[id].event else node.followups[id].event;
    assert Vouched(t, After(t, s, steps).issued, node, id, e);
    authored := -1;
    if HonestKey(t, node.pins[id.origin]) {
      authored := IssuedWasAuthored(t, s, steps, node.pins[id.origin], id);
    }
  }

  /** A foreign follow-up in force acts on its own author's post, or on a post of its own server. */
  lemma {:induction false} AppliedIsAuthorized(t: Topo, s: Net, steps: seq<Step>, n: nat, id: Id)
    requires Init(t, s) && n in t.honest && n < |t.keys|
    requires id in After(t, s, steps).nodes[n].followups
    requires After(t, s, steps).nodes[n].followups[id].applied && id.origin != t.origins[n]
    ensures !id.body.Post? && FollowupAuthorized(id, id.body.target)
  {
    RunInv(t, s, steps);
    var node := After(t, s, steps).nodes[n];
    assert Vouched(t, After(t, s, steps).issued, node, id, node.followups[id].event);
    assert Rightful(node, node.followups[id]);
  }

  /** Only an explicit trust step adds a pin, and no step ever changes or drops one. */
  lemma PinsOnlyByTrust(t: Topo, s: Net, step: Step, n: nat)
    requires Fits(t, s) && n < |s.nodes|
    ensures var s' := Next(t, s, step);
      && |s'.nodes| == |s.nodes|
      && (forall o :: o in s.nodes[n].pins ==> o in s'.nodes[n].pins && s'.nodes[n].pins[o] == s.nodes[n].pins[o])
      && (!(step.Trust? && step.n == n) ==> s'.nodes[n].pins == s.nodes[n].pins)
  {
    NextFits(t, s, step);
    if Enabled(t, s, step) && step.Receive? && s.edges[step.e].chan[0].Events? {
      var m := s.edges[step.e].chan[0];
      IngestKeepsIdentity(s.nodes[t.dst[step.e]], s.edges[t.rev[step.e]].seen, m.board, m.ds);
    }
  }

  /** No run without a trust step at `n` changes a pin of `n`, whatever is flooded at it. */
  lemma {:induction false} FloodNeverPins(t: Topo, s: Net, steps: seq<Step>, n: nat)
    requires Fits(t, s) && n < |s.nodes|
    requires forall i :: 0 <= i < |steps| ==> !(steps[i].Trust? && steps[i].n == n)
    ensures Fits(t, After(t, s, steps)) && After(t, s, steps).nodes[n].pins == s.nodes[n].pins
  {
    if |steps| > 0 {
      FloodNeverPins(t, s, steps[..|steps| - 1], n);
      NextFits(t, After(t, s, steps[..|steps| - 1]), steps[|steps| - 1]);
      PinsOnlyByTrust(t, After(t, s, steps[..|steps| - 1]), steps[|steps| - 1], n);
    }
  }
}
