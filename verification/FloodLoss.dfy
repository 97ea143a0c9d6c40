/**
 When a post is missing. A live offer is lost when the edge's Bloom filter
 reports an id it never got, or when the bus lags; until the history pass or
 some later exchange marks the id, the far end may stay without the post. Here
 is exactly when it does.
 */
module FloodLoss {
  import opened Base
  import opened FloodNode
  import opened FloodNet
  import C = FloodConvergence
  import M = FloodMesh

  // ---- where a held post came from ----------------------------------------------

  /** An event for `p` on a session between honest burrows was marked when it was sent. */
  predicate SentMarked(t: Topo, s: Net, p: Id)
    requires Fits(t, s)
  {
    forall e, m :: 0 <= e < |s.edges| && C.HonestLink(t, e) && m in s.edges[e].chan && m.Events? && p in Ids(m.ds)
      ==> p in s.edges[e].seen
  }

  /** A step puts no events on an honest session without marking their ids. */
  lemma NewEvents(t: Topo, s: Net, step: Step, e: nat)
    requires Fits(t, s) && Enabled(t, s, step) && e < |s.edges| && C.HonestLink(t, e)
    ensures Fits(t, Next(t, s, step))
    ensures forall m :: m in Next(t, s, step).edges[e].chan && m.Events? ==>
      m in s.edges[e].chan || Ids(m.ds) <= Next(t, s, step).edges[e].seen
  {
    hide IngestAll, Wanted, ServeAll, Unforged;
    NextFits(t, s, step);
  }

  lemma SentMarkedStep(t: Topo, base: Net, s: Net, p: Id, k: Key, step: Step)
    requires C.Inv(t, base, s, p, k) && SentMarked(t, s, p)
    ensures Fits(t, Next(t, s, step)) && SentMarked(t, Next(t, s, step), p)
  {
    var s' := Next(t, s, step);
    NextFits(t, s, step);
    if Enabled(t, s, step) {
      forall e, m | 0 <= e < |s'.edges| && C.HonestLink(t, e) && m in s'.edges[e].chan && m.Events? && p in Ids(m.ds)
        ensures p in s'.edges[e].seen
      {
        NewEvents(t, s, step, e);
        C.HeardStep(t, base, s, p, k, e, true, step);
      }
    }
  }

  lemma {:induction false} RunSentMarked(t: Topo, s: Net, steps: seq<Step>, p: Id, k: Key)
    requires Init(t, s) && p.body.Post?
    ensures SentMarked(t, After(t, s, steps), p)
  {
    if |steps| > 0 {
      RunSentMarked(t, s, steps[..|steps| - 1], p, k);
      C.RunInv(t, s, p, k, steps[..|steps| - 1]);
      SentMarkedStep(t, s, After(t, s, steps[..|steps| - 1]), p, k, steps[|steps| - 1]);
    }
  }

  lemma {:induction false} NewPostsDelivered(n: Node, seen: set<Id>, board: Board, ds: seq<Delivery>, p: Id)
    ensures p in IngestAll(n, seen, board, ds).node.posts ==> p in n.posts || p in Ids(ds)
  {
    if |ds| > 0 {
      NewPostsDelivered(n, seen, board, ds[..|ds| - 1], p);
      assert forall d :: d in ds[..|ds| - 1] ==> d in ds;
      assert ds[|ds| - 1] in ds;
    }
  }

  /** A burrow comes to hold a post by writing it or by reading it out of a delivery. */
  lemma HowItCame(t: Topo, s: Net, step: Step, p: Id, z: nat)
    requires Fits(t, s) && z < |s.nodes| && p !in s.nodes[z].posts
    requires Fits(t, Next(t, s, step)) && p in Next(t, s, step).nodes[z].posts
    ensures Enabled(t, s, step)
    ensures (step.Author? && step.n == z)
      || (step.Receive? && t.dst[step.e] == z && s.edges[step.e].chan[0].Events?
          && p in Ids(s.edges[step.e].chan[0].ds))
  {
    if Enabled(t, s, step) && step.Receive? && s.edges[step.e].chan[0].Events? {
      var m := s.edges[step.e].chan[0];
      NewPostsDelivered(s.nodes[t.dst[step.e]], s.edges[t.rev[step.e]].seen, m.board, m.ds, p);
    }
  }

  /** At step `i` burrow `home` came to hold `p` by writing it, or from a burrow that is not honest. */
  predicate FirstHand(t: Topo, s: Net, steps: seq<Step>, p: Id, home: nat, i: nat)
    requires Fits(t, s)
  {
    && i < |steps| && home in t.honest && home < |t.keys|
    && p !in After(t, s, steps[..i]).nodes[home].posts && p in After(t, s, steps[..i + 1]).nodes[home].posts
    && (steps[i].Author? || (steps[i].Receive? && steps[i].e < |t.src| && t.src[steps[i].e] !in t.honest))
  }

  /** Sessions between honest burrows, one after the other, each with `p` marked by its sender. */
  predicate MarkedWalk(t: Topo, s: Net, p: Id, a: nat, path: seq<nat>, z: nat)
    requires Fits(t, s)
    decreases |path|
  {
    if |path| == 0 then a == z
    else
      var e := path[0];
      && e < |s.edges| && t.src[e] == a && C.HonestLink(t, e) && p in s.edges[e].seen
      && MarkedWalk(t, s, p, t.dst[e], path[1..], z)
  }

  lemma {:induction false} WalkGrows(t: Topo, s: Net, s': Net, p: Id, a: nat, path: seq<nat>, z: nat)
    requires Fits(t, s) && Fits(t, s') && MarkedWalk(t, s, p, a, path, z)
    requires forall e :: 0 <= e < |s.edges| && C.HonestLink(t, e) ==> s.edges[e].seen <= s'.edges[e].seen
    ensures MarkedWalk(t, s', p, a, path, z)
    decreases |path|
  {
    if |path| > 0 {
      WalkGrows(t, s, s', p, t.dst[path[0]], path[1..], z);
    }
  }

  lemma {:induction false} WalkOn(t: Topo, s: Net, p: Id, a: nat, path: seq<nat>, e: nat)
    requires Fits(t, s) && e < |s.edges| && C.HonestLink(t, e) && p in s.edges[e].seen
    requires MarkedWalk(t, s, p, a, path, t.src[e])
    ensures MarkedWalk(t, s, p, a, path + [e], t.dst[e])
    decreases |path|
  {
    if |path| > 0 {
      WalkOn(t, s, p, t.dst[path[0]], path[1..], e);
      assert (path + [e])[1..] == path[1..] + [e];
    } else {
      assert path + [e] == [e] && [e][1..] == [];
    }
  }

  lemma {:induction false} LastOfWalk(t: Topo, s: Net, p: Id, a: nat, path: seq<nat>, z: nat)
    requires Fits(t, s) && MarkedWalk(t, s, p, a, path, z) && |path| > 0
    ensures var e := path[|path| - 1]; e < |s.edges| && t.dst[e] == z && p in s.edges[e].seen
    decreases |path|
  {
    if |path| > 1 {
      LastOfWalk(t, s, p, t.dst[path[0]], path[1..], z);
    } else {
      assert path[1..] == [];
    }
  }

  lemma {:induction false} FirstHandStays(t: Topo, s: Net, steps: seq<Step>, p: Id, home: nat, i: nat)
    requires Fits(t, s) && |steps| > 0 && FirstHand(t, s, steps[..|steps| - 1], p, home, i)
    ensures FirstHand(t, s, steps, p, home, i)
  {
    var before := steps[..|steps| - 1];
    assert before[..i] == steps[..i] && before[..i + 1] == steps[..i + 1];
  }

  lemma {:induction false} JustNow(t: Topo, s: Net, steps: seq<Step>, p: Id, z: nat)
    requires Fits(t, s) && |steps| > 0 && z in t.honest && z < |t.keys|
    requires p !in After(t, s, steps[..|steps| - 1]).nodes[z].posts && p in After(t, s, steps).nodes[z].posts
    requires var step := steps[|steps| - 1];
      step.Author? || (step.Receive? && step.e < |t.src| && t.src[step.e] !in t.honest)
    ensures FirstHand(t, s, steps, p, z, |steps| - 1)
  {
    assert steps[..|steps|] == steps;
  }

  /** Every holder is at the end of a marked walk from one that had the post first hand. */
  lemma {:induction false} Traced(t: Topo, s: Net, steps: seq<Step>, p: Id, k: Key, z: nat)
    returns (home: nat, i: nat, path: seq<nat>)
    requires Init(t, s) && p.body.Post? && z in t.honest && z < |t.keys| && p in After(t, s, steps).nodes[z].posts
    ensures FirstHand(t, s, steps, p, home, i) && MarkedWalk(t, After(t, s, steps), p, home, path, z)
  {
    hide C.Inv, FirstHand;
    var last := |steps| - 1;
    var before, step := After(t, s, steps[..last]), steps[last];
    C.RunInv(t, s, p, k, steps[..last]);
    forall e | 0 <= e < |before.edges| && C.HonestLink(t, e)
      ensures before.edges[e].seen <= After(t, s, steps).edges[e].seen
    {
      C.HeardStep(t, s, before, p, k, e, true, step);
    }
    if p in before.nodes[z].posts {
      home, i, path := Traced(t, s, steps[..last], p, k, z);
      FirstHandStays(t, s, steps, p, home, i);
      WalkGrows(t, before, After(t, s, steps), p, home, path, z);
    } else {
      HowItCame(t, before, step, p, z);
      if step.Author? || t.src[step.e] !in t.honest {
        JustNow(t, s, steps, p, z);
        home, i, path := z, last, [];
      } else {
        RunSentMarked(t, s, steps[..last], p, k);
        SenderHolds(t, s, before, p, k, step.e);
        home, i, path := Traced(t, s, steps[..last], p, k, t.src[step.e]);
        FirstHandStays(t, s, steps, p, home, i);
        WalkOn(t, before, p, home, path, step.e);
        path := path + [step.e];
        WalkGrows(t, before, After(t, s, steps), p, home, path, z);
      }
    }
  }

  lemma SenderHolds(t: Topo, base: Net, s: Net, p: Id, k: Key, e: nat)
    requires C.Inv(t, base, s, p, k) && SentMarked(t, s, p) && Enabled(t, s, Receive(e)) && C.HonestLink(t, e)
    requires s.edges[e].chan[0].Events? && p in Ids(s.edges[e].chan[0].ds)
    ensures p in s.nodes[t.src[e]].posts && p in s.edges[e].seen
  {
    assert C.LinkAt(t, base, s, p, k, e);
    assert s.edges[e].chan[0] in s.edges[e].chan;
  }

  // ---- exactly when a post is where it should be -----------------------------------

  /** The board is there and the origin's key pinned at every honest burrow. */
  predicate AllReady(t: Topo, base: Net, p: Id, k: Key) {
    forall n :: n in t.honest && n < |t.keys| ==> C.Ready(t, base, p, k, n)
  }

  lemma QuietEdge(t: Topo, s: Net, e: nat)
    requires Fits(t, s) && M.Settled(t, s) && e < |s.edges| && C.HonestLink(t, e)
    ensures C.Quiet(t, s, [e]) && s.edges[e].bus == []
  {
    assert !Enabled(t, s, Offer(e, true)) && !Enabled(t, s, Receive(e)) && !Enabled(t, s, Receive(t.rev[e]));
  }

  lemma {:induction false} FirstHandHolds(t: Topo, s: Net, steps: seq<Step>, p: Id, home: nat, i: nat)
    requires Fits(t, s) && FirstHand(t, s, steps, p, home, i)
    ensures p in After(t, s, steps).nodes[home].posts
  {
    assert steps == steps[..i + 1] + steps[i + 1..];
    M.AfterAppend(t, s, steps[..i + 1], steps[i + 1..]);
    M.PostsStay(t, After(t, s, steps[..i + 1]), steps[i + 1..], home);
  }

  lemma {:induction false} WalkCarries(t: Topo, s: Net, steps: seq<Step>, p: Id, k: Key, a: nat, path: seq<nat>, z: nat)
    requires Init(t, s) && p.body.Post? && AllReady(t, s, p, k) && M.Settled(t, After(t, s, steps))
    requires a < |t.keys| && p in After(t, s, steps).nodes[a].posts && MarkedWalk(t, After(t, s, steps), p, a, path, z)
    ensures z < |t.keys| && p in After(t, s, steps).nodes[z].posts
    decreases |path|
  {
    if |path| > 0 {
      QuietEdge(t, After(t, s, steps), path[0]);
      C.CarriedAcross(t, s, steps, p, k, path[0]);
      WalkCarries(t, s, steps, p, k, t.dst[path[0]], path[1..], z);
    }
  }

  /**
   Exactly who holds a post. In a settled mesh of ready burrows, after any run
   with false reports, lag, re-offers and hostile peers, a burrow holds the post
   if and only if marked sessions lead to it from a burrow that had it first hand.
   */
  lemma {:induction false} HeldExactlyWhenReached(t: Topo, s: Net, steps: seq<Step>, p: Id, k: Key, z: nat)
    requires Init(t, s) && p.body.Post? && AllReady(t, s, p, k) && M.Settled(t, After(t, s, steps))
    requires z in t.honest && z < |t.keys|
    ensures p in After(t, s, steps).nodes[z].posts
      <==> exists home, i, path ::
          FirstHand(t, s, steps, p, home, i) && MarkedWalk(t, After(t, s, steps), p, home, path, z)
  {
    if p in After(t, s, steps).nodes[z].posts {
      var home, i, path := Traced(t, s, steps, p, k, z);
    }
    forall home, i, path | FirstHand(t, s, steps, p, home, i) && MarkedWalk(t, After(t, s, steps), p, home, path, z)
      ensures p in After(t, s, steps).nodes[z].posts
    {
      FirstHandHolds(t, s, steps, p, home, i);
      WalkCarries(t, s, steps, p, k, home, path, z);
    }
  }

  /** Session `e` is the only one that leads to its far end, which has nothing first hand. */
  ghost predicate OnlyWayIn(t: Topo, s: Net, steps: seq<Step>, p: Id, e: nat)
    requires Fits(t, s) && e < |t.src|
  {
    (forall i :: 0 <= i < |t.src| && t.dst[i] == t.dst[e] ==> i == e)
    && forall i :: !FirstHand(t, s, steps, p, t.dst[e], i)
  }

  /** Over the only way in, a held, wanted post has arrived exactly if no lost offer is still to be made up for. */
  lemma {:induction false} ArrivedExactlyWhen(t: Topo, s: Net, steps: seq<Step>, p: Id, k: Key, e: nat)
    requires Init(t, s) && p.body.Post? && AllReady(t, s, p, k) && M.Settled(t, After(t, s, steps))
    requires e < |t.src| && C.HonestLink(t, e) && OnlyWayIn(t, s, steps, p, e)
    requires p in After(t, s, steps).nodes[t.src[e]].posts && Covers(s.edges[e].interest, p.body.board)
    ensures p in After(t, s, steps).nodes[t.dst[e]].posts <==> !C.Unrepaired(t, s, steps, p, e)
  {
    QuietEdge(t, After(t, s, steps), e);
    C.MarkedExactlyWhen(t, s, steps, p, k, e);
    if p in After(t, s, steps).nodes[t.dst[e]].posts {
      var home, i, path := Traced(t, s, steps, p, k, t.dst[e]);
      LastOfWalk(t, After(t, s, steps), p, home, path, t.dst[e]);
    } else if p in After(t, s, steps).edges[e].seen {
      C.CarriedAcross(t, s, steps, p, k, e);
    }
  }

  /**
   Along a walk of subscribed sessions from a holder, each the only way into its
   far end, the post is at every burrow if and only if no session of the walk
   has a lost offer that nothing has made up for.
   */
  lemma {:induction false} WalkArrivedExactlyWhen(t: Topo, s: Net, steps: seq<Step>, p: Id, k: Key, a: nat,
      path: seq<nat>, z: nat)
    requires Init(t, s) && p.body.Post? && AllReady(t, s, p, k) && M.Settled(t, After(t, s, steps))
    requires a < |t.keys| && p in After(t, s, steps).nodes[a].posts
    requires C.Walk(t, s, After(t, s, steps), p, k, a, path, z)
    requires forall i :: 0 <= i < |path| ==> path[i] < |t.src| && OnlyWayIn(t, s, steps, p, path[i])
    ensures (forall i :: 0 <= i < |path| ==> p in After(t, s, steps).nodes[t.dst[path[i]]].posts)
      <==> (forall i :: 0 <= i < |path| ==> !C.Unrepaired(t, s, steps, p, path[i]))
    decreases |path|
  {
    hide OnlyWayIn, C.Unrepaired, M.Settled;
    if |path| > 0 {
      var e, rest := path[0], path[1..];
      assert C.HonestLink(t, e);
      hide C.Ready;
      C.InterestStays(t, s, steps, p, k, e);
      assert OnlyWayIn(t, s, steps, p, path[0]);
      ArrivedExactlyWhen(t, s, steps, p, k, e);
      assert forall i :: 0 <= i < |rest| ==> rest[i] == path[i + 1];
      assert forall i :: 0 < i < |path| ==> path[i] == rest[i - 1];
      if p in After(t, s, steps).nodes[t.dst[e]].posts {
        WalkArrivedExactlyWhen(t, s, steps, p, k, t.dst[e], rest, z);
      }
    }
  }

  // ---- a post that stays missing ------------------------------------------------------

  /** Two honest burrows with one session. */
  predicate TwoBurrows(t: Topo) {
    t.src == [0, 1] && t.dst == [1, 0] && t.rev == [1, 0] && t.honest == {0, 1} && |t.keys| == 2
  }

  lemma {:induction false} TwoSteps(t: Topo, s: Net, a: Step, b: Step)
    ensures After(t, s, [a, b]) == Next(t, Next(t, s, a), b) && After(t, s, [a]) == Next(t, s, a)
  {
    assert [a][..0] == [];
    assert After(t, s, [a]) == Next(t, s, a);
    assert [a, b][..1] == [a];
  }

  lemma LostAfterAuthor(t: Topo, s: Net, author: Key, at: int, board: Board, text: nat, fault: Step)
    requires Init(t, s) && TwoBurrows(t) && board in s.nodes[0].boards && Covers(s.edges[0].interest, board)
    requires fault == Offer(0, true) || fault == Lag(0)
    ensures var p := Core(author, t.origins[0], at, Post(board, text));
      var mid := Next(t, s, Author(0, author, at, p.body));
      && Fits(t, mid) && p in mid.nodes[0].posts && p !in mid.nodes[1].posts
      && mid.edges[0].bus == [Fired(board, p)] && mid.edges[1].bus == []
      && mid.edges[0].chan == [] && mid.edges[1].chan == [] && mid.edges[0].seen == {}
      && mid.edges[0].interest == s.edges[0].interest
  {
    NextFits(t, s, Author(0, author, at, Post(board, text)));
  }

  lemma GapSettles(t: Topo, s: Net, author: Key, at: int, board: Board, text: nat, fault: Step)
    requires Init(t, s) && TwoBurrows(t) && board in s.nodes[0].boards && Covers(s.edges[0].interest, board)
    requires fault == Offer(0, true) || fault == Lag(0)
    ensures var p := Core(author, t.origins[0], at, Post(board, text));
      var mid := Next(t, s, Author(0, author, at, p.body));
      var now := Next(t, mid, fault);
      && now.nodes == mid.nodes && M.Settled(t, now) && now.edges[0].seen == {} && C.Loses(t, mid, fault, p, 0)
  {
    LostAfterAuthor(t, s, author, at, board, text, fault);
    var mid := Next(t, s, Author(0, author, at, Post(board, text)));
    var now := Next(t, mid, fault);
    assert now.edges[0].bus == [] && now.edges[0].chan == [] && now.edges[1] == mid.edges[1];
  }

  /**
   The run that shows it: one post, one false report of the filter or one lag of
   the bus. Nothing is left to deliver, and the subscribed, ready peer is without
   the post that its neighbour holds.
   */
  lemma {:induction false} LostOfferLeavesAGap(t: Topo, s: Net, author: Key, at: int, board: Board,
      text: nat, fault: Step)
    requires Init(t, s) && TwoBurrows(t) && Covers(s.edges[0].interest, board)
    requires board in s.nodes[0].boards && board in s.nodes[1].boards
    requires OriginKey(s.nodes[1], t.origins[0]) == Some(t.keys[0])
    requires fault == Offer(0, true) || fault == Lag(0)
    ensures var p := Core(author, t.origins[0], at, Post(board, text));
      var steps := [Author(0, author, at, p.body), fault];
      && AllReady(t, s, p, t.keys[0]) && M.Settled(t, After(t, s, steps))
      && p in After(t, s, steps).nodes[0].posts && p !in After(t, s, steps).nodes[1].posts
      && C.Unrepaired(t, s, steps, p, 0)
  {
    var p := Core(author, t.origins[0], at, Post(board, text));
    var write := Author(0, author, at, p.body);
    var steps := [write, fault];
    TwoSteps(t, s, write, fault);
    LostAfterAuthor(t, s, author, at, board, text, fault);
    GapSettles(t, s, author, at, board, text, fault);
    hide Next, After, M.Settled, C.Loses;
    assert steps[..1] == [write] && steps[..2] == steps;
    assert C.Loses(t, After(t, s, steps[..1]), steps[1], p, 0);
    assert forall j :: 1 < j <= |steps| ==> steps[..j] == steps;
  }
}
