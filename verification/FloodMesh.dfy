/** Convergence and termination together: leave the mesh alone and the post is everywhere. */
module FloodMesh {
  import opened FloodNode
  import opened FloodNet
  import C = FloodConvergence
  import T = FloodTermination

  ghost predicate Settled(t: Topo, s: Net) {
    forall step :: T.IsDelivery(step) ==> !Enabled(t, s, step)
  }

  lemma {:induction false} AfterAppend(t: Topo, s: Net, steps: seq<Step>, more: seq<Step>)
    ensures After(t, s, steps + more) == After(t, After(t, s, steps), more)
  {
    if |more| == 0 {
      assert steps + more == steps;
    } else {
      var last := |more| - 1;
      assert (steps + more)[..|steps| + last] == steps + more[..last];
      AfterAppend(t, s, steps, more[..last]);
    }
  }

  lemma {:induction false} IngestKeepsPosts(n: Node, seen: set<Id>, board: Board, ds: seq<Delivery>)
    ensures n.posts.Keys <= IngestAll(n, seen, board, ds).node.posts.Keys
  {
    if |ds| > 0 {
      IngestKeepsPosts(n, seen, board, ds[..|ds| - 1]);
    }
  }

  lemma {:induction false} PostsStay(t: Topo, s: Net, steps: seq<Step>, n: nat)
    requires Fits(t, s) && n < |s.nodes|
    ensures Fits(t, After(t, s, steps)) && s.nodes[n].posts.Keys <= After(t, s, steps).nodes[n].posts.Keys
  {
    if |steps| > 0 {
      var before, step := After(t, s, steps[..|steps| - 1]), steps[|steps| - 1];
      PostsStay(t, s, steps[..|steps| - 1], n);
      NextFits(t, before, step);
      if Enabled(t, before, step) && step.Receive? && before.edges[step.e].chan[0].Events? {
        var m := before.edges[step.e].chan[0];
        IngestKeepsPosts(before.nodes[t.dst[step.e]], before.edges[t.rev[step.e]].seen, m.board, m.ds);
      }
    }
  }

  lemma {:induction false} SettledIsQuiet(t: Topo, base: Net, s: Net, p: Id, k: Key, a: nat, path: seq<nat>, z: nat)
    requires Fits(t, s) && Settled(t, s) && C.Walk(t, base, s, p, k, a, path, z)
    ensures C.Quiet(t, s, path)
    decreases |path|
  {
    if |path| > 0 {
      var e := path[0];
      SettledIsQuiet(t, base, s, p, k, t.dst[e], path[1..], z);
      assert !Enabled(t, s, Offer(e, true)) && !Enabled(t, s, Receive(e)) && !Enabled(t, s, Receive(t.rev[e]));
      assert forall i :: 0 < i < |path| ==> path[i] == path[1..][i - 1];
    }
  }

  /** From any state there is a run of deliveries, no longer than its weight, after which none is left to make. */
  lemma {:induction false} DrainExists(t: Topo, s: Net) returns (more: seq<Step>)
    ensures T.AllDelivered(t, s, more) && Settled(t, After(t, s, more))
    ensures |more| <= T.Weight(s, T.Universe(s))
  {
    more := [];
    while !Settled(t, After(t, s, more))
      invariant T.AllDelivered(t, s, more) && |more| <= T.Weight(s, T.Universe(s))
      decreases T.Weight(s, T.Universe(s)) - |more|
    {
      var step :| T.IsDelivery(step) && Enabled(t, After(t, s, more), step);
      assert (more + [step])[..|more + [step]| - 1] == more;
      more := more + [step];
      T.GossipDiesOut(t, s, more);
    }
  }

  /**
   After any history, let the mesh deliver what is pending and nothing else.
   That takes at most `Weight` steps; and once nothing is left to deliver,
   every burrow on a ready, subscribed walk from a holder of `p` holds `p`,
   unless a session of the walk lost its offer and nothing has made up for it.
   */
  lemma {:induction false} MeshSettles(t: Topo, s: Net, steps: seq<Step>, more: seq<Step>, p: Id, k: Key, a: nat,
      path: seq<nat>, z: nat)
    requires Init(t, s) && p.body.Post?
    requires a < |t.keys| && p in After(t, s, steps).nodes[a].posts
    requires T.AllDelivered(t, After(t, s, steps), more) && Settled(t, After(t, After(t, s, steps), more))
    requires C.Walk(t, s, After(t, After(t, s, steps), more), p, k, a, path, z)
    ensures |more| <= T.Weight(After(t, s, steps), T.Universe(After(t, s, steps)))
    ensures z < |t.keys| && (forall i :: 0 <= i < |path| ==> path[i] < |t.src|)
    ensures p in After(t, After(t, s, steps), more).nodes[z].posts
      || exists i :: 0 <= i < |path| && C.Unrepaired(t, s, steps + more, p, path[i])
  {
    T.GossipDiesOut(t, After(t, s, steps), more);
    AfterAppend(t, s, steps, more);
    PostsStay(t, After(t, s, steps), more, a);
    SettledIsQuiet(t, s, After(t, s, steps + more), p, k, a, path, z);
    C.Convergence(t, s, steps + more, p, k, a, path, z);
  }
}
