/**
 Live gossip dies out. Reading a bus event, a message, or dropping one, always
 lowers a weight that counts what is still unread plus what a burrow could
 still re-fire. So on any topology, and with any hostile traffic already in
 flight, a mesh left alone goes quiet, within a number of steps known up front.
 */
module FloodTermination {
  import opened Base
  import opened FloodNode
  import opened FloodNet

  predicate IsDelivery(step: Step) {
    step.Offer? || step.Lag? || step.Receive? || step.Discard?
  }

  // ---- the weight of unread traffic -----------------------------------------

  function MsgLoad(m: Msg): nat {
    match m
    case IHave(_, _) => 3
    case Pull(_, _) => 2
    case Events(_, _) => 1
  }

  function ChanLoad(chan: seq<Msg>): nat {
    if |chan| == 0 then 0 else MsgLoad(chan[0]) + ChanLoad(chan[1..])
  }

  function EdgeLoad(x: Edge): nat {
    4 * |x.bus| + ChanLoad(x.chan)
  }

  function Load(edges: seq<Edge>): nat {
    if |edges| == 0 then 0 else EdgeLoad(edges[0]) + Load(edges[1..])
  }

  lemma {:induction false} ChanAppend(chan: seq<Msg>, m: Msg)
    ensures ChanLoad(chan + [m]) == ChanLoad(chan) + MsgLoad(m)
  {
    if |chan| > 0 {
      assert (chan + [m])[1..] == chan[1..] + [m];
      ChanAppend(chan[1..], m);
    } else {
      assert chan + [m] == [m];
      assert [m][1..] == [];
    }
  }

  lemma {:induction false} LoadUpdate(edges: seq<Edge>, i: nat, x: Edge)
    requires i < |edges|
    ensures Load(edges[i := x]) == Load(edges) - EdgeLoad(edges[i]) + EdgeLoad(x)
  {
    if i > 0 {
      assert edges[i := x][1..] == edges[1..][i - 1 := x];
      LoadUpdate(edges[1..], i - 1, x);
    } else {
      assert edges[i := x][1..] == edges[1..];
    }
  }

  /** Each edge gains at most `k` bus events. */
  lemma {:induction false} LoadBroadcast(a: seq<Edge>, b: seq<Edge>, k: nat)
    requires |a| == |b|
    requires forall i :: 0 <= i < |a| ==> EdgeLoad(b[i]) <= EdgeLoad(a[i]) + 4 * k
    ensures Load(b) <= Load(a) + 4 * k * |a|
  {
    if |a| > 0 {
      LoadBroadcast(a[1..], b[1..], k);
      assert 4 * k * |a| == 4 * k + 4 * k * |a[1..]|;
    }
  }

  // ---- the weight of what could still be re-fired ---------------------------

  /** How many (burrow, id) pairs of the universe no duplicate gate holds yet. */
  function Fresh(nodes: seq<Node>, u: set<Id>): nat {
    if |nodes| == 0 then 0 else |u - nodes[0].dedup| + Fresh(nodes[1..], u)
  }

  lemma {:induction false} FreshUpdate(nodes: seq<Node>, n: nat, node: Node, u: set<Id>)
    requires n < |nodes|
    ensures Fresh(nodes[n := node], u) == Fresh(nodes, u) - |u - nodes[n].dedup| + |u - node.dedup|
  {
    if n > 0 {
      assert nodes[n := node][1..] == nodes[1..][n - 1 := node];
      FreshUpdate(nodes[1..], n - 1, node, u);
    } else {
      assert nodes[n := node][1..] == nodes[1..];
    }
  }

  /** Everything stored or in flight is in the universe. */
  predicate Within(s: Net, u: set<Id>) {
    && (forall n :: 0 <= n < |s.nodes| ==> s.nodes[n].posts.Keys <= u && s.nodes[n].followups.Keys <= u)
    && (forall e :: 0 <= e < |s.edges| ==> forall m :: m in s.edges[e].chan && m.Events? ==> Ids(m.ds) <= u)
  }

  function Weight(s: Net, u: set<Id>): nat {
    Load(s.edges) + 4 * |s.edges| * Fresh(s.nodes, u)
  }

  /** Every re-fire of a delivery is paid for by a gate entry. */
  lemma {:induction false} RefiresArePaid(n: Node, seen: set<Id>, board: Board, ds: seq<Delivery>, u: set<Id>)
    requires Ids(ds) <= u && n.posts.Keys <= u && n.followups.Keys <= u
    ensures var b := IngestAll(n, seen, board, ds);
      && b.node.posts.Keys <= u && b.node.followups.Keys <= u
      && |u - b.node.dedup| + |b.fired| <= |u - n.dedup|
  {
    if |ds| > 0 {
      var last := |ds| - 1;
      var d := ds[last];
      assert Ids(ds[..last]) <= Ids(ds) && d.id in Ids(ds);
      RefiresArePaid(n, seen, board, ds[..last], u);
      var mid := IngestAll(n, seen, board, ds[..last]).node;
      OnePaid(mid, board, d, u);
    }
  }

  lemma OnePaid(n: Node, board: Board, d: Delivery, u: set<Id>)
    requires d.id in u && n.posts.Keys <= u && n.followups.Keys <= u
    ensures var i := IngestEvent(n, board, d);
      && i.node.posts.Keys <= u && i.node.followups.Keys <= u
      && |u - i.node.dedup| + (if i.fired.Some? then 1 else 0) <= |u - n.dedup|
  {
    var i := IngestEvent(n, board, d);
    if i.node.dedup != n.dedup {
      assert u - i.node.dedup == (u - n.dedup) - {d.id};
    }
  }

  // ---- one step ---------------------------------------------------------------

  lemma {:induction false} ServedWithin(n: Node, board: Board, ids: seq<Id>, u: set<Id>)
    requires n.posts.Keys <= u && n.followups.Keys <= u
    ensures Ids(ServeAll(n, board, ids)) <= u
  {
    if |ids| > 0 {
      ServedWithin(n, board, ids[..|ids| - 1], u);
      assert forall d ::
          d in ServeAll(n, board, ids[..|ids| - 1]) ==> d.id in Ids(ServeAll(n, board, ids[..|ids| - 1]));
    }
  }

  lemma OfferLoad(x: Edge, reported: bool)
    requires |x.bus| > 0
    ensures EdgeLoad(OfferOne(x, reported)) < EdgeLoad(x)
  {
    ChanAppend(x.chan, IHave(x.bus[0].board, [x.bus[0].id]));
  }

  lemma OfferLighter(t: Topo, s: Net, e: nat, reported: bool, u: set<Id>)
    requires Within(s, u) && Enabled(t, s, Offer(e, reported))
    ensures Within(Next(t, s, Offer(e, reported)), u) && Weight(Next(t, s, Offer(e, reported)), u) < Weight(s, u)
  {
    OfferLoad(s.edges[e], reported);
    LoadUpdate(s.edges, e, OfferOne(s.edges[e], reported));
  }

  lemma LagLighter(t: Topo, s: Net, e: nat, u: set<Id>)
    requires Within(s, u) && Enabled(t, s, Lag(e))
    ensures Within(Next(t, s, Lag(e)), u) && Weight(Next(t, s, Lag(e)), u) < Weight(s, u)
  {
    LoadUpdate(s.edges, e, s.edges[e].(bus := s.edges[e].bus[1..]));
  }

  lemma DiscardLighter(t: Topo, s: Net, e: nat, u: set<Id>)
    requires Within(s, u) && Enabled(t, s, Discard(e))
    ensures Within(Next(t, s, Discard(e)), u) && Weight(Next(t, s, Discard(e)), u) < Weight(s, u)
  {
    LoadUpdate(s.edges, e, s.edges[e].(chan := s.edges[e].chan[1..]));
  }

  /** A reply weighs less than the message it answers. */
  lemma ReplyLighter(t: Topo, s: Net, e: nat, u: set<Id>)
    requires Within(s, u) && Enabled(t, s, Receive(e)) && !s.edges[e].chan[0].Events?
    ensures Within(ReceiveOne(t, s, e), u) && Weight(ReceiveOne(t, s, e), u) < Weight(s, u)
  {
    hide Serve, ServeAll, Wanted, HonestKey;
    var n, r, m := s.nodes[t.dst[e]], t.rev[e], s.edges[e].chan[0];
    var popped := s.edges[e := s.edges[e].(chan := s.edges[e].chan[1..])];
    LoadUpdate(s.edges, e, popped[e]);
    var y := ReceiveOne(t, s, e).edges[r];
    LoadUpdate(popped, r, y);
    if y.chan != s.edges[r].chan {
      ChanAppend(s.edges[r].chan, y.chan[|s.edges[r].chan|]);
    }
    if m.Pull? {
      ServedWithin(n, m.board, Take(m.ids, MAX_EVENTS_PER_MSG), u);
    }
  }

  lemma EventsWithin(t: Topo, s: Net, e: nat, u: set<Id>)
    requires Within(s, u) && Enabled(t, s, Receive(e)) && s.edges[e].chan[0].Events?
    ensures Within(ReceiveOne(t, s, e), u)
  {
    var n, m := t.dst[e], s.edges[e].chan[0];
    assert m in s.edges[e].chan;
    RefiresArePaid(s.nodes[n], s.edges[t.rev[e]].seen, m.board, m.ds, u);
    var s' := ReceiveOne(t, s, e);
    forall i | 0 <= i < |s'.edges|
      ensures forall x :: x in s'.edges[i].chan ==> x in s.edges[i].chan
    {
    }
  }

  lemma EventsLighter(t: Topo, s: Net, e: nat, u: set<Id>)
    requires Within(s, u) && Enabled(t, s, Receive(e)) && s.edges[e].chan[0].Events?
    ensures Weight(ReceiveOne(t, s, e), u) < Weight(s, u)
  {
    var n, r, m := t.dst[e], t.rev[e], s.edges[e].chan[0];
    var popped := s.edges[e := s.edges[e].(chan := s.edges[e].chan[1..])];
    LoadUpdate(s.edges, e, popped[e]);
    var b := Accept(s.nodes[n], popped[r], m.board, m.ds);
    assert m in s.edges[e].chan;
    RefiresArePaid(s.nodes[n], popped[r].seen, m.board, m.ds, u);
    var marked := popped[r := popped[r].(seen := b.seen)];
    LoadUpdate(popped, r, marked[r]);
    LoadBroadcast(marked, Publish(t, marked, n, b.fired), |b.fired|);
    FreshUpdate(s.nodes, n, b.node, u);
    Bill(|s.edges|, Fresh(s.nodes, u), Fresh(s.nodes[n := b.node], u), |b.fired|);
  }

  lemma Bill(edges: nat, before: nat, after: nat, fired: nat)
    requires after + fired <= before
    ensures 4 * fired * edges + 4 * edges * after <= 4 * edges * before
  {
    assert 4 * edges * (before - after - fired) >= 0;
  }

  /** Every delivery step strictly lowers the weight. */
  lemma Lighter(t: Topo, s: Net, step: Step, u: set<Id>)
    requires Within(s, u) && IsDelivery(step) && Enabled(t, s, step)
    ensures Within(Next(t, s, step), u) && Weight(Next(t, s, step), u) < Weight(s, u)
  {
    match step {
      case Offer(e, reported) => OfferLighter(t, s, e, reported, u);
      case Lag(e) => LagLighter(t, s, e, u);
      case Discard(e) => DiscardLighter(t, s, e, u);
      case Receive(e) =>
        if s.edges[e].chan[0].Events? {
          EventsWithin(t, s, e, u);
          EventsLighter(t, s, e, u);
        } else {
          ReplyLighter(t, s, e, u);
        }
    }
  }

  // ---- whole runs ---------------------------------------------------------------

  /** Every step of the run delivered something. */
  predicate AllDelivered(t: Topo, s: Net, steps: seq<Step>) {
    |steps| == 0
    || (AllDelivered(t, s, steps[..|steps| - 1])
        && IsDelivery(steps[|steps| - 1])
        && Enabled(t, After(t, s, steps[..|steps| - 1]), steps[|steps| - 1]))
  }

  lemma {:induction false} RunWithin(t: Topo, s: Net, steps: seq<Step>, u: set<Id>)
    requires Within(s, u) && AllDelivered(t, s, steps)
    ensures Within(After(t, s, steps), u) && Weight(After(t, s, steps), u) + |steps| <= Weight(s, u)
  {
    if |steps| > 0 {
      RunWithin(t, s, steps[..|steps| - 1], u);
      Lighter(t, After(t, s, steps[..|steps| - 1]), steps[|steps| - 1], u);
    }
  }

  // ---- the universe of a state, so that the bound is explicit -----------------

  function NodeIds(nodes: seq<Node>): set<Id> {
    if |nodes| == 0 then {} else nodes[0].posts.Keys + nodes[0].followups.Keys + NodeIds(nodes[1..])
  }

  function ChanIds(chan: seq<Msg>): set<Id> {
    if |chan| == 0 then {} else (if chan[0].Events? then Ids(chan[0].ds) else {}) + ChanIds(chan[1..])
  }

  function EdgeIds(edges: seq<Edge>): set<Id> {
    if |edges| == 0 then {} else ChanIds(edges[0].chan) + EdgeIds(edges[1..])
  }

  /** Every id stored or in flight; finite, so the weight below is a number. */
  function Universe(s: Net): set<Id> {
    NodeIds(s.nodes) + EdgeIds(s.edges)
  }

  lemma {:induction false} NodeIdsCover(nodes: seq<Node>, n: nat)
    requires n < |nodes|
    ensures nodes[n].posts.Keys + nodes[n].followups.Keys <= NodeIds(nodes)
  {
    if n > 0 {
      NodeIdsCover(nodes[1..], n - 1);
    }
  }

  lemma {:induction false} ChanIdsCover(chan: seq<Msg>, m: Msg)
    requires m in chan && m.Events?
    ensures Ids(m.ds) <= ChanIds(chan)
  {
    if m != chan[0] {
      ChanIdsCover(chan[1..], m);
    }
  }

  lemma {:induction false} EdgeIdsCover(edges: seq<Edge>, e: nat)
    requires e < |edges|
    ensures ChanIds(edges[e].chan) <= EdgeIds(edges)
  {
    if e > 0 {
      EdgeIdsCover(edges[1..], e - 1);
    }
  }

  lemma UniverseCovers(s: Net)
    ensures Within(s, Universe(s))
  {
    forall n | 0 <= n < |s.nodes|
      ensures s.nodes[n].posts.Keys <= Universe(s) && s.nodes[n].followups.Keys <= Universe(s)
    {
      NodeIdsCover(s.nodes, n);
    }
    forall e, m | 0 <= e < |s.edges| && m in s.edges[e].chan && m.Events?
      ensures Ids(m.ds) <= Universe(s)
    {
      ChanIdsCover(s.edges[e].chan, m);
      EdgeIdsCover(s.edges, e);
    }
  }

  /** Live gossip dies out: no run of deliveries is longer than the weight of where it started. */
  lemma {:induction false} GossipDiesOut(t: Topo, s: Net, steps: seq<Step>)
    requires AllDelivered(t, s, steps)
    ensures |steps| <= Weight(s, Universe(s))
  {
    UniverseCovers(s);
    RunWithin(t, s, steps, Universe(s));
  }

  // ---- each id is re-fired at most once -----------------------------------------

  /** What the step made burrow `n` re-fire on its bus, in order. */
  function RefiredBy(t: Topo, s: Net, step: Step, n: nat): seq<Fired> {
    if Enabled(t, s, step) && step.Receive? && t.dst[step.e] == n && s.edges[step.e].chan[0].Events? then
      var m := s.edges[step.e].chan[0];
      Accept(s.nodes[n], s.edges[t.rev[step.e]], m.board, m.ds).fired
    else []
  }

  lemma GateOne(n: Node, board: Board, d: Delivery)
    ensures var i := IngestEvent(n, board, d);
      && n.dedup <= i.node.dedup
      && (i.fired.Some? ==> i.fired.value.id !in n.dedup && i.fired.value.id in i.node.dedup)
  {
  }

  /** Within one delivery every re-fired id is new to the gate, and no two are the same. */
  lemma {:induction false} GateGrows(n: Node, seen: set<Id>, board: Board, ds: seq<Delivery>)
    ensures var b := IngestAll(n, seen, board, ds);
      && n.dedup <= b.node.dedup
      && (forall f :: f in b.fired ==> f.id in b.node.dedup && f.id !in n.dedup)
      && (forall i, j :: 0 <= i < j < |b.fired| ==> b.fired[i].id != b.fired[j].id)
  {
    if |ds| > 0 {
      GateGrows(n, seen, board, ds[..|ds| - 1]);
      GateOne(IngestAll(n, seen, board, ds[..|ds| - 1]).node, board, ds[|ds| - 1]);
      hide IngestEvent;
    }
  }

  lemma StepGate(t: Topo, s: Net, step: Step, n: nat)
    requires Fits(t, s) && n < |s.nodes|
    ensures |Next(t, s, step).nodes| == |s.nodes|
    ensures s.nodes[n].dedup <= Next(t, s, step).nodes[n].dedup
    ensures forall f :: f in RefiredBy(t, s, step, n) ==>
      f.id !in s.nodes[n].dedup && f.id in Next(t, s, step).nodes[n].dedup
    ensures forall i, j :: 0 <= i < j < |RefiredBy(t, s, step, n)| ==>
      RefiredBy(t, s, step, n)[i].id != RefiredBy(t, s, step, n)[j].id
  {
    NextFits(t, s, step);
    if Enabled(t, s, step) && step.Receive? && s.edges[step.e].chan[0].Events? {
      var m := s.edges[step.e].chan[0];
      GateGrows(s.nodes[t.dst[step.e]], s.edges[t.rev[step.e]].seen, m.board, m.ds);
    }
  }

  lemma {:induction false} RunGate(t: Topo, s: Net, steps: seq<Step>, n: nat, i: nat)
    requires Fits(t, s) && n < |s.nodes| && i <= |steps|
    ensures After(t, s, steps[..i]).nodes[n].dedup <= After(t, s, steps).nodes[n].dedup
    decreases |steps|
  {
    if i == |steps| {
      assert steps[..i] == steps;
    } else {
      var last := |steps| - 1;
      RunGate(t, s, steps[..last], n, i);
      assert steps[..last][..i] == steps[..i];
      StepGate(t, After(t, s, steps[..last]), steps[last], n);
    }
  }

  lemma {:induction false} OneMore(t: Topo, s: Net, steps: seq<Step>, i: nat)
    requires i < |steps|
    ensures After(t, s, steps[..i + 1]) == Next(t, After(t, s, steps[..i]), steps[i])
  {
    assert steps[..i + 1][..i] == steps[..i];
  }

  lemma {:induction false} LaterIsDifferent(t: Topo, s: Net, steps: seq<Step>, n: nat, i: nat, j: nat,
      f: Fired, g: Fired)
    requires Fits(t, s) && n < |s.nodes| && i < j < |steps|
    requires f in RefiredBy(t, After(t, s, steps[..i]), steps[i], n)
    requires g in RefiredBy(t, After(t, s, steps[..j]), steps[j], n)
    ensures f.id != g.id
  {
    hide RefiredBy, Next, Enabled;
    StepGate(t, After(t, s, steps[..i]), steps[i], n);
    OneMore(t, s, steps, i);
    RunGate(t, s, steps[..j], n, i + 1);
    assert steps[..j][..i + 1] == steps[..i + 1];
    StepGate(t, After(t, s, steps[..j]), steps[j], n);
  }

  /**
   In any run, hostile or not, no burrow re-fires the same id twice: two
   re-fires of one id are the same place in the same step.
   */
  lemma {:induction false} RefiresOnce(t: Topo, s: Net, steps: seq<Step>, n: nat, i: nat, a: nat, j: nat, b: nat)
    requires Fits(t, s) && n < |s.nodes| && i < |steps| && j < |steps|
    requires a < |RefiredBy(t, After(t, s, steps[..i]), steps[i], n)|
    requires b < |RefiredBy(t, After(t, s, steps[..j]), steps[j], n)|
    requires RefiredBy(t, After(t, s, steps[..i]), steps[i], n)[a].id
        == RefiredBy(t, After(t, s, steps[..j]), steps[j], n)[b].id
    ensures i == j && a == b
  {
    hide RefiredBy, Next, Enabled;
    var f := RefiredBy(t, After(t, s, steps[..i]), steps[i], n)[a];
    var g := RefiredBy(t, After(t, s, steps[..j]), steps[j], n)[b];
    if i < j {
      LaterIsDifferent(t, s, steps, n, i, j, f, g);
    } else if j < i {
      LaterIsDifferent(t, s, steps, n, j, i, g, f);
    } else {
      StepGate(t, After(t, s, steps[..i]), steps[i], n);
    }
  }
}
