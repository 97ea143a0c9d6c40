/**
 The frame handlers of one peer session, as they update the burrow's tables
 and the session's own state. Each is proved to do exactly what its
 specification function in `FloodNode` and `FloodNet` says, so the theorems
 about the mesh are about these handlers.
 */
module FloodHandlers {
  import opened Base
  import opened FloodNode
  import opened FloodNet

  /** The tables of one burrow that gossip touches. */
  class Burrow {
    const origin: Origin
    const key: Key
    var boards: set<Board>
    var posts: map<Id, PostRow>
    var followups: map<Id, Followup>
    var dedup: set<Id>
    var pins: map<Origin, Key>

    constructor (origin: Origin, key: Key)
      ensures this.origin == origin && this.key == key
      ensures View() == Node(origin, key, {}, map[], map[], {}, map[])
    {
      this.origin, this.key := origin, key;
      boards, posts, followups, dedup, pins := {}, map[], map[], {}, map[];
    }

    function View(): Node
      reads this
    {
      Node(origin, key, boards, posts, followups, dedup, pins)
    }

    /** `reconcile_followups`: drop or apply what was parked for this post, one row at a time. */
    method ReconcileFollowups(post: Core, board: Board)
      modifies this`followups
      ensures followups == Reconcile(old(followups), post, board)
    {
      var before := followups;
      var pending := set id | id in followups && Parked(followups[id], post);
      ghost var done: set<Id> := {};
      while pending != {}
        invariant pending !! done && pending + done == set id | id in before && Parked(before[id], post)
        invariant forall id :: id in followups ==> id in before
        invariant forall id :: id in before && id !in done ==> id in followups && followups[id] == before[id]
        invariant forall id :: id in done ==>
          (id in followups <==> FollowupAuthorized(before[id].event.core, post))
          && (id in followups ==> followups[id] == before[id].(board := board, applied := true))
        decreases pending
      {
        var id :| id in pending;
        if FollowupAuthorized(followups[id].event.core, post) {
          followups := followups[id := followups[id].(board := board, applied := true)];
        } else {
          followups := followups - {id};
        }
        pending, done := pending - {id}, done + {id};
      }
      assert followups.Keys == Reconcile(before, post, board).Keys;
    }

    /** `BoardService::ingest_event`; false means the follow-up is not authorized. */
    method IngestBoardEvent(e: Signed, board: Board) returns (fired: Option<Fired>)
      modifies this`posts, this`followups
      ensures match BoardIngest(old(View()), e, board)
        case Stored(node, f) => View() == node && fired == Some(f)
        case Forbidden => View() == old(View()) && fired == None
    {
      if e.core.body.Post? {
        var own := e.core.body.board;
        if e.id !in posts {
          posts := posts[e.id := PostRow(e, own)];
        }
        ReconcileFollowups(e.id, own);
        return Some(Fired(own, e.id));
      }
      var target := e.core.body.target;
      var row;
      if target in posts {
        if !FollowupAuthorized(e.core, posts[target].event.core) {
          return None;
        }
        row := Followup(e, target, posts[target].board, true);
      } else {
        row := Followup(e, target, board, false);
      }
      if e.id !in followups {
        followups := followups[e.id := row];
      }
      return Some(Fired(row.board, e.id));
    }
  }

  function Out(m: Option<Msg>): seq<Msg> {
    if m.Some? then [m.value] else []
  }

  /** One delivered event as it is framed, before it is paired with its carried key. */
  datatype Wire = Wire(id: Id, event: Signed)

  function Pair(events: seq<Wire>, keys: seq<Key>): seq<Delivery>
    requires |events| == |keys|
  {
    seq(|events|, i requires 0 <= i < |events| => Delivery(events[i].id, events[i].event, keys[i]))
  }

  /** Per-session state, owned by one session task. */
  class FloodEdge {
    var interest: Interest
    var seen: set<Id>

    constructor ()
      ensures interest == NoInterest && seen == {}
    {
      interest, seen := NoInterest, {};
    }

    /** This session's edge of the mesh, with its bus queue and outgoing channel. */
    ghost function View(bus: seq<Fired>, chan: seq<Msg>): Edge
      reads this
    {
      Edge(interest, seen, bus, chan)
    }

    /**
     `maybe_offer`: the bus event is consumed, and offered unless it is unwanted
     or the filter reports its id. `seen` is what was inserted into the filter,
     which has no false negatives; `reported` is its answer.
     */
    method MaybeOffer(f: Fired, reported: bool, ghost bus: seq<Fired>, ghost chan: seq<Msg>) returns (sent: Option<Msg>)
      requires f.id in seen ==> reported
      modifies this`seen
      ensures View(bus, chan + Out(sent)) == OfferOne(old(View([f] + bus, chan)), reported)
    {
      if !Covers(interest, f.board) || reported {
        assert chan + Out(None) == chan;
        return None;
      }
      seen := seen + {f.id};
      return Some(IHave(f.board, [f.id]));
    }

    /** `handle_ihave`: pull what is neither stored nor recently processed. */
    method HandleIHave(b: Burrow, board: Board, ids: seq<Id>, ghost bus: seq<Fired>, ghost chan: seq<Msg>)
        returns (reply: Result<Option<Msg>>)
      modifies this`seen
      ensures reply.Err? <==> |ids| > MAX_IHAVE_IDS
      ensures View(bus, chan + if reply.Ok? then Out(reply.value) else [])
          == ReplyIHave(b.View(), old(View(bus, chan)), board, ids)
    {
      assert chan + [] == chan;
      if |ids| > MAX_IHAVE_IDS {
        return Err;
      }
      var want: seq<Id> := [];
      var i := 0;
      while i < |ids| && |want| < MAX_PULL_IDS
        invariant 0 <= i <= |ids| && |want| <= i
        invariant want == Wanted(b.View(), ids[..i])
      {
        assert ids[..i + 1][..i] == ids[..i];
        if ids[i] !in b.dedup && ids[i] !in b.posts && ids[i] !in b.followups {
          want := want + [ids[i]];
        }
        i := i + 1;
      }
      assert ids[..i] == ids;
      seen := seen + SetOf(want);
      if want == [] {
        return Ok(None);
      }
      return Ok(Some(Pull(board, want)));
    }

    /** `handle_pull`: deliver what we hold for the board and can vouch for. */
    method HandlePull(b: Burrow, approved: bool, board: Board, ids: seq<Id>, ghost bus: seq<Fired>,
        ghost chan: seq<Msg>)
        returns (reply: Result<Option<Msg>>)
      modifies this`seen
      ensures reply.Err? <==> !approved || |ids| > MAX_PULL_IDS
      ensures !approved ==> View(bus, chan) == old(View(bus, chan))
      ensures approved ==>
        View(bus, chan + if reply.Ok? then Out(reply.value) else [])
            == ReplyPull(b.View(), old(View(bus, chan)), board, ids)
    {
      assert chan + [] == chan;
      if !approved || |ids| > MAX_PULL_IDS {
        return Err;
      }
      var served := Take(ids, MAX_EVENTS_PER_MSG);
      var ds: seq<Delivery> := [];
      for i := 0 to |served|
        invariant ds == ServeAll(b.View(), board, served[..i])
        invariant seen == old(seen) + Ids(ds)
      {
        assert served[..i + 1][..i] == served[..i];
        var s := Serve(b.View(), board, served[i]);
        if s.Some? {
          ghost var before := ds;
          seen := seen + {served[i]};
          ds := ds + [s.value];
          assert Ids(ds) == Ids(before) + {served[i]};
        }
      }
      assert served[..|served|] == served;
      if ds == [] {
        return Ok(None);
      }
      return Ok(Some(Events(board, ds)));
    }

    /** `ingest_fed_event`: every check before the first byte is trusted, and the one re-fire. */
    method IngestFedEvent(b: Burrow, board: Board, d: Delivery) returns (fired: Option<Fired>)
      modifies this`seen, b`posts, b`followups, b`dedup
      ensures var i := IngestEvent(old(b.View()), board, d);
        && b.View() == i.node && fired == i.fired
        && seen == if i.touched then old(seen) + {d.id} else old(seen)
    {
      var e := d.event;
      if e.id != d.id || (e.core.body.Post? && e.core.body.board != board) {
        return None;
      }
      var trusted: Key;
      if e.core.origin == b.origin {
        trusted := b.key;
      } else if e.core.origin in b.pins {
        trusted := b.pins[e.core.origin];
      } else {
        return None;
      }
      if trusted != d.key || !Verify(e, trusted) {
        return None;
      }
      var already := if e.core.body.Post? then d.id in b.posts else d.id in b.followups;
      seen := seen + {d.id};
      if already || d.id in b.dedup {
        return None;
      }
      fired := b.IngestBoardEvent(e, board);
      b.dedup := b.dedup + {d.id};
    }

    /**
     `handle_events`. Approval is re-read before every event; `revokedAt` is the
     index at which it is found withdrawn (past the end: never). What was
     accepted before that point stays, and the session then ends.
     */
    method HandleEvents(b: Burrow, board: Board, events: seq<Wire>, keys: seq<Key>, revokedAt: nat)
        returns (ok: bool, fired: seq<Fired>)
      modifies this`seen, b`posts, b`followups, b`dedup
      ensures |events| != |keys| || |events| > MAX_EVENTS_PER_MSG ==>
        !ok && fired == [] && b.View() == old(b.View()) && seen == old(seen)
      ensures |events| == |keys| && |events| <= MAX_EVENTS_PER_MSG ==>
        var batch := Deliver(old(b.View()), old(seen), board, Take(Pair(events, keys), revokedAt));
        && b.View() == batch.node && seen == batch.seen && fired == batch.fired
        && (ok <==> board !in old(b.boards) || |events| <= revokedAt)
    {
      fired := [];
      if |events| > MAX_EVENTS_PER_MSG || |keys| != |events| {
        return false, [];
      }
      if board !in b.boards {
        return true, [];
      }
      ghost var ds := Pair(events, keys);
      ghost var start, was := b.View(), seen;
      var i := 0;
      while i < |events|
        invariant 0 <= i <= |events| && i <= revokedAt
        invariant Batch(b.View(), seen, fired) == IngestAll(start, was, board, ds[..i])
      {
        if i == revokedAt {
          return false, fired;
        }
        assert ds[..i + 1][..i] == ds[..i] && ds[..i + 1][i] == ds[i];
        var f := IngestFedEvent(b, board, Delivery(events[i].id, events[i].event, keys[i]));
        if f.Some? {
          fired := fired + [f.value];
        }
        i := i + 1;
      }
      assert ds[..i] == ds;
      return true, fired;
    }
  }
}
