/**
 The desktop shell's mirror of the browser history (`apps/desktop/src/native-shim.js`).
 The browser keeps a list of entries and a position in it, which no script can
 ask for; the shim marks each entry with an index of its own and keeps `index`
 and `last` so that the native Go menu can be enabled.
 */
module HistoryMirror {
  import opened Base

  /** An address, cut at the `#`. */
  datatype Url = Url(page: string, fragment: Option<string>)

  /** One entry of the session history, with the shim's marker in its state if it has one. */
  datatype Visit = Visit(url: Url, mark: Option<nat>)

  datatype Menu = Menu(back: bool, forward: bool)

  /** The browser's side and the shim's variables. `saved` is the session storage item. */
  datatype View = View(
    visits: seq<Visit>, pos: nat, saved: Option<nat>,
    index: nat, last: nat, currentUrl: Url, menu: Menu)

  predicate InHistory(v: View) {
    v.pos < |v.visits|
  }

  function Max(a: nat, b: nat): nat {
    if a < b then b else a
  }

  function Synced(v: View): View
    requires InHistory(v)
  {
    v.(currentUrl := v.visits[v.pos].url, saved := Some(v.last), menu := Menu(v.index > 0, v.index < v.last))
  }

  /** `replaceState` as the browser offers it: the current entry only. */
  function Marked(v: View, url: Url): View
    requires InHistory(v)
  {
    v.(visits := v.visits[v.pos := Visit(url, Some(v.index))])
  }

  /** A new entry drops everything forward of the current one. */
  function Branched(v: View, x: Visit): View
    requires InHistory(v)
  {
    v.(visits := v.visits[..v.pos + 1] + [x], pos := v.pos + 1)
  }

  /** The shim starting in a document: from the entry's marker, or from nothing. */
  function Loaded(v: View, storageReads: bool): View
    requires InHistory(v)
  {
    var stored := v.visits[v.pos].mark;
    var index := if stored.Some? then stored.value else 0;
    var remembered := if stored.Some? && storageReads && v.saved.Some? then v.saved.value else 0;
    var w := v.(index := index, last := Max(index, remembered));
    Synced(Marked(w, w.visits[w.pos].url))
  }

  function Pushed(v: View, url: Url): View
    requires InHistory(v)
  {
    Synced(Branched(v, Visit(url, Some(v.index + 1))).(index := v.index + 1, last := v.index + 1))
  }

  function Replaced(v: View, url: Url): View
    requires InHistory(v)
  {
    Synced(Marked(v, url))
  }

  /** The same page under another fragment: what a native fragment link leaves behind. */
  predicate FragmentMove(v: View)
    requires InHistory(v)
  {
    v.visits[v.pos].url != v.currentUrl && v.visits[v.pos].url.page == v.currentUrl.page
  }

  function Popped(v: View): View
    requires InHistory(v)
  {
    var here := v.visits[v.pos];
    if here.mark.Some? then Synced(v.(index := here.mark.value))
    else if FragmentMove(v) then Synced(Marked(v.(index := v.index + 1, last := v.index + 1), here.url))
    else Synced(Marked(v.(index := 0, last := 0), here.url))
  }

  // ---- the shim as it runs -----------------------------------------------------------------

  class Window {
    var visits: seq<Visit>
    var pos: nat
    var saved: Option<nat>
    var index: nat
    var last: nat
    var currentUrl: Url
    var menu: Menu

    function Now(): View
      reads this
    {
      View(visits, pos, saved, index, last, currentUrl, menu)
    }

    /** A new window: one entry, no marker, empty session storage. */
    constructor (url: Url)
      ensures Now() == Loaded(Blank(url), true)
    {
      visits, pos, saved := [Visit(url, None)], 0, None;
      index, last, currentUrl, menu := 0, 0, url, Menu(false, false);
      new;
      Start(true);
    }

    /** What the script does when a document loads. */
    method Start(storageReads: bool)
      requires InHistory(Now())
      modifies this
      ensures Now() == Loaded(old(Now()), storageReads)
    {
      var stored := visits[pos].mark;
      index := if stored.Some? then stored.value else 0;
      last := index;
      if stored == Some(index) && storageReads {
        last := Max(index, if saved.Some? then saved.value else 0);
      }
      visits := visits[pos := Visit(visits[pos].url, Some(index))];
      SyncHistory();
    }

    method SyncHistory()
      requires InHistory(Now())
      modifies this
      ensures Now() == Synced(old(Now()))
    {
      currentUrl := visits[pos].url;
      saved := Some(last);
      menu := Menu(index > 0, index < last);
    }

    /** A malformed address makes the browser's own push throw, before the mirror has moved. */
    method PushState(url: Url, throws: bool)
      requires InHistory(Now())
      modifies this
      ensures Now() == if throws then old(Now()) else Pushed(old(Now()), url)
    {
      if throws {
        return;
      }
      visits, pos := visits[..pos + 1] + [Visit(url, Some(index + 1))], pos + 1;
      index := index + 1;
      last := index;
      SyncHistory();
    }

    method ReplaceState(url: Url, throws: bool)
      requires InHistory(Now())
      modifies this
      ensures Now() == if throws then old(Now()) else Replaced(old(Now()), url)
    {
      if throws {
        return;
      }
      visits := visits[pos := Visit(url, Some(index))];
      SyncHistory();
    }

    method OnPopState()
      requires InHistory(Now())
      modifies this
      ensures Now() == Popped(old(Now()))
    {
      var position := visits[pos].mark;
      if position.Some? {
        index := position.value;
      } else if visits[pos].url != currentUrl && visits[pos].url.page == currentUrl.page {
        index := index + 1;
        last := index;
        visits := visits[pos := Visit(visits[pos].url, Some(index))];
      } else {
        index, last := 0, 0;
        visits := visits[pos := Visit(visits[pos].url, Some(index))];
      }
      SyncHistory();
    }

    /** `history.go`: the browser moves, then the listener hears of it. */
    method Traverse(to: nat)
      requires InHistory(Now())
      modifies this
      ensures Now() == Traversed(old(Now()), to)
    {
      if to < |visits| && to != pos {
        pos := to;
        OnPopState();
      }
    }

    /** The native menu's Back and Forward act only where the mirror says there is somewhere to go. */
    method Back()
      requires InHistory(Now())
      modifies this
      ensures Now() == WentBack(old(Now()))
    {
      if index > 0 && pos > 0 {
        Traverse(pos - 1);
      }
    }

    method Forward()
      requires InHistory(Now())
      modifies this
      ensures Now() == WentForward(old(Now()))
    {
      if index < last {
        Traverse(pos + 1);
      }
    }

    /** A native menu destination: a push, unless it is where we are, and a synthetic event. */
    method Navigate(url: Url)
      requires InHistory(Now())
      modifies this
      ensures Now() == Navigated(old(Now()), url)
    {
      if url != visits[pos].url {
        PushState(url, false);
        OnPopState();
      }
    }
  }

  function Blank(url: Url): View {
    View([Visit(url, None)], 0, None, 0, 0, url, Menu(false, false))
  }

  function Traversed(v: View, to: nat): View
    requires InHistory(v)
  {
    if to < |v.visits| && to != v.pos then Popped(v.(pos := to)) else v
  }

  function WentBack(v: View): View
    requires InHistory(v)
  {
    if v.index > 0 && v.pos > 0 then Traversed(v, v.pos - 1) else v
  }

  function WentForward(v: View): View
    requires InHistory(v)
  {
    if v.index < v.last then Traversed(v, v.pos + 1) else v
  }

  function Navigated(v: View, url: Url): View
    requires InHistory(v)
  {
    if url == v.visits[v.pos].url then v else Popped(Pushed(v, url))
  }

  /** A native fragment link to another fragment of this page: an unmarked entry, then the event. */
  function Followed(v: View, fragment: Option<string>): View
    requires InHistory(v)
  {
    var url := Url(v.visits[v.pos].url.page, fragment);
    if url == v.visits[v.pos].url then v else Popped(Branched(v, Visit(url, None)))
  }

  // ---- the refinement ------------------------------------------------------------------------

  /** The mirror shows the true position and the true top. */
  predicate Accurate(v: View) {
    InHistory(v) && v.index == v.pos && v.last == |v.visits| - 1
  }

  /** What keeps it so: every entry carries its own position, and the storage the top. */
  predicate Inv(v: View) {
    && Accurate(v) && v.saved == Some(v.last) && v.currentUrl == v.visits[v.pos].url
    && v.menu == Menu(v.index > 0, v.index < v.last)
    && forall k :: 0 <= k < |v.visits| ==> v.visits[k].mark == Some(k)
  }

  datatype Step =
    | Push(url: Url, throws: bool)
    | Replace(url: Url, throws: bool)
    | Traverse(to: nat)
    | GoBack
    | GoForward
    | Navigate(url: Url)
    | FollowFragment(fragment: Option<string>)
    | Reload

  function Next(v: View, step: Step): View
    requires InHistory(v)
  {
    match step
    case Push(url, throws) => if throws then v else Pushed(v, url)
    case Replace(url, throws) => if throws then v else Replaced(v, url)
    case Traverse(to) => Traversed(v, to)
    case GoBack => WentBack(v)
    case GoForward => WentForward(v)
    case Navigate(url) => Navigated(v, url)
    case FollowFragment(fragment) => Followed(v, fragment)
    case Reload => Loaded(v, true)
  }

  function After(v: View, steps: seq<Step>): (r: View)
    requires InHistory(v)
    ensures InHistory(r)
  {
    if |steps| == 0 then v else Next(After(v, steps[..|steps| - 1]), steps[|steps| - 1])
  }

  lemma PoppedInv(v: View, to: nat)
    requires Inv(v) && to < |v.visits|
    ensures Inv(Popped(v.(pos := to)))
  {
  }

  lemma FollowedInv(v: View, fragment: Option<string>)
    requires Inv(v)
    ensures Inv(Followed(v, fragment))
  {
    var url := Url(v.visits[v.pos].url.page, fragment);
    if url != v.visits[v.pos].url {
      var b := Branched(v, Visit(url, None));
      assert b.visits[b.pos] == Visit(url, None) && FragmentMove(b);
      assert forall k :: 0 <= k < b.pos ==> b.visits[k] == v.visits[k];
    }
  }

  lemma PushedInv(v: View, url: Url)
    requires Inv(v)
    ensures Inv(Pushed(v, url)) && Inv(Navigated(v, url))
  {
    var p := Pushed(v, url);
    assert forall k :: 0 <= k < p.pos ==> p.visits[k] == v.visits[k];
    PoppedInv(p, p.pos);
    assert p.(pos := p.pos) == p;
  }

  lemma NextInv(v: View, step: Step)
    requires Inv(v)
    ensures Inv(Next(v, step))
  {
    match step {
      case Push(url, _) => PushedInv(v, url);
      case Navigate(url) => PushedInv(v, url);
      case FollowFragment(fragment) => FollowedInv(v, fragment);
      case Traverse(to) =>
        if to < |v.visits| {
          PoppedInv(v, to);
        }
      case GoBack =>
        if v.pos > 0 {
          PoppedInv(v, v.pos - 1);
        }
      case GoForward =>
        if v.pos + 1 < |v.visits| {
          PoppedInv(v, v.pos + 1);
        }
      case _ =>
    }
  }

  /**
   The mirror refines the entry stack: from a fresh window, through every run of
   pushes, failed pushes, replaces, traversals, fragment links and reloads,
   `index` is the position and `last` the top, so Back and Forward are offered
   exactly when there is an entry to go to.
   */
  lemma {:induction false} MirrorIsAccurate(url: Url, steps: seq<Step>)
    ensures var v := After(Loaded(Blank(url), true), steps);
      && Inv(v) && Accurate(v)
      && (v.menu.back <==> v.pos > 0) && (v.menu.forward <==> v.pos + 1 < |v.visits|)
  {
    if |steps| > 0 {
      MirrorIsAccurate(url, steps[..|steps| - 1]);
      NextInv(After(Loaded(Blank(url), true), steps[..|steps| - 1]), steps[|steps| - 1]);
    }
  }

  /** Back undoes Forward and Forward undoes Back, as long as the menu offers them. */
  lemma BackAndForwardUndo(v: View)
    requires Inv(v)
    ensures v.menu.back ==> WentForward(WentBack(v)) == v
    ensures v.menu.forward ==> WentBack(WentForward(v)) == v
  {
    if v.menu.back {
      PoppedInv(v, v.pos - 1);
    }
    if v.menu.forward {
      PoppedInv(v, v.pos + 1);
    }
  }

  /** An entry the shim never marked resets the mirror, which is then right exactly when it is the only entry. */
  lemma ResetIsAccurateExactlyWhen(v: View)
    requires InHistory(v) && v.visits[v.pos].mark.None? && !FragmentMove(v)
    ensures Accurate(Popped(v)) <==> |v.visits| == 1
  {
  }

  /** Without session storage a reload forgets the entries ahead: the mirror stays right exactly at the top. */
  lemma ReloadWithoutStorageExactlyWhen(v: View)
    requires Inv(v)
    ensures Accurate(Loaded(v, false)) <==> v.pos == |v.visits| - 1
  {
  }
}
