/** Other processes make directories while the program walks the trees and while it works through its event queue.

    The walk is nftw(): it enters a pathname, which watches and caches the directory, and only then lists it. A listing
    returns every subdirectory that existed when the directory was entered; one made later may turn up or not. Making a
    directory queues an event if its containing directory is watched at that moment. */
module CreationRace {
  import opened Basics
  import opened Paths
  import opened WatchCache
  import opened InotifyEvents
  import opened WatchedTree
  import LaggingReplay

  /** What is left of the walk, innermost first: a pathname to enter, or a directory being listed with the children
      it has to return and those it has returned. */
  datatype Frame = Enter(path: string) | Listing(dir: int, must: set<int>, seen: set<int>)

  /** lost says that an event named a descriptor that is not cached, which makes the program rebuild. base, visits and
      cause record the slots when the last event was taken, the visits of the walk since, and that event. */
  datatype World = World(
    tree: Tree, wd: map<int, nat>, nextWd: nat, queue: seq<Event>,
    slots: seq<Slot>, walk: seq<Frame>, lost: bool,
    base: seq<Slot>, visits: seq<Visit>, cause: Option<Event>)

  function Creation(wd: int, name: string): Event {
    NameEvent(wd, {CREATE, ISDIR}, 0, name)
  }

  ghost function Children(t: Tree, d: int): set<int> {
    set x | x in t.place && t.place[x].In? && t.place[x].parent == d
  }

  // ---------------------------------------------------------------- steps

  /** Another process makes a directory. */
  ghost predicate Mkdir(w: World, w': World, d: int, parent: int, name: string) {
    && Sound(w.tree) && CanMake(w.tree, d, parent, name)
    && w' == w.(tree := Made(w.tree, d, parent, name),
                queue := w.queue + if parent in w.wd then [Creation(w.wd[parent], name)] else [])
  }

  /** Another process does something to a plain file in a watched directory. */
  ghost predicate TouchFile(w: World, w': World, d: int, kind: Flag, name: string) {
    && d in w.wd && kind in {CREATE, MOVED_FROM, MOVED_TO}
    && w' == w.(queue := w.queue + [NameEvent(w.wd[d], {kind}, 0, name)])
  }

  /** traverseTree() is called for the next pathname: inotify_add_watch() returns the directory's descriptor, a new one
      unless it is watched already, and the directory is cached under it. */
  ghost predicate EnterDirectory(w: World, w': World, d: int) {
    && Sound(w.tree) && d in w.tree.place && w.walk != [] && w.walk[0] == Enter(PathOf(w.tree, d))
    && var isNew := d !in w.wd;
       var v := Visit(PathOf(w.tree, d), true, if isNew then w.nextWd else w.wd[d]);
       w' == w.(wd := if isNew then w.wd[d := w.nextWd] else w.wd,
                nextWd := if isNew then w.nextWd + 1 else w.nextWd,
                slots := Traverse(w.slots, v),
                visits := w.visits + [v],
                walk := [Listing(d, Children(w.tree, d), {})] + w.walk[1..])
  }

  /** The listing returns a child, which is walked at once. */
  ghost predicate ListChild(w: World, w': World, c: int) {
    && Sound(w.tree) && w.walk != [] && w.walk[0].Listing? && c in Children(w.tree, w.walk[0].dir) - w.walk[0].seen
    && w' == w.(walk := [Enter(PathOf(w.tree, c)), w.walk[0].(seen := w.walk[0].seen + {c})] + w.walk[1..])
  }

  ghost predicate ListEnd(w: World, w': World) {
    && w.walk != [] && w.walk[0].Listing? && w.walk[0].must <= w.walk[0].seen
    && w' == w.(walk := w.walk[1..])
  }

  /** With no walk going on, the program takes the next event. */
  ghost predicate TakeEvent(w: World, w': World) {
    && w.walk == [] && w.queue != [] && !w.lost
    && var e, k := w.queue[0], IndexOf(w.slots, w.queue[0].wd);
       var path := if k < |w.slots| then Join(w.slots[k].path, e.name) else "";
       var walks := k < |w.slots| && e.mask == {CREATE, ISDIR} && !PathCached(w.slots, path);
       w' == w.(queue := w.queue[1..], lost := k == |w.slots|, walk := if walks then [Enter(path)] else [],
                base := w.slots, visits := [], cause := Some(e))
  }

  ghost predicate Step(w: World, w': World) {
    || (exists d, parent, name :: Mkdir(w, w', d, parent, name))
    || (exists d, kind, name :: TouchFile(w, w', d, kind, name))
    || (exists d :: EnterDirectory(w, w', d))
    || (exists c :: ListChild(w, w', c))
    || ListEnd(w, w')
    || TakeEvent(w, w')
  }

  /** The start of a build or rebuild: an empty cache and the roots to walk. */
  ghost predicate Init(w: World) {
    && Sound(w.tree) && w.wd == map[] && w.queue == [] && w.slots == w.base == [] && w.visits == [] && !w.lost
    && w.cause == None
    && (forall f :: f in w.walk ==> f.Enter? && exists d :: At(w.tree, d, Top(f.path)))
    && (forall d, p :: At(w.tree, d, Top(p)) ==> Enter(p) in w.walk)
  }

  // ---------------------------------------------------------------- the invariant

  /** Every watch is cached under its directory's pathname, and a watched directory's parent is watched. */
  ghost predicate Tied(w: World) {
    && Sound(w.tree) && WellFormed(w.slots) && !w.lost
    && Faithful(Contents(w.slots), w.tree, w.wd)
    && (forall d :: d in w.wd ==> w.wd[d] < w.nextWd)
    && (forall d :: d in w.wd && w.tree.place[d].In? ==> w.tree.place[d].parent in w.wd)
  }

  /** An uncached directory that has nothing uncached above it. */
  ghost predicate Exposed(w: World, d: int)
    requires Sound(w.tree)
  {
    d in w.tree.place && d !in w.wd && (w.tree.place[d].In? ==> w.tree.place[d].parent in w.wd)
  }

  ghost predicate FileNews(w: World, e: Event, d: int, kind: Flag) {
    d in w.wd && e.wd == w.wd[d] && kind in {CREATE, MOVED_FROM, MOVED_TO} && e.mask == {kind}
  }

  ghost predicate DirNews(w: World, e: Event, d: int, p: int) {
    p in w.wd && At(w.tree, d, In(p, e.name)) && e == Creation(w.wd[p], e.name)
  }

  /** Every queued event is about a plain file or reports the making of a directory that is there. */
  ghost predicate RealEvent(w: World, e: Event) {
    (exists d, kind :: FileNews(w, e, d, kind)) || (exists d, p :: DirNews(w, e, d, p))
  }

  ghost predicate Reaches(w: World, path: string, d: int)
    requires Sound(w.tree)
  {
    d in w.tree.place && PathOf(w.tree, d) == path && (w.tree.place[d].In? ==> w.tree.place[d].parent in w.wd)
  }

  ghost predicate RealFrame(w: World, f: Frame)
    requires Sound(w.tree)
  {
    match f
    case Enter(path) => exists d :: Reaches(w, path, d)
    case Listing(d, _, _) => d in w.wd
  }

  /** The listing f of d's directory has still to return d. */
  ghost predicate Owes(t: Tree, f: Frame, d: int) {
    d in t.place && f.Listing? && t.place[d].In? && t.place[d].parent == f.dir && d in f.must - f.seen
  }

  /** The walk is still to enter d, or is to be told about it by a listing. */
  ghost predicate AheadOfWalk(w: World, d: int)
    requires Sound(w.tree) && d in w.tree.place
  {
    Enter(PathOf(w.tree, d)) in w.walk || exists f :: f in w.walk && Owes(w.tree, f, d)
  }

  /** The event that reports the making of d is still in the queue. */
  ghost predicate Announced(w: World, d: int)
    requires Sound(w.tree) && d in w.tree.place
  {
    w.tree.place[d].In? && w.tree.place[d].parent in w.wd
    && Creation(w.wd[w.tree.place[d].parent], w.tree.place[d].name) in w.queue
  }

  ghost predicate Inv(w: World) {
    && Tied(w)
    && (forall e :: e in w.queue ==> RealEvent(w, e))
    && (forall f :: f in w.walk ==> RealFrame(w, f))
    && (forall d :: Exposed(w, d) ==> AheadOfWalk(w, d) || Announced(w, d))
  }

  // ---------------------------------------------------------------- every step keeps it

  /** No directory goes away or moves, and no watch is lost. */
  ghost predicate Grows(w: World, w': World) {
    && Sound(w.tree) && Sound(w'.tree)
    && (forall d :: d in w.wd ==> d in w'.wd && w'.wd[d] == w.wd[d])
    && (forall d :: d in w.tree.place ==> d in w'.tree.place && w'.tree.place[d] == w.tree.place[d])
    && (forall d :: d in w.tree.place ==> PathOf(w'.tree, d) == PathOf(w.tree, d))
  }

  lemma EventStaysReal(w: World, w': World, e: Event)
    requires Grows(w, w') && RealEvent(w, e)
    ensures RealEvent(w', e)
  {
    hide Sound, PathOf;
    if d, kind :| FileNews(w, e, d, kind) {
      assert FileNews(w', e, d, kind);
    } else {
      var d, p :| DirNews(w, e, d, p);
      assert DirNews(w', e, d, p);
    }
  }

  lemma FrameStaysReal(w: World, w': World, f: Frame)
    requires Grows(w, w') && RealFrame(w, f)
    ensures RealFrame(w', f)
  {
    hide Sound, PathOf;
    if f.Enter? {
      var d :| Reaches(w, f.path, d);
      assert Reaches(w', f.path, d);
    }
  }

  lemma StaysAhead(w: World, w': World, d: int)
    requires Grows(w, w') && d in w.tree.place && AheadOfWalk(w, d)
    requires forall f :: f in w.walk ==> f in w'.walk
    ensures AheadOfWalk(w', d)
  {
    hide Sound, PathOf;
    if f :| f in w.walk && Owes(w.tree, f, d) {
      assert f in w'.walk && Owes(w'.tree, f, d);
    }
  }

  lemma StaysAnnounced(w: World, w': World, d: int)
    requires Grows(w, w') && d in w.tree.place && Announced(w, d)
    requires forall e :: e in w.queue ==> e in w'.queue
    ensures Announced(w', d)
  {
    hide Sound, PathOf;
  }

  lemma InvParts(w: World)
    requires Inv(w)
    ensures Tied(w)
    ensures forall e :: e in w.queue ==> RealEvent(w, e)
    ensures forall f :: f in w.walk ==> RealFrame(w, f)
    ensures forall d :: Exposed(w, d) ==> AheadOfWalk(w, d) || Announced(w, d)
  {
  }

  lemma MkdirTied(w: World, w': World, d: int, parent: int, name: string)
    requires Tied(w) && Mkdir(w, w', d, parent, name)
    ensures Tied(w') && Grows(w, w') && Sound(w'.tree)
  {
    MadeSound(w.tree, d, parent, name);
    hide Sound, PathOf, WellFormed, Contents;
  }

  lemma MkdirKeeps(w: World, w': World, d: int, parent: int, name: string)
    requires Inv(w) && Mkdir(w, w', d, parent, name)
    ensures Inv(w')
  {
    hide Tied, Grows, RealEvent, RealFrame, AheadOfWalk, Announced, Sound, CanMake;
    InvParts(w);
    MkdirTied(w, w', d, parent, name);
    forall e | e in w'.queue
      ensures RealEvent(w', e)
    {
      if e in w.queue {
        EventStaysReal(w, w', e);
      } else {
        NewEventReal(w, w', d, parent, name);
      }
    }
    forall f | f in w'.walk
      ensures RealFrame(w', f)
    {
      FrameStaysReal(w, w', f);
    }
    forall x | Exposed(w', x)
      ensures AheadOfWalk(w', x) || Announced(w', x)
    {
      if x == d {
        NewDirectoryAnnounced(w, w', d, parent, name);
      } else {
        assert Exposed(w, x);
        if AheadOfWalk(w, x) {
          StaysAhead(w, w', x);
        } else {
          StaysAnnounced(w, w', x);
        }
      }
    }
  }

  lemma NewEventReal(w: World, w': World, d: int, parent: int, name: string)
    requires Tied(w') && Mkdir(w, w', d, parent, name) && parent in w.wd
    ensures RealEvent(w', Creation(w.wd[parent], name))
  {
    hide Sound, PathOf;
    assert DirNews(w', Creation(w.wd[parent], name), d, parent);
  }

  lemma NewDirectoryAnnounced(w: World, w': World, d: int, parent: int, name: string)
    requires Tied(w') && Mkdir(w, w', d, parent, name) && Exposed(w', d)
    ensures Announced(w', d)
  {
    hide Sound, PathOf;
  }

  lemma TouchFileKeeps(w: World, w': World, d: int, kind: Flag, name: string)
    requires Inv(w) && TouchFile(w, w', d, kind, name)
    ensures Inv(w')
  {
    hide RealEvent, RealFrame, AheadOfWalk, Announced, Sound, PathOf, WellFormed, Contents;
    InvParts(w);
    assert Grows(w, w');
    forall e | e in w'.queue
      ensures RealEvent(w', e)
    {
      if e in w.queue {
        EventStaysReal(w, w', e);
      } else {
        FileEventReal(w', e, d, kind);
      }
    }
    forall f | f in w'.walk
      ensures RealFrame(w', f)
    {
      FrameStaysReal(w, w', f);
    }
    forall x | Exposed(w', x)
      ensures AheadOfWalk(w', x) || Announced(w', x)
    {
      assert Exposed(w, x);
      if AheadOfWalk(w, x) {
        StaysAhead(w, w', x);
      } else {
        StaysAnnounced(w, w', x);
      }
    }
  }

  lemma FileEventReal(w: World, e: Event, d: int, kind: Flag)
    requires FileNews(w, e, d, kind)
    ensures RealEvent(w, e)
  {
  }

  lemma ListChildKeeps(w: World, w': World, c: int)
    requires Inv(w) && ListChild(w, w', c)
    ensures Inv(w')
  {
    hide RealEvent, RealFrame, AheadOfWalk, Announced, Sound, PathOf, WellFormed, Contents;
    InvParts(w);
    var f0 := w.walk[0];
    var f1 := f0.(seen := f0.seen + {c});
    assert Grows(w, w');
    forall e | e in w'.queue
      ensures RealEvent(w', e)
    {
      EventStaysReal(w, w', e);
    }
    forall f | f in w'.walk
      ensures RealFrame(w', f)
    {
      if f in w.walk {
        FrameStaysReal(w, w', f);
      } else {
        ListedReal(w, w', f0, c, f);
      }
    }
    forall x | Exposed(w', x)
      ensures AheadOfWalk(w', x) || Announced(w', x)
    {
      assert Exposed(w, x);
      if AheadOfWalk(w, x) {
        ListedAhead(w, w', c, x);
      } else {
        StaysAnnounced(w, w', x);
      }
    }
  }

  lemma ListedReal(w: World, w': World, f0: Frame, c: int, f: Frame)
    requires ListChild(w, w', c) && RealFrame(w, f0) && f0 == w.walk[0]
    requires f == Enter(PathOf(w.tree, c)) || f == f0.(seen := f0.seen + {c})
    ensures RealFrame(w', f)
  {
    hide Sound, PathOf;
    assert Reaches(w', PathOf(w.tree, c), c);
  }

  lemma ListedAhead(w: World, w': World, c: int, x: int)
    requires ListChild(w, w', c) && x in w.tree.place && AheadOfWalk(w, x)
    ensures AheadOfWalk(w', x)
  {
    hide Sound, PathOf;
    assert forall f :: f in w.walk && f != w.walk[0] ==> f in w'.walk;
    if x == c {
      assert w'.walk[0] == Enter(PathOf(w.tree, c));
    } else if f :| f in w.walk && Owes(w.tree, f, x) {
      assert Owes(w'.tree, if f == w.walk[0] then w'.walk[1] else f, x);
    }
  }

  lemma ListEndKeeps(w: World, w': World)
    requires Inv(w) && ListEnd(w, w')
    ensures Inv(w')
  {
    hide RealEvent, RealFrame, AheadOfWalk, Announced, Sound, PathOf, WellFormed, Contents;
    InvParts(w);
    assert Grows(w, w');
    forall e | e in w'.queue
      ensures RealEvent(w', e)
    {
      EventStaysReal(w, w', e);
    }
    forall f | f in w'.walk
      ensures RealFrame(w', f)
    {
      FrameStaysReal(w, w', f);
    }
    forall x | Exposed(w', x)
      ensures AheadOfWalk(w', x) || Announced(w', x)
    {
      assert Exposed(w, x);
      if AheadOfWalk(w, x) {
        EndedAhead(w, w', x);
      } else {
        StaysAnnounced(w, w', x);
      }
    }
  }

  lemma EndedAhead(w: World, w': World, x: int)
    requires Sound(w.tree) && ListEnd(w, w') && x in w.tree.place && AheadOfWalk(w, x)
    ensures AheadOfWalk(w', x)
  {
    hide Sound, PathOf;
    assert forall f :: f in w.walk && f != w.walk[0] ==> f in w'.walk;
    if f :| f in w.walk && Owes(w.tree, f, x) {
      assert f in w'.walk && Owes(w'.tree, f, x);
    }
  }

  // ---------------------------------------------------------------- entering a directory

  lemma NewSlot(w: World, path: string)
    requires Tied(w)
    ensures var s := Traverse(w.slots, Visit(path, true, w.nextWd));
      && w.nextWd !in Contents(w.slots)
      && WellFormed(s) && Contents(s) == Contents(w.slots)[w.nextWd := path]
  {
    hide Sound, PathOf, IndexFrom;
    assert w.nextWd !in Contents(w.slots);
    hide WellFormed, Contents, AddSlot;
    LookupRefines(w.slots, w.nextWd);
    AddRefines(w.slots, w.nextWd, path);
  }

  lemma EnterNew(w: World, w': World, d: int)
    requires Tied(w) && EnterDirectory(w, w', d) && d !in w.wd
    requires w.tree.place[d].In? ==> w.tree.place[d].parent in w.wd
    ensures Tied(w')
  {
    hide Sound, PathOf, WellFormed, Contents, Traverse, Faithful;
    NewSlot(w, PathOf(w.tree, d));
    FaithfulAdded(Contents(w.slots), w.tree, w.wd, d, w.nextWd);
  }

  lemma FaithfulAdded(m: map<int, string>, t: Tree, wd: map<int, nat>, d: int, n: nat)
    requires Sound(t) && Faithful(m, t, wd) && d in t.place && d !in wd && n !in m
    ensures Faithful(m[n := PathOf(t, d)], t, wd[d := n])
  {
    hide Sound, PathOf;
    var m', wd' := m[n := PathOf(t, d)], wd[d := n];
    forall w | w in m'
      ensures exists e :: e in wd' && wd'[e] == w
    {
      if w == n {
        assert d in wd' && wd'[d] == w;
      } else {
        var e :| e in wd && wd[e] == w;
        assert e in wd' && wd'[e] == w;
      }
    }
  }

  lemma EnterKnown(w: World, w': World, d: int)
    requires Tied(w) && EnterDirectory(w, w', d) && d in w.wd
    ensures Tied(w') && w'.slots == w.slots
  {
    hide Sound, PathOf, IndexFrom, WellFormed, Contents;
    LookupRefines(w.slots, w.wd[d]);
  }

  lemma EnterTied(w: World, w': World, d: int)
    requires Inv(w) && EnterDirectory(w, w', d)
    ensures Tied(w') && Grows(w, w')
  {
    hide WellFormed, Contents, Ranked, PlacesApart, PathOf, AheadOfWalk, Announced, RealEvent, Traverse;
    assert RealFrame(w, w.walk[0]);
    var e :| Reaches(w, PathOf(w.tree, d), e);
    PathInjective(w.tree, e, d);
    if d in w.wd {
      EnterKnown(w, w', d);
    } else {
      EnterNew(w, w', d);
    }
  }

  lemma EnterKeeps(w: World, w': World, d: int)
    requires Inv(w) && EnterDirectory(w, w', d)
    ensures Inv(w')
  {
    hide Tied, RealEvent, RealFrame, AheadOfWalk, Announced, Sound, PathOf, Grows, Traverse;
    InvParts(w);
    EnterTied(w, w', d);
    forall e | e in w'.queue
      ensures RealEvent(w', e)
    {
      EventStaysReal(w, w', e);
    }
    forall f | f in w'.walk
      ensures RealFrame(w', f)
    {
      if f in w.walk {
        FrameStaysReal(w, w', f);
      } else {
        assert f == Listing(d, Children(w.tree, d), {});
        ListingReal(w', d, f);
      }
    }
    forall x | Exposed(w', x)
      ensures AheadOfWalk(w', x) || Announced(w', x)
    {
      if Exposed(w, x) {
        if AheadOfWalk(w, x) {
          EnteredAhead(w, w', d, x);
        } else {
          StaysAnnounced(w, w', x);
        }
      } else {
        ChildListed(w, w', d, x);
      }
    }
  }

  lemma ListingReal(w: World, d: int, f: Frame)
    requires Sound(w.tree) && f.Listing? && f.dir == d && d in w.wd
    ensures RealFrame(w, f)
  {
  }

  lemma EnteredAhead(w: World, w': World, d: int, x: int)
    requires EnterDirectory(w, w', d) && x in w.tree.place && AheadOfWalk(w, x) && x !in w'.wd
    ensures AheadOfWalk(w', x)
  {
    hide Sound, PathOf;
    assert forall f :: f in w.walk && f != w.walk[0] ==> f in w'.walk;
    if Enter(PathOf(w.tree, x)) in w.walk {
      if PathOf(w.tree, x) == PathOf(w.tree, d) {
        PathInjective(w.tree, x, d);
      }
    } else {
      var f :| f in w.walk && Owes(w.tree, f, x);
      assert f in w'.walk && Owes(w'.tree, f, x);
    }
  }

  lemma ChildListed(w: World, w': World, d: int, x: int)
    requires EnterDirectory(w, w', d) && Exposed(w', x) && !Exposed(w, x)
    ensures AheadOfWalk(w', x)
  {
    hide Sound, PathOf;
    assert Owes(w'.tree, w'.walk[0], x);
  }

  // ---------------------------------------------------------------- taking an event

  lemma CachedMeansWatched(w: World, d: int)
    requires Tied(w) && d in w.tree.place && PathCached(w.slots, PathOf(w.tree, d))
    ensures d in w.wd
  {
    hide Sound, PathOf, WellFormed;
    var i :| 0 <= i < |w.slots| && w.slots[i].wd >= 0 && w.slots[i].path == PathOf(w.tree, d);
    assert Holds(w.slots, i, w.slots[i].wd);
    var e :| e in w.wd && w.wd[e] == w.slots[i].wd;
    PathInjective(w.tree, e, d);
  }

  lemma WatchFound(w: World, d: int)
    requires Tied(w) && d in w.wd
    ensures IndexOf(w.slots, w.wd[d]) < |w.slots| && w.slots[IndexOf(w.slots, w.wd[d])].path == PathOf(w.tree, d)
  {
    hide Sound, PathOf, WellFormed, IndexFrom, Contents;
    LookupRefines(w.slots, w.wd[d]);
  }

  /** The directory that the event reports, if it is not cached yet, is walked next; no other one depends on it. */
  lemma CreationTaken(w: World, w': World, d: int, p: int)
    requires Inv(w) && TakeEvent(w, w') && DirNews(w, w.queue[0], d, p)
    ensures !w'.lost && (d in w.wd <==> w'.walk == [])
    ensures d !in w.wd ==> w'.walk == [Enter(PathOf(w.tree, d))] && Reaches(w, PathOf(w.tree, d), d)
  {
    hide RealEvent, RealFrame, AheadOfWalk, Announced, WellFormed, Contents, IndexOf;
    InvParts(w);
    WatchFound(w, p);
    assert PathOf(w.tree, d) == Join(PathOf(w.tree, p), w.queue[0].name);
    hide Sound, PathOf, PathCached;
    if PathCached(w.slots, PathOf(w.tree, d)) {
      CachedMeansWatched(w, d);
    } else if d in w.wd {
      WatchCached(w, d);
    }
  }

  lemma WatchCached(w: World, d: int)
    requires Tied(w) && d in w.wd
    ensures PathCached(w.slots, PathOf(w.tree, d))
  {
    hide Sound, PathOf, IndexFrom;
    WatchFound(w, d);
  }

  lemma FileTaken(w: World, w': World, d: int, kind: Flag)
    requires Inv(w) && TakeEvent(w, w') && FileNews(w, w.queue[0], d, kind)
    ensures !w'.lost && w'.walk == []
  {
    hide RealEvent, RealFrame, AheadOfWalk, Announced, WellFormed, Contents, IndexOf, PathCached;
    InvParts(w);
    WatchFound(w, d);
  }

  /** The event of an exposed directory is still queued, or it was the one taken. */
  lemma AnnouncedAfter(w: World, w': World, x: int)
    requires Inv(w) && TakeEvent(w, w') && Exposed(w, x)
    ensures Announced(w', x) || (w.tree.place[x].In? && DirNews(w, w.queue[0], x, w.tree.place[x].parent))
  {
    hide Sound, PathOf, RealEvent, RealFrame, WellFormed, Contents, IndexOf, PathCached;
    assert Announced(w, x);
    var e := Creation(w.wd[w.tree.place[x].parent], w.tree.place[x].name);
    assert e in w.queue ==> e == w.queue[0] || e in w.queue[1..];
  }

  lemma TakenNow(w: World, w': World)
    requires Inv(w) && TakeEvent(w, w')
    ensures !w'.lost
    ensures forall f :: f in w'.walk ==> RealFrame(w', f)
    ensures forall x :: Exposed(w, x) ==> AheadOfWalk(w', x) || Announced(w', x)
  {
    hide RealEvent, Sound, PathOf, WellFormed, Contents, IndexOf, PathCached, Announced, Faithful;
    InvParts(w);
    var e := w.queue[0];
    if d, kind :| FileNews(w, e, d, kind) {
      FileTaken(w, w', d, kind);
      forall x | Exposed(w, x)
        ensures Announced(w', x)
      {
        AnnouncedAfter(w, w', x);
      }
    } else {
      NotFileNews(w, e);
      var d, p :| DirNews(w, e, d, p);
      CreationTaken(w, w', d, p);
      if d !in w.wd {
        assert Reaches(w', PathOf(w.tree, d), d);
      }
      forall x | Exposed(w, x)
        ensures AheadOfWalk(w', x) || Announced(w', x)
      {
        AnnouncedAfter(w, w', x);
        if !Announced(w', x) {
          SameNews(w, e, d, p, x, w.tree.place[x].parent);
        }
      }
    }
  }

  lemma NotFileNews(w: World, e: Event)
    requires RealEvent(w, e) && !exists d, kind :: FileNews(w, e, d, kind)
    ensures exists d, p :: DirNews(w, e, d, p)
  {
  }

  lemma SameNews(w: World, e: Event, d: int, p: int, x: int, q: int)
    requires Tied(w) && DirNews(w, e, d, p) && DirNews(w, e, x, q)
    ensures d == x
  {
    hide PathOf, WellFormed, Contents;
  }

  lemma TakeEventKeeps(w: World, w': World)
    requires Inv(w) && TakeEvent(w, w')
    ensures Inv(w')
  {
    hide RealEvent, RealFrame, AheadOfWalk, Announced, Sound, PathOf, WellFormed, Contents, IndexOf, PathCached;
    InvParts(w);
    TakenNow(w, w');
    forall e | e in w'.queue
      ensures RealEvent(w', e)
    {
      assert Grows(w, w');
      EventStaysReal(w, w', e);
    }
    assert forall x :: Exposed(w', x) ==> Exposed(w, x);
  }

  lemma InitInv(w: World)
    requires Init(w)
    ensures Inv(w)
  {
    hide Ranked, PlacesApart, IndexFrom;
    ContentsUnique([], map[]);
    forall f | f in w.walk
      ensures RealFrame(w, f)
    {
      var d :| At(w.tree, d, Top(f.path));
      assert Reaches(w, f.path, d);
    }
    forall d | Exposed(w, d)
      ensures AheadOfWalk(w, d)
    {
      assert At(w.tree, d, Top(PathOf(w.tree, d)));
    }
  }

  lemma StepKeeps(w: World, w': World)
    requires Inv(w) && Step(w, w')
    ensures Inv(w')
  {
    hide Inv, Mkdir, TouchFile, EnterDirectory, ListChild, ListEnd, TakeEvent;
    if d, parent, name :| Mkdir(w, w', d, parent, name) {
      MkdirKeeps(w, w', d, parent, name);
    } else if d, kind, name :| TouchFile(w, w', d, kind, name) {
      TouchFileKeeps(w, w', d, kind, name);
    } else if d :| EnterDirectory(w, w', d) {
      EnterKeeps(w, w', d);
    } else if c :| ListChild(w, w', c) {
      ListChildKeeps(w, w', c);
    } else if ListEnd(w, w') {
      ListEndKeeps(w, w');
    } else {
      TakeEventKeeps(w, w');
    }
  }

  // ---------------------------------------------------------------- every run

  ghost predicate Run(ws: seq<World>) {
    ws != [] && Init(ws[0]) && forall i :: 0 <= i < |ws| - 1 ==> Step(ws[i], ws[i + 1])
  }

  ghost predicate Steps(ws: seq<World>) {
    ws != [] && forall i :: 0 <= i < |ws| - 1 ==> Step(ws[i], ws[i + 1])
  }

  lemma StepsWithout(ws: seq<World>)
    requires Steps(ws) && |ws| > 1
    ensures Steps(ws[..|ws| - 1]) && Step(ws[|ws| - 2], ws[|ws| - 1])
  {
    hide Step;
    var init := ws[..|ws| - 1];
    forall i | 0 <= i < |init| - 1 ensures Step(init[i], init[i + 1]) {
      assert Step(ws[i], ws[i + 1]);
    }
  }

  lemma {:induction false} StepsKeep(ws: seq<World>)
    requires Steps(ws) && Inv(ws[0])
    ensures Inv(ws[|ws| - 1])
    decreases |ws|
  {
    hide Inv, Step;
    if |ws| > 1 {
      hide Steps;
      StepsWithout(ws);
      StepsKeep(ws[..|ws| - 1]);
      StepKeeps(ws[|ws| - 2], ws[|ws| - 1]);
    }
  }

  lemma RunKeeps(ws: seq<World>)
    requires Run(ws)
    ensures Inv(ws[|ws| - 1])
  {
    hide Inv, Step, Init;
    InitInv(ws[0]);
    StepsKeep(ws);
  }

  /** The topmost directory above d, or d itself, that is not watched. */
  ghost function TopUncached(w: World, d: int): (e: int)
    requires Sound(w.tree) && d in w.tree.place && d !in w.wd
    ensures e in w.tree.place && Exposed(w, e) && Below(w.tree, d, e)
    decreases w.tree.rank[d]
  {
    if w.tree.place[d].In? && w.tree.place[d].parent !in w.wd then TopUncached(w, w.tree.place[d].parent) else d
  }

  /** In every reachable state, the topmost uncached directory above an uncached one is ahead of the running walk or has
      its creation event still queued, and no event has named an unknown descriptor. */
  lemma UncachedIsPending(ws: seq<World>, d: int)
    requires Run(ws)
    ensures var w := ws[|ws| - 1];
      && Tied(w)
      && (d in w.tree.place && d !in w.wd ==>
            var e := TopUncached(w, d);
            AheadOfWalk(w, e) || Announced(w, e))
  {
    RunKeeps(ws);
  }

  lemma QuietIsComplete(w: World)
    requires Inv(w) && w.walk == [] && w.queue == []
    ensures Tied(w) && w.wd.Keys == w.tree.place.Keys
  {
    hide Inv, Tied, Sound;
    InvParts(w);
    TiedParts(w);
    forall d | d in w.tree.place
      ensures d in w.wd
    {
      if d !in w.wd {
        var e := TopUncached(w, d);
        NothingPending(w, e);
      }
    }
    assert w.tree.place.Keys <= w.wd.Keys;
  }

  /** Once no walk is going on and the queue is empty, every directory is cached exactly once, under its pathname, and
      nothing else is cached. */
  lemma DrainedIsComplete(ws: seq<World>)
    requires Run(ws)
    requires ws[|ws| - 1].walk == [] && ws[|ws| - 1].queue == []
    ensures var w := ws[|ws| - 1];
      Tied(w) && w.wd.Keys == w.tree.place.Keys
  {
    hide Inv, Tied, Init, Step;
    RunKeeps(ws);
    QuietIsComplete(ws[|ws| - 1]);
  }

  /** So the drained cache is where any history of renames and removals can be replayed from. */
  lemma DrainedIsInStep(ws: seq<World>, roots: seq<Option<string>>)
    requires Run(ws)
    requires ws[|ws| - 1].walk == [] && ws[|ws| - 1].queue == []
    requires LaggingReplay.RootsMatch(roots, ws[|ws| - 1].tree)
    ensures var w := ws[|ws| - 1];
      LaggingReplay.InStep(Mirror(w.slots, roots), w.tree, w.wd)
  {
    DrainedIsComplete(ws);
    hide Run, Sound, WellFormed, Faithful, LaggingReplay.RootsMatch;
  }

  lemma TiedParts(w: World)
    requires Tied(w)
    ensures Sound(w.tree) && w.wd.Keys <= w.tree.place.Keys
  {
    forall d | d in w.wd.Keys
      ensures d in w.tree.place.Keys
    {
      assert d in w.wd;
    }
  }

  lemma NothingPending(w: World, d: int)
    requires Sound(w.tree) && d in w.tree.place && w.walk == [] && w.queue == []
    ensures !AheadOfWalk(w, d) && !Announced(w, d)
  {
  }

  // ---------------------------------------------------------------- a directory made behind the walk

  lemma RunGoesOn(ws: seq<World>, w': World) returns (ws': seq<World>)
    requires Run(ws) && Step(ws[|ws| - 1], w')
    ensures ws' == ws + [w'] && Run(ws') && ws'[|ws'| - 1] == w' && Inv(w')
  {
    hide Step, Init, Inv;
    ws' := ws + [w'];
    assert forall i :: 0 <= i < |ws'| - 1 ==> Step(ws'[i], ws'[i + 1]);
    RunKeeps(ws');
  }

  ghost function Entered(w: World, d: int): World
    requires Sound(w.tree) && d in w.tree.place && d !in w.wd && w.walk != [] && w.nextWd >= 0
  {
    var v := Visit(PathOf(w.tree, d), true, w.nextWd);
    w.(wd := w.wd[d := w.nextWd], nextWd := w.nextWd + 1, slots := Traverse(w.slots, v), visits := w.visits + [v],
       walk := [Listing(d, Children(w.tree, d), {})] + w.walk[1..])
  }

  lemma EnterGoesOn(ws: seq<World>, d: int) returns (ws': seq<World>)
    requires Run(ws)
    requires var w := ws[|ws| - 1];
      && Sound(w.tree) && d in w.tree.place && d !in w.wd && w.walk == [Enter(PathOf(w.tree, d))] && w.nextWd >= 0
    ensures Run(ws') && ws' == ws + [ws'[|ws'| - 1]]
    ensures var w, w' := ws[|ws| - 1], ws'[|ws'| - 1];
      && w'.tree == w.tree && w'.wd == w.wd[d := w.nextWd] && w'.queue == w.queue && w'.nextWd == w.nextWd + 1
      && w'.walk == [Listing(d, Children(w.tree, d), {})] && Inv(w')
  {
    var w := ws[|ws| - 1];
    hide Run, Inv, Sound, PathOf, Traverse, Children;
    assert EnterDirectory(w, Entered(w, d), d);
    ws' := RunGoesOn(ws, Entered(w, d));
  }

  lemma EndGoesOn(ws: seq<World>, d: int) returns (ws': seq<World>)
    requires Run(ws) && ws[|ws| - 1].walk == [Listing(d, {}, {})]
    ensures Run(ws') && ws' == ws + [ws[|ws| - 1].(walk := [])] && Inv(ws'[|ws'| - 1])
  {
    var w := ws[|ws| - 1];
    hide Run, Inv;
    assert ListEnd(w, w.(walk := []));
    ws' := RunGoesOn(ws, w.(walk := []));
  }

  function OneRoot(path: string): Tree {
    Tree(map[0 := Top(path)], map[0 := 0])
  }

  function OneRootStart(path: string): World {
    World(OneRoot(path), map[], 1, [], [], [Enter(path)], false, [], [], None)
  }

  lemma OneRootFacts(path: string, name: string)
    requires IsName(name)
    ensures var t := OneRoot(path);
      && Sound(t) && PathOf(t, 0) == path && CanMake(t, 1, 0, name) && Children(t, 0) == {}
      && Children(Made(t, 1, 0, name), 1) == {}
      && Made(t, 1, 0, name).place == map[0 := Top(path), 1 := In(0, name)]
    ensures Run([OneRootStart(path)])
  {
    var w := OneRootStart(path);
    assert w.walk[0] == Enter(path);
    assert At(w.tree, 0, Top(path));
  }

  lemma MkdirGoesOn(ws: seq<World>, w': World, d: int, p: int, name: string) returns (ws': seq<World>)
    requires Run(ws) && Mkdir(ws[|ws| - 1], w', d, p, name)
    ensures ws' == ws + [w'] && Run(ws') && ws'[|ws'| - 1] == w' && Inv(w')
  {
    hide Run, Inv, Mkdir;
    ws' := RunGoesOn(ws, w');
  }

  /** A root is entered, then a directory is made in it which the listing does not return. */
  lemma BehindTheWalk(path: string, name: string) returns (ws: seq<World>)
    requires IsName(name) && Sound(OneRoot(path)) && CanMake(OneRoot(path), 1, 0, name)
    ensures Run(ws)
    ensures var w := ws[|ws| - 1];
      && w.tree == Made(OneRoot(path), 1, 0, name) && w.wd == map[0 := 1] && w.nextWd == 2
      && w.walk == [] && w.queue == [Creation(1, name)] && Inv(w)
  {
    OneRootFacts(path, name);
    hide Run, Inv, Sound, PathOf, Made, CanMake, Children, Init, Step;
    var t, w0 := OneRoot(path), OneRootStart(path);
    var start := [w0];
    assert start[|start| - 1] == w0;
    ws := EnterGoesOn(start, 0);
    var w1 := ws[|ws| - 1];
    var w2 := w1.(tree := Made(t, 1, 0, name), queue := [Creation(1, name)]);
    assert Mkdir(w1, w2, 1, 0, name);
    hide Mkdir;
    ws := MkdirGoesOn(ws, w2, 1, 0, name);
    ws := EndGoesOn(ws, 0);
  }

  /** The race does happen: such a directory is not cached when the walk is over, and is once its event was taken. */
  lemma MadeBehindTheWalk(path: string, name: string) returns (ws: seq<World>, k: nat, d: int)
    requires IsName(name)
    ensures Run(ws) && k < |ws| - 1
    ensures var w := ws[k]; w.walk == [] && d in w.tree.place && d !in w.wd
    ensures var w := ws[|ws| - 1]; w.walk == [] && w.queue == [] && d in w.wd
  {
    OneRootFacts(path, name);
    MadeSound(OneRoot(path), 1, 0, name);
    var u := Made(OneRoot(path), 1, 0, name);
    hide Run, Inv, Sound, PathOf, Made, CanMake, Children, Init;
    d := 1;
    ws := BehindTheWalk(path, name);
    k := |ws| - 1;
    var w3 := ws[k];
    var w4 := w3.(queue := [], walk := [Enter(PathOf(u, 1))], base := w3.slots, visits := [],
        cause := Some(w3.queue[0]));
    EventWalks(w3, w4, 1, 0, name);
    var ws4 := RunGoesOn(ws, w4);
    var ws5 := EnterGoesOn(ws4, 1);
    var ws6 := EndGoesOn(ws5, 1);
    assert ws6[k] == w3;
    ws := ws6;
  }

  lemma EventWalks(w: World, w': World, d: int, p: int, name: string)
    requires Inv(w) && w.walk == [] && p in w.wd && w.queue == [Creation(w.wd[p], name)]
    requires d in w.tree.place && d !in w.wd && w.tree.place[d] == In(p, name)
    requires w' == w.(queue := [], walk := [Enter(PathOf(w.tree, d))], base := w.slots, visits := [],
                      cause := Some(w.queue[0]))
    ensures TakeEvent(w, w')
  {
    hide RealEvent, RealFrame, AheadOfWalk, Announced, WellFormed, Contents, IndexOf;
    InvParts(w);
    WatchFound(w, p);
    assert PathOf(w.tree, d) == Join(PathOf(w.tree, p), name);
    hide Sound, PathOf, PathCached;
    if PathCached(w.slots, PathOf(w.tree, d)) {
      CachedMeansWatched(w, d);
    }
  }

  // ---------------------------------------------------------------- the steps are the program's event processing

  /** The slots are those that the event last taken, with the walk it started so far, makes of the slots before it. */
  ghost predicate Matches(w: World) {
    && w.slots == Walk(w.base, w.visits)
    && (w.cause.Some? ==>
          && IndexOf(w.base, w.cause.value.wd) < |w.base| && w.cause.value.wd >= 0
          && (w.cause.value.mask == {CREATE, ISDIR} || ISDIR !in w.cause.value.mask)
          && (w.walk != [] || w.visits != [] ==>
                w.cause.value.mask == {CREATE, ISDIR}
                && !PathCached(w.base, Join(w.base[IndexOf(w.base, w.cause.value.wd)].path, w.cause.value.name)))
          && forall f :: f in w.cause.value.mask ==> f in {CREATE, MOVED_FROM, MOVED_TO, ISDIR})
  }

  lemma WalkExtends(s: seq<Slot>, visits: seq<Visit>, v: Visit)
    ensures Walk(s, visits + [v]) == Traverse(Walk(s, visits), v)
  {
    hide Traverse;
    assert (visits + [v])[..|visits + [v]| - 1] == visits;
  }

  lemma TakenMatches(w: World, w': World)
    requires Inv(w) && TakeEvent(w, w')
    ensures Matches(w')
  {
    hide RealFrame, AheadOfWalk, Announced, Sound, PathOf, WellFormed, Contents, IndexOf, PathCached;
    TakenNow(w, w');
    var e := w.queue[0];
    assert RealEvent(w, e);
    if d, kind :| FileNews(w, e, d, kind) {
      assert e.wd == w.wd[d];
    } else {
      var d, p :| DirNews(w, e, d, p);
      assert e.wd == w.wd[p];
    }
  }

  lemma MatchesKept(w: World, w': World)
    requires Inv(w) && Matches(w) && Step(w, w')
    ensures Matches(w')
  {
    hide Inv, Sound, PathOf, IndexOf, PathCached, Traverse, Walk, Made, CanMake, Children;
    if TakeEvent(w, w') {
      TakenMatches(w, w');
    } else if d :| EnterDirectory(w, w', d) {
      WalkExtends(w.base, w.visits, w'.visits[|w.visits|]);
    }
  }

  lemma {:induction false} RunMatches(ws: seq<World>)
    requires Run(ws)
    ensures Matches(ws[|ws| - 1])
    decreases |ws|
  {
    hide Inv, Step, Matches, Init;
    if |ws| == 1 {
      InitMatches(ws[0]);
    } else {
      var init := ws[..|ws| - 1];
      assert forall i :: 0 <= i < |init| - 1 ==> Step(init[i], init[i + 1]);
      RunMatches(init);
      RunKeeps(init);
      assert Step(ws[|ws| - 2], ws[|ws| - 1]);
      MatchesKept(ws[|ws| - 2], ws[|ws| - 1]);
    }
  }

  lemma InitMatches(w: World)
    requires Init(w)
    ensures Matches(w)
  {
  }

  /** In every reachable state, the slots are the result of the program's processing of the event last taken when nftw()
      makes the visits made so far. */
  lemma RunIsProcessing(ws: seq<World>, roots: seq<Option<string>>, next: Option<Event>, refused: set<int>,
                        stream: seq<Event>)
    requires Run(ws) && ws[|ws| - 1].cause.Some?
    ensures var w := ws[|ws| - 1];
      Process(Mirror(w.base, roots), w.cause.value, next, false, Answers(_ => w.visits, refused, stream))
      == (Mirror(w.slots, roots), Took(1))
  {
    RunMatches(ws);
    hide Inv, Init, Step, IndexOf, PathCached, OnDeleted, OnMovedFrom, OnRootMoved, Reinitialized, Traverse;
    var w := ws[|ws| - 1];
    var e := w.cause.value;
    assert DELETE_SELF !in e.mask && Q_OVERFLOW !in e.mask && UNMOUNT !in e.mask && MOVE_SELF !in e.mask
        && IGNORED !in e.mask;
    if w.visits == [] {
      assert w.slots == w.base;
    }
  }
}
