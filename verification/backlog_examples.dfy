/** Runs in which the program takes one directory for another. */
module BacklogExamples {
  import opened Basics
  import opened Paths
  import opened WatchCache
  import opened InotifyEvents
  import opened WatchedTree
  import opened LaggingReplay
  import opened Backlog
  import opened BacklogDeeds
  import opened BacklogTakes
  import opened BacklogRuns

  /** A directory just made is all that a walk from its pathname comes to. */
  lemma FoundNew(t: Tree, d: int, parent: int, name: string)
    requires Sound(t) && CanMake(t, d, parent, name)
    ensures Sound(Made(t, d, parent, name)) && parent in t.place
    ensures Found(Made(t, d, parent, name), Join(PathOf(t, parent), name)) == {d}
  {
    MadeSound(t, d, parent, name);
    var u, path := Made(t, d, parent, name), Join(PathOf(t, parent), name);
    hide Sound, PathOf;
    assert d in Found(u, path);
    forall x | x in Found(u, path)
      ensures x == d
    {
      var y :| y in u.place && PathOf(u, y) == path && Below(u, x, y);
      PathInjective(u, y, d);
      if x != d {
        NotBelowNew(t, d, parent, name, x);
      }
    }
  }

  /** The kernel's answers when a walk comes to one directory. */
  ghost function OneVisit(s: State, path: string, w: nat): Answers
    requires WellFormed(s.m.slots)
  {
    Answers(_ => [Visit(path, true, w)], set v | v in Contents(s.m.slots) && !IsWatch(s.wd, v), [])
  }

  ghost predicate NewWatch(s: State, w: int) {
    && (forall i :: 0 <= i < |s.m.slots| ==> s.m.slots[i].wd != w)
    && (forall i :: 0 <= i < |s.queue| ==> w !in Looked(s.queue[i]))
    && !IsWatch(s.wd, w)
  }

  /** The state after a walk that comes to the directory d alone. */
  ghost function Visited(s: State, d: int, path: string, w: nat): State
    requires |s.queue| > 0
  {
    State(s.tree, s.wd[d := w], s.m.(slots := Walk(s.m.slots, [Visit(path, true, w)])), s.queue[1..])
  }

  lemma HeadProper(s: State)
    requires Base(s) && |s.queue| > 0
    ensures Proper(s.queue[0])
  {
    hide Sound, WellFormed, Contents, Proper, IsWatch;
  }

  lemma VisitExtends(s: State, d: int, w: nat)
    requires Base(s) && if d in s.wd then s.wd[d] == w else NewWatch(s, w)
    ensures Extended(s, s.wd[d := w], {d})
  {
    hide Sound, WellFormed, Contents, Proper, Looked;
  }

  lemma VisitIsWalk(t: Tree, wd: map<int, int>, d: int, path: string, w: nat)
    requires Sound(t) && d in t.place && PathOf(t, d) == path && Found(t, path) == {d}
    ensures WalkOf(t, wd[d := w], path, [Visit(path, true, w)])
  {
    hide Sound, PathOf, Found;
    var visits := [Visit(path, true, w)];
    assert VisitOf(t, wd[d := w], visits[0], d);
    assert forall x :: x in Found(t, path) <==> x == d;
  }

  lemma VisitTaken(s: State, d: int, w: nat)
    requires Base(s) && Walks(s) && Found(s.tree, WalkPath(s)) == {d} && d in s.tree.place
    requires PathOf(s.tree, d) == WalkPath(s)
    requires if d in s.wd then s.wd[d] == w else NewWatch(s, w)
    ensures Takes(s, OneVisit(s, WalkPath(s), w), [], Visited(s, d, WalkPath(s), w))
  {
    hide *;
    WalkKnown(s);
    SoundBase(s);
    HeadProper(s);
    var path := WalkPath(s);
    NewDirMeans(s, OneVisit(s, path, w));
    VisitExtends(s, d, w);
    VisitIsWalk(s.tree, s.wd, d, path, w);
    VisitTakes(s, d, w);
  }

  lemma VisitTakes(s: State, d: int, w: nat)
    requires Sound(s.tree) && WellFormed(s.m.slots) && Walks(s)
    requires Found(s.tree, WalkPath(s)) == {d}
    requires var path := WalkPath(s);
      && WalkOf(s.tree, s.wd[d := w], path, [Visit(path, true, w)]) && Extended(s, s.wd[d := w], {d})
      && var r := TakeOne(s, OneVisit(s, path, w));
         r.stop == Drained && r.m == s.m.(slots := Walk(s.m.slots, OneVisit(s, path, w).walk(path)))
    ensures Takes(s, OneVisit(s, WalkPath(s), w), [], Visited(s, d, WalkPath(s), w))
  {
    hide Sound, WellFormed, Contents, TakeOne, Walk, WalkPath, Walks, Found, Extended, WalkOf, IsWatch;
    assert |s.queue| > 0 by {
      WalksQueue(s);
    }
    assert s.queue[1..] + [] == s.queue[1..];
  }

  lemma WalksQueue(s: State)
    requires WellFormed(s.m.slots) && Walks(s)
    ensures |s.queue| > 0 && s.queue[0].NewDir?
  {
    hide WellFormed, Contents, PathCached;
  }

  lemma WalkKnown(s: State)
    requires Base(s) && Walks(s)
    ensures |s.queue| > 0 && s.queue[0].NewDir? && s.queue[0].w in Contents(s.m.slots)
    ensures !Defeats(Contents(s.m.slots), s.queue[0])
  {
    hide Sound, WellFormed, Contents, PathCached;
  }

  lemma NotCached(s: State, path: string)
    requires WellFormed(s.m.slots) && forall w :: w in Contents(s.m.slots) ==> Contents(s.m.slots)[w] != path
    ensures !PathCached(s.m.slots, path)
  {
    forall i | 0 <= i < |s.m.slots| && s.m.slots[i].wd >= 0
      ensures s.m.slots[i].path != path
    {
      assert Holds(s.m.slots, i, s.m.slots[i].wd);
      assert s.m.slots[i].wd in Contents(s.m.slots);
    }
  }

  /** A directory d is made, renamed, and another one, e, is made under the first pathname, before the program looks. */
  ghost predicate Reuse(s: State, d: int, e: int, p: int, name: string, newName: string, cookie: nat, s3: State)
    requires Sound(s.tree)
  {
    && Possible(s.tree, Mkdir(d, p, name))
    && var s1 := After(s, Mkdir(d, p, name), true);
       && Sound(s1.tree) && Possible(s1.tree, Other(Rename(d, p, newName, cookie)))
       && var s2 := After(s1, Other(Rename(d, p, newName, cookie)), true);
          && Sound(s2.tree) && Possible(s2.tree, Mkdir(e, p, name))
          && s3 == After(s2, Mkdir(e, p, name), true)
  }

  lemma ReuseQueue(s: State, d: int, e: int, p: int, name: string, newName: string, cookie: nat, s3: State)
    requires Base(s) && s.queue == [] && p in s.wd && Reuse(s, d, e, p, name, newName, cookie, s3)
    ensures s3.wd == s.wd && s3.m == s.m
    ensures s3.queue == [NewDir(Some(d), s.wd[p], name, false, 0), Moved(s.wd[p], name, s.wd[p], newName, cookie),
                         NewDir(Some(e), s.wd[p], name, false, 0)]
  {
    hide Sound, WellFormed, Contents, CanMake, Below, Proper, IsWatch, Renamed;
  }

  lemma MadeHas(t: Tree, d: int, p: int, name: string)
    requires Sound(t) && CanMake(t, d, p, name)
    ensures d !in t.place && p in t.place && p != d && Made(t, d, p, name).place.Keys == t.place.Keys + {d}
  {
    hide Sound;
  }

  lemma MoveAside(t: Tree, d: int, p: int, newName: string)
    requires Sound(t) && CanRename(t, d, p, newName) && t.place[d] == In(p, t.place[d].name)
    ensures var u := Renamed(t, d, p, newName);
      && Sound(u) && u.place.Keys == t.place.Keys && p in u.place && d in u.place
      && PathOf(u, p) == PathOf(t, p) && PathOf(u, d) == Join(PathOf(t, p), newName)
  {
    assert PathOf(t, d) == Join(PathOf(t, p), t.place[d].name);
    hide Sound, PathOf, Renamed, Below;
    PathsAfterRename(t, d, p, newName);
  }

  lemma ReuseTrees(t0: Tree, t1: Tree, t2: Tree, t3: Tree, d: int, e: int, p: int, name: string, newName: string)
    requires Sound(t0) && CanMake(t0, d, p, name) && t1 == Made(t0, d, p, name) && Sound(t1)
    requires CanRename(t1, d, p, newName) && t2 == Renamed(t1, d, p, newName) && Sound(t2)
    requires CanMake(t2, e, p, name) && t3 == Made(t2, e, p, name)
    ensures Sound(t3) && p in t0.place && d in t3.place && e in t3.place && d !in t0.place && e !in t0.place && e != d
    ensures var path := Join(PathOf(t0, p), name);
      && PathOf(t3, e) == path && Found(t3, path) == {e}
      && PathOf(t3, d) == Join(PathOf(t0, p), newName) && PathOf(t3, d) != path
  {
    hide *;
    MadeHas(t0, d, p, name);
    MadePlace(t0, d, p, name);
    MadeHas(t2, e, p, name);
    MadeSound(t0, d, p, name);
    MoveAside(t1, d, p, newName);
    MadeSound(t2, e, p, name);
    FoundNew(t2, e, p, name);
    if PathOf(t3, d) == PathOf(t3, e) {
      PathInjective(t3, d, e);
    }
  }

  lemma MadePlace(t: Tree, d: int, p: int, name: string)
    requires Sound(t) && CanMake(t, d, p, name)
    ensures d in Made(t, d, p, name).place && Made(t, d, p, name).place[d] == In(p, name)
  {
    hide Sound;
  }

  /** The pathnames of the two directories and of those that were there before. */
  lemma ReusePaths(s: State, d: int, e: int, p: int, name: string, newName: string, cookie: nat, s3: State)
    requires Base(s) && Reuse(s, d, e, p, name, newName, cookie, s3)
    ensures Sound(s3.tree) && p in s.tree.place && d in s3.tree.place && e in s3.tree.place
    ensures d !in s.tree.place && e !in s.tree.place && e != d
    ensures var path := Join(PathOf(s.tree, p), name);
      && PathOf(s3.tree, e) == path && Found(s3.tree, path) == {e}
      && PathOf(s3.tree, d) == Join(PathOf(s.tree, p), newName) && PathOf(s3.tree, d) != path
      && forall x :: x in s.tree.place ==> !AtOrBelow(path, PathOf(s.tree, x))
  {
    var t0 := s.tree;
    var t1 := Made(t0, d, p, name);
    var t2 := Renamed(t1, d, p, newName);
    hide Sound, PathOf, CanMake, CanRename, Found, Base, Made, Renamed, NoticesOf;
    ReuseTrees(t0, t1, t2, s3.tree, d, e, p, name, newName);
    forall x | x in t0.place
      ensures !AtOrBelow(Join(PathOf(t0, p), name), PathOf(t0, x))
    {
      NothingBelowNew(t0, d, p, name, x);
    }
  }

  /** What the visit adds to the cache. */
  lemma VisitContents(s: State, d: int, w: nat)
    requires Base(s) && Walks(s) && Found(s.tree, WalkPath(s)) == {d} && d in s.tree.place
    requires PathOf(s.tree, d) == WalkPath(s)
    requires if d in s.wd then s.wd[d] == w else NewWatch(s, w)
    ensures Takes(s, OneVisit(s, WalkPath(s), w), [], Visited(s, d, WalkPath(s), w))
    ensures var s' := Visited(s, d, WalkPath(s), w);
      && Base(s')
      && Contents(s'.m.slots) == if d in s.wd then Contents(s.m.slots) else Contents(s.m.slots)[w := WalkPath(s)]
  {
    hide *;
    WalkKnown(s);
    SoundBase(s);
    HeadProper(s);
    var ans, s' := OneVisit(s, WalkPath(s), w), Visited(s, d, WalkPath(s), w);
    NewDirMeans(s, ans);
    VisitTaken(s, d, w);
    TakeWithoutRebuild(s, ans, [], s');
    TakeKeepsBase(s, ans, [], s');
    WalkEffect(s);
    VisitAdds(s, d, w);
  }

  lemma VisitAdds(s: State, d: int, w: nat)
    requires Base(s) && Walks(s) && Found(s.tree, WalkPath(s)) == {d} && d in s.tree.place
    requires PathOf(s.tree, d) == WalkPath(s) && OneWatchEach(Visited(s, d, WalkPath(s), w).wd)
    ensures Added(s, Visited(s, d, WalkPath(s), w).wd) == if d in s.wd then map[] else map[w := WalkPath(s)]
  {
    hide Sound, WellFormed, Contents, PathOf, WalkPath, PathCached, Found;
    assert forall x :: x in Found(s.tree, WalkPath(s)) <==> x == d;
  }

  ghost function NoWalk(s: State): Answers
    requires WellFormed(s.m.slots)
  {
    OneVisit(s, "", 0)
  }

  ghost function MovedState(s: State): State
    requires WellFormed(s.m.slots) && |s.queue| > 0
  {
    State(s.tree, s.wd, TakeOne(s, NoWalk(s)).m, s.queue[1..])
  }

  lemma MoveTaken(s: State)
    requires Base(s) && |s.queue| > 0 && s.queue[0].Moved? && !Defeats(Contents(s.m.slots), s.queue[0])
    ensures Takes(s, NoWalk(s), [], MovedState(s))
    ensures var s' := MovedState(s); Base(s') && Contents(s'.m.slots) == Effect(Contents(s.m.slots), s.queue[0])
  {
    SoundBase(s);
    assert Proper(s.queue[0]);
    hide Sound, WellFormed, Contents, TakeOne, PathCached, Base, Effect, Defeats, IsWatch;
    MoveMeans(s, NoWalk(s));
    assert s.queue[1..] + [] == s.queue[1..];
    TakeKeepsBase(s, NoWalk(s), [], MovedState(s));
  }

  // ---------------------------------------------------------------- the pathname of a renamed directory, reused

  /** A drained cache that is right has no entry at or below a pathname that is not in use. */
  lemma FreshPath(s: State, path: string)
    requires Base(s) && Right(s) && s.queue == []
    requires forall x :: x in s.tree.place ==> !AtOrBelow(path, PathOf(s.tree, x))
    ensures forall v :: v in Contents(s.m.slots) ==> !AtOrBelow(path, Contents(s.m.slots)[v])
    ensures forall x :: x in s.wd && x in s.tree.place ==>
      s.wd[x] in Contents(s.m.slots) && Contents(s.m.slots)[s.wd[x]] == PathOf(s.tree, x)
  {
    DrainedIsFaithful(s);
    hide Sound, WellFormed, Contents, PathOf, IsWatch, Proper, AtOrBelow, Ahead;
    forall v | v in Contents(s.m.slots)
      ensures !AtOrBelow(path, Contents(s.m.slots)[v])
    {
      var x :| x in s.wd && s.wd[x] == v;
    }
  }

  lemma ReuseBase(s: State, d: int, e: int, p: int, name: string, newName: string, cookie: nat, s3: State)
    requires Base(s) && Reuse(s, d, e, p, name, newName, cookie, s3)
    ensures Base(s3)
  {
    hide Base, Possible, After;
    SoundBase(s);
    DeedKeepsBase(s, Mkdir(d, p, name), true);
    var s1 := After(s, Mkdir(d, p, name), true);
    SoundBase(s1);
    DeedKeepsBase(s1, Other(Rename(d, p, newName, cookie)), true);
    var s2 := After(s1, Other(Rename(d, p, newName, cookie)), true);
    SoundBase(s2);
    DeedKeepsBase(s2, Mkdir(e, p, name), true);
  }

  lemma WalksTo(s: State, path: string)
    requires Base(s) && |s.queue| > 0 && s.queue[0].NewDir? && s.queue[0].w in Contents(s.m.slots)
    requires Join(Contents(s.m.slots)[s.queue[0].w], s.queue[0].name) == path
    requires forall v :: v in Contents(s.m.slots) ==> Contents(s.m.slots)[v] != path
    ensures Walks(s) && WalkPath(s) == path
  {
    NotCached(s, path);
    hide Sound, WellFormed, Contents, PathCached;
  }

  lemma MovedEffect(c: map<int, string>, n: Notice, w: int, path: string, newPath: string)
    requires n.Moved? && n.w == n.w2 && n.w in c && w !in c && path == Join(c[n.w], n.name)
    requires newPath == Join(c[n.w], n.name2) && forall v :: v in c ==> !AtOrBelow(path, c[v])
    ensures !Defeats(c[w := path], n) && Effect(c[w := path], n) == c[w := newPath]
  {
    AtOrBelowSelf(path);
    hide AtOrBelow, Join;
    var d := c[w := path];
    assert !Defeats(d, n) && From(d, n) == path && To(d, n) == newPath;
    assert newPath + path[|path|..] == newPath;
    assert Rebase(path, newPath, path) == newPath;
    var f := Effect(d, n);
    assert forall v :: v in c ==> Sent(d, n, c[v]) == Some(c[v]);
    assert forall v :: v in d <==> v in c || v == w;
    assert forall v :: v in f <==> v in d;
    assert forall v :: v in f ==> f[v] == c[w := newPath][v];
  }

  /** The input of the example: nothing is queued, the directory p is watched, and w is the next watch descriptor. */
  ghost predicate ReuseCase(s: State, d: int, e: int, p: int, name: string, newName: string, cookie: nat, w: nat,
                            s3: State) {
    Inv(s) && s.queue == [] && p in s.wd && NewWatch(s, w) && Reuse(s, d, e, p, name, newName, cookie, s3)
  }

  ghost function ReusedPath(s: State, p: int, name: string): string
    requires Sound(s.tree) && p in s.tree.place
  {
    Join(PathOf(s.tree, p), name)
  }

  /** The program comes to the first creation event: its walk finds e, and caches it. */
  lemma FirstTaken(s: State, d: int, e: int, p: int, name: string, newName: string, cookie: nat, w: nat, s3: State)
      returns (s4: State)
    requires ReuseCase(s, d, e, p, name, newName, cookie, w, s3)
    ensures p in s.tree.place && Base(s3) && Walks(s3) && WalkPath(s3) == ReusedPath(s, p, name)
    ensures Takes(s3, OneVisit(s3, WalkPath(s3), w), [], s4) && Base(s4)
    ensures s4.tree == s3.tree && s4.wd == s.wd[e := w] && s4.queue == s3.queue[1..]
    ensures e !in s.wd && w !in Contents(s.m.slots)
    ensures Contents(s4.m.slots) == Contents(s.m.slots)[w := ReusedPath(s, p, name)]
  {
    hide *;
    CaseParts(s, d, e, p, name, newName, cookie, w, s3);
    InvParts(s);
    SoundBase(s);
    ReuseBase(s, d, e, p, name, newName, cookie, s3);
    SoundBase(s3);
    ReuseQueue(s, d, e, p, name, newName, cookie, s3);
    ReusePaths(s, d, e, p, name, newName, cookie, s3);
    ReusedAt(s, p, name);
    var path := ReusedPath(s, p, name);
    FreshPath(s, path);
    NewNotHeld(s, w);
    NoneBelow(Contents(s.m.slots), path);
    WalksTo(s3, path);
    StillNew(s, d, e, p, name, newName, cookie, w, s3);
    VisitContents(s3, e, w);
    s4 := Visited(s3, e, WalkPath(s3), w);
    VisitedIs(s3, e, WalkPath(s3), w);
  }

  lemma NewNotHeld(s: State, w: int)
    requires WellFormed(s.m.slots) && NewWatch(s, w)
    ensures w !in Contents(s.m.slots)
  {
    NotHeld(s.m.slots, w);
  }

  lemma NoneBelow(c: map<int, string>, path: string)
    requires forall x :: x in c ==> !AtOrBelow(path, c[x])
    ensures forall x :: x in c ==> c[x] != path
  {
    AtOrBelowSelf(path);
    hide AtOrBelow;
  }

  lemma VisitedIs(s: State, d: int, path: string, w: nat)
    requires |s.queue| > 0
    ensures var s' := Visited(s, d, path, w);
      s'.tree == s.tree && s'.wd == s.wd[d := w] && s'.queue == s.queue[1..]
  {
  }

  lemma StillNew(s: State, d: int, e: int, p: int, name: string, newName: string, cookie: nat, w: nat, s3: State)
    requires NewWatch(s, w) && p in s.wd && s3.wd == s.wd && s3.m == s.m
    requires s3.queue == [NewDir(Some(d), s.wd[p], name, false, 0), Moved(s.wd[p], name, s.wd[p], newName, cookie),
                          NewDir(Some(e), s.wd[p], name, false, 0)]
    ensures NewWatch(s3, w)
  {
    assert s.wd[p] != w;
  }

  /** Then it comes to the rename, which files e under the new pathname of d. */
  lemma RenameTaken(s: State, d: int, e: int, p: int, name: string, newName: string, cookie: nat, w: nat, s3: State,
                    s4: State)
    requires ReuseCase(s, d, e, p, name, newName, cookie, w, s3)
    requires p in s.tree.place && Base(s4) && s4.tree == s3.tree && s4.wd == s.wd[e := w]
    requires s4.queue == s3.queue[1..] && e !in s.wd && w !in Contents(s.m.slots)
    requires Contents(s4.m.slots) == Contents(s.m.slots)[w := ReusedPath(s, p, name)]
    ensures Takes(s4, NoWalk(s4), [], MovedState(s4)) && Base(MovedState(s4))
    ensures MovedState(s4).queue == [NewDir(Some(e), s.wd[p], name, false, 0)]
    ensures Contents(MovedState(s4).m.slots) == Contents(s.m.slots)[w := ReusedPath(s, p, newName)]
  {
    InvParts(s);
    SoundBase(s);
    hide Sound, WellFormed, Contents, PathOf, Base, Right, Inv, Found, Takes, Reuse, AtOrBelow, Looked, TakeOne, Effect,
         Defeats;
    ReuseQueue(s, d, e, p, name, newName, cookie, s3);
    ReusePaths(s, d, e, p, name, newName, cookie, s3);
    FreshPath(s, ReusedPath(s, p, name));
    MovedEffect(Contents(s.m.slots), s4.queue[0], w, ReusedPath(s, p, name), ReusedPath(s, p, newName));
    MoveTaken(s4);
  }

  /** The second creation event changes nothing: the walk finds e again, which has its watch. */
  lemma SecondTaken(s: State, d: int, e: int, p: int, name: string, newName: string, cookie: nat, w: nat, s3: State,
                    s5: State) returns (s6: State)
    requires ReuseCase(s, d, e, p, name, newName, cookie, w, s3)
    requires p in s.tree.place && Base(s5) && s5.tree == s3.tree && s5.wd == s.wd[e := w] && e !in s.wd
    requires s5.queue == [NewDir(Some(e), s.wd[p], name, false, 0)] && w !in Contents(s.m.slots)
    requires Contents(s5.m.slots) == Contents(s.m.slots)[w := ReusedPath(s, p, newName)]
    ensures Walks(s5) && Takes(s5, OneVisit(s5, WalkPath(s5), w), [], s6) && Base(s6)
    ensures s6.tree == s3.tree && s6.wd == s5.wd && s6.queue == [] && Contents(s6.m.slots) == Contents(s5.m.slots)
  {
    hide *;
    CaseParts(s, d, e, p, name, newName, cookie, w, s3);
    InvParts(s);
    SoundBase(s);
    SoundBase(s5);
    ReusePaths(s, d, e, p, name, newName, cookie, s3);
    ReusedAt(s, p, name);
    ReusedAt(s, p, newName);
    var path, newPath := ReusedPath(s, p, name), ReusedPath(s, p, newName);
    FreshPath(s, path);
    NoneAtPath(Contents(s.m.slots), s.wd[p], w, path, newPath, Contents(s5.m.slots));
    WalksTo(s5, path);
    VisitContents(s5, e, w);
    s6 := Visited(s5, e, WalkPath(s5), w);
    VisitedSame(s5, e, WalkPath(s5), w);
  }

  lemma ReusedAt(s: State, p: int, name: string)
    requires Sound(s.tree) && p in s.tree.place
    ensures ReusedPath(s, p, name) == Join(PathOf(s.tree, p), name)
  {
  }

  lemma NoneAtPath(c: map<int, string>, v: int, w: int, path: string, newPath: string, f: map<int, string>)
    requires v in c && w !in c && path != newPath && f == c[w := newPath]
    requires forall x :: x in c ==> !AtOrBelow(path, c[x])
    ensures v in f && f[v] == c[v] && forall x :: x in f ==> f[x] != path
  {
    AtOrBelowSelf(path);
    hide AtOrBelow;
  }

  lemma VisitedSame(s: State, d: int, path: string, w: nat)
    requires |s.queue| == 1 && d in s.wd && s.wd[d] == w
    ensures var s' := Visited(s, d, path, w); s'.tree == s.tree && s'.wd == s.wd && s'.queue == []
  {
  }

  lemma RunOfSix(ss: seq<State>, steps: seq<Step>)
    requires |ss| == 7 && |steps| == 6
    requires Proceeds(ss[0], steps[0], ss[1]) && Proceeds(ss[1], steps[1], ss[2]) && Proceeds(ss[2], steps[2], ss[3])
    requires Proceeds(ss[3], steps[3], ss[4]) && Proceeds(ss[4], steps[4], ss[5]) && Proceeds(ss[5], steps[5], ss[6])
    ensures Run(ss, steps)
  {
    hide Proceeds;
  }

  lemma TakeProceeds(s: State, ans: Answers, s': State)
    requires Base(s) && Takes(s, ans, [], s')
    ensures Proceeds(s, Take(ans, []), s')
  {
    SoundBase(s);
    hide Base, Takes, Sound, WellFormed;
  }

  /** The second directory is not the first. */
  lemma ReuseIdentity(s: State, d: int, e: int, p: int, name: string, newName: string, cookie: nat, s3: State)
    requires Base(s) && s.queue == [] && p in s.wd && e != d && Reuse(s, d, e, p, name, newName, cookie, s3)
    ensures NewIdentity([], Mkdir(d, p, name))
    ensures var s1 := After(s, Mkdir(d, p, name), true);
      NewIdentity(After(s1, Other(Rename(d, p, newName, cookie)), true).queue, Mkdir(e, p, name))
  {
    hide Sound, WellFormed, Contents, CanMake, Below, Proper, IsWatch, Renamed;
  }

  lemma ReuseProceeds(s: State, d: int, e: int, p: int, name: string, newName: string, cookie: nat, s3: State)
    requires Base(s) && s.queue == [] && p in s.wd && e != d && Reuse(s, d, e, p, name, newName, cookie, s3)
    ensures var a, b, c := Mkdir(d, p, name), Other(Rename(d, p, newName, cookie)), Mkdir(e, p, name);
      && var s1 := After(s, a, true);
         && Sound(s1.tree) && Possible(s1.tree, b)
         && Proceeds(s, Do(a, true), s1) && Proceeds(s1, Do(b, true), After(s1, b, true))
         && Proceeds(After(s1, b, true), Do(c, true), s3)
  {
    SoundBase(s);
    ReuseIdentity(s, d, e, p, name, newName, cookie, s3);
    hide Sound, WellFormed, Possible, TreeBy, NoticesOf, Base;
  }

  /** mkdir a; mv a b; mkdir a, and then the program looks: the new directory a is cached as b, and the first one is not
      watched. */
  lemma PathnameReused(s: State, d: int, e: int, p: int, name: string, newName: string, cookie: nat, w: nat, s3: State)
      returns (ss: seq<State>, steps: seq<Step>)
    requires ReuseCase(s, d, e, p, name, newName, cookie, w, s3)
    ensures Run(ss, steps) && |steps| == 6 && |ss| == 7 && ss[0] == s && ss[6].queue == [] && ss[6].tree == s3.tree
    ensures forall i :: 0 <= i < 6 ==> (steps[i].Do? <==> i < 3)
    ensures Sound(s3.tree) && d in s3.tree.place && e in s3.tree.place && WellFormed(ss[6].m.slots)
    ensures d !in ss[6].wd && e in ss[6].wd && ss[6].wd[e] in Contents(ss[6].m.slots)
    ensures Contents(ss[6].m.slots)[ss[6].wd[e]] == PathOf(s3.tree, d) != PathOf(s3.tree, e)
  {
    hide *;
    var a, b, c := Mkdir(d, p, name), Other(Rename(d, p, newName, cookie)), Mkdir(e, p, name);
    CaseParts(s, d, e, p, name, newName, cookie, w, s3);
    InvParts(s);
    SoundBase(s);
    ReuseQueue(s, d, e, p, name, newName, cookie, s3);
    ReusePaths(s, d, e, p, name, newName, cookie, s3);
    ReuseProceeds(s, d, e, p, name, newName, cookie, s3);
    var s4 := FirstTaken(s, d, e, p, name, newName, cookie, w, s3);
    ReusedAt(s, p, newName);
    SoundBase(s3);
    SoundBase(s4);
    RenameTaken(s, d, e, p, name, newName, cookie, w, s3, s4);
    MovedStateSame(s4);
    var s5 := MovedState(s4);
    var s6 := SecondTaken(s, d, e, p, name, newName, cookie, w, s3, s5);
    SoundBase(s5);
    SoundBase(s6);
    WalkKnown(s5);
    TakeProceeds(s3, OneVisit(s3, WalkPath(s3), w), s4);
    TakeProceeds(s4, NoWalk(s4), s5);
    TakeProceeds(s5, OneVisit(s5, WalkPath(s5), w), s6);
    var s1 := After(s, a, true);
    ss := [s, s1, After(s1, b, true), s3, s4, s5, s6];
    steps := [Do(a, true), Do(b, true), Do(c, true), Take(OneVisit(s3, WalkPath(s3), w), []), Take(NoWalk(s4), []),
              Take(OneVisit(s5, WalkPath(s5), w), [])];
    RunOfSix(ss, steps);
  }

  lemma CaseParts(s: State, d: int, e: int, p: int, name: string, newName: string, cookie: nat, w: nat, s3: State)
    requires ReuseCase(s, d, e, p, name, newName, cookie, w, s3)
    ensures Inv(s) && s.queue == [] && p in s.wd && NewWatch(s, w) && Reuse(s, d, e, p, name, newName, cookie, s3)
    ensures s.wd.Keys <= s.tree.place.Keys
  {
  }

  lemma MovedStateSame(s: State)
    requires WellFormed(s.m.slots) && |s.queue| > 0
    ensures MovedState(s).tree == s.tree && MovedState(s).wd == s.wd
  {
  }
}
