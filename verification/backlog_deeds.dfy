/** What other processes do leaves the cache right, ahead of the queue, except for a rename that nothing reports. */
module BacklogDeeds {
  import opened Basics
  import opened Paths
  import opened WatchCache
  import opened InotifyEvents
  import opened WatchedTree
  import opened LaggingReplay
  import opened Backlog

  // ---------------------------------------------------------------- base

  lemma TreeBySound(t: Tree, a: Deed)
    requires Sound(t) && Possible(t, a)
    ensures Sound(TreeBy(t, a))
  {
    hide Sound, Renamed, Removed, CanRename, CanRemove, Made, CanMake;
    match a
    case Mkdir(d, parent, name) => MadeSound(t, d, parent, name);
    case Other(Rename(d, parent, name, _)) => RenamedSound(t, d, parent, name);
    case Other(Rmdir(d)) => RemovedSound(t, d);
    case Other(FileEvent(_, _, _, _)) =>
  }

  lemma TreeByKeys(t: Tree, a: Deed)
    requires Sound(t) && Possible(t, a)
    ensures TreeBy(t, a).place.Keys
         == match a
            case Mkdir(d, _, _) => t.place.Keys + {d}
            case Other(Rmdir(d)) => t.place.Keys - {d}
            case Other(_) => t.place.Keys
  {
    hide Sound, Below;
  }

  lemma NoticesProper(t: Tree, wd: map<int, int>, a: Deed)
    requires Sound(t) && Possible(t, a) && OneWatchEach(wd)
    ensures |NoticesOf(t, wd, a)| <= 1
    ensures |NoticesOf(t, wd, a)| == 1 ==> Proper(NoticesOf(t, wd, a)[0])
    ensures |NoticesOf(t, wd, a)| == 1 && NoticesOf(t, wd, a)[0].Gone? ==>
      a.Other? && a.c.Rmdir? && a.c.dir in wd && NoticesOf(t, wd, a)[0].w == wd[a.c.dir]
  {
    hide Sound, Below;
  }

  lemma WatchesByKeys(wd: map<int, int>, a: Deed, w: int)
    requires OneWatchEach(wd)
    ensures OneWatchEach(WatchesBy(wd, a))
    ensures IsWatch(WatchesBy(wd, a), w) ==> IsWatch(wd, w)
    ensures a.Other? && a.c.Rmdir? && a.c.dir in wd && w == wd[a.c.dir] ==> !IsWatch(WatchesBy(wd, a), w)
  {
    if IsWatch(WatchesBy(wd, a), w) {
      var d :| d in WatchesBy(wd, a) && WatchesBy(wd, a)[d] == w;
      assert d in wd && wd[d] == w;
    }
  }

  lemma QueueAfter(q: seq<Notice>, more: seq<Notice>, wd: map<int, int>, wd': map<int, int>)
    requires forall i :: 0 <= i < |q| ==> Proper(q[i])
    requires forall i :: 0 <= i < |q| && q[i].Gone? ==> !IsWatch(wd, q[i].w)
    requires forall w: int :: IsWatch(wd', w) ==> IsWatch(wd, w)
    requires |more| <= 1 && (|more| == 1 ==> Proper(more[0]) && (more[0].Gone? ==> !IsWatch(wd', more[0].w)))
    ensures forall i :: 0 <= i < |q + more| ==> Proper((q + more)[i])
    ensures forall i :: 0 <= i < |q + more| && (q + more)[i].Gone? ==> !IsWatch(wd', (q + more)[i].w)
  {
    hide Proper, IsWatch;
  }

  lemma DeedKeepsBase(s: State, a: Deed, kept: bool)
    requires Base(s) && Possible(s.tree, a)
    ensures Base(After(s, a, kept))
  {
    TreeBySound(s.tree, a);
    TreeByKeys(s.tree, a);
    NoticesProper(s.tree, s.wd, a);
    var s' := After(s, a, kept);
    assert s'.wd.Keys <= s'.tree.place.Keys;
    hide Sound, Possible, TreeBy, NoticesOf, WellFormed, Contents, IsWatch, OneWatchEach;
    var more := if kept then NoticesOf(s.tree, s.wd, a) else [Overflow];
    forall w: int | IsWatch(s'.wd, w)
      ensures IsWatch(s.wd, w)
    {
      WatchesByKeys(s.wd, a, w);
    }
    WatchesByKeys(s.wd, a, if |more| == 1 && more[0].Gone? then more[0].w else 0);
    QueueAfter(s.queue, more, s.wd, s'.wd);
  }

  // ---------------------------------------------------------------- right

  /** The entry of a watched directory has that directory's pathname. */
  lemma EntryOf(f: map<int, string>, t: Tree, wd: map<int, int>, d: int)
    requires Sound(t) && OneWatchEach(wd) && Mirrors(f, t, wd) && d in wd && wd[d] in f
    ensures d in t.place && f[wd[d]] == PathOf(t, d)
  {
    hide Sound, PathOf;
  }

  /** Directories change, the entries do not. */
  lemma SameEntries(f: map<int, string>, t: Tree, wd: map<int, int>, u: Tree)
    requires Sound(t) && Sound(u) && Mirrors(f, t, wd)
    requires forall x :: x in t.place && x in wd && wd[x] in f ==> x in u.place && PathOf(u, x) == PathOf(t, x)
    ensures Mirrors(f, u, wd)
  {
    hide Sound, PathOf;
    forall w | w in f
      ensures exists d :: d in wd && wd[d] == w && d in u.place && f[w] == PathOf(u, d)
    {
      var d :| d in wd && wd[d] == w && d in t.place && f[w] == PathOf(t, d);
      assert d in u.place && f[w] == PathOf(u, d);
    }
  }

  lemma MovedMirrors(f: map<int, string>, t: Tree, wd: map<int, int>, c: Change)
    requires Sound(t) && OneWatchEach(wd) && Mirrors(f, t, wd) && c.Rename? && Allowed(t, c) && Sound(TreeAfter(t, c))
    requires t.place[c.dir].parent in wd && c.parent in wd
    requires var n := Moved(wd[t.place[c.dir].parent], t.place[c.dir].name, wd[c.parent], c.name, c.cookie);
      !Defeats(f, n)
    ensures var n := Moved(wd[t.place[c.dir].parent], t.place[c.dir].name, wd[c.parent], c.name, c.cookie);
      Mirrors(Effect(f, n), TreeAfter(t, c), wd)
  {
    var p := t.place[c.dir];
    var n := Moved(wd[p.parent], p.name, wd[c.parent], c.name, c.cookie);
    var u := TreeAfter(t, c);
    EntryOf(f, t, wd, p.parent);
    EntryOf(f, t, wd, c.parent);
    PathsAfterRename(t, c.dir, c.parent, c.name);
    assert From(f, n) == PathOf(t, c.dir);
    hide Sound, PathOf, Renamed, CanRename, Rebase;
    forall w | w in Effect(f, n)
      ensures exists d :: d in wd && wd[d] == w && d in u.place && Effect(f, n)[w] == PathOf(u, d)
    {
      var d :| d in wd && wd[d] == w && d in t.place && f[w] == PathOf(t, d);
      assert d in u.place;
    }
  }

  lemma MovedOutMirrors(f: map<int, string>, t: Tree, wd: map<int, int>, c: Change)
    requires Sound(t) && OneWatchEach(wd) && Mirrors(f, t, wd) && c.Rename? && Allowed(t, c) && Sound(TreeAfter(t, c))
    requires t.place[c.dir].parent in wd
    requires !Defeats(f, MovedOut(wd[t.place[c.dir].parent], t.place[c.dir].name, c.cookie))
    ensures Mirrors(Effect(f, MovedOut(wd[t.place[c.dir].parent], t.place[c.dir].name, c.cookie)), TreeAfter(t, c), wd)
  {
    var p := t.place[c.dir];
    var n := MovedOut(wd[p.parent], p.name, c.cookie);
    var u := TreeAfter(t, c);
    EntryOf(f, t, wd, p.parent);
    PathsAfterRename(t, c.dir, c.parent, c.name);
    assert From(f, n) == PathOf(t, c.dir);
    hide Sound, PathOf, Renamed, CanRename;
    forall w | w in Effect(f, n)
      ensures exists d :: d in wd && wd[d] == w && d in u.place && Effect(f, n)[w] == PathOf(u, d)
    {
      var d :| d in wd && wd[d] == w && d in t.place && f[w] == PathOf(t, d);
      assert d in u.place;
    }
  }

  /** A rename changes the pathname of every directory that moves with it. */
  lemma PathChanges(t: Tree, c: Change, x: int)
    requires Sound(t) && c.Rename? && Allowed(t, c) && x in t.place && Sound(TreeAfter(t, c))
    ensures x in TreeAfter(t, c).place
    ensures PathOf(TreeAfter(t, c), x) == PathOf(t, x) <==> !Below(t, x, c.dir)
  {
    var d, u := c.dir, TreeAfter(t, c);
    PathsAfterRename(t, d, c.parent, c.name);
    AtOrBelowIsBelow(t, d, x);
    var oldPath, newPath := PathOf(t, d), Join(PathOf(t, c.parent), c.name);
    assert oldPath == Join(PathOf(t, t.place[d].parent), t.place[d].name);
    if oldPath == newPath {
      JoinInjective(PathOf(t, t.place[d].parent), t.place[d].name, PathOf(t, c.parent), c.name);
      PathInjective(t, t.place[d].parent, c.parent);
    }
    hide Sound, PathOf, Renamed, CanRename;
    if Below(t, x, d) {
      var rest := PathOf(t, x)[|oldPath|..];
      assert PathOf(t, x) == oldPath + rest;
      if newPath + rest == oldPath + rest {
        SamePrefix(oldPath, newPath, rest);
      }
    }
  }

  lemma SamePrefix(p: string, q: string, rest: string)
    requires q + rest == p + rest
    ensures q == p
  {
    assert |q| == |p|;
    assert q == (q + rest)[..|q|] && p == (p + rest)[..|p|];
  }

  /** No entry moves in the cache. That is right if and only if no cached directory moves. */
  lemma UnreportedMirrors(f: map<int, string>, t: Tree, wd: map<int, int>, c: Change)
    requires Sound(t) && OneWatchEach(wd) && Mirrors(f, t, wd) && c.Rename? && Allowed(t, c) && Sound(TreeAfter(t, c))
    ensures Mirrors(f, TreeAfter(t, c), wd) <==>
      !exists x :: x in t.place && x in wd && Below(t, x, c.dir) && wd[x] in f
  {
    var u := TreeAfter(t, c);
    hide Sound, PathOf, TreeAfter, Allowed;
    if x :| x in t.place && x in wd && Below(t, x, c.dir) && wd[x] in f {
      PathChanges(t, c, x);
      EntryOf(f, t, wd, x);
      if Mirrors(f, u, wd) {
        EntryOf(f, u, wd, x);
      }
    } else {
      forall x | x in t.place && x in wd && wd[x] in f
        ensures x in u.place && PathOf(u, x) == PathOf(t, x)
      {
        PathChanges(t, c, x);
      }
      SameEntries(f, t, wd, u);
    }
  }

  lemma GoneMirrors(f: map<int, string>, t: Tree, wd: map<int, int>, d: int)
    requires Sound(t) && OneWatchEach(wd) && Mirrors(f, t, wd) && CanRemove(t, d)
    requires d in wd ==> !Defeats(f, Gone(wd[d]))
    ensures Sound(Removed(t, d))
    ensures Mirrors(if d in wd then Effect(f, Gone(wd[d])) else f, Removed(t, d), wd - {d})
  {
    RemovedSound(t, d);
    hide Sound, PathOf, CanRemove;
    var g, u := if d in wd then Effect(f, Gone(wd[d])) else f, Removed(t, d);
    forall w | w in g
      ensures exists e :: e in wd - {d} && (wd - {d})[e] == w && e in u.place && g[w] == PathOf(u, e)
    {
      var e :| e in wd && wd[e] == w && e in t.place && f[w] == PathOf(t, e);
      assert e in wd - {d};
    }
  }

  lemma MadeMirrors(f: map<int, string>, t: Tree, wd: map<int, int>, a: Deed)
    requires Sound(t) && Mirrors(f, t, wd) && a.Mkdir? && Possible(t, a)
    ensures Sound(TreeBy(t, a)) && Mirrors(f, TreeBy(t, a), wd)
  {
    hide Sound, PathOf, CanMake;
    MadeSound(t, a.dir, a.parent, a.name);
    SameEntries(f, t, wd, TreeBy(t, a));
  }

  lemma DeedMirrors(f: map<int, string>, t: Tree, wd: map<int, int>, a: Deed)
    requires Sound(t) && OneWatchEach(wd) && Mirrors(f, t, wd) && Possible(t, a) && Sound(TreeBy(t, a))
    requires a.Other? && a.c.Rename? ==> t.place[a.c.dir].parent in wd
    requires var ns := NoticesOf(t, wd, a); |ns| == 1 ==> !Defeats(f, ns[0])
    ensures var ns := NoticesOf(t, wd, a);
      Mirrors(if |ns| == 1 then Effect(f, ns[0]) else f, TreeBy(t, a), WatchesBy(wd, a))
  {
    hide Sound, Mirrors, Made, CanMake, Renamed, CanRename, Removed, CanRemove, Effect, Defeats;
    match a
    case Mkdir(_, _, _) =>
      MadeMirrors(f, t, wd, a);
      if a.parent in wd {
        NoEffect(f, NoticesOf(t, wd, a)[0]);
      }
      assert Mirrors(f, TreeBy(t, a), WatchesBy(wd, a));
      var ns := NoticesOf(t, wd, a);
      assert a.parent in wd ==> |ns| == 1 && Effect(f, ns[0]) == f;
      assert a.parent !in wd ==> |ns| == 0;
    case Other(Rename(d, parent, _, _)) =>
      RenameIsIn(t, a.c);
      if parent in wd {
        MovedMirrors(f, t, wd, a.c);
      } else {
        MovedOutMirrors(f, t, wd, a.c);
      }
    case Other(Rmdir(d)) =>
      GoneMirrors(f, t, wd, d);
      assert d !in wd ==> wd - {d} == wd;
    case Other(FileEvent(d, _, _, _)) =>
      FileKeepsTree(t, wd, a.c);
      if d in wd {
        NoEffect(f, NoticesOf(t, wd, a)[0]);
      }
  }

  lemma RenameIsIn(t: Tree, c: Change)
    requires Sound(t) && c.Rename? && Allowed(t, c)
    ensures c.dir in t.place && t.place[c.dir].In?
  {
  }

  lemma AheadAfter(s: State, a: Deed)
    requires Base(s) && Possible(s.tree, a)
    ensures var ns := NoticesOf(s.tree, s.wd, a);
      && |ns| <= 1
      && Ahead(Contents(s.m.slots), s.queue + ns)
         == match Ahead(Contents(s.m.slots), s.queue)
            case None => None
            case Some(f) =>
              if |ns| == 0 then Some(f) else if Defeats(f, ns[0]) then None else Some(Effect(f, ns[0]))
  {
    NoticesProper(s.tree, s.wd, a);
    hide Sound, Possible, NoticesOf, WellFormed, Contents, Ahead, Defeats, Effect;
    var c, ns := Contents(s.m.slots), NoticesOf(s.tree, s.wd, a);
    AheadConcat(c, s.queue, ns);
    var f := Ahead(c, s.queue);
    if f.Some? {
      if |ns| == 0 {
        assert s.queue + ns == s.queue;
      } else {
        assert ns == [ns[0]];
        AheadOne(f.value, ns[0]);
      }
    }
  }

  lemma OverflowAhead(s: State)
    requires WellFormed(s.m.slots)
    ensures Ahead(Contents(s.m.slots), s.queue + [Overflow]) == None
  {
    AheadConcat(Contents(s.m.slots), s.queue, [Overflow]);
    hide Contents, Effect;
  }

  lemma SilentIff(s: State, a: Deed, f: map<int, string>)
    requires Sound(s.tree) && WellFormed(s.m.slots) && Possible(s.tree, a) && a.Other? && a.c.Rename?
    requires a.c.dir in s.tree.place && s.tree.place[a.c.dir].In? && s.tree.place[a.c.dir].parent !in s.wd
    requires Ahead(Contents(s.m.slots), s.queue) == Some(f)
    ensures var ns := NoticesOf(s.tree, s.wd, a);
      SilentMove(s, a) <==>
        && (|ns| > 0 ==> !Defeats(f, ns[0]))
        && exists x :: x in s.tree.place && x in s.wd && Below(s.tree, x, a.c.dir) && s.wd[x] in f
  {
    hide Sound, WellFormed, Contents, Ahead, Below;
  }

  lemma RenameRightIff(s: State, a: Deed)
    requires Inv(s) && Possible(s.tree, a) && a.Other? && a.c.Rename? && s.tree.place[a.c.dir].parent !in s.wd
    requires Ahead(Contents(s.m.slots), s.queue).Some?
    ensures Right(After(s, a, true)) <==> !SilentMove(s, a)
  {
    TreeBySound(s.tree, a);
    AheadAfter(s, a);
    RenameIsIn(s.tree, a.c);
    hide Sound, WellFormed, Contents, Ahead, Mirrors, TreeAfter, Allowed, Effect, NoticesOf, SilentMove, Defeats;
    var f := Ahead(Contents(s.m.slots), s.queue).value;
    var ns := NoticesOf(s.tree, s.wd, a);
    SilentIff(s, a, f);
    UnreportedMirrors(f, s.tree, s.wd, a.c);
    if |ns| == 1 && !Defeats(f, ns[0]) {
      UnreportedNotice(s, a);
      NoEffect(f, ns[0]);
    }
  }

  lemma UnreportedNotice(s: State, a: Deed)
    requires Sound(s.tree) && Possible(s.tree, a) && a.Other? && a.c.Rename? && a.c.dir in s.tree.place
    requires s.tree.place[a.c.dir].In? && s.tree.place[a.c.dir].parent !in s.wd
    ensures var ns := NoticesOf(s.tree, s.wd, a); |ns| > 0 ==> ns[0].NewDir?
  {
    hide Sound, Below;
  }

  /** What another process does keeps the cache right, ahead of the queue, unless it is a rename that nothing reports of
      a directory that stays cached; then it does not. */
  lemma DeedRightIff(s: State, a: Deed, kept: bool)
    requires Inv(s) && Possible(s.tree, a)
    ensures Right(After(s, a, kept)) <==> !Harmful(s, Do(a, kept))
  {
    TreeBySound(s.tree, a);
    hide Sound, WellFormed, Contents, Ahead, Mirrors, Possible, TreeBy, NoticesOf, Defeats, Effect;
    if !kept {
      OverflowAhead(s);
    } else {
      AheadAfter(s, a);
      var f := Ahead(Contents(s.m.slots), s.queue);
      if f.Some? {
        if a.Other? && a.c.Rename? && s.tree.place[a.c.dir].parent !in s.wd {
          RenameRightIff(s, a);
        } else {
          DeedMirrorsIfKept(s, a, f.value);
        }
      }
    }
  }

  lemma DeedMirrorsIfKept(s: State, a: Deed, f: map<int, string>)
    requires Inv(s) && Possible(s.tree, a) && Ahead(Contents(s.m.slots), s.queue) == Some(f)
    requires a.Other? && a.c.Rename? ==> s.tree.place[a.c.dir].parent in s.wd
    ensures Right(After(s, a, true))
  {
    TreeBySound(s.tree, a);
    AheadAfter(s, a);
    hide Sound, WellFormed, Contents, Ahead, Mirrors, Possible, TreeBy, NoticesOf, Defeats, Effect;
    var ns := NoticesOf(s.tree, s.wd, a);
    if |ns| == 0 || !Defeats(f, ns[0]) {
      DeedMirrors(f, s.tree, s.wd, a);
    }
  }
}
