/** What the program does with the first notice of the queue. */
module BacklogTakes {
  import opened Basics
  import opened Paths
  import opened WatchCache
  import opened InotifyEvents
  import opened InotifyEffects
  import opened WatchedTree
  import opened LaggingReplay
  import opened Backlog

  // ---------------------------------------------------------------- the program's processing, on maps

  lemma FirstEvent(m: Mirror, evs: seq<Event>, ans: Answers)
    requires 1 <= |evs| <= 2
    ensures var (m', o) := Process(m, evs[0], NextOf(evs), false, ans);
      && !o.Hanging?
      && (o.Rebuilt? ==> Replay(m, evs, 0, Always(ans)) == Progress(m', 1, AfterRebuild))
      && (o.Exited? ==> Replay(m, evs, 0, Always(ans)) == Progress(m', 1, AtExit))
      && (o.Took? && o.n == |evs| ==> Replay(m, evs, 0, Always(ans)) == Progress(m', |evs|, Drained))
      && (o.Took? && o.n == 1 && |evs| == 2 && evs[1].mask == {IGNORED} ==>
            Replay(m, evs, 0, Always(ans)) == Progress(m', 2, Drained))
  {
    var (m', o) := Process(m, evs[0], NextOf(evs), false, ans);
    if o.Took? && o.n == 1 && |evs| == 2 && evs[1].mask == {IGNORED} {
      IgnoredSkipped(m', evs[1], ans);
    }
    hide Process, Replay;
    ReplayUnfolds(m, evs, 0, Always(ans));
    if o.Took? && o.n == |evs| {
      assert evs[o.n..] == [];
      ReplayUnfolds(m', [], |evs|, Always(ans));
    } else if o.Took? && o.n == 1 && |evs| == 2 && evs[1].mask == {IGNORED} {
      assert evs[1..] == [evs[1]];
      OneEvent(m', evs[1], m', 1, Always(ans));
    }
  }

  ghost predicate RebuiltBy(s: State, ans: Answers, r: Progress) {
    r.stop == AfterRebuild && r.m == s.m.(slots := WalkRoots(s.m.roots, ans))
  }

  lemma UnknownFirst(m: Mirror, e: Event, next: Option<Event>, ans: Answers)
    requires e.wd >= 0 && e.mask != {IGNORED} && IGNORED !in e.mask && IndexOf(m.slots, e.wd) == |m.slots|
    ensures Process(m, e, next, false, ans) == Reinitialized(m, ans)
  {
    hide IndexOf, OnNewDirectory, OnDeleted, OnMovedFrom, OnRootMoved, Reinitialized;
  }

  lemma UnknownSecond(m: Mirror, e: Event, f: Event, ans: Answers)
    requires e.wd >= 0 && e.mask == {MOVED_FROM, ISDIR} && f.mask == {MOVED_TO, ISDIR} && e.cookie == f.cookie
    requires IndexOf(m.slots, e.wd) < |m.slots| && IndexOf(m.slots, f.wd) == |m.slots|
    ensures Process(m, e, Some(f), false, ans) == Reinitialized(m, ans)
  {
    hide IndexOf, OnNewDirectory, OnDeleted, ZapOrRebuild, OnRootMoved, Reinitialized;
  }

  lemma OverflowProcessed(m: Mirror, e: Event, ans: Answers)
    requires e.mask == {Q_OVERFLOW} && e.wd == -1
    ensures Process(m, e, None, false, ans) == Reinitialized(m, ans)
  {
    hide Reinitialized;
  }

  /** An unknown watch, or an overflow, makes the program rebuild. */
  lemma DefeatRebuilds(s: State, ans: Answers)
    requires WellFormed(s.m.slots) && |s.queue| > 0 && Proper(s.queue[0])
    requires Defeats(Contents(s.m.slots), s.queue[0])
    ensures RebuiltBy(s, ans, TakeOne(s, ans))
  {
    var n, evs := s.queue[0], EventsOf(s.queue[0]);
    hide WellFormed, Contents, IndexFrom, WalkRoots, Replay, Process;
    FirstEvent(s.m, evs, ans);
    if n.Overflow? {
      OverflowProcessed(s.m, evs[0], ans);
    } else {
      assert n.w in Looked(n);
      LookupRefines(s.m.slots, n.w);
      if n.w !in Contents(s.m.slots) {
        UnknownFirst(s.m, evs[0], NextOf(evs), ans);
      } else {
        LookupRefines(s.m.slots, n.w2);
        UnknownSecond(s.m, evs[0], evs[1], ans);
      }
    }
  }

  lemma MoveMeans(s: State, ans: Answers)
    requires WellFormed(s.m.slots) && |s.queue| > 0 && Proper(s.queue[0]) && s.queue[0].Moved?
    requires !Defeats(Contents(s.m.slots), s.queue[0])
    ensures var r := TakeOne(s, ans);
      && r.stop == Drained && WellFormed(r.m.slots) && r.m.roots == s.m.roots
      && Contents(r.m.slots) == Effect(Contents(s.m.slots), s.queue[0])
  {
    var n, c := s.queue[0], Contents(s.m.slots);
    var evs := EventsOf(n);
    assert From(c, n) != "";
    hide WellFormed, Contents, IndexFrom, RewriteSlots, Replay, Process, Rebase;
    FirstEvent(s.m, evs, ans);
    LookupRefines(s.m.slots, n.w);
    LookupRefines(s.m.slots, n.w2);
    ProcessRename(s.m, evs[0], evs[1], ans);
    RewriteRefines(s.m.slots, From(c, n), To(c, n));
  }

  lemma GoneEffect(c: map<int, string>, n: Notice)
    requires !Defeats(c, n) && n.Gone?
    ensures Effect(c, n) == c - {n.w}
  {
    assert forall w :: w in Effect(c, n) <==> w in c - {n.w};
  }

  lemma GoneMeans(s: State, ans: Answers)
    requires WellFormed(s.m.slots) && |s.queue| > 0 && Proper(s.queue[0]) && s.queue[0].Gone?
    requires !Defeats(Contents(s.m.slots), s.queue[0])
    ensures var r := TakeOne(s, ans);
      r.stop == AtExit ||
      (r.stop == Drained && WellFormed(r.m.slots) && Contents(r.m.slots) == Effect(Contents(s.m.slots), s.queue[0]))
  {
    var n, c := s.queue[0], Contents(s.m.slots);
    var evs := EventsOf(n);
    GoneEffect(c, n);
    hide WellFormed, Contents, IndexFrom, Replay, Process, IsRoot, NoRoots, WithoutRoot, Effect;
    FirstEvent(s.m, evs, ans);
    LookupRefines(s.m.slots, n.w);
    ProcessDelete(s.m, evs[0], NextOf(evs), ans);
    EmptyRefines(s.m.slots, IndexOf(s.m.slots, n.w));
  }

  lemma MoveOutMeans(s: State, ans: Answers)
    requires WellFormed(s.m.slots) && |s.queue| > 0 && Proper(s.queue[0]) && s.queue[0].MovedOut?
    requires !Defeats(Contents(s.m.slots), s.queue[0])
    ensures var r := TakeOne(s, ans);
      RebuiltBy(s, ans, r) ||
      (r.stop == Drained && WellFormed(r.m.slots) && Contents(r.m.slots) == Effect(Contents(s.m.slots), s.queue[0]))
  {
    var n, c := s.queue[0], Contents(s.m.slots);
    var evs := EventsOf(n);
    hide WellFormed, Contents, IndexFrom, Replay, Process, FirstRefused, ZapSlots, WalkRoots, NoneRefused, FoundByWalk;
    FirstEvent(s.m, evs, ans);
    LookupRefines(s.m.slots, n.w);
    MovedOutProcessed(s.m, evs[0], ans);
    ZapForgets(s.m, From(c, n), ans);
  }

  lemma MovedOutProcessed(m: Mirror, e: Event, ans: Answers)
    requires e.wd >= 0 && e.mask == {MOVED_FROM, ISDIR} && IndexOf(m.slots, e.wd) < |m.slots|
    ensures Process(m, e, None, false, ans)
         == ZapOrRebuild(m, Join(m.slots[IndexOf(m.slots, e.wd)].path, e.name), ans)
  {
    hide IndexOf, OnNewDirectory, OnDeleted, ZapOrRebuild, OnRootMoved, Reinitialized;
  }

  /** A directory moved in is dealt with like a new one. */
  lemma ProcessNewDir(m: Mirror, e: Event, ans: Answers)
    requires e.wd >= 0 && e.mask in {{CREATE, ISDIR}, {MOVED_TO, ISDIR}} && IndexOf(m.slots, e.wd) < |m.slots|
    ensures Process(m, e, None, false, ans)
         == OnNewDirectory(m, Join(m.slots[IndexOf(m.slots, e.wd)].path, e.name), ans)
  {
    hide IndexOf, OnNewDirectory, OnDeleted, OnMovedFrom, OnRootMoved, Reinitialized;
  }

  lemma NewDirMeans(s: State, ans: Answers)
    requires WellFormed(s.m.slots) && |s.queue| > 0 && Proper(s.queue[0]) && s.queue[0].NewDir?
    requires !Defeats(Contents(s.m.slots), s.queue[0])
    ensures var r := TakeOne(s, ans);
      r.stop == Drained && r.m == if Walks(s) then s.m.(slots := Walk(s.m.slots, ans.walk(WalkPath(s)))) else s.m
  {
    var n, c := s.queue[0], Contents(s.m.slots);
    var evs := EventsOf(n);
    hide WellFormed, Contents, IndexFrom, Replay, Process, PathCached, Walk;
    FirstEvent(s.m, evs, ans);
    LookupRefines(s.m.slots, n.w);
    ProcessNewDir(s.m, evs[0], ans);
  }

  lemma QuietMeans(s: State, ans: Answers)
    requires WellFormed(s.m.slots) && |s.queue| > 0 && Proper(s.queue[0]) && (s.queue[0].File? || s.queue[0].Ignored?)
    requires !Defeats(Contents(s.m.slots), s.queue[0])
    ensures var r := TakeOne(s, ans); r.stop == Drained && r.m == s.m
  {
    var n, c := s.queue[0], Contents(s.m.slots);
    var evs := EventsOf(n);
    if n.Ignored? {
      IgnoredSkipped(s.m, evs[0], ans);
    }
    hide WellFormed, Contents, IndexFrom, Replay, Process;
    FirstEvent(s.m, evs, ans);
    if n.File? {
      LookupRefines(s.m.slots, n.w);
      ProcessFile(s.m, evs[0], ans);
    }
  }

  // ---------------------------------------------------------------- a walk

  /** What the walk adds: each directory found that had no watch, under its new descriptor. */
  ghost function Added(s: State, wd: map<int, int>): map<int, string>
    requires Sound(s.tree) && WellFormed(s.m.slots) && OneWatchEach(wd)
  {
    if Walks(s) then
      map d | d in Found(s.tree, WalkPath(s)) && d !in s.wd && d in wd :: wd[d] := PathOf(s.tree, d)
    else map[]
  }

  lemma VisitedAdded(s: State, wd: map<int, int>, visits: seq<Visit>, w: int)
    requires Base(s) && Walks(s) && w >= 0 && w !in Contents(s.m.slots)
    requires WalkOf(s.tree, wd, WalkPath(s), visits) && Extended(s, wd, Found(s.tree, WalkPath(s)))
    ensures var k, e := FirstVisit(visits, w), Added(s, wd);
      (w in e <==> k < |visits|) && (w in e ==> e[w] == visits[k].path)
  {
    var k := FirstVisit(visits, w);
    var path := WalkPath(s);
    hide Walks, WalkPath, WellFormed, Contents, Sound, PathOf, Proper, IsWatch, Found, FirstVisit;
    if k < |visits| {
      var x :| x in Found(s.tree, path) && VisitOf(s.tree, wd, visits[k], x);
      assert x !in s.wd;
    }
    if d :| d in Found(s.tree, path) && d !in s.wd && d in wd && wd[d] == w {
      var i :| 0 <= i < |visits| && VisitOf(s.tree, wd, visits[i], d);
    }
  }

  lemma NotHeld(s: seq<Slot>, w: int)
    requires WellFormed(s) && forall i :: 0 <= i < |s| ==> s[i].wd != w
    ensures w !in Contents(s)
  {
    assert forall i :: !Holds(s, i, w);
  }

  lemma AddedIsNew(s: State, wd: map<int, int>)
    requires Base(s) && Walks(s) && Extended(s, wd, Found(s.tree, WalkPath(s)))
    ensures forall w :: w in Added(s, wd) ==> w >= 0 && w !in Contents(s.m.slots)
    ensures Unnamed(Added(s, wd), Contents(s.m.slots), s.queue)
  {
    var path := WalkPath(s);
    hide Walks, WalkPath, WellFormed, Sound, PathOf, Proper, IsWatch, Found, Contents, Looked;
    forall w | w in Added(s, wd)
      ensures w >= 0 && w !in Contents(s.m.slots) && forall i :: 0 <= i < |s.queue| ==> w !in Looked(s.queue[i])
    {
      var d :| d in Found(s.tree, path) && d !in s.wd && d in wd && wd[d] == w;
      NotHeld(s.m.slots, w);
    }
  }

  lemma WalkAddsAt(s: State, wd: map<int, int>, visits: seq<Visit>, w: int)
    requires Base(s) && Walks(s) && w >= 0
    requires WalkOf(s.tree, wd, WalkPath(s), visits) && Extended(s, wd, Found(s.tree, WalkPath(s)))
    ensures WellFormed(Walk(s.m.slots, visits))
    ensures SameAt(Contents(Walk(s.m.slots, visits)), Contents(s.m.slots) + Added(s, wd), w)
  {
    hide Walks, WalkPath, WellFormed, Contents, Sound, PathOf, Proper, IsWatch, Found, FirstVisit, Walk, WalkOf,
         Added, OneWatchEach;
    AddedIsNew(s, wd);
    WalkFinds(s.m.slots, visits, w);
    if w !in Contents(s.m.slots) {
      VisitedAdded(s, wd, visits, w);
    }
  }

  ghost predicate SameAt(g: map<int, string>, h: map<int, string>, w: int) {
    (w in g <==> w in h) && (w in g ==> g[w] == h[w])
  }

  lemma SameMap(g: map<int, string>, h: map<int, string>)
    requires (forall w :: w in g ==> w >= 0) && (forall w :: w in h ==> w >= 0)
    requires forall w :: w >= 0 ==> SameAt(g, h, w)
    ensures g == h
  {
    forall w | w in g ensures w in h && g[w] == h[w] {
      assert SameAt(g, h, w);
    }
    forall w | w in h ensures w in g {
      assert SameAt(g, h, w);
    }
  }

  /** A walk adds to the cache the directories found that had no watch, each under its pathname. */
  lemma WalkAdds(s: State, wd: map<int, int>, visits: seq<Visit>)
    requires Base(s) && Walks(s)
    requires WalkOf(s.tree, wd, WalkPath(s), visits) && Extended(s, wd, Found(s.tree, WalkPath(s)))
    ensures WellFormed(Walk(s.m.slots, visits))
    ensures Contents(Walk(s.m.slots, visits)) == Contents(s.m.slots) + Added(s, wd)
  {
    hide *;
    SoundBase(s);
    WalkAddsAt(s, wd, visits, 0);
    AddedNatural(s, wd);
    var g, h := Contents(Walk(s.m.slots, visits)), Contents(s.m.slots) + Added(s, wd);
    CachedNatural(Walk(s.m.slots, visits));
    forall w: int | w >= 0
      ensures SameAt(g, h, w)
    {
      WalkAddsAt(s, wd, visits, w);
    }
    SameMap(g, h);
  }

  lemma SoundBase(s: State)
    requires Base(s)
    ensures Sound(s.tree) && WellFormed(s.m.slots) && OneWatchEach(s.wd)
  {
  }

  lemma AddedNatural(s: State, wd: map<int, int>)
    requires Base(s) && Walks(s) && Extended(s, wd, Found(s.tree, WalkPath(s)))
    ensures OneWatchEach(wd) && forall w :: w in Contents(s.m.slots) + Added(s, wd) ==> w >= 0
  {
    AddedIsNew(s, wd);
    CachedNatural(s.m.slots);
    hide Walks, WalkPath, WellFormed, Contents, Sound, PathOf, Proper, IsWatch, Found, Added, Unnamed;
  }

  lemma CachedNatural(s: seq<Slot>)
    requires WellFormed(s)
    ensures forall w :: w in Contents(s) ==> w >= 0
  {
  }

  // ---------------------------------------------------------------- a rebuild

  /** A rebuild caches exactly the directories watched by the new instance, each under its pathname. */
  lemma RebuildMirrors(s: State, ans: Answers, wd: map<int, int>)
    requires Sound(s.tree) && Rewatched(s, ans, wd)
    ensures WellFormed(WalkRoots(s.m.roots, ans))
    ensures Mirrors(Contents(WalkRoots(s.m.roots, ans)), s.tree, wd)
    ensures forall d :: d in wd ==> wd[d] in Contents(WalkRoots(s.m.roots, ans))
  {
    hide WellFormed, Contents, Sound, PathOf, Found, FirstVisit, FoundByWalk, WalkedPath, WalkRoots, FoundByRoots;
    var slots := WalkRoots(s.m.roots, ans);
    RebuildFinds(s.m.roots, ans, 0);
    CachedNatural(slots);
    forall w | w in Contents(slots)
      ensures exists d :: d in wd && wd[d] == w && d in s.tree.place && Contents(slots)[w] == PathOf(s.tree, d)
    {
      RebuildFinds(s.m.roots, ans, w);
      RebuiltFrom(s, ans, wd, w);
    }
    forall d | d in wd
      ensures wd[d] in Contents(slots)
    {
      RebuildFinds(s.m.roots, ans, wd[d]);
      RebuiltAll(s, ans, wd, d);
    }
  }

  lemma RebuiltFrom(s: State, ans: Answers, wd: map<int, int>, w: int)
    requires Sound(s.tree) && Rewatched(s, ans, wd) && FoundByWalk(s.m.roots, ans, w)
    ensures exists d :: d in wd && wd[d] == w && d in s.tree.place && WalkedPath(s.m.roots, ans, w) == PathOf(s.tree, d)
  {
    hide Sound, PathOf, Found, FirstVisit, FoundByRoots, OneWatchEach;
    var i := FirstRoot(s.m.roots, ans, w);
    var path := s.m.roots[i].value;
    var visits := ans.walk(path);
    var k := FirstVisit(visits, w);
    assert WalkOf(s.tree, wd, path, visits);
    var x :| x in Found(s.tree, path) && VisitOf(s.tree, wd, visits[k], x);
  }

  lemma RebuiltAll(s: State, ans: Answers, wd: map<int, int>, d: int)
    requires Sound(s.tree) && Rewatched(s, ans, wd) && d in wd
    ensures FoundByWalk(s.m.roots, ans, wd[d])
  {
    assert d in FoundByRoots(s.tree, s.m.roots);
    var i :| 0 <= i < |s.m.roots| && s.m.roots[i].Some? && d in Found(s.tree, s.m.roots[i].value);
    hide Sound, PathOf, Found, FirstVisit, FirstRoot, OneWatchEach;
    var visits := ans.walk(s.m.roots[i].value);
    assert WalkOf(s.tree, wd, s.m.roots[i].value, visits);
    var k :| 0 <= k < |visits| && VisitOf(s.tree, wd, visits[k], d);
    assert FirstVisit(visits, wd[d]) <= k;
    assert FoundFrom(s.m.roots[i], ans, wd[d]);
  }

  // ---------------------------------------------------------------- one notice taken

  /** What the program makes of a notice whose watches it knows. */
  lemma KnownMeans(s: State, ans: Answers)
    requires WellFormed(s.m.slots) && |s.queue| > 0 && Proper(s.queue[0])
    requires !Defeats(Contents(s.m.slots), s.queue[0])
    ensures var r := TakeOne(s, ans);
      if Walks(s) then r.stop == Drained && r.m == s.m.(slots := Walk(s.m.slots, ans.walk(WalkPath(s))))
      else
        || r.stop == AtExit
        || RebuiltBy(s, ans, r)
        || (r.stop == Drained && WellFormed(r.m.slots)
            && Contents(r.m.slots) == Effect(Contents(s.m.slots), s.queue[0]))
  {
    var n := s.queue[0];
    assert !n.Overflow?;
    hide WellFormed, Contents, TakeOne, Effect, PathCached, WalkRoots, Walk, WalkPath, Defeats;
    match n
    case NewDir(_, _, _, _, _) =>
      NewDirMeans(s, ans);
      NoEffect(Contents(s.m.slots), n);
    case Moved(_, _, _, _, _) => MoveMeans(s, ans);
    case MovedOut(_, _, _) => MoveOutMeans(s, ans);
    case Gone(_) => GoneMeans(s, ans);
    case File(_, _, _, _) =>
      QuietMeans(s, ans);
      NoEffect(Contents(s.m.slots), n);
    case Ignored(_) =>
      QuietMeans(s, ans);
      NoEffect(Contents(s.m.slots), n);
    case Overflow =>
  }

  lemma TakesParts(s: State, ans: Answers, ignored: seq<Notice>, s': State)
    requires Base(s) && Takes(s, ans, ignored, s')
    ensures Sound(s.tree) && WellFormed(s.m.slots) && |s.queue| > 0 && Proper(s.queue[0])
    ensures TakeOne(s, ans).stop != AtExit && s'.m == TakeOne(s, ans).m && s'.tree == s.tree
    ensures TakeOne(s, ans).stop == AfterRebuild ==> s'.queue == [] && Rewatched(s, ans, s'.wd)
    ensures TakeOne(s, ans).stop != AfterRebuild ==>
      && s'.queue == s.queue[1..] + ignored && (forall i :: 0 <= i < |ignored| ==> ignored[i].Ignored?)
      && Watching(s, ans, s'.wd) && OneWatchEach(s'.wd)
  {
    assert Proper(s.queue[0]);
    hide WellFormed, Contents, Sound, TakeOne, IsWatch, OneWatchEach, Watching, Rewatched;
    if TakeOne(s, ans).stop != AfterRebuild {
      WatchesStayOne(s, ans, s'.wd);
    }
  }

  lemma TakeWithoutRebuild(s: State, ans: Answers, ignored: seq<Notice>, s': State)
    requires Base(s) && Takes(s, ans, ignored, s') && TakeOne(s, ans).stop != AfterRebuild
    ensures |s.queue| > 0 && !Defeats(Contents(s.m.slots), s.queue[0])
    ensures WellFormed(s'.m.slots) && OneWatchEach(s'.wd)
    ensures Contents(s'.m.slots) == Effect(Contents(s.m.slots), s.queue[0]) + Added(s, s'.wd)
  {
    TakesParts(s, ans, ignored, s');
    hide WellFormed, Contents, Sound, TakeOne, Effect, Walks, WalkRoots, Walk, OneWatchEach, WalkPath, Base, Defeats,
         Takes, Proper, Added, Watching, Rewatched;
    if Defeats(Contents(s.m.slots), s.queue[0]) {
      DefeatRebuilds(s, ans);
    } else {
      KnownMeans(s, ans);
      if Walks(s) {
        WalkTaken(s, ans, s');
      } else {
        NothingAdded(s, s'.wd, Effect(Contents(s.m.slots), s.queue[0]));
      }
    }
  }

  lemma NothingAdded(s: State, wd: map<int, int>, c: map<int, string>)
    requires Sound(s.tree) && WellFormed(s.m.slots) && OneWatchEach(wd) && !Walks(s)
    ensures c + Added(s, wd) == c
  {
    hide WellFormed, Walks, Sound;
  }

  lemma WalkTaken(s: State, ans: Answers, s': State)
    requires Base(s) && Walks(s) && Watching(s, ans, s'.wd) && OneWatchEach(s'.wd)
    requires s'.m == s.m.(slots := Walk(s.m.slots, ans.walk(WalkPath(s))))
    ensures !Defeats(Contents(s.m.slots), s.queue[0]) && WellFormed(s'.m.slots)
    ensures Contents(s'.m.slots) == Effect(Contents(s.m.slots), s.queue[0]) + Added(s, s'.wd)
  {
    hide WellFormed, Contents, Sound, Found, Effect, Walk, OneWatchEach, WalkOf, Extended, WalkPath, Defeats, Proper,
         Added, IsWatch, PathCached;
    WalkEffect(s);
    WalkAdds(s, s'.wd, ans.walk(WalkPath(s)));
  }

  lemma WalkEffect(s: State)
    requires WellFormed(s.m.slots) && Walks(s)
    ensures !Defeats(Contents(s.m.slots), s.queue[0])
    ensures Effect(Contents(s.m.slots), s.queue[0]) == Contents(s.m.slots)
  {
    hide WellFormed, Contents, PathCached, Effect;
    NoEffect(Contents(s.m.slots), s.queue[0]);
  }

  lemma WatchesStayOne(s: State, ans: Answers, wd: map<int, int>)
    requires Base(s) && |s.queue| > 0 && Watching(s, ans, wd)
    ensures OneWatchEach(wd)
  {
    hide WellFormed, Contents, Sound, Found, PathCached, WalkPath, From, WalkOf, IsWatch, AtOrBelow, Walks, Proper;
  }

  lemma TakeWithRebuild(s: State, ans: Answers, ignored: seq<Notice>, s': State)
    requires Base(s) && Takes(s, ans, ignored, s') && TakeOne(s, ans).stop == AfterRebuild
    ensures s'.queue == [] && Rewatched(s, ans, s'.wd) && s'.m == s.m.(slots := WalkRoots(s.m.roots, ans))
  {
    TakesParts(s, ans, ignored, s');
    hide WellFormed, Contents, Sound, TakeOne, Effect, Walks, WalkRoots, Walk, WalkPath, Rewatched, Base, Defeats,
         Takes;
    if Defeats(Contents(s.m.slots), s.queue[0]) {
      DefeatRebuilds(s, ans);
    } else {
      KnownMeans(s, ans);
    }
  }

  /** After a rebuild the cache is right, whatever it was before. */
  lemma RebuildRight(s: State, ans: Answers, ignored: seq<Notice>, s': State)
    requires Base(s) && Takes(s, ans, ignored, s') && TakeOne(s, ans).stop == AfterRebuild
    ensures Inv(s') && s'.queue == []
  {
    TakeWithRebuild(s, ans, ignored, s');
    assert s'.wd.Keys <= s'.tree.place.Keys;
    hide WellFormed, Contents, Sound, Found, TakeOne, WalkRoots, Mirrors;
    RebuildMirrors(s, ans, s'.wd);
  }

  /** The kernel's watches after the notice are cached. */
  lemma WatchesCached(s: State, ans: Answers, wd: map<int, int>, d: int)
    requires Base(s) && |s.queue| > 0 && !Defeats(Contents(s.m.slots), s.queue[0])
    requires Watching(s, ans, wd) && OneWatchEach(wd) && d in wd
    ensures d in s.tree.place
    ensures wd[d] in Effect(Contents(s.m.slots), s.queue[0]) + Added(s, wd)
  {
    var n, c := s.queue[0], Contents(s.m.slots);
    hide WellFormed, Contents, Sound, PathOf, PathCached, WalkPath, WalkOf, From, To, AtOrBelow, Below, Proper, Rebase;
    if d in s.wd {
      assert wd[d] == s.wd[d] && s.wd[d] in c;
      assert n.Gone? ==> n.w != s.wd[d];
      assert Sent(c, n, c[wd[d]]).Some?;
    } else {
      assert Walks(s) && d in Found(s.tree, WalkPath(s));
    }
  }

  lemma StillGone(s: State, ans: Answers, wd: map<int, int>, i: nat)
    requires Base(s) && i < |s.queue| && s.queue[i].Gone? && Watching(s, ans, wd)
    ensures !IsWatch(wd, s.queue[i].w)
  {
    var w := s.queue[i].w;
    assert w in Looked(s.queue[i]);
    hide WellFormed, Contents, Sound, PathOf, PathCached, WalkPath, WalkOf, From, To, AtOrBelow, Found, Looked, Walks;
    forall d | d in wd
      ensures wd[d] != w
    {
      assert d in s.wd && wd[d] == s.wd[d] ==> IsWatch(s.wd, wd[d]);
    }
  }

  lemma TakeKeepsBase(s: State, ans: Answers, ignored: seq<Notice>, s': State)
    requires Base(s) && Takes(s, ans, ignored, s')
    ensures Base(s')
  {
    if TakeOne(s, ans).stop == AfterRebuild {
      hide *;
      RebuildRight(s, ans, ignored, s');
      InvParts(s');
    } else {
      TakesParts(s, ans, ignored, s');
      TakeWithoutRebuild(s, ans, ignored, s');
      hide WellFormed, Contents, Sound, TakeOne, Effect, Defeats, Takes, Added, Watching, Proper, IsWatch, OneWatchEach;
      forall d | d in s'.wd
        ensures d in s'.tree.place && s'.wd[d] in Contents(s'.m.slots)
      {
        WatchesCached(s, ans, s'.wd, d);
      }
      QueueTaken(s, ans, ignored, s');
    }
  }

  lemma InvParts(s: State)
    requires Inv(s)
    ensures Base(s) && Right(s)
  {
  }

  lemma QueueTaken(s: State, ans: Answers, ignored: seq<Notice>, s': State)
    requires Base(s) && |s.queue| > 0 && Watching(s, ans, s'.wd) && s'.queue == s.queue[1..] + ignored
    requires forall i :: 0 <= i < |ignored| ==> ignored[i].Ignored?
    ensures forall i :: 0 <= i < |s'.queue| ==> Proper(s'.queue[i])
    ensures forall i :: 0 <= i < |s'.queue| && s'.queue[i].Gone? ==> !IsWatch(s'.wd, s'.queue[i].w)
  {
    forall i | 0 <= i < |s'.queue|
      ensures Proper(s'.queue[i]) && (s'.queue[i].Gone? ==> !IsWatch(s'.wd, s'.queue[i].w))
    {
      if i + 1 < |s.queue| {
        assert s'.queue[i] == s.queue[i + 1];
        if s.queue[i + 1].Gone? {
          StillGone(s, ans, s'.wd, i + 1);
        }
      }
    }
  }

  // ---------------------------------------------------------------- right after the notice

  lemma {:induction false} IgnoredAhead(c: map<int, string>, q: seq<Notice>, ignored: seq<Notice>)
    requires forall i :: 0 <= i < |ignored| ==> ignored[i].Ignored?
    ensures Ahead(c, q + ignored) == Ahead(c, q)
    decreases |ignored|
  {
    AheadConcat(c, q, ignored);
    var f := Ahead(c, q);
    if f.Some? && |ignored| > 0 {
      NoEffect(f.value, ignored[0]);
      IgnoredAhead(f.value, [], ignored[1..]);
      assert [] + ignored[1..] == ignored[1..];
    }
  }

  lemma AheadTaken(s: State, ans: Answers, ignored: seq<Notice>, s': State)
    requires Base(s) && Takes(s, ans, ignored, s') && TakeOne(s, ans).stop != AfterRebuild
    ensures |s.queue| > 0 && !Defeats(Contents(s.m.slots), s.queue[0]) && OneWatchEach(s'.wd) && WellFormed(s'.m.slots)
    ensures var c, e := Effect(Contents(s.m.slots), s.queue[0]), Added(s, s'.wd);
      && Unnamed(e, c, s.queue[1..])
      && Ahead(Contents(s.m.slots), s.queue) == Ahead(c, s.queue[1..])
      && Ahead(Contents(s'.m.slots), s'.queue) == Ahead(c + e, s.queue[1..])
  {
    TakesParts(s, ans, ignored, s');
    TakeWithoutRebuild(s, ans, ignored, s');
    hide WellFormed, Contents, Sound, TakeOne, Effect, Defeats, Takes, Added, Proper, OneWatchEach, Base, Watching;
    var c, e := Effect(Contents(s.m.slots), s.queue[0]), Added(s, s'.wd);
    IgnoredAhead(c + e, s.queue[1..], ignored);
    NewUnnamed(s, ans, s'.wd);
  }

  lemma NewUnnamed(s: State, ans: Answers, wd: map<int, int>)
    requires Base(s) && |s.queue| > 0 && Watching(s, ans, wd) && OneWatchEach(wd)
    requires !Defeats(Contents(s.m.slots), s.queue[0])
    ensures Unnamed(Added(s, wd), Effect(Contents(s.m.slots), s.queue[0]), s.queue[1..])
  {
    hide WellFormed, Contents, Sound, Effect, OneWatchEach, WalkOf, WalkPath, Looked, PathCached, Found, Extended;
    if Walks(s) {
      AddedIsNew(s, wd);
      WalkEffect(s);
      var e := Added(s, wd);
      hide Added;
      assert forall i :: 0 <= i < |s.queue[1..]| ==> s.queue[1..][i] == s.queue[i + 1];
    }
  }

  /** A watch whose entry survives the notice is still a watch. */
  lemma WatchSurvives(s: State, ans: Answers, wd: map<int, int>, d: int)
    requires Base(s) && |s.queue| > 0 && !Defeats(Contents(s.m.slots), s.queue[0]) && Watching(s, ans, wd)
    requires d in s.wd && s.wd[d] in Effect(Contents(s.m.slots), s.queue[0])
    ensures d in wd && wd[d] == s.wd[d]
  {
    hide WellFormed, Contents, Sound, PathOf, PathCached, WalkPath, WalkOf, From, To, AtOrBelow, Proper, Rebase, Found,
         Walks, IsWatch;
  }

  ghost predicate RightEntry(f: map<int, string>, t: Tree, wd: map<int, int>, w: int)
    requires Sound(t) && w in f
  {
    exists d :: d in wd && wd[d] == w && d in t.place && f[w] == PathOf(t, d)
  }

  lemma FoundExists(t: Tree, path: string, x: int)
    requires Sound(t) && x in Found(t, path)
    ensures x in t.place
  {
  }

  lemma AddedEntry(s: State, wd: map<int, int>, x: int)
    requires Sound(s.tree) && WellFormed(s.m.slots) && OneWatchEach(wd) && Walks(s)
    requires x in Found(s.tree, WalkPath(s)) && x !in s.wd && x in wd
    ensures wd[x] in Added(s, wd) && x in s.tree.place && Added(s, wd)[wd[x]] == PathOf(s.tree, x)
  {
    FoundExists(s.tree, WalkPath(s), x);
    hide Sound, WellFormed, PathOf, Walks, WalkPath, Found;
  }

  lemma AddedFrom(s: State, wd: map<int, int>, w: int) returns (x: int)
    requires Sound(s.tree) && WellFormed(s.m.slots) && OneWatchEach(wd) && w in Added(s, wd)
    ensures Walks(s) && x in Found(s.tree, WalkPath(s)) && x !in s.wd && x in wd && wd[x] == w
  {
    hide Sound, WellFormed, PathOf, PathCached, WalkPath, Found;
    x :| x in Found(s.tree, WalkPath(s)) && x !in s.wd && x in wd && wd[x] == w;
  }

  /** A new entry is right ahead of the queue if and only if the queue does not carry it elsewhere. */
  lemma NewEntryRightIff(t: Tree, wd: map<int, int>, x: int, c: map<int, string>, q: seq<Notice>, g: map<int, string>)
    requires Sound(t) && OneWatchEach(wd) && x in wd && x in t.place && Ahead(c, q).Some?
    requires wd[x] in g <==> Carried(c, q, PathOf(t, x)).Some?
    requires wd[x] in g ==> g[wd[x]] == Carried(c, q, PathOf(t, x)).value
    ensures Strays(c, q, PathOf(t, x)) <==> wd[x] in g && !RightEntry(g, t, wd, wd[x])
  {
    hide Sound, PathOf, Ahead, Carried;
  }

  ghost predicate TakenAhead(s: State, wd: map<int, int>, g: map<int, string>)
    requires Sound(s.tree) && WellFormed(s.m.slots) && OneWatchEach(wd)
  {
    && |s.queue| > 0 && !Defeats(Contents(s.m.slots), s.queue[0])
    && var c, e, q := Effect(Contents(s.m.slots), s.queue[0]), Added(s, wd), s.queue[1..];
       && Unnamed(e, c, q) && Ahead(Contents(s.m.slots), s.queue).Some?
       && Ahead(Contents(s.m.slots), s.queue) == Ahead(c, q) && Ahead(c + e, q) == Some(g)
  }

  /** An entry that was there before is right ahead of the queue as before. */
  lemma OldEntryRight(s: State, ans: Answers, wd: map<int, int>, g: map<int, string>, w: int)
    requires Inv(s) && OneWatchEach(wd) && TakenAhead(s, wd, g) && Watching(s, ans, wd)
    requires w in g && w !in Added(s, wd)
    ensures RightEntry(g, s.tree, wd, w)
  {
    var c, e, q := Effect(Contents(s.m.slots), s.queue[0]), Added(s, wd), s.queue[1..];
    hide WellFormed, Contents, Sound, PathOf, Ahead, Effect, Defeats, Added, Watching, Unnamed, IsWatch, Proper,
         OneWatchEach;
    AheadWith(c, e, q);
    AheadKeys(c, q);
    var f := Ahead(c, q).value;
    var d :| d in s.wd && s.wd[d] == w && d in s.tree.place && f[w] == PathOf(s.tree, d);
    WatchSurvives(s, ans, wd, d);
  }

  lemma NewEntryStrays(s: State, wd: map<int, int>, g: map<int, string>, x: int)
    requires Base(s) && OneWatchEach(wd) && TakenAhead(s, wd, g) && Walks(s)
    requires x in Found(s.tree, WalkPath(s)) && x !in s.wd && x in wd
    ensures x in s.tree.place && Ahead(Contents(s.m.slots), s.queue[1..]).Some?
    ensures Strays(Contents(s.m.slots), s.queue[1..], PathOf(s.tree, x)) <==>
      wd[x] in g && !RightEntry(g, s.tree, wd, wd[x])
  {
    WalkEffect(s);
    AddedEntry(s, wd, x);
    hide WellFormed, Contents, Sound, PathOf, Ahead, Effect, Defeats, Added, Unnamed, IsWatch, Proper, Walks, WalkPath,
         Found, OneWatchEach, Strays, Carried, RightEntry;
    var c, e, q := Contents(s.m.slots), Added(s, wd), s.queue[1..];
    AheadWith(c, e, q);
    NewEntryRightIff(s.tree, wd, x, c, q, g);
  }

  lemma StaleAt(s: State) returns (x: int)
    requires Sound(s.tree) && WellFormed(s.m.slots) && StaleWalk(s)
    ensures Walks(s) && x in Found(s.tree, WalkPath(s)) && x !in s.wd && x in s.tree.place
    ensures Ahead(Contents(s.m.slots), s.queue[1..]).Some?
    ensures Strays(Contents(s.m.slots), s.queue[1..], PathOf(s.tree, x))
  {
    hide Sound, WellFormed, Contents, PathOf, Below, PathCached, WalkPath, Ahead, Strays;
    x :| x in Found(s.tree, WalkPath(s)) && x !in s.wd
      && Strays(Contents(s.m.slots), s.queue[1..], PathOf(s.tree, x));
  }

  lemma TakeMirrors(s: State, ans: Answers, wd: map<int, int>, g: map<int, string>)
    requires Inv(s) && OneWatchEach(wd) && TakenAhead(s, wd, g) && Watching(s, ans, wd)
    ensures Mirrors(g, s.tree, wd) <==> !StaleWalk(s)
  {
    hide WellFormed, Contents, Sound, PathOf, Ahead, Effect, Defeats, Added, IsWatch, Proper, PathCached, WalkPath,
         Found, OneWatchEach, Strays, Carried, TakenAhead, Extended, WalkOf, Unwatched;
    if StaleWalk(s) {
      var x := StaleAt(s);
      FoundWatched(s, ans, wd, x);
      NewEntryStrays(s, wd, g, x);
      assert !RightEntry(g, s.tree, wd, wd[x]);
    } else {
      forall w | w in g
        ensures RightEntry(g, s.tree, wd, w)
      {
        if w in Added(s, wd) {
          var x := AddedFrom(s, wd, w);
          NewEntryStrays(s, wd, g, x);
        } else {
          OldEntryRight(s, ans, wd, g, w);
        }
      }
    }
  }

  lemma FoundWatched(s: State, ans: Answers, wd: map<int, int>, x: int)
    requires Base(s) && Walks(s) && Watching(s, ans, wd) && x in Found(s.tree, WalkPath(s))
    ensures x in wd
  {
    hide WellFormed, Contents, Sound, Walks, WalkPath, Found, WalkOf, IsWatch, Proper, OneWatchEach;
    assert x in wd.Keys;
  }

  /** The next notice keeps the cache right, ahead of the queue, if and only if it starts no stale walk. */
  lemma TakeRightIff(s: State, ans: Answers, ignored: seq<Notice>, s': State)
    requires Inv(s) && Takes(s, ans, ignored, s')
    ensures Right(s') <==> !StaleWalk(s)
  {
    TakesParts(s, ans, ignored, s');
    InvParts(s);
    hide WellFormed, Contents, Sound, TakeOne, Effect, Defeats, Takes, Added, Watching, Proper, OneWatchEach, Base,
         Mirrors, StaleWalk, Walks, Unnamed, Ahead, Rewatched, Inv;
    if TakeOne(s, ans).stop == AfterRebuild {
      NoRebuildFromWalk(s, ans);
      RebuildRight(s, ans, ignored, s');
      InvParts(s');
    } else {
      AheadTaken(s, ans, ignored, s');
      var c, e, q := Effect(Contents(s.m.slots), s.queue[0]), Added(s, s'.wd), s.queue[1..];
      var f := Ahead(c, q);
      AheadWith(c, e, q);
      if f.Some? {
        var g := Ahead(c + e, q).value;
        assert TakenAhead(s, s'.wd, g);
        TakeMirrors(s, ans, s'.wd, g);
      } else {
        DoomedNotStale(s);
      }
    }
  }

  lemma NoRebuildFromWalk(s: State, ans: Answers)
    requires Base(s) && |s.queue| > 0 && TakeOne(s, ans).stop == AfterRebuild
    ensures !StaleWalk(s)
  {
    hide WellFormed, Contents, Sound, TakeOne, PathCached, WalkPath;
    if Walks(s) {
      assert Proper(s.queue[0]);
      NewDirMeans(s, ans);
    }
  }

  lemma DoomedNotStale(s: State)
    requires Base(s) && |s.queue| > 0 && !Defeats(Contents(s.m.slots), s.queue[0])
    requires Ahead(Effect(Contents(s.m.slots), s.queue[0]), s.queue[1..]) == None
    ensures !StaleWalk(s)
  {
    hide WellFormed, Contents, Sound, PathCached, WalkPath, Effect, Defeats, Ahead;
    if Walks(s) {
      WalkEffect(s);
    }
  }
}
