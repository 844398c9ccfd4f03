/** How the program reacts to each kind of event about a cached directory: the new map from watches to pathnames, the
    new root list, and whether it goes on, waits, rebuilds or exits. */
module InotifyReactions {
  import opened Basics
  import opened Paths
  import opened WatchCache
  import opened InotifyEvents
  import opened InotifyEffects

  // ---------------------------------------------------------------- the root list

  /** The first element of the root list that names the path. */
  ghost predicate FirstNamed(roots: seq<Option<string>>, path: string, k: nat) {
    k < |roots| && roots[k] == Some(path) && forall j :: 0 <= j < k ==> roots[j] != Some(path)
  }

  /** One root, the first of that name, is struck from the list. */
  ghost predicate Struck(roots: seq<Option<string>>, path: string, after: seq<Option<string>>) {
    && |after| == |roots|
    && exists k: nat :: FirstNamed(roots, path, k) && after[k] == None
                && forall i :: 0 <= i < |roots| && i != k ==> after[i] == roots[i]
  }

  ghost predicate SomeRootLeft(roots: seq<Option<string>>) {
    exists i :: 0 <= i < |roots| && roots[i] != None
  }

  lemma RootsMean(roots: seq<Option<string>>, path: string)
    ensures IsRoot(roots, path) <==> Some(path) in roots
    ensures IsRoot(roots, path) ==> Struck(roots, path, WithoutRoot(roots, path))
    ensures NoRoots(roots) <==> !SomeRootLeft(roots)
  {
    if IsRoot(roots, path) {
      var k := RootIndex(roots, path);
      assert FirstNamed(roots, path, k);
      assert roots[k] in roots;
    }
  }

  // ---------------------------------------------------------------- a cached directory

  /** The program deals with an event about the cached directory dir. */
  ghost predicate About(m: Mirror, e: Event, dir: string)
    requires WellFormed(m.slots)
  {
    e.wd in Contents(m.slots) && Contents(m.slots)[e.wd] == dir && IGNORED !in e.mask
  }

  lemma AboutSlot(m: Mirror, e: Event, dir: string)
    requires WellFormed(m.slots) && About(m, e, dir)
    ensures e.wd >= 0 && IndexOf(m.slots, e.wd) < |m.slots| && m.slots[IndexOf(m.slots, e.wd)].path == dir
    ensures m.slots[IndexOf(m.slots, e.wd)].wd == e.wd
  {
    hide WellFormed, IndexFrom;
    LookupRefines(m.slots, e.wd);
  }

  lemma ProcessAbout(m: Mirror, e: Event, dir: string, next: Option<Event>, firstTry: bool, ans: Answers)
    requires WellFormed(m.slots) && About(m, e, dir)
    ensures IndexOf(m.slots, e.wd) < |m.slots|
    ensures Process(m, e, next, firstTry, ans) == Dispatch(m, e, IndexOf(m.slots, e.wd), next, firstTry, ans)
  {
    AboutSlot(m, e, dir);
    hide WellFormed, Contents, IndexOf, Dispatch;
  }

  /** The cache holds exactly these entries and the root list is this one. */
  ghost predicate Is(m: Mirror, c: map<int, string>, roots: seq<Option<string>>) {
    WellFormed(m.slots) && Contents(m.slots) == c && m.roots == roots
  }

  /** The cache was rebuilt by walking the roots left. */
  ghost predicate IsRebuilt(m: Mirror, roots: seq<Option<string>>, ans: Answers) {
    && WellFormed(m.slots) && m.roots == roots
    && forall w :: w >= 0 ==>
         && (w in Contents(m.slots) <==> FoundByWalk(roots, ans, w))
         && (w in Contents(m.slots) ==> Contents(m.slots)[w] == WalkedPath(roots, ans, w))
  }

  lemma RebuiltMeans(m: Mirror, ans: Answers)
    ensures Reinitialized(m, ans).1 == Rebuilt && IsRebuilt(Reinitialized(m, ans).0, m.roots, ans)
  {
    hide WellFormed, Contents, WalkRoots, FoundByWalk, WalkedPath;
    RebuildFinds(m.roots, ans, 0);
    forall w: int | w >= 0
      ensures w in Contents(WalkRoots(m.roots, ans)) <==> FoundByWalk(m.roots, ans, w)
      ensures w in Contents(WalkRoots(m.roots, ans)) ==>
        Contents(WalkRoots(m.roots, ans))[w] == WalkedPath(m.roots, ans, w)
    {
      RebuildFinds(m.roots, ans, w);
    }
  }

  /** A subtree is zapped, or the cache rebuilt if the kernel refuses to remove one of its watches. */
  ghost predicate Zapped(m: Mirror, path: string, ans: Answers, m': Mirror, o: Outcome)
    requires WellFormed(m.slots)
  {
    var c := Contents(m.slots);
    if forall w :: w in c && AtOrBelow(path, c[w]) ==> w !in ans.refused
    then o == Took(1) && Is(m', map w | w in c && !AtOrBelow(path, c[w]) :: c[w], m.roots)
    else o == Rebuilt && IsRebuilt(m', m.roots, ans)
  }

  lemma ZapMeans(m: Mirror, path: string, ans: Answers)
    requires WellFormed(m.slots)
    ensures var (m', o) := ZapOrRebuild(m, path, ans); Zapped(m, path, ans, m', o)
  {
    ZapForgets(m, path, ans);
    RebuiltMeans(m, ans);
    RefusedIff(m.slots, path, ans);
    hide WellFormed, Contents, FirstRefused, ZapSlots, WalkRoots, FoundByWalk, WalkedPath, IsRebuilt, AtOrBelow;
  }

  // ---------------------------------------------------------------- event by event

  /** The branches that the program takes for each type of event. */
  lemma Branches(m: Mirror, e: Event, k: nat, next: Option<Event>, firstTry: bool, ans: Answers)
    requires k < |m.slots|
    ensures var r, dir := Dispatch(m, e, k, next, firstTry, ans), m.slots[k].path;
      && (e.mask in {{MOVE_SELF}, {MOVE_SELF, ISDIR}} ==>
            r == if IsRoot(m.roots, dir) then OnRootMoved(m, dir, ans) else (m, Took(1)))
      && (e.mask in {{UNMOUNT}, {UNMOUNT, ISDIR}} ==> r == (m.(slots := m.slots[k := EMPTY]), Took(1)))
      && (e.mask in {{DELETE_SELF}, {DELETE_SELF, ISDIR}} ==> r == OnDeleted(m, k))
      && (e.mask in {{CREATE, ISDIR}, {MOVED_TO, ISDIR}} ==> r == OnNewDirectory(m, Join(dir, e.name), ans))
      && (e.mask == {MOVED_FROM, ISDIR} ==> r == OnMovedFrom(m, Join(dir, e.name), e, next, firstTry, ans))
      && (e.mask in {{CREATE}, {MOVED_TO}, {MOVED_FROM}} ==> r == (m, Took(1)))
  {
    hide OnRootMoved, OnDeleted, OnNewDirectory, OnMovedFrom, IsRoot, Reinitialized;
  }

  /** A root that moves away is struck from the root list. If it was the last, the program exits; otherwise its subtree
      is zapped. A directory that is no root has moved with its parent, and nothing is done. */
  lemma RootMoves(m: Mirror, e: Event, dir: string, next: Option<Event>, firstTry: bool, ans: Answers)
    requires WellFormed(m.slots) && About(m, e, dir) && e.mask in {{MOVE_SELF}, {MOVE_SELF, ISDIR}}
    ensures var (m', o) := Process(m, e, next, firstTry, ans);
      if Some(dir) !in m.roots then o == Took(1) && m' == m
      else
        && Struck(m.roots, dir, m'.roots)
        && (o == Exited <==> !SomeRootLeft(m'.roots))
        && (o == Exited ==> m'.slots == m.slots)
        && (o != Exited ==> Zapped(m.(roots := m'.roots), dir, ans, m', o))
  {
    hide *;
    AboutSlot(m, e, dir);
    ProcessAbout(m, e, dir, next, firstTry, ans);
    Branches(m, e, IndexOf(m.slots, e.wd), next, firstTry, ans);
    RootsMean(m.roots, dir);
    if IsRoot(m.roots, dir) {
      RootMovedMeans(m, dir, ans);
    }
  }

  lemma RootMovedMeans(m: Mirror, dir: string, ans: Answers)
    requires WellFormed(m.slots) && IsRoot(m.roots, dir)
    ensures var (m', o) := OnRootMoved(m, dir, ans);
      && Struck(m.roots, dir, m'.roots)
      && (o == Exited <==> !SomeRootLeft(m'.roots))
      && (o == Exited ==> m'.slots == m.slots)
      && (o != Exited ==> Zapped(m.(roots := m'.roots), dir, ans, m', o))
  {
    hide WellFormed, Contents, ZapOrRebuild, Struck, SomeRootLeft, Zapped, NoRoots, WithoutRoot, IsRoot;
    var after := m.(roots := WithoutRoot(m.roots, dir));
    RootsMean(m.roots, dir);
    RootsMean(after.roots, dir);
    ZapMeans(after, dir, ans);
    ZapKeeps(after, dir, ans);
  }

  lemma ZapKeeps(m: Mirror, path: string, ans: Answers)
    ensures ZapOrRebuild(m, path, ans).0.roots == m.roots && ZapOrRebuild(m, path, ans).1 != Exited
  {
    hide FirstRefused, ZapSlots, WalkRoots;
  }

  /** When a file system is unmounted, each watch on it leaves the cache, and nothing else happens. */
  lemma Unmounted(m: Mirror, e: Event, dir: string, next: Option<Event>, firstTry: bool, ans: Answers)
    requires WellFormed(m.slots) && About(m, e, dir) && e.mask in {{UNMOUNT}, {UNMOUNT, ISDIR}}
    ensures var (m', o) := Process(m, e, next, firstTry, ans);
      o == Took(1) && Is(m', Contents(m.slots) - {e.wd}, m.roots)
  {
    AboutSlot(m, e, dir);
    hide WellFormed, Contents, IndexOf, Process;
    ProcessAbout(m, e, dir, next, firstTry, ans);
    Branches(m, e, IndexOf(m.slots, e.wd), next, firstTry, ans);
    hide Dispatch;
    EmptyRefines(m.slots, IndexOf(m.slots, e.wd));
  }

  /** A directory that is removed leaves the cache. If it is a root it is struck from the root list, and the program
      exits if it was the last. */
  lemma DirectoryGone(m: Mirror, e: Event, dir: string, next: Option<Event>, firstTry: bool, ans: Answers)
    requires WellFormed(m.slots) && About(m, e, dir) && e.mask in {{DELETE_SELF}, {DELETE_SELF, ISDIR}}
    ensures var (m', o) := Process(m, e, next, firstTry, ans);
      if Some(dir) !in m.roots then o == Took(1) && Is(m', Contents(m.slots) - {e.wd}, m.roots)
      else
        && Struck(m.roots, dir, m'.roots)
        && (if SomeRootLeft(m'.roots) then o == Took(1) && Is(m', Contents(m.slots) - {e.wd}, m'.roots)
            else o == Exited && m'.slots == m.slots)
  {
    AboutSlot(m, e, dir);
    hide WellFormed, Contents, IndexOf, Process, IsRoot, WithoutRoot, NoRoots, SomeRootLeft, Struck;
    ProcessAbout(m, e, dir, next, firstTry, ans);
    Branches(m, e, IndexOf(m.slots, e.wd), next, firstTry, ans);
    hide Dispatch;
    EmptyRefines(m.slots, IndexOf(m.slots, e.wd));
    RootsMean(m.roots, dir);
    if IsRoot(m.roots, dir) {
      RootsMean(WithoutRoot(m.roots, dir), dir);
    }
  }

  /** After a walk each directory that could be watched is cached, under its old entry or else the pathname it was first
      visited by, and nothing else is. */
  ghost predicate Walked(c: map<int, string>, visits: seq<Visit>, c': map<int, string>) {
    forall w: int :: w >= 0 ==> WalkedTo(c, visits, c', w)
  }

  ghost predicate WalkedTo(c: map<int, string>, visits: seq<Visit>, c': map<int, string>, w: int) {
    && (w in c ==> w in c' && c'[w] == c[w])
    && (w !in c ==>
          && (w in c' <==> exists i :: 0 <= i < |visits| && visits[i].isDir && visits[i].wd == w)
          && (w in c' ==> exists i :: FirstSeen(visits, w, i) && c'[w] == visits[i].path))
  }

  ghost predicate FirstSeen(visits: seq<Visit>, w: int, i: int) {
    && 0 <= i < |visits| && visits[i].isDir && visits[i].wd == w
    && forall j :: 0 <= j < i ==> !(visits[j].isDir && visits[j].wd == w)
  }

  lemma WalkMeans(s: seq<Slot>, visits: seq<Visit>)
    requires WellFormed(s)
    ensures WellFormed(Walk(s, visits)) && Walked(Contents(s), visits, Contents(Walk(s, visits)))
  {
    hide *;
    WalkFinds(s, visits, 0);
    forall w: int | w >= 0 ensures WalkedTo(Contents(s), visits, Contents(Walk(s, visits)), w) {
      WalkMeansAt(s, visits, w);
    }
    WalkedEach(Contents(s), visits, Contents(Walk(s, visits)));
  }

  lemma WalkMeansAt(s: seq<Slot>, visits: seq<Visit>, w: int)
    requires WellFormed(s) && w >= 0
    ensures WellFormed(Walk(s, visits)) && WalkedTo(Contents(s), visits, Contents(Walk(s, visits)), w)
  {
    hide WellFormed, Contents, Walk;
    WalkFinds(s, visits, w);
    var k := FirstVisit(visits, w);
    assert k < |visits| ==> FirstSeen(visits, w, k);
    hide FirstVisit;
  }

  lemma WalkedEach(c: map<int, string>, visits: seq<Visit>, c': map<int, string>)
    requires forall w: int :: w >= 0 ==> WalkedTo(c, visits, c', w)
    ensures Walked(c, visits, c')
  {
    hide WalkedTo;
  }

  /** A directory that appears, made or moved in, has its subtree walked, unless its pathname is cached already. */
  lemma DirectoryAppears(m: Mirror, e: Event, dir: string, next: Option<Event>, firstTry: bool, ans: Answers)
    requires WellFormed(m.slots) && About(m, e, dir) && e.mask in {{CREATE, ISDIR}, {MOVED_TO, ISDIR}}
    ensures var (m', o) := Process(m, e, next, firstTry, ans);
      var path, c := dir + "/" + e.name, Contents(m.slots);
      && o == Took(1) && m'.roots == m.roots && WellFormed(m'.slots)
      && if exists w :: w in c && c[w] == path then m' == m else Walked(c, ans.walk(path), Contents(m'.slots))
  {
    AboutSlot(m, e, dir);
    var path := Join(dir, e.name);
    hide WellFormed, Contents, IndexOf, Process, PathCached, Walk, Walked;
    ProcessAbout(m, e, dir, next, firstTry, ans);
    Branches(m, e, IndexOf(m.slots, e.wd), next, firstTry, ans);
    hide Dispatch;
    PathCachedMeans(m.slots, path);
    WalkMeans(m.slots, ans.walk(path));
  }

  lemma PathCachedMeans(s: seq<Slot>, path: string)
    requires WellFormed(s)
    ensures PathCached(s, path) <==> exists w :: w in Contents(s) && Contents(s)[w] == path
  {
    if PathCached(s, path) {
      var i :| 0 <= i < |s| && s[i].wd >= 0 && s[i].path == path;
      assert Holds(s, i, s[i].wd);
      assert s[i].wd in Contents(s);
    }
    if w :| w in Contents(s) && Contents(s)[w] == path {
      var i :| Holds(s, i, w);
    }
  }

  /** A directory that is renamed away: if the very next event is its arrival, every pathname at or below the old one is
      rewritten, or all is rebuilt if the place of arrival is not known; if another event follows, or none has come in
      time, its subtree is zapped; if none has come yet, the event waits. */
  lemma DirectoryLeaves(m: Mirror, e: Event, dir: string, next: Option<Event>, firstTry: bool, ans: Answers)
    requires WellFormed(m.slots) && About(m, e, dir) && e.mask == {MOVED_FROM, ISDIR}
    requires next.Some? ==> next.value.wd >= 0
    ensures var (m', o) := Process(m, e, next, firstTry, ans);
      var path, c := dir + "/" + e.name, Contents(m.slots);
      if next.Some? && MOVED_TO in next.value.mask && next.value.cookie == e.cookie then
        if next.value.wd !in c then o == Rebuilt && IsRebuilt(m', m.roots, ans)
        else
          var to := c[next.value.wd] + "/" + next.value.name;
          o == Took(2) && Is(m', map w | w in c :: Rebase(path, to, c[w]), m.roots)
      else if next == None && firstTry then o == Hanging && m' == m
      else Zapped(m, path, ans, m', o)
  {
    AboutSlot(m, e, dir);
    hide WellFormed, Contents, IndexOf, Process, ZapOrRebuild, IsRebuilt, Zapped, RewriteSlots, Reinitialized, Rebase;
    ProcessAbout(m, e, dir, next, firstTry, ans);
    Branches(m, e, IndexOf(m.slots, e.wd), next, firstTry, ans);
    hide Dispatch;
    ZapMeans(m, Join(dir, e.name), ans);
    RebuiltMeans(m, ans);
    if next.Some? {
      NextSlot(m, next.value);
      var j := IndexOf(m.slots, next.value.wd);
      if j < |m.slots| {
        RewriteRefines(m.slots, Join(dir, e.name), Join(m.slots[j].path, next.value.name));
      }
    }
  }

  lemma NextSlot(m: Mirror, next: Event)
    requires WellFormed(m.slots) && next.wd >= 0
    ensures next.wd in Contents(m.slots) <==> IndexOf(m.slots, next.wd) < |m.slots|
    ensures next.wd in Contents(m.slots) ==>
      Contents(m.slots)[next.wd] == m.slots[IndexOf(m.slots, next.wd)].path
  {
    LookupRefines(m.slots, next.wd);
  }

  /** Events about plain files, and the note that a watch is gone, change nothing. */
  lemma NothingToDo(m: Mirror, e: Event, next: Option<Event>, firstTry: bool, ans: Answers)
    requires WellFormed(m.slots)
    requires e.mask == {IGNORED} || (e.wd in Contents(m.slots) && e.mask in {{CREATE}, {MOVED_TO}, {MOVED_FROM}})
    ensures Process(m, e, next, firstTry, ans) == (m, Took(1))
  {
    if e.mask != {IGNORED} {
      var dir := Contents(m.slots)[e.wd];
      assert About(m, e, dir);
      AboutSlot(m, e, dir);
      hide WellFormed, Contents, IndexOf, Process;
      ProcessAbout(m, e, dir, next, firstTry, ans);
      Branches(m, e, IndexOf(m.slots, e.wd), next, firstTry, ans);
    } else {
      hide Dispatch, Reinitialized;
    }
  }

  /** A lost event, and an event of a watch that is not cached, make the program rebuild. */
  lemma MustRebuild(m: Mirror, e: Event, next: Option<Event>, firstTry: bool, ans: Answers)
    requires WellFormed(m.slots)
    requires (e.wd == -1 && e.mask == {Q_OVERFLOW}) || (e.wd >= 0 && IGNORED !in e.mask && e.wd !in Contents(m.slots))
    ensures var (m', o) := Process(m, e, next, firstTry, ans); o == Rebuilt && IsRebuilt(m', m.roots, ans)
  {
    RebuiltMeans(m, ans);
    hide WellFormed, Contents, IndexFrom, Dispatch, Reinitialized, IsRebuilt;
    if e.wd >= 0 {
      LookupRefines(m.slots, e.wd);
    }
  }
}
