/** What the cache holds after the events that inotify_dtree.c answers by forgetting directories or by walking: as
    sets of watch descriptors and pathnames, whatever slots they are in. */
module InotifyEffects {
  import opened Basics
  import opened Paths
  import opened WatchCache
  import opened InotifyEvents

  /** The position of the first visit of a directory that got this descriptor, or the number of visits. */
  function FirstVisit(visits: seq<Visit>, wd: int): (k: nat)
    ensures k <= |visits|
    ensures k < |visits| ==> visits[k].isDir && visits[k].wd == wd
    ensures forall i :: 0 <= i < k ==> !(visits[i].isDir && visits[i].wd == wd)
  {
    if visits == [] then 0
    else
      var k := FirstVisit(visits[..|visits| - 1], wd);
      var v := visits[|visits| - 1];
      if k < |visits| - 1 || (v.isDir && v.wd == wd) then k else |visits|
  }

  lemma TraverseFinds(s: seq<Slot>, v: Visit)
    requires WellFormed(s)
    ensures WellFormed(Traverse(s, v))
    ensures Contents(Traverse(s, v))
         == if v.isDir && v.wd >= 0 && v.wd !in Contents(s) then Contents(s)[v.wd := v.path] else Contents(s)
  {
    hide WellFormed, Contents, IndexFrom, AddSlot;
    if v.isDir && v.wd >= 0 {
      LookupRefines(s, v.wd);
      if v.wd !in Contents(s) {
        AddRefines(s, v.wd, v.path);
      }
    }
  }

  lemma LastVisit(s: seq<Slot>, visits: seq<Visit>, wd: int)
    requires visits != []
    ensures var init, v := visits[..|visits| - 1], visits[|visits| - 1];
      && Walk(s, visits) == Traverse(Walk(s, init), v)
      && FirstVisit(visits, wd)
         == (if FirstVisit(init, wd) < |init| || (v.isDir && v.wd == wd) then FirstVisit(init, wd) else |visits|)
      && (FirstVisit(init, wd) < |init| ==> init[FirstVisit(init, wd)] == visits[FirstVisit(init, wd)])
  {
    hide Traverse;
  }

  /** A walk caches exactly the directories it could watch, each under the pathname it was first visited by, and changes
      no entry that was there. */
  lemma {:induction false} WalkFinds(s: seq<Slot>, visits: seq<Visit>, wd: int)
    requires WellFormed(s) && wd >= 0
    ensures WellFormed(Walk(s, visits))
    ensures wd in Contents(s) ==> wd in Contents(Walk(s, visits)) && Contents(Walk(s, visits))[wd] == Contents(s)[wd]
    ensures wd !in Contents(s) ==>
      var k := FirstVisit(visits, wd);
      && k <= |visits|
      && (wd in Contents(Walk(s, visits)) <==> k < |visits|)
      && (k < |visits| ==> Contents(Walk(s, visits))[wd] == visits[k].path)
    decreases |visits|
  {
    if visits != [] {
      hide WellFormed, Contents, Traverse, FirstVisit, Walk;
      var init := visits[..|visits| - 1];
      WalkFinds(s, init, wd);
      LastVisit(s, visits, wd);
      TraverseFinds(Walk(s, init), visits[|visits| - 1]);
    }
  }

  predicate FoundFrom(root: Option<string>, ans: Answers, wd: int) {
    root.Some? && FirstVisit(ans.walk(root.value), wd) < |ans.walk(root.value)|
  }

  /** The first remaining root whose walk finds the directory, or the number of roots. */
  function FirstRoot(roots: seq<Option<string>>, ans: Answers, wd: int): (i: nat)
    ensures i <= |roots|
    ensures i < |roots| ==> FoundFrom(roots[i], ans, wd)
    ensures forall k :: 0 <= k < i ==> !FoundFrom(roots[k], ans, wd)
  {
    if roots == [] then 0
    else
      var i := FirstRoot(roots[..|roots| - 1], ans, wd);
      if i < |roots| - 1 || FoundFrom(roots[|roots| - 1], ans, wd) then i else |roots|
  }

  predicate FoundByWalk(roots: seq<Option<string>>, ans: Answers, wd: int) {
    FirstRoot(roots, ans, wd) < |roots|
  }

  /** The pathname by which that walk first comes to the directory. */
  function WalkedPath(roots: seq<Option<string>>, ans: Answers, wd: int): string
    requires FoundByWalk(roots, ans, wd)
  {
    var visits := ans.walk(roots[FirstRoot(roots, ans, wd)].value);
    visits[FirstVisit(visits, wd)].path
  }

  lemma FoundLast(roots: seq<Option<string>>, ans: Answers, wd: int)
    requires roots != []
    ensures var init, r := roots[..|roots| - 1], roots[|roots| - 1];
      && (FoundByWalk(roots, ans, wd) <==> FoundByWalk(init, ans, wd) || FoundFrom(r, ans, wd))
      && (FoundByWalk(init, ans, wd) ==> WalkedPath(roots, ans, wd) == WalkedPath(init, ans, wd))
      && (!FoundByWalk(init, ans, wd) && FoundFrom(r, ans, wd) ==>
            WalkedPath(roots, ans, wd) == ans.walk(r.value)[FirstVisit(ans.walk(r.value), wd)].path)
  {
    hide FirstVisit;
  }

  /** After a rebuild nothing is cached but what the walks of the remaining roots found, each directory under the
      pathname by which it was found first, whatever was cached before. */
  lemma {:induction false} RebuildFinds(roots: seq<Option<string>>, ans: Answers, wd: int)
    requires wd >= 0
    ensures WellFormed(WalkRoots(roots, ans))
    ensures wd in Contents(WalkRoots(roots, ans)) <==> FoundByWalk(roots, ans, wd)
    ensures FoundByWalk(roots, ans, wd) ==> Contents(WalkRoots(roots, ans))[wd] == WalkedPath(roots, ans, wd)
    decreases |roots|
  {
    hide WellFormed, Contents, Walk, FoundByWalk, WalkedPath, FirstVisit;
    if roots == [] {
      NoRootsFound(ans, wd);
    } else {
      var init, r := roots[..|roots| - 1], roots[|roots| - 1];
      RebuildFinds(init, ans, wd);
      FoundLast(roots, ans, wd);
      if r.Some? {
        WalkFinds(WalkRoots(init, ans), ans.walk(r.value), wd);
      }
    }
  }

  lemma NoRootsFound(ans: Answers, wd: int)
    ensures WellFormed(WalkRoots([], ans)) && Contents(WalkRoots([], ans)) == map[] && !FoundByWalk([], ans, wd)
  {
    assert WalkRoots([], ans) == [];
    hide WalkRoots, Walk, FirstVisit;
    EmptyMeansNothing();
    hide Contents, WellFormed;
  }

  lemma EmptyMeansNothing()
    ensures WellFormed([]) && Contents([]) == map[]
  {
    ContentsUnique([], map[]);
  }

  /** The kernel removes every watch at or below the path. */
  ghost predicate NoneRefused(s: seq<Slot>, path: string, ans: Answers)
    requires WellFormed(s)
  {
    forall wd :: wd in Contents(s) && AtOrBelow(path, Contents(s)[wd]) ==> wd !in ans.refused
  }

  lemma RefusedIff(s: seq<Slot>, path: string, ans: Answers)
    requires WellFormed(s)
    ensures FirstRefused(s, path, ans.refused) == |s| <==> NoneRefused(s, path, ans)
  {
    var k := FirstRefused(s, path, ans.refused);
    hide FirstRefused;
    if k < |s| {
      assert Holds(s, k, s[k].wd);
    } else {
      forall wd | wd in Contents(s) && AtOrBelow(path, Contents(s)[wd])
        ensures wd !in ans.refused
      {
        var i :| Holds(s, i, wd);
        assert Hit(s[i], path);
      }
    }
  }

  ghost function Outside(m: map<int, string>, path: string): map<int, string> {
    map wd | wd in m && !AtOrBelow(path, m[wd]) :: m[wd]
  }

  /** Zapping a subtree leaves exactly the entries outside it, unless the kernel refuses to remove one of its watches;
      then the cache is rebuilt. */
  lemma ZapForgets(m: Mirror, path: string, ans: Answers)
    requires WellFormed(m.slots)
    ensures var (m', o) := ZapOrRebuild(m, path, ans);
      && m'.roots == m.roots && WellFormed(m'.slots)
      && (o == Took(1) <==> NoneRefused(m.slots, path, ans)) && (o == Rebuilt <==> !NoneRefused(m.slots, path, ans))
      && (o == Took(1) ==> Contents(m'.slots) == Outside(Contents(m.slots), path))
      && (o == Rebuilt ==> forall wd :: wd >= 0 ==> (wd in Contents(m'.slots) <==> FoundByWalk(m.roots, ans, wd)))
  {
    hide WellFormed, Contents, FirstRefused, FoundByWalk, NoneRefused, HitWatches, WalkRoots;
    RefusedIff(m.slots, path, ans);
    ZapRefines(m.slots, path, |m.slots|);
    AllHits(m.slots, path);
    forall wd: int | wd >= 0
      ensures WellFormed(WalkRoots(m.roots, ans))
      ensures wd in Contents(WalkRoots(m.roots, ans)) <==> FoundByWalk(m.roots, ans, wd)
    {
      RebuildFinds(m.roots, ans, wd);
    }
    assert 0 >= 0 && WellFormed(WalkRoots(m.roots, ans)) by {
      RebuildFinds(m.roots, ans, 0);
    }
  }

  /** A directory that moves out of the trees is forgotten with everything below it, and nothing else is. */
  lemma MovedOutForgets(m: Mirror, path: string, e: Event, next: Option<Event>, firstTry: bool, ans: Answers)
    requires WellFormed(m.slots) && !Completes(e, next) && (next.Some? || !firstTry) && NoneRefused(m.slots, path, ans)
    ensures var (m', o) := OnMovedFrom(m, path, e, next, firstTry, ans);
      o == Took(1) && m'.roots == m.roots && WellFormed(m'.slots)
          && Contents(m'.slots) == Outside(Contents(m.slots), path)
  {
    hide WellFormed, Contents, ZapOrRebuild, NoneRefused;
    ZapForgets(m, path, ans);
  }

  /** When a root moves away, its path leaves the root list once and its subtree the cache; the program exits if it was
      the last. */
  lemma RootMovedForgets(m: Mirror, path: string, ans: Answers)
    requires WellFormed(m.slots) && IsRoot(m.roots, path)
    ensures var (m', o) := OnRootMoved(m, path, ans);
      && m'.roots == WithoutRoot(m.roots, path) && WellFormed(m'.slots)
      && (o == Exited <==> NoRoots(m'.roots))
      && (o == Took(1) ==> Contents(m'.slots) == Outside(Contents(m.slots), path) && NoneRefused(m.slots, path, ans))
      && (o == Rebuilt ==> forall wd :: wd >= 0 ==> (wd in Contents(m'.slots) <==> FoundByWalk(m'.roots, ans, wd)))
  {
    hide WellFormed, Contents, ZapOrRebuild, NoneRefused, FoundByWalk, NoRoots, RootIndex;
    ZapForgets(m.(roots := WithoutRoot(m.roots, path)), path, ans);
  }

  /** The event is a rename into a directory that is not known, or a move out of the trees of a directory with a watch
      that cannot be removed. dir is the directory that the event comes from. */
  ghost predicate MoveFails(m: Mirror, dir: string, e: Event, next: Option<Event>, firstTry: bool, ans: Answers)
    requires WellFormed(m.slots)
  {
    && IsDirMoveFrom(e)
    && if Completes(e, next) then next.value.wd !in Contents(m.slots)
       else (next.Some? || !firstTry) && !NoneRefused(m.slots, Join(dir, e.name), ans)
  }

  /** A root moved away that was not the last one, and a watch at or below it cannot be removed. */
  ghost predicate RootMoveFails(m: Mirror, dir: string, e: Event, ans: Answers)
    requires WellFormed(m.slots)
  {
    && MOVE_SELF in e.mask && IsRoot(m.roots, dir) && !NoRoots(WithoutRoot(m.roots, dir))
    && !NoneRefused(m.slots, dir, ans)
  }

  /** The program rebuilds for an overflow, for an event that names a watch which is not known, for a move that fails in
      one of these ways, and for nothing else. */
  lemma RebuildCauses(m: Mirror, e: Event, next: Option<Event>, firstTry: bool, ans: Answers)
    requires WellFormed(m.slots) && FromKernel(e) && (next.Some? ==> FromKernel(next.value))
    ensures Process(m, e, next, firstTry, ans).1 == Rebuilt <==>
      || e.mask == {Q_OVERFLOW}
      || (e.wd >= 0 && e.mask != {IGNORED} && e.wd !in Contents(m.slots))
      || (e.wd in Contents(m.slots) &&
            var dir := Contents(m.slots)[e.wd];
            MoveFails(m, dir, e, next, firstTry, ans) || RootMoveFails(m, dir, e, ans))
    ensures e.mask == {Q_OVERFLOW} || (e.wd >= 0 && e.mask != {IGNORED} && e.wd !in Contents(m.slots)) ==>
      Process(m, e, next, firstTry, ans) == Reinitialized(m, ans)
  {
    hide WellFormed, Contents, NoneRefused, RootIndex, WalkRoots, ZapOrRebuild, Walk, PathCached, NoRoots,
         WithoutRoot, IsRoot, IndexFrom, FromKernel, IndexOf;
    KernelFacts(e);
    if next.Some? {
      KernelFacts(next.value);
      if next.value.wd >= 0 {
        LookupRefines(m.slots, next.value.wd);
      }
    }
    if e.wd >= 0 {
      LookupRefines(m.slots, e.wd);
      var k := IndexOf(m.slots, e.wd);
      if k < |m.slots| {
        var dir := m.slots[k].path;
        RebuiltByZap(m, Join(dir, e.name), ans);
        if IsRoot(m.roots, dir) {
          RebuiltByZap(m.(roots := WithoutRoot(m.roots, dir)), dir, ans);
        }
      }
    }
  }

  lemma KernelFacts(e: Event)
    requires FromKernel(e)
    ensures e.wd == -1 <==> e.mask == {Q_OVERFLOW}
    ensures e.wd >= -1 && (IGNORED in e.mask ==> e.mask == {IGNORED})
    ensures Q_OVERFLOW in e.mask ==> e.mask == {Q_OVERFLOW}
    ensures MOVED_FROM in e.mask ==> e.mask <= {MOVED_FROM, ISDIR}
    ensures MOVE_SELF in e.mask ==> e.mask <= {MOVE_SELF, ISDIR}
  {
  }

  lemma RebuiltByZap(m: Mirror, path: string, ans: Answers)
    requires WellFormed(m.slots)
    ensures ZapOrRebuild(m, path, ans).1 == Rebuilt <==> !NoneRefused(m.slots, path, ans)
  {
    hide WellFormed, ZapOrRebuild, NoneRefused;
    ZapForgets(m, path, ans);
  }
}
