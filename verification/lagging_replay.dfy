/** A history of renames, removals and file events inside the watched trees, replayed from the event queue long after
    it happened. */
module LaggingReplay {
  import opened Basics
  import opened Paths
  import opened WatchCache
  import opened InotifyEvents
  import opened WatchedTree

  /** What other processes do: rename a directory within the trees, remove one, or do something to a plain file. */
  datatype Change =
    | Rename(dir: int, parent: int, name: string, cookie: nat)
    | Rmdir(dir: int)
    | FileEvent(dir: int, kind: Flag, cookie: nat, name: string)

  /** A directory can be removed when it is empty; the last root may not go, since the program then exits. */
  ghost predicate Allowed(t: Tree, c: Change)
    requires Sound(t)
  {
    match c
    case Rename(d, parent, name, _) => CanRename(t, d, parent, name)
    case Rmdir(d) => CanRemove(t, d) && (t.place[d].Top? ==> exists e, p :: e != d && At(t, e, Top(p)))
    case FileEvent(d, kind, _, _) => d in t.place && kind in {CREATE, MOVED_FROM, MOVED_TO}
  }

  /** The events that the kernel queues for a change. */
  ghost function EventsFor(t: Tree, wd: map<int, int>, c: Change): seq<Event>
    requires Sound(t) && Allowed(t, c) && wd.Keys == t.place.Keys
  {
    match c
    case Rename(d, parent, name, cookie) =>
      [NameEvent(wd[t.place[d].parent], {MOVED_FROM, ISDIR}, cookie, t.place[d].name),
       NameEvent(wd[parent], {MOVED_TO, ISDIR}, cookie, name)]
    case Rmdir(d) => [Event(wd[d], {DELETE_SELF}, 0, "", 0), Event(wd[d], {IGNORED}, 0, "", 0)]
    case FileEvent(d, kind, cookie, name) => [NameEvent(wd[d], {kind}, cookie, name)]
  }

  ghost function TreeAfter(t: Tree, c: Change): Tree
    requires Sound(t) && Allowed(t, c)
  {
    match c
    case Rename(d, parent, name, _) => Renamed(t, d, parent, name)
    case Rmdir(d) => Removed(t, d)
    case FileEvent(_, _, _, _) => t
  }

  ghost function WatchesAfter(wd: map<int, int>, c: Change): map<int, int> {
    if c.Rmdir? then wd - {c.dir} else wd
  }

  /** The root list names exactly the root directories that still exist. */
  ghost predicate RootsMatch(roots: seq<Option<string>>, t: Tree) {
    && (forall i :: 0 <= i < |roots| && roots[i].Some? ==> exists d :: At(t, d, Top(roots[i].value)))
    && (forall d, p :: At(t, d, Top(p)) ==> IsRoot(roots, p))
    && (forall i, j :: 0 <= i < j < |roots| && roots[i].Some? ==> roots[i] != roots[j])
  }

  /** The program's state mirrors the directories t with watches wd: every directory is cached once, under its present
      pathname, and nothing else is. */
  ghost predicate InStep(m: Mirror, t: Tree, wd: map<int, int>) {
    && Sound(t) && WellFormed(m.slots)
    && Faithful(Contents(m.slots), t, wd) && wd.Keys == t.place.Keys
    && RootsMatch(m.roots, t)
  }

  // ---------------------------------------------------------------- one change

  lemma SlotOf(m: Mirror, t: Tree, wd: map<int, int>, d: int)
    requires InStep(m, t, wd) && d in t.place
    ensures IndexOf(m.slots, wd[d]) < |m.slots| && m.slots[IndexOf(m.slots, wd[d])].path == PathOf(t, d)
    ensures wd[d] >= 0
  {
    hide IndexFrom, Sound, PathOf, WellFormed, Contents, RootsMatch;
    LookupRefines(m.slots, wd[d]);
  }

  lemma RenameInStep(m: Mirror, t: Tree, wd: map<int, int>, c: Change)
    requires InStep(m, t, wd) && c.Rename? && Allowed(t, c)
    ensures InStep(m.(slots := RewriteSlots(m.slots, PathOf(t, c.dir), Join(PathOf(t, c.parent), c.name))),
                   TreeAfter(t, c), wd)
  {
    var d, u := c.dir, TreeAfter(t, c);
    var oldPath, newPath := PathOf(t, d), Join(PathOf(t, c.parent), c.name);
    assert RootsMatch(m.roots, u) by {
      hide InStep;
      assert RootsMatch(m.roots, t) by {
        InStepParts(m, t, wd);
      }
      RootsAfterRename(m.roots, t, c);
    }
    InStepParts(m, t, wd);
    PathsAfterRename(t, d, c.parent, c.name);
    assert oldPath != "" by {
      PathUnderTop(t, d);
    }
    hide Sound, RootsMatch, WellFormed, Contents, RewriteSlots, Renamed, PathOf, Faithful;
    RewriteRefines(m.slots, oldPath, newPath);
    FaithfulRebased(Contents(m.slots), t, u, wd, oldPath, newPath);
  }

  lemma InStepParts(m: Mirror, t: Tree, wd: map<int, int>)
    requires InStep(m, t, wd)
    ensures Sound(t) && WellFormed(m.slots) && Faithful(Contents(m.slots), t, wd)
    ensures wd.Keys == t.place.Keys && RootsMatch(m.roots, t)
  {
  }

  lemma RootsAfterRename(roots: seq<Option<string>>, t: Tree, c: Change)
    requires Sound(t) && RootsMatch(roots, t) && c.Rename? && Allowed(t, c)
    ensures RootsMatch(roots, TreeAfter(t, c))
  {
    var u := TreeAfter(t, c);
    assert forall x, p :: At(u, x, Top(p)) <==> At(t, x, Top(p));
  }

  lemma ProcessRename(m: Mirror, e: Event, f: Event, ans: Answers)
    requires e.wd >= 0 && e.mask == {MOVED_FROM, ISDIR} && f.mask == {MOVED_TO, ISDIR} && e.cookie == f.cookie
    requires IndexOf(m.slots, e.wd) < |m.slots| && IndexOf(m.slots, f.wd) < |m.slots|
    ensures Process(m, e, Some(f), false, ans)
         == (m.(slots := RewriteSlots(m.slots, Join(m.slots[IndexOf(m.slots, e.wd)].path, e.name),
                                      Join(m.slots[IndexOf(m.slots, f.wd)].path, f.name))), Took(2))
  {
    hide IndexOf, RewriteSlots, OnNewDirectory, OnDeleted, ZapOrRebuild, OnRootMoved, Reinitialized;
  }

  lemma RenameStep(m: Mirror, t: Tree, wd: map<int, int>, c: Change, ans: Answers)
    requires InStep(m, t, wd) && c.Rename? && Allowed(t, c)
    ensures var evs := EventsFor(t, wd, c);
      var r := Process(m, evs[0], Some(evs[1]), false, ans);
      r.1 == Took(2) && InStep(r.0, TreeAfter(t, c), wd)
  {
    hide Process;
    var evs, p, d := EventsFor(t, wd, c), t.place[c.dir].parent, c.dir;
    assert PathOf(t, d) == Join(PathOf(t, p), t.place[d].name);
    SlotOf(m, t, wd, p);
    SlotOf(m, t, wd, c.parent);
    RenameInStep(m, t, wd, c);
    hide InStep, RewriteSlots, IndexOf, TreeAfter, Allowed, Sound, PathOf;
    ProcessRename(m, evs[0], evs[1], ans);
  }

  lemma ProcessDelete(m: Mirror, e: Event, next: Option<Event>, ans: Answers)
    requires e.wd >= 0 && e.mask == {DELETE_SELF} && IndexOf(m.slots, e.wd) < |m.slots|
    ensures Process(m, e, next, false, ans) == OnDeleted(m, IndexOf(m.slots, e.wd))
  {
    hide IndexOf, OnNewDirectory, OnDeleted, OnMovedFrom, OnRootMoved, Reinitialized;
  }

  lemma RemoveInStep(m: Mirror, t: Tree, wd: map<int, int>, c: Change, roots: seq<Option<string>>)
    requires InStep(m, t, wd) && c.Rmdir? && Allowed(t, c)
    requires RootsMatch(roots, TreeAfter(t, c)) && IndexOf(m.slots, wd[c.dir]) < |m.slots|
    ensures InStep(Mirror(m.slots[IndexOf(m.slots, wd[c.dir]) := EMPTY], roots), TreeAfter(t, c), WatchesAfter(wd, c))
  {
    var d := c.dir;
    InStepParts(m, t, wd);
    RemovedSound(t, d);
    hide Sound, PathOf, Faithful, WellFormed, Contents, RootsMatch, IndexFrom;
    EmptyRefines(m.slots, IndexOf(m.slots, wd[d]));
    FaithfulRemoved(Contents(m.slots), t, TreeAfter(t, c), wd, d);
  }

  lemma RemoveStep(m: Mirror, t: Tree, wd: map<int, int>, c: Change, ans: Answers)
    requires InStep(m, t, wd) && c.Rmdir? && Allowed(t, c)
    ensures var evs := EventsFor(t, wd, c);
      var r := Process(m, evs[0], Some(evs[1]), false, ans);
      r.1 == Took(1) && InStep(r.0, TreeAfter(t, c), WatchesAfter(wd, c))
  {
    hide Process;
    var evs, d := EventsFor(t, wd, c), c.dir;
    SlotOf(m, t, wd, d);
    InStepParts(m, t, wd);
    RootsAfterRemove(m.roots, t, c);
    RemoveInStep(m, t, wd, c, if t.place[d].Top? then WithoutRoot(m.roots, PathOf(t, d)) else m.roots);
    hide InStep, IndexOf, TreeAfter, Allowed, Sound, PathOf, RootsMatch, IsRoot, NoRoots, WithoutRoot, Faithful,
         Contents, WellFormed;
    ProcessDelete(m, evs[0], Some(evs[1]), ans);
  }

  lemma IgnoredSkipped(m: Mirror, e: Event, ans: Answers)
    requires e.mask == {IGNORED}
    ensures Process(m, e, None, false, ans) == (m, Took(1))
  {
  }

  /** A directory that is not a root has no root's pathname. */
  lemma RootPathIsTop(roots: seq<Option<string>>, t: Tree, d: int)
    requires Sound(t) && RootsMatch(roots, t) && d in t.place
    ensures IsRoot(roots, PathOf(t, d)) <==> t.place[d].Top?
  {
    hide Sound, PathOf;
    if IsRoot(roots, PathOf(t, d)) {
      var r :| At(t, r, Top(PathOf(t, d)));
      TopPath(t, r);
      PathInjective(t, d, r);
    }
    if t.place[d].Top? {
      TopPath(t, d);
    }
  }

  lemma TopPath(t: Tree, d: int)
    requires Sound(t) && d in t.place && t.place[d].Top?
    ensures At(t, d, Top(PathOf(t, d)))
  {
  }

  lemma RootsWithout(roots: seq<Option<string>>, t: Tree, d: int, path: string)
    requires Sound(t) && RootsMatch(roots, t) && At(t, d, Top(path))
    ensures IsRoot(roots, path) && RootsMatch(WithoutRoot(roots, path), Removed(t, d))
  {
    var u, after, k := Removed(t, d), WithoutRoot(roots, path), RootIndex(roots, path);
    assert forall x, p :: At(u, x, Top(p)) <==> x != d && At(t, x, Top(p));
    forall x, p | At(u, x, Top(p))
      ensures IsRoot(after, p)
    {
      assert At(t, x, Top(p)) && At(t, d, Top(path));
      assert Apart(p, path);
      assert after[RootIndex(roots, p)] == Some(p);
    }
    hide Sound;
    forall i | 0 <= i < |after| && after[i].Some?
      ensures exists x :: At(u, x, Top(after[i].value))
    {
      assert i != k && roots[i] != roots[k];
      var x :| At(t, x, Top(roots[i].value));
      assert At(u, x, Top(after[i].value));
    }
  }

  lemma RootsStay(roots: seq<Option<string>>, t: Tree, d: int)
    requires Sound(t) && RootsMatch(roots, t) && d in t.place && t.place[d].In?
    ensures RootsMatch(roots, Removed(t, d))
  {
    hide Sound;
    var u := Removed(t, d);
    assert forall x, p :: At(u, x, Top(p)) <==> At(t, x, Top(p));
  }

  /** Only the removal of a root takes a path off the root list, and some root is left. */
  lemma RootsAfterRemove(roots: seq<Option<string>>, t: Tree, c: Change)
    requires Sound(t) && RootsMatch(roots, t) && c.Rmdir? && Allowed(t, c)
    ensures IsRoot(roots, PathOf(t, c.dir)) <==> t.place[c.dir].Top?
    ensures var after := if t.place[c.dir].Top? then WithoutRoot(roots, PathOf(t, c.dir)) else roots;
      && RootsMatch(after, TreeAfter(t, c))
      && (t.place[c.dir].Top? ==> !NoRoots(after))
  {
    var d := c.dir;
    RootPathIsTop(roots, t, d);
    if t.place[d].Top? {
      TopPath(t, d);
      var path, u := PathOf(t, d), TreeAfter(t, c);
      RootsWithout(roots, t, d, path);
      var e, p :| e != d && At(t, e, Top(p));
      hide Sound, PathOf, RootIndex, WithoutRoot;
      assert At(u, e, Top(p));
      var after := WithoutRoot(roots, path);
      assert after[RootIndex(after, p)] == Some(p);
    } else {
      RootsStay(roots, t, d);
    }
  }

  lemma FileStep(m: Mirror, t: Tree, wd: map<int, int>, c: Change, ans: Answers)
    requires InStep(m, t, wd) && c.FileEvent? && Allowed(t, c)
    ensures Process(m, EventsFor(t, wd, c)[0], None, false, ans) == (m, Took(1))
  {
    SlotOf(m, t, wd, c.dir);
    ProcessFile(m, EventsFor(t, wd, c)[0], ans);
  }

  lemma ProcessFile(m: Mirror, e: Event, ans: Answers)
    requires e.wd >= 0 && IndexOf(m.slots, e.wd) < |m.slots|
    requires exists kind :: kind in {CREATE, MOVED_FROM, MOVED_TO} && e.mask == {kind}
    ensures Process(m, e, None, false, ans) == (m, Took(1))
  {
    hide IndexOf, OnNewDirectory, OnDeleted, OnMovedFrom, OnRootMoved, Reinitialized;
  }

  lemma OneEvent(m: Mirror, e: Event, m': Mirror, pos: nat, ans: nat -> Answers)
    requires Process(m, e, None, false, ans(pos)) == (m', Took(1))
    ensures Replay(m, [e], pos, ans) == Progress(m', 1, Drained)
  {
    hide Process;
    assert [e][1..] == [];
    ReplayUnfolds(m, [e], pos, ans);
    ReplayUnfolds(m', [], pos + 1, ans);
  }

  lemma TwoEvents(m: Mirror, e: Event, f: Event, m': Mirror, m'': Mirror, n: nat, pos: nat, ans: nat -> Answers)
    requires Process(m, e, Some(f), false, ans(pos)) == (m', Took(n)) && 1 <= n <= 2
    requires if n == 2 then m'' == m' else Process(m', f, None, false, ans(pos + 1)) == (m'', Took(1))
    ensures Replay(m, [e, f], pos, ans) == Progress(m'', 2, Drained)
  {
    hide Process;
    assert [e, f][1..] == [f] && [e, f][2..] == [];
    ReplayUnfolds(m, [e, f], pos, ans);
    ReplayUnfolds(m', [], pos + 2, ans);
    if n == 1 {
      OneEvent(m', f, m'', pos + 1, ans);
    }
  }

  ghost predicate KeepsStep(m: Mirror, t: Tree, wd: map<int, int>, c: Change, pos: nat, ans: nat -> Answers)
    requires InStep(m, t, wd) && Allowed(t, c)
  {
    var r := Replay(m, EventsFor(t, wd, c), pos, ans);
    r.stop == Drained && InStep(r.m, TreeAfter(t, c), WatchesAfter(wd, c))
  }

  lemma RenameReplayed(m: Mirror, t: Tree, wd: map<int, int>, c: Change, pos: nat, ans: nat -> Answers)
    requires InStep(m, t, wd) && Allowed(t, c) && c.Rename?
    ensures KeepsStep(m, t, wd, c, pos, ans)
  {
    var evs := EventsFor(t, wd, c);
    RenameStep(m, t, wd, c, ans(pos));
    hide Process, InStep, TreeAfter, Allowed, Replay;
    var m' := Process(m, evs[0], Some(evs[1]), false, ans(pos)).0;
    TwoEvents(m, evs[0], evs[1], m', m', 2, pos, ans);
  }

  lemma RmdirReplayed(m: Mirror, t: Tree, wd: map<int, int>, c: Change, pos: nat, ans: nat -> Answers)
    requires InStep(m, t, wd) && Allowed(t, c) && c.Rmdir?
    ensures KeepsStep(m, t, wd, c, pos, ans)
  {
    var evs := EventsFor(t, wd, c);
    RemoveStep(m, t, wd, c, ans(pos));
    hide Process, InStep, TreeAfter, Allowed, Replay;
    var m' := Process(m, evs[0], Some(evs[1]), false, ans(pos)).0;
    IgnoredSkipped(m', evs[1], ans(pos + 1));
    TwoEvents(m, evs[0], evs[1], m', m', 1, pos, ans);
  }

  lemma FileReplayed(m: Mirror, t: Tree, wd: map<int, int>, c: Change, pos: nat, ans: nat -> Answers)
    requires InStep(m, t, wd) && Allowed(t, c) && c.FileEvent?
    ensures KeepsStep(m, t, wd, c, pos, ans)
  {
    var evs := EventsFor(t, wd, c);
    FileStep(m, t, wd, c, ans(pos));
    FileKeepsTree(t, wd, c);
    hide Process, InStep, TreeAfter, Allowed, Replay;
    OneEvent(m, evs[0], m, pos, ans);
  }

  /** Replaying the events of one change keeps the mirror in step. */
  lemma ChangeReplayed(m: Mirror, t: Tree, wd: map<int, int>, c: Change, pos: nat, ans: nat -> Answers)
    requires InStep(m, t, wd) && Allowed(t, c)
    ensures KeepsStep(m, t, wd, c, pos, ans)
  {
    hide *;
    match c
    case Rename(_, _, _, _) => RenameReplayed(m, t, wd, c, pos, ans);
    case Rmdir(_) => RmdirReplayed(m, t, wd, c, pos, ans);
    case FileEvent(_, _, _, _) => FileReplayed(m, t, wd, c, pos, ans);
  }

  lemma NeverEndsHanging(t: Tree, wd: map<int, int>, c: Change)
    requires Sound(t) && Allowed(t, c) && wd.Keys == t.place.Keys
    ensures EventsFor(t, wd, c) != [] && !EndsHanging(EventsFor(t, wd, c))
  {
  }

  lemma FileKeepsTree(t: Tree, wd: map<int, int>, c: Change)
    requires Sound(t) && c.FileEvent? && Allowed(t, c)
    ensures TreeAfter(t, c) == t && WatchesAfter(wd, c) == wd
  {
  }

  // ---------------------------------------------------------------- a whole history

  ghost predicate History(t: Tree, wd: map<int, int>, cs: seq<Change>)
    requires Sound(t)
    decreases |cs|
  {
    && wd.Keys == t.place.Keys
    && (|cs| > 0 ==> Allowed(t, cs[0]) && Sound(TreeAfter(t, cs[0])))
    && (|cs| > 0 ==> History(TreeAfter(t, cs[0]), WatchesAfter(wd, cs[0]), cs[1..]))
  }

  ghost function HistoryEvents(t: Tree, wd: map<int, int>, cs: seq<Change>): seq<Event>
    requires Sound(t) && History(t, wd, cs)
    decreases |cs|
  {
    if |cs| == 0 then []
    else EventsFor(t, wd, cs[0]) + HistoryEvents(TreeAfter(t, cs[0]), WatchesAfter(wd, cs[0]), cs[1..])
  }

  /** The directories and their watches after a history. */
  ghost function Final(t: Tree, wd: map<int, int>, cs: seq<Change>): (r: (Tree, map<int, int>))
    requires Sound(t) && History(t, wd, cs)
    ensures Sound(r.0)
    decreases |cs|
  {
    if |cs| == 0 then (t, wd) else Final(TreeAfter(t, cs[0]), WatchesAfter(wd, cs[0]), cs[1..])
  }

  lemma HistoryUnfolds(t: Tree, wd: map<int, int>, cs: seq<Change>)
    requires Sound(t) && wd.Keys == t.place.Keys
    ensures |cs| == 0 ==> History(t, wd, cs) && HistoryEvents(t, wd, cs) == [] && Final(t, wd, cs) == (t, wd)
    ensures |cs| > 0 && Allowed(t, cs[0]) && Sound(TreeAfter(t, cs[0])) ==>
      var u, wd' := TreeAfter(t, cs[0]), WatchesAfter(wd, cs[0]);
      && (History(t, wd, cs) <==> History(u, wd', cs[1..]))
      && (History(t, wd, cs) ==>
            && HistoryEvents(t, wd, cs) == EventsFor(t, wd, cs[0]) + HistoryEvents(u, wd', cs[1..])
            && Final(t, wd, cs) == Final(u, wd', cs[1..]))
  {
    hide Sound, Allowed, TreeAfter, EventsFor, WatchesAfter;
  }

  lemma HistoryFirst(t: Tree, wd: map<int, int>, cs: seq<Change>)
    requires Sound(t) && History(t, wd, cs)
    ensures wd.Keys == t.place.Keys
    ensures |cs| > 0 ==> Allowed(t, cs[0]) && Sound(TreeAfter(t, cs[0]))
    ensures |cs| > 0 ==> History(TreeAfter(t, cs[0]), WatchesAfter(wd, cs[0]), cs[1..])
  {
    hide Sound, Allowed, TreeAfter, EventsFor, WatchesAfter;
  }

  /** Cutting a history anywhere splits its events in the same place. */
  lemma {:induction false} HistorySplits(t: Tree, wd: map<int, int>, cs: seq<Change>, k: nat)
    requires Sound(t) && History(t, wd, cs) && k <= |cs|
    ensures History(t, wd, cs[..k])
    ensures var (u, wd') := Final(t, wd, cs[..k]);
      && History(u, wd', cs[k..])
      && HistoryEvents(t, wd, cs) == HistoryEvents(t, wd, cs[..k]) + HistoryEvents(u, wd', cs[k..])
    decreases k
  {
    hide Sound, Allowed, TreeAfter, EventsFor, WatchesAfter, History, HistoryEvents, Final;
    HistoryFirst(t, wd, cs);
    HistoryUnfolds(t, wd, cs[..k]);
    if k == 0 {
      assert cs[..0] == [] && cs[0..] == cs;
      assert HistoryEvents(t, wd, cs) == [] + HistoryEvents(t, wd, cs);
    } else {
      var u, wd' := TreeAfter(t, cs[0]), WatchesAfter(wd, cs[0]);
      HistoryUnfolds(t, wd, cs);
      HistorySplits(u, wd', cs[1..], k - 1);
      assert cs[..k][1..] == cs[1..][..k - 1] && cs[1..][k - 1..] == cs[k..] && cs[..k][0] == cs[0];
    }
  }

  /** However far ahead the changes ran, consuming the events of a history leaves every watch mapped to the pathname
      that its directory had right after that history. */
  lemma {:induction false} HistoryReplayed(m: Mirror, t: Tree, wd: map<int, int>, cs: seq<Change>, pos: nat,
                                           ans: nat -> Answers)
    requires InStep(m, t, wd) && History(t, wd, cs)
    ensures var r := Replay(m, HistoryEvents(t, wd, cs), pos, ans);
      r.stop == Drained && InStep(r.m, Final(t, wd, cs).0, Final(t, wd, cs).1)
    decreases |cs|
  {
    hide InStep, Replay, Sound, Allowed, TreeAfter, EventsFor, WatchesAfter, Process, History, HistoryEvents, Final,
         Faithful, WellFormed, RootsMatch, EndsHanging, Contents;
    InStepParts(m, t, wd);
    HistoryFirst(t, wd, cs);
    HistoryUnfolds(t, wd, cs);
    if |cs| == 0 {
      ReplayUnfolds(m, [], pos, ans);
    } else {
      NeverEndsHanging(t, wd, cs[0]);
      ChangeReplayed(m, t, wd, cs[0], pos, ans);
      var evs := EventsFor(t, wd, cs[0]);
      var r := Replay(m, evs, pos, ans);
      var u, wd' := TreeAfter(t, cs[0]), WatchesAfter(wd, cs[0]);
      HistoryReplayed(r.m, u, wd', cs[1..], pos + |evs|, ans);
      ReplayConcat(m, evs, HistoryEvents(u, wd', cs[1..]), pos, ans);
    }
  }

  /** The queue may hold the events of every change while only those of the first k have been consumed, in whatever
      chunks they were read: the cache then mirrors the directories as they were after k changes. */
  lemma LaggingReplay(m: Mirror, t: Tree, wd: map<int, int>, cs: seq<Change>, k: nat, chunks: seq<seq<Event>>,
                      ans: nat -> Answers)
    requires InStep(m, t, wd) && History(t, wd, cs) && k <= |cs|
    requires Flatten(chunks) <= HistoryEvents(t, wd, cs)
    requires forall i :: 0 <= i < |chunks| - 1 ==> !EndsHanging(chunks[i])
    requires History(t, wd, cs[..k]) && |Flatten(chunks)| == |HistoryEvents(t, wd, cs[..k])|
    ensures var r := ReplayChunks(m, chunks, 0, ans);
      r.stop == Drained && InStep(r.m, Final(t, wd, cs[..k]).0, Final(t, wd, cs[..k]).1)
  {
    hide InStep, Replay, Sound, History, HistoryEvents, Final, ReplayChunks, EndsHanging, Faithful, WellFormed,
         RootsMatch;
    InStepParts(m, t, wd);
    HistorySplits(t, wd, cs, k);
    assert Flatten(chunks) == HistoryEvents(t, wd, cs[..k]);
    CuttingDoesNotMatter(m, chunks, 0, ans);
    HistoryReplayed(m, t, wd, cs[..k], 0, ans);
  }

  // ---------------------------------------------------------------- a directory made and missed

  /** Nothing that exists has a pathname at or below that of a directory still to be made. */
  lemma NothingBelowNew(t: Tree, d: int, parent: int, name: string, x: int)
    requires Sound(t) && CanMake(t, d, parent, name) && x in t.place
    ensures !AtOrBelow(Join(PathOf(t, parent), name), PathOf(t, x))
  {
    MadeSound(t, d, parent, name);
    var u := Made(t, d, parent, name);
    NotBelowNew(t, d, parent, name, x);
    hide Sound, PathOf;
    AtOrBelowIsBelow(u, d, x);
  }

  lemma {:induction false} NotBelowNew(t: Tree, d: int, parent: int, name: string, x: int)
    requires Sound(t) && CanMake(t, d, parent, name) && x in t.place && Sound(Made(t, d, parent, name))
    ensures !Below(Made(t, d, parent, name), x, d)
    decreases t.rank[x]
  {
    if t.place[x].In? {
      NotBelowNew(t, d, parent, name, t.place[x].parent);
    }
  }

  lemma UncachedSlots(m: Mirror, t: Tree, wd: map<int, int>, path: string, i: nat)
    requires InStep(m, t, wd) && i < |m.slots| && m.slots[i].wd >= 0
    requires forall x :: x in t.place ==> !AtOrBelow(path, PathOf(t, x))
    ensures !AtOrBelow(path, m.slots[i].path)
  {
    hide Sound, PathOf;
    assert Holds(m.slots, i, m.slots[i].wd);
    var d :| d in wd && wd[d] == m.slots[i].wd;
  }

  /** A directory that is made, and renamed before the program gets to its creation event, is not cached by these
      events: the walk finds nothing under the old pathname, and the rename finds nothing to rewrite. */
  lemma MadeThenRenamedIsMissed(m: Mirror, t: Tree, wd: map<int, int>, d: int, parent: int, name: string, to: int,
                                newName: string, cookie: nat, ans: nat -> Answers)
    requires InStep(m, t, wd) && CanMake(t, d, parent, name) && to in t.place
    requires ans(0).walk(Join(PathOf(t, parent), name)) == []
    ensures var evs := [NameEvent(wd[parent], {CREATE, ISDIR}, 0, name),
                        NameEvent(wd[parent], {MOVED_FROM, ISDIR}, cookie, name),
                        NameEvent(wd[to], {MOVED_TO, ISDIR}, cookie, newName)];
      Replay(m, evs, 0, ans) == Progress(m, 3, Drained)
  {
    hide Process, Replay, IndexFrom, WellFormed, Contents, RootsMatch, Made;
    var e := NameEvent(wd[parent], {CREATE, ISDIR}, 0, name);
    var f := NameEvent(wd[parent], {MOVED_FROM, ISDIR}, cookie, name);
    var g := NameEvent(wd[to], {MOVED_TO, ISDIR}, cookie, newName);
    var path := Join(PathOf(t, parent), name);
    forall x | x in t.place
      ensures !AtOrBelow(path, PathOf(t, x))
    {
      NothingBelowNew(t, d, parent, name, x);
    }
    forall i | 0 <= i < |m.slots|
      ensures !AtOrBelow(path, m.slots[i].path)
    {
      if m.slots[i].wd >= 0 {
        UncachedSlots(m, t, wd, path, i);
      } else {
        FreeSlotBlank(m.slots, i);
      }
    }
    SlotOf(m, t, wd, parent);
    SlotOf(m, t, wd, to);
    hide Sound, PathOf, InStep, IndexOf, Faithful, CanMake, PathCached;
    ProcessCreate(m, e, Some(f), ans(0));
    ProcessRename(m, f, g, ans(1));
    var newPath := Join(PathOf(t, to), newName);
    assert RewriteSlots(m.slots, path, newPath) == m.slots;
    TwoEvents(m, f, g, m, m, 2, 1, ans);
    assert [e, f, g][1..] == [f, g];
    ReplayUnfolds(m, [e, f, g], 0, ans);
  }

  lemma FreeSlotBlank(s: seq<Slot>, i: nat)
    requires WellFormed(s) && i < |s| && s[i].wd < 0
    ensures s[i].path == ""
  {
  }

  lemma ProcessCreate(m: Mirror, e: Event, next: Option<Event>, ans: Answers)
    requires e.wd >= 0 && e.mask == {CREATE, ISDIR} && IndexOf(m.slots, e.wd) < |m.slots|
    ensures Process(m, e, next, false, ans)
         == OnNewDirectory(m, Join(m.slots[IndexOf(m.slots, e.wd)].path, e.name), ans)
  {
    hide IndexOf, OnNewDirectory, OnDeleted, OnMovedFrom, OnRootMoved, Reinitialized;
  }
}
