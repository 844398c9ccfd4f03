/** The program and the processes that change the directories, side by side. Other processes make, rename and remove
    directories at any time; the kernel queues what the watches that exist at that moment report; the program takes
    the queued events one by one, however late, and a walk then finds what is there by now. */
module Backlog {
  import opened Basics
  import opened Paths
  import opened WatchCache
  import opened InotifyEvents
  import opened InotifyEffects
  import opened WatchedTree
  import opened LaggingReplay

  // ---------------------------------------------------------------- the event queue

  /** What one act leaves in the queue. The directory that a new name stands for is not part of the event, and None
      where the two halves of a rename were taken apart. */
  datatype Notice =
    | NewDir(of: Option<int>, w: int, name: string, moved: bool, cookie: nat)
    | Moved(w: int, name: string, w2: int, name2: string, cookie: nat)
    | MovedOut(w: int, name: string, cookie: nat)
    | Gone(w: int)
    | File(w: int, kind: Flag, cookie: nat, name: string)
    | Ignored(w: int)
    | Overflow

  function EventsOf(n: Notice): seq<Event> {
    match n
    case NewDir(_, w, name, moved, cookie) => [NameEvent(w, {if moved then MOVED_TO else CREATE, ISDIR}, cookie, name)]
    case Moved(w, name, w2, name2, cookie) =>
      [NameEvent(w, {MOVED_FROM, ISDIR}, cookie, name), NameEvent(w2, {MOVED_TO, ISDIR}, cookie, name2)]
    case MovedOut(w, name, cookie) => [NameEvent(w, {MOVED_FROM, ISDIR}, cookie, name)]
    case Gone(w) => [Event(w, {DELETE_SELF}, 0, "", 0), Event(w, {IGNORED}, 0, "", 0)]
    case File(w, kind, cookie, name) => [NameEvent(w, {kind}, cookie, name)]
    case Ignored(w) => [Event(w, {IGNORED}, 0, "", 0)]
    case Overflow => [Event(-1, {Q_OVERFLOW}, 0, "", 0)]
  }

  /** The watches that the program looks up for a notice. */
  function Looked(n: Notice): set<int> {
    match n
    case NewDir(_, w, _, _, _) => {w}
    case Moved(w, _, w2, _, _) => {w, w2}
    case MovedOut(w, _, _) => {w}
    case Gone(w) => {w}
    case File(w, _, _, _) => {w}
    case Ignored(_) => {}
    case Overflow => {}
  }

  ghost predicate Proper(n: Notice) {
    && (forall w :: w in Looked(n) ==> w >= 0)
    && (n.File? ==> n.kind in {CREATE, MOVED_FROM, MOVED_TO})
  }

  // ---------------------------------------------------------------- what the queue will do to the cache

  /** With this cache, the notice makes the program rebuild. */
  predicate Defeats(c: map<int, string>, n: Notice) {
    n.Overflow? || !(Looked(n) <= c.Keys)
  }

  function From(c: map<int, string>, n: Notice): string
    requires !Defeats(c, n) && (n.NewDir? || n.Moved? || n.MovedOut?)
  {
    Join(c[n.w], n.name)
  }

  function To(c: map<int, string>, n: Notice): string
    requires !Defeats(c, n) && n.Moved?
  {
    Join(c[n.w2], n.name2)
  }

  /** Where the notice takes an entry with this pathname; None if the entry is forgotten. */
  function Sent(c: map<int, string>, n: Notice, path: string): Option<string>
    requires !Defeats(c, n)
  {
    match n
    case Moved(_, _, _, _, _) => Some(Rebase(From(c, n), To(c, n), path))
    case MovedOut(_, _, _) => if AtOrBelow(From(c, n), path) then None else Some(path)
    case _ => Some(path)
  }

  /** The cache after the notice, apart from what a walk may add. */
  ghost function Effect(c: map<int, string>, n: Notice): map<int, string>
    requires !Defeats(c, n)
  {
    map w | w in c && !(n.Gone? && w == n.w) && Sent(c, n, c[w]).Some? :: Sent(c, n, c[w]).value
  }

  /** The cache when all queued notices are used up, apart from what walks may add; None if the program will rebuild
      before that. */
  ghost function Ahead(c: map<int, string>, q: seq<Notice>): Option<map<int, string>>
    decreases |q|
  {
    if |q| == 0 then Some(c) else if Defeats(c, q[0]) then None else Ahead(Effect(c, q[0]), q[1..])
  }

  /** Where the queued notices take an entry that is added now with this pathname. */
  ghost function Carried(c: map<int, string>, q: seq<Notice>, path: string): Option<string>
    requires Ahead(c, q).Some?
    decreases |q|
  {
    if |q| == 0 then Some(path)
    else
      match Sent(c, q[0], path)
      case None => None
      case Some(p) => Carried(Effect(c, q[0]), q[1..], p)
  }

  /** These notices move no entry. */
  lemma NoEffect(c: map<int, string>, n: Notice)
    requires !Defeats(c, n) && (n.NewDir? || n.File? || n.Ignored?)
    ensures Effect(c, n) == c
  {
    assert forall w :: w in c ==> Sent(c, n, c[w]) == Some(c[w]);
    assert forall w :: w in Effect(c, n) <==> w in c;
  }

  ghost predicate Sub(c: map<int, string>, d: map<int, string>) {
    forall w :: w in c ==> w in d && d[w] == c[w]
  }

  lemma {:induction false} AheadConcat(c: map<int, string>, a: seq<Notice>, b: seq<Notice>)
    ensures Ahead(c, a + b) == match Ahead(c, a) case None => None case Some(f) => Ahead(f, b)
    decreases |a|
  {
    hide Defeats, Effect;
    if |a| == 0 {
      assert a + b == b;
    } else {
      assert (a + b)[0] == a[0] && (a + b)[1..] == a[1..] + b;
      if !Defeats(c, a[0]) {
        AheadConcat(Effect(c, a[0]), a[1..], b);
      }
    }
  }

  lemma AheadOne(c: map<int, string>, n: Notice)
    ensures Ahead(c, [n]) == if Defeats(c, n) then None else Some(Effect(c, n))
  {
    hide Defeats, Effect;
    assert [n][1..] == [];
  }

  lemma {:induction false} AheadKeys(c: map<int, string>, q: seq<Notice>)
    requires Ahead(c, q).Some?
    ensures Ahead(c, q).value.Keys <= c.Keys
    decreases |q|
  {
    if |q| > 0 {
      AheadKeys(Effect(c, q[0]), q[1..]);
    }
  }

  lemma EffectSub(c: map<int, string>, d: map<int, string>, n: Notice)
    requires Sub(c, d) && !Defeats(c, n)
    ensures !Defeats(d, n) && Sub(Effect(c, n), Effect(d, n))
  {
    assert forall w :: w in c.Keys ==> w in d.Keys;
    hide Rebase, AtOrBelow, Join;
  }

  /** With fewer entries to begin with there are fewer in the end, or a rebuild. */
  lemma {:induction false} AheadSub(c: map<int, string>, d: map<int, string>, q: seq<Notice>)
    requires Sub(c, d) && Ahead(c, q).Some?
    ensures Ahead(d, q).Some? && Sub(Ahead(c, q).value, Ahead(d, q).value)
    decreases |q|
  {
    hide Defeats, Effect, Sub;
    if |q| > 0 {
      EffectSub(c, d, q[0]);
      AheadSub(Effect(c, q[0]), Effect(d, q[0]), q[1..]);
    }
  }

  /** Entries under new descriptors, which no queued notice names. */
  ghost predicate Unnamed(e: map<int, string>, c: map<int, string>, q: seq<Notice>) {
    forall w :: w in e ==> w !in c && forall i :: 0 <= i < |q| ==> w !in Looked(q[i])
  }

  /** What becomes of the new entries. */
  ghost function SentAll(c: map<int, string>, n: Notice, e: map<int, string>): map<int, string>
    requires !Defeats(c, n)
  {
    map w | w in e && Sent(c, n, e[w]).Some? :: Sent(c, n, e[w]).value
  }

  lemma SentAlike(c: map<int, string>, d: map<int, string>, n: Notice)
    requires !Defeats(c, n) && Sub(c, d)
    ensures !Defeats(d, n) && forall p :: Sent(d, n, p) == Sent(c, n, p)
  {
    assert forall w :: w in c.Keys ==> w in d.Keys;
    hide Rebase, AtOrBelow, Join;
  }

  lemma EffectWith(c: map<int, string>, e: map<int, string>, n: Notice)
    requires Unnamed(e, c, [n])
    ensures Defeats(c + e, n) <==> Defeats(c, n)
    ensures !Defeats(c, n) ==> Effect(c + e, n) == Effect(c, n) + SentAll(c, n, e)
  {
    hide Rebase, AtOrBelow, Join, Looked;
    assert forall w :: w in e ==> w !in Looked([n][0]);
    assert !Defeats(c + e, n) ==> !Defeats(c, n) by {
      assert forall w :: w in Looked(n) ==> (w in (c + e).Keys <==> w in c.Keys);
    }
    if !Defeats(c, n) {
      SentAlike(c, c + e, n);
      EffectOf(c, e, n);
    }
  }

  lemma EffectOf(c: map<int, string>, e: map<int, string>, n: Notice)
    requires !Defeats(c, n) && !Defeats(c + e, n) && forall p :: Sent(c + e, n, p) == Sent(c, n, p)
    requires forall w :: w in e ==> w !in c && w !in Looked(n)
    ensures Effect(c + e, n) == Effect(c, n) + SentAll(c, n, e)
  {
    var l, r := Effect(c + e, n), Effect(c, n) + SentAll(c, n, e);
    hide Sent;
    assert n.Gone? ==> n.w in Looked(n);
    assert forall w :: w in l <==> w in r;
    assert forall w :: w in l ==> l[w] == r[w];
  }

  lemma StillUnnamed(c: map<int, string>, e: map<int, string>, q: seq<Notice>)
    requires |q| > 0 && Unnamed(e, c, q) && !Defeats(c, q[0])
    ensures Unnamed(e, c, [q[0]]) && Unnamed(SentAll(c, q[0], e), Effect(c, q[0]), q[1..])
  {
    hide Sent, Looked;
    forall w | w in SentAll(c, q[0], e)
      ensures w !in Effect(c, q[0]) && forall i :: 0 <= i < |q[1..]| ==> w !in Looked(q[1..][i])
    {
      assert forall i :: 0 <= i < |q[1..]| ==> q[1..][i] == q[i + 1];
    }
  }

  /** Adding entries makes no difference to the others, and the queue carries each of them along by itself. */
  lemma {:induction false} AheadWith(c: map<int, string>, e: map<int, string>, q: seq<Notice>)
    requires Unnamed(e, c, q)
    ensures Ahead(c + e, q).Some? <==> Ahead(c, q).Some?
    ensures Ahead(c, q).Some? ==>
      var f, g := Ahead(c, q).value, Ahead(c + e, q).value;
      && (forall w :: w !in e ==> (w in g <==> w in f) && (w in f ==> g[w] == f[w]))
      && (forall w :: w in e ==> w !in f && (w in g <==> Carried(c, q, e[w]).Some?))
      && (forall w :: w in e && w in g ==> g[w] == Carried(c, q, e[w]).value)
    decreases |q|
  {
    hide Defeats, Effect, Sent, Looked;
    if |q| > 0 {
      assert Unnamed(e, c, [q[0]]) by {
        hide Effect;
        assert forall w :: w in e ==> w !in Looked(q[0]);
      }
      EffectWith(c, e, q[0]);
      if !Defeats(c, q[0]) {
        StillUnnamed(c, e, q);
        var c', e' := Effect(c, q[0]), SentAll(c, q[0], e);
        hide Unnamed;
        AheadWith(c', e', q[1..]);
        if Ahead(c, q).Some? {
          AheadKeys(c, q);
        }
      }
    }
  }

  // ---------------------------------------------------------------- the state

  /** The directories and the kernel's watches as they are now, the program's cache and roots, and what is queued. */
  datatype State = State(tree: Tree, wd: map<int, int>, m: Mirror, queue: seq<Notice>)

  ghost predicate IsWatch(wd: map<int, int>, w: int) {
    exists d :: d in wd && wd[d] == w
  }

  /** Every entry has the present pathname of the directory whose watch it is. */
  ghost predicate Mirrors(f: map<int, string>, t: Tree, wd: map<int, int>)
    requires Sound(t)
  {
    forall w :: w in f ==> exists d :: d in wd && wd[d] == w && d in t.place && f[w] == PathOf(t, d)
  }

  /** The cache is right, or will be when the program has caught up: every entry that the queue leaves has then the
      present pathname of its directory, or the cache is rebuilt. */
  ghost predicate Right(s: State) {
    && Sound(s.tree) && WellFormed(s.m.slots)
    && var f := Ahead(Contents(s.m.slots), s.queue);
       f.Some? ==> Mirrors(f.value, s.tree, s.wd)
  }

  /** Whatever goes wrong with pathnames: each watch that the kernel has is cached, and will not be reported gone. */
  ghost predicate Base(s: State) {
    && Sound(s.tree) && WellFormed(s.m.slots)
    && OneWatchEach(s.wd) && s.wd.Keys <= s.tree.place.Keys
    && (forall d :: d in s.wd ==> s.wd[d] in Contents(s.m.slots))
    && (forall i :: 0 <= i < |s.queue| ==> Proper(s.queue[i]))
    && (forall i :: 0 <= i < |s.queue| && s.queue[i].Gone? ==> !IsWatch(s.wd, s.queue[i].w))
  }

  ghost predicate Inv(s: State) {
    Base(s) && Right(s)
  }

  // ---------------------------------------------------------------- what other processes do

  datatype Deed = Mkdir(dir: int, parent: int, name: string) | Other(c: Change)

  ghost predicate Possible(t: Tree, a: Deed)
    requires Sound(t)
  {
    match a
    case Mkdir(d, parent, name) => CanMake(t, d, parent, name)
    case Other(c) => Allowed(t, c)
  }

  ghost function TreeBy(t: Tree, a: Deed): Tree
    requires Sound(t) && Possible(t, a)
  {
    match a
    case Mkdir(d, parent, name) => Made(t, d, parent, name)
    case Other(c) => TreeAfter(t, c)
  }

  ghost function WatchesBy(wd: map<int, int>, a: Deed): map<int, int> {
    match a
    case Mkdir(_, _, _) => wd
    case Other(c) => WatchesAfter(wd, c)
  }

  /** The kernel reports what happens in a directory if that directory is watched at that moment. */
  ghost function NoticesOf(t: Tree, wd: map<int, int>, a: Deed): seq<Notice>
    requires Sound(t) && Possible(t, a)
  {
    match a
    case Mkdir(d, parent, name) => if parent in wd then [NewDir(Some(d), wd[parent], name, false, 0)] else []
    case Other(Rename(d, parent, name, cookie)) =>
      var p := t.place[d];
      if p.parent in wd && parent in wd then [Moved(wd[p.parent], p.name, wd[parent], name, cookie)]
      else if p.parent in wd then [MovedOut(wd[p.parent], p.name, cookie)]
      else if parent in wd then [NewDir(Some(d), wd[parent], name, true, cookie)]
      else []
    case Other(Rmdir(d)) => if d in wd then [Gone(wd[d])] else []
    case Other(FileEvent(d, kind, cookie, name)) => if d in wd then [File(wd[d], kind, cookie, name)] else []
  }

  /** kept is false if the queue is full: then an overflow is reported instead. */
  ghost function After(s: State, a: Deed, kept: bool): State
    requires Sound(s.tree) && Possible(s.tree, a)
  {
    State(TreeBy(s.tree, a), WatchesBy(s.wd, a), s.m,
          s.queue + if kept then NoticesOf(s.tree, s.wd, a) else [Overflow])
  }

  /** The two halves of a rename are not dealt with together, because another process's events are queued between them
      or because the follow-up read times out. */
  function SplitAt(q: seq<Notice>, k: nat, j: nat): seq<Notice>
    requires k < j <= |q| && q[k].Moved?
  {
    q[..k] + [MovedOut(q[k].w, q[k].name, q[k].cookie)] + q[k + 1..j]
    + [NewDir(None, q[k].w2, q[k].name2, true, q[k].cookie)] + q[j..]
  }

  // ---------------------------------------------------------------- what the program does

  /** The directories that a walk from the pathname comes to: the one that is there now, and all below it. */
  ghost function Found(t: Tree, path: string): set<int>
    requires Sound(t)
  {
    set x | x in t.place && exists y :: y in t.place && PathOf(t, y) == path && Below(t, x, y)
  }

  ghost predicate VisitOf(t: Tree, wd: map<int, int>, v: Visit, x: int)
    requires Sound(t)
  {
    x in t.place && x in wd && v.isDir && v.path == PathOf(t, x) && v.wd == wd[x]
  }

  /** The walk visits these directories, and inotify_add_watch() answers with their watches. */
  ghost predicate WalkOf(t: Tree, wd: map<int, int>, path: string, visits: seq<Visit>)
    requires Sound(t)
  {
    && (forall i :: 0 <= i < |visits| && visits[i].isDir ==>
          exists x :: x in Found(t, path) && VisitOf(t, wd, visits[i], x))
    && (forall x :: x in Found(t, path) ==> exists i :: 0 <= i < |visits| && VisitOf(t, wd, visits[i], x))
  }

  /** The watches wd with those added that the directories in dirs did not have; their descriptors are new. */
  ghost predicate Extended(s: State, wd: map<int, int>, dirs: set<int>) {
    && wd.Keys == s.wd.Keys + dirs && OneWatchEach(wd)
    && (forall d :: d in s.wd ==> wd[d] == s.wd[d])
    && forall d :: d in dirs && d !in s.wd ==>
         && (forall i :: 0 <= i < |s.m.slots| ==> s.m.slots[i].wd != wd[d])
         && (forall i :: 0 <= i < |s.queue| ==> wd[d] !in Looked(s.queue[i]))
  }

  ghost function FoundByRoots(t: Tree, roots: seq<Option<string>>): set<int>
    requires Sound(t)
  {
    set x | x in t.place && exists i :: 0 <= i < |roots| && roots[i].Some? && x in Found(t, roots[i].value)
  }

  /** A new inotify instance has the watches that the walks of the roots ask for. */
  ghost predicate Rewatched(s: State, ans: Answers, wd: map<int, int>)
    requires Sound(s.tree)
  {
    && OneWatchEach(wd) && wd.Keys == FoundByRoots(s.tree, s.m.roots)
    && forall i :: 0 <= i < |s.m.roots| && s.m.roots[i].Some? ==>
         WalkOf(s.tree, wd, s.m.roots[i].value, ans.walk(s.m.roots[i].value))
  }

  /** The next notice is of a new directory, whose pathname is not cached. */
  ghost predicate Walks(s: State)
    requires WellFormed(s.m.slots)
  {
    && |s.queue| > 0 && s.queue[0].NewDir? && s.queue[0].w in Contents(s.m.slots)
    && !PathCached(s.m.slots, WalkPath(s))
  }

  ghost function WalkPath(s: State): string
    requires WellFormed(s.m.slots) && |s.queue| > 0 && s.queue[0].NewDir? && s.queue[0].w in Contents(s.m.slots)
  {
    From(Contents(s.m.slots), s.queue[0])
  }

  /** The watches without those of the cached directories at or below the path. */
  ghost function Unwatched(wd: map<int, int>, c: map<int, string>, path: string): map<int, int> {
    map d | d in wd && !(wd[d] in c && AtOrBelow(path, c[wd[d]])) :: wd[d]
  }

  /** What the kernel does meanwhile: it adds watches for a walk and removes those that are zapped. */
  ghost predicate Watching(s: State, ans: Answers, wd: map<int, int>)
    requires Sound(s.tree) && WellFormed(s.m.slots) && |s.queue| > 0
  {
    var n, c := s.queue[0], Contents(s.m.slots);
    if Walks(s) then
      WalkOf(s.tree, wd, WalkPath(s), ans.walk(WalkPath(s))) && Extended(s, wd, Found(s.tree, WalkPath(s)))
    else if n.MovedOut? && n.w in c then wd == Unwatched(s.wd, c, From(c, n))
    else wd == s.wd
  }

  function Always(ans: Answers): nat -> Answers {
    _ => ans
  }

  function TakeOne(s: State, ans: Answers): Progress
    requires |s.queue| > 0
  {
    Replay(s.m, EventsOf(s.queue[0]), 0, Always(ans))
  }

  /** The program takes the first notice. A watch is refused removal if the kernel has dropped it; for each one removed
      an event to be ignored is queued. */
  ghost predicate Takes(s: State, ans: Answers, ignored: seq<Notice>, s': State)
    requires Sound(s.tree) && WellFormed(s.m.slots)
  {
    && |s.queue| > 0 && s'.tree == s.tree
    && (forall w :: w in Contents(s.m.slots) ==> (w in ans.refused <==> !IsWatch(s.wd, w)))
    && var r := TakeOne(s, ans);
       && r.stop != AtExit && s'.m == r.m
       && if r.stop.AfterRebuild? then s'.queue == [] && Rewatched(s, ans, s'.wd)
          else s'.queue == s.queue[1..] + ignored && (forall i :: 0 <= i < |ignored| ==> ignored[i].Ignored?)
               && Watching(s, ans, s'.wd)
  }

  /** A new directory is none that was there before. */
  ghost predicate NewIdentity(q: seq<Notice>, a: Deed) {
    a.Mkdir? ==> forall i :: 0 <= i < |q| && q[i].NewDir? ==> q[i].of != Some(a.dir)
  }

  datatype Step = Do(a: Deed, kept: bool) | Split(k: nat, j: nat) | Take(ans: Answers, ignored: seq<Notice>)

  ghost predicate Next(s: State, step: Step, s': State)
    requires Sound(s.tree) && WellFormed(s.m.slots)
  {
    match step
    case Do(a, kept) => Possible(s.tree, a) && NewIdentity(s.queue, a) && s' == After(s, a, kept)
    case Split(k, j) => k < j <= |s.queue| && s.queue[k].Moved? && s' == s.(queue := SplitAt(s.queue, k, j))
    case Take(ans, ignored) => Takes(s, ans, ignored, s')
  }

  // ---------------------------------------------------------------- the two ways to go wrong

  /** The walk is about to cache a directory whose pathname a queued notice still carries elsewhere: that notice is
      older than the arrival of the directory at this pathname. */
  ghost predicate StaleWalk(s: State)
    requires Sound(s.tree) && WellFormed(s.m.slots)
  {
    && Walks(s)
    && var c, q := Contents(s.m.slots), s.queue[1..];
       && Ahead(c, q).Some?
       && exists x :: x in Found(s.tree, WalkPath(s)) && x !in s.wd && Strays(c, q, PathOf(s.tree, x))
  }

  ghost predicate Strays(c: map<int, string>, q: seq<Notice>, path: string)
    requires Ahead(c, q).Some?
  {
    Carried(c, q, path).Some? && Carried(c, q, path).value != path
  }

  /** A rename that nothing reports to the program, because the directory moves out of one that is not watched, though
      the directory or one below it is watched and stays cached. */
  ghost predicate SilentMove(s: State, a: Deed)
    requires Sound(s.tree) && WellFormed(s.m.slots) && Possible(s.tree, a)
  {
    && a.Other? && a.c.Rename? && s.tree.place[a.c.dir].parent !in s.wd
    && var f := Ahead(Contents(s.m.slots), s.queue);
       && f.Some? && (a.c.parent in s.wd ==> s.wd[a.c.parent] in f.value)
       && exists x :: x in s.tree.place && x in s.wd && Below(s.tree, x, a.c.dir) && s.wd[x] in f.value
  }

  ghost predicate Harmful(s: State, step: Step)
    requires Sound(s.tree) && WellFormed(s.m.slots)
  {
    match step
    case Do(a, kept) => kept && Possible(s.tree, a) && SilentMove(s, a)
    case Split(_, _) => false
    case Take(_, _) => StaleWalk(s)
  }
}
