/** Whole runs: other processes change the directories, the kernel queues events and loses some, and the program takes
    them, in any interleaving. */
module BacklogRuns {
  import opened Basics
  import opened Paths
  import opened WatchCache
  import opened InotifyEvents
  import opened InotifyEffects
  import opened WatchedTree
  import opened LaggingReplay
  import opened Backlog
  import opened BacklogDeeds
  import opened BacklogTakes

  // ---------------------------------------------------------------- a rename taken apart

  lemma SubMirrors(c: map<int, string>, d: map<int, string>, t: Tree, wd: map<int, int>)
    requires Sound(t) && Sub(c, d) && Mirrors(d, t, wd)
    ensures Mirrors(c, t, wd)
  {
    hide Sound, PathOf;
  }

  /** Taking a rename for a move out and a new directory leaves fewer entries, and changes none. */
  lemma OutIsSub(c: map<int, string>, n: Notice)
    requires n.Moved? && !Defeats(c, n)
    ensures !Defeats(c, MovedOut(n.w, n.name, n.cookie))
    ensures Sub(Effect(c, MovedOut(n.w, n.name, n.cookie)), Effect(c, n))
  {
    hide AtOrBelow, Join;
  }

  /** A rename that defeats the program still does when it is taken apart. */
  lemma StillDefeats(c: map<int, string>, n: Notice, mid: seq<Notice>)
    requires n.Moved? && Defeats(c, n)
    ensures var q := [MovedOut(n.w, n.name, n.cookie)] + mid + [NewDir(None, n.w2, n.name2, true, n.cookie)];
      Ahead(c, q) == None
  {
    var out, new' := MovedOut(n.w, n.name, n.cookie), NewDir(None, n.w2, n.name2, true, n.cookie);
    AheadConcat(c, [out] + mid, [new']);
    AheadConcat(c, [out], mid);
    AheadOne(c, out);
    if !Defeats(c, out) {
      var d := Effect(c, out);
      if Ahead(d, mid).Some? {
        AheadKeys(d, mid);
        AheadOne(Ahead(d, mid).value, new');
        assert n.w2 !in c.Keys;
        assert d.Keys <= c.Keys;
      }
    }
  }

  lemma ApartAhead(c: map<int, string>, n: Notice, mid: seq<Notice>)
    requires n.Moved?
    ensures var q := [MovedOut(n.w, n.name, n.cookie)] + mid + [NewDir(None, n.w2, n.name2, true, n.cookie)];
      Ahead(c, q).Some? ==> Ahead(c, [n] + mid).Some? && Sub(Ahead(c, q).value, Ahead(c, [n] + mid).value)
  {
    var out, new' := MovedOut(n.w, n.name, n.cookie), NewDir(None, n.w2, n.name2, true, n.cookie);
    if Defeats(c, n) {
      StillDefeats(c, n, mid);
    } else {
      OutIsSub(c, n);
      hide Effect, Sub;
      AheadConcat(c, [out] + mid, [new']);
      AheadConcat(c, [out], mid);
      AheadConcat(c, [n], mid);
      AheadOne(c, out);
      AheadOne(c, n);
      var d, e := Effect(c, out), Effect(c, n);
      if Ahead(d, mid).Some? {
        AheadSub(d, e, mid);
        AheadOne(Ahead(d, mid).value, new');
        if !Defeats(Ahead(d, mid).value, new') {
          NoEffect(Ahead(d, mid).value, new');
        }
      }
    }
  }

  lemma SplitAhead(c: map<int, string>, q: seq<Notice>, k: nat, j: nat)
    requires k < j <= |q| && q[k].Moved?
    ensures Ahead(c, SplitAt(q, k, j)).Some? ==>
      Ahead(c, q).Some? && Sub(Ahead(c, SplitAt(q, k, j)).value, Ahead(c, q).value)
  {
    var n, mid := q[k], q[k + 1..j];
    var apart := [MovedOut(n.w, n.name, n.cookie)] + mid + [NewDir(None, n.w2, n.name2, true, n.cookie)];
    assert SplitAt(q, k, j) == q[..k] + (apart + q[j..]);
    assert q == q[..k] + (([n] + mid) + q[j..]);
    hide Sub, Effect, Defeats, Ahead, SplitAt;
    AheadConcat(c, q[..k], apart + q[j..]);
    AheadConcat(c, q[..k], ([n] + mid) + q[j..]);
    if Ahead(c, q[..k]).Some? {
      var d := Ahead(c, q[..k]).value;
      AheadConcat(d, apart, q[j..]);
      AheadConcat(d, [n] + mid, q[j..]);
      ApartAhead(d, n, mid);
      if Ahead(d, apart).Some? && Ahead(Ahead(d, apart).value, q[j..]).Some? {
        AheadSub(Ahead(d, apart).value, Ahead(d, [n] + mid).value, q[j..]);
      }
    }
  }

  lemma SplitElement(q: seq<Notice>, k: nat, j: nat, i: nat)
    requires k < j <= |q| && q[k].Moved? && i < |SplitAt(q, k, j)|
    ensures i == k ==> SplitAt(q, k, j)[i] == MovedOut(q[k].w, q[k].name, q[k].cookie)
    ensures i == j ==> SplitAt(q, k, j)[i] == NewDir(None, q[k].w2, q[k].name2, true, q[k].cookie)
    ensures i < j && i != k ==> SplitAt(q, k, j)[i] == q[i]
    ensures i > j ==> i - 1 < |q| && SplitAt(q, k, j)[i] == q[i - 1]
  {
  }

  lemma HalvesProper(n: Notice)
    requires n.Moved? && Proper(n)
    ensures Proper(MovedOut(n.w, n.name, n.cookie)) && Proper(NewDir(None, n.w2, n.name2, true, n.cookie))
  {
    assert n.w in Looked(n) && n.w2 in Looked(n);
  }

  lemma SplitKeepsBase(s: State, k: nat, j: nat)
    requires Base(s) && k < j <= |s.queue| && s.queue[k].Moved?
    ensures Base(s.(queue := SplitAt(s.queue, k, j)))
  {
    hide Sound, WellFormed, Contents, IsWatch, Proper, SplitAt;
    var q := SplitAt(s.queue, k, j);
    HalvesProper(s.queue[k]);
    forall i | 0 <= i < |q|
      ensures Proper(q[i]) && (q[i].Gone? ==> !IsWatch(s.wd, q[i].w))
    {
      SplitElement(s.queue, k, j, i);
    }
  }

  /** However late the two halves of a rename are dealt with, the cache is right or there will be a rebuild. */
  lemma SplitKeeps(s: State, k: nat, j: nat)
    requires Inv(s) && k < j <= |s.queue| && s.queue[k].Moved?
    ensures Inv(s.(queue := SplitAt(s.queue, k, j)))
  {
    SplitKeepsBase(s, k, j);
    SplitAhead(Contents(s.m.slots), s.queue, k, j);
    hide Sound, WellFormed, Contents, Ahead, Mirrors, Base, SplitAt;
    var f, g := Ahead(Contents(s.m.slots), s.queue), Ahead(Contents(s.m.slots), SplitAt(s.queue, k, j));
    InvParts(s);
    if g.Some? {
      SubMirrors(g.value, f.value, s.tree, s.wd);
    }
  }

  // ---------------------------------------------------------------- one step

  lemma StepKeepsBase(s: State, step: Step, s': State)
    requires Base(s) && Next(s, step, s')
    ensures Base(s')
  {
    hide Base, Possible, After, Takes, SplitAt;
    match step
    case Do(a, kept) => SoundBase(s); DeedKeepsBase(s, a, kept);
    case Split(k, j) => SplitKeepsBase(s, k, j);
    case Take(ans, ignored) => TakeKeepsBase(s, ans, ignored, s');
  }

  /** A step leaves the cache right, ahead of the queue, if and only if it is not a stale walk or a silent move. */
  lemma StepRightIff(s: State, step: Step, s': State)
    requires Inv(s) && Next(s, step, s')
    ensures Right(s') <==> !Harmful(s, step)
  {
    InvParts(s);
    SoundBase(s);
    hide Base, Possible, After, Takes, SplitAt, Right, StaleWalk, SilentMove, Inv;
    match step
    case Do(a, kept) => DeedRightIff(s, a, kept);
    case Split(k, j) =>
      SplitKeeps(s, k, j);
      InvParts(s');
    case Take(ans, ignored) => TakeRightIff(s, ans, ignored, s');
  }

  // ---------------------------------------------------------------- runs

  ghost predicate Proceeds(s: State, step: Step, s': State) {
    Sound(s.tree) && WellFormed(s.m.slots) && Next(s, step, s')
  }

  ghost predicate Run(ss: seq<State>, steps: seq<Step>) {
    && |ss| == |steps| + 1
    && forall i :: 0 <= i < |steps| ==> Proceeds(ss[i], steps[i], ss[i + 1])
  }

  ghost predicate HarmfulAt(ss: seq<State>, steps: seq<Step>, i: nat)
    requires Run(ss, steps) && i < |steps|
  {
    assert Proceeds(ss[i], steps[i], ss[i + 1]);
    Harmful(ss[i], steps[i])
  }

  lemma RunLength(ss: seq<State>, steps: seq<Step>)
    requires Run(ss, steps)
    ensures |ss| == |steps| + 1
  {
    hide Sound, WellFormed, Next;
  }

  lemma StepAt(ss: seq<State>, steps: seq<Step>, i: nat)
    requires Run(ss, steps) && i < |steps|
    ensures Sound(ss[i].tree) && WellFormed(ss[i].m.slots) && Next(ss[i], steps[i], ss[i + 1])
  {
    hide Sound, WellFormed, Next;
    assert Proceeds(ss[i], steps[i], ss[i + 1]);
  }

  lemma {:induction false} RunKeepsBase(ss: seq<State>, steps: seq<Step>, n: nat)
    requires Run(ss, steps) && Base(ss[0]) && n <= |steps|
    ensures Base(ss[n])
    decreases n
  {
    hide *;
    RunLength(ss, steps);
    if n > 0 {
      RunKeepsBase(ss, steps, n - 1);
      StepAt(ss, steps, n - 1);
      StepKeepsBase(ss[n - 1], steps[n - 1], ss[n]);
    }
  }

  lemma HarmlessStep(ss: seq<State>, steps: seq<Step>, i: nat)
    requires Run(ss, steps) && i < |steps| && Inv(ss[i]) && !HarmfulAt(ss, steps, i) && Base(ss[i + 1])
    ensures Inv(ss[i + 1])
  {
    assert |ss| == |steps| + 1;
    StepAt(ss, steps, i);
    hide Next, Right, Harmful, Run, Base;
    StepRightIff(ss[i], steps[i], ss[i + 1]);
  }

  lemma {:induction false} HarmlessKeeps(ss: seq<State>, steps: seq<Step>, n: nat)
    requires Run(ss, steps) && Inv(ss[0]) && n <= |steps|
    requires forall i :: 0 <= i < n ==> !HarmfulAt(ss, steps, i)
    ensures Inv(ss[n])
    decreases n
  {
    hide *;
    RunLength(ss, steps);
    if n > 0 {
      HarmlessKeeps(ss, steps, n - 1);
      InvParts(ss[0]);
      RunKeepsBase(ss, steps, n);
      HarmlessStep(ss, steps, n - 1);
    }
  }

  /** In every run, whatever other processes do and however far the program is behind, the cache is right all the time
      if and only if there is no stale walk and no silent move. */
  lemma RightIffHarmless(ss: seq<State>, steps: seq<Step>)
    requires Run(ss, steps) && Inv(ss[0])
    ensures (forall i :: 0 <= i < |ss| ==> Right(ss[i]))
       <==> (forall i :: 0 <= i < |steps| ==> !HarmfulAt(ss, steps, i))
  {
    assert |ss| == |steps| + 1;
    hide Run, Inv, Right, HarmfulAt;
    if forall i :: 0 <= i < |steps| ==> !HarmfulAt(ss, steps, i) {
      forall n | 0 <= n < |ss|
        ensures Right(ss[n])
      {
        HarmlessKeeps(ss, steps, n);
        InvParts(ss[n]);
      }
    } else {
      var i := FirstHarm(ss, steps, 0);
      HarmlessKeeps(ss, steps, i);
      HarmIsWrong(ss, steps, i);
    }
  }

  lemma {:induction false} FirstHarm(ss: seq<State>, steps: seq<Step>, from: nat) returns (n: nat)
    requires Run(ss, steps) && from <= |steps|
    requires forall i :: 0 <= i < from ==> !HarmfulAt(ss, steps, i)
    requires exists i :: 0 <= i < |steps| && HarmfulAt(ss, steps, i)
    ensures n < |steps| && HarmfulAt(ss, steps, n) && forall i :: 0 <= i < n ==> !HarmfulAt(ss, steps, i)
    decreases |steps| - from
  {
    hide Run, HarmfulAt;
    n := from;
    if from < |steps| && !HarmfulAt(ss, steps, from) {
      n := FirstHarm(ss, steps, from + 1);
    }
  }

  lemma HarmIsWrong(ss: seq<State>, steps: seq<Step>, i: nat)
    requires Run(ss, steps) && i < |steps| && Inv(ss[i]) && HarmfulAt(ss, steps, i)
    ensures i + 1 < |ss| && !Right(ss[i + 1])
  {
    StepAt(ss, steps, i);
    hide Next, Inv, Right, Harmful, Run;
    StepRightIff(ss[i], steps[i], ss[i + 1]);
  }

  // ---------------------------------------------------------------- when the queue is empty

  /** When nothing is queued, a right cache holds every watched directory once, under its present pathname, and nothing
      else. */
  lemma DrainedIsFaithful(s: State)
    requires Base(s) && s.queue == []
    ensures Right(s) <==> Faithful(Contents(s.m.slots), s.tree, s.wd)
  {
    hide Sound, PathOf, WellFormed, Contents, IsWatch, Proper;
    var c := Contents(s.m.slots);
    assert Ahead(c, []) == Some(c);
    if Faithful(c, s.tree, s.wd) {
      forall w | w in c
        ensures exists d :: d in s.wd && s.wd[d] == w && d in s.tree.place && c[w] == PathOf(s.tree, d)
      {
        var d :| d in s.wd && s.wd[d] == w;
      }
    }
  }

  /** A cache that mirrors the directories, with nothing queued, is right. */
  lemma InStepIsRight(m: Mirror, t: Tree, wd: map<int, int>)
    requires InStep(m, t, wd)
    ensures Inv(State(t, wd, m, []))
  {
    InStepParts(m, t, wd);
    hide InStep, Sound, WellFormed, Contents, PathOf, RootsMatch;
    var s := State(t, wd, m, []);
    assert s.wd.Keys <= s.tree.place.Keys;
    DrainedIsFaithful(s);
  }

  // ---------------------------------------------------------------- the program alone

  ghost predicate RebuildsAt(ss: seq<State>, steps: seq<Step>, i: nat)
    requires Run(ss, steps) && i < |steps|
  {
    steps[i].Take? && |ss[i].queue| > 0 && TakeOne(ss[i], steps[i].ans).stop == AfterRebuild
  }

  /** The program works through the queue while nobody changes anything, and does not rebuild. */
  ghost predicate CatchesUp(ss: seq<State>, steps: seq<Step>) {
    && Run(ss, steps)
    && forall i :: 0 <= i < |steps| ==> steps[i].Take? && !RebuildsAt(ss, steps, i)
  }

  /** An entry that is on the way to a wrong pathname gets there, unless the program rebuilds. */
  lemma WrongStays(s: State, ans: Answers, ignored: seq<Notice>, s': State)
    requires Base(s) && Takes(s, ans, ignored, s') && TakeOne(s, ans).stop != AfterRebuild && Base(s')
    requires !Right(s)
    ensures !Right(s')
  {
    AheadTaken(s, ans, ignored, s');
    TakesParts(s, ans, ignored, s');
    hide Sound, PathOf, WellFormed, Contents, TakeOne, Effect, Defeats, Takes, Added, Watching, Proper, OneWatchEach,
         IsWatch, Ahead, Unnamed;
    var c, e, q := Effect(Contents(s.m.slots), s.queue[0]), Added(s, s'.wd), s.queue[1..];
    AheadWith(c, e, q);
    AheadKeys(c, q);
    var f, g := Ahead(c, q).value, Ahead(c + e, q).value;
    var w :| w in f && !RightEntry(f, s.tree, s.wd, w);
    OldStaysWrong(s, ans, s'.wd, f, g, w);
    assert w in g && !RightEntry(g, s.tree, s'.wd, w);
  }

  lemma OldStaysWrong(s: State, ans: Answers, wd: map<int, int>, f: map<int, string>, g: map<int, string>, w: int)
    requires Base(s) && OneWatchEach(wd) && TakenAhead(s, wd, g) && Watching(s, ans, wd)
    requires Ahead(Contents(s.m.slots), s.queue) == Some(f) && w in f && !RightEntry(f, s.tree, s.wd, w)
    ensures w in g && !RightEntry(g, s.tree, wd, w)
  {
    hide Sound, PathOf, WellFormed, Contents, Effect, Defeats, Added, Watching, Proper, OneWatchEach, IsWatch, Ahead;
    var c, e, q := Effect(Contents(s.m.slots), s.queue[0]), Added(s, wd), s.queue[1..];
    AheadWith(c, e, q);
    AheadKeys(c, q);
    assert w in c.Keys;
    assert w !in e;
    if RightEntry(g, s.tree, wd, w) {
      var d :| d in wd && wd[d] == w && d in s.tree.place && g[w] == PathOf(s.tree, d);
      OldWatch(s, ans, wd, d);
    }
  }

  /** A watch that the walk did not add was there before. */
  lemma OldWatch(s: State, ans: Answers, wd: map<int, int>, d: int)
    requires Base(s) && OneWatchEach(wd) && |s.queue| > 0 && Watching(s, ans, wd) && d in wd && wd[d] !in Added(s, wd)
    ensures d in s.wd && s.wd[d] == wd[d]
  {
    hide Sound, WellFormed, Contents, PathOf, Added, Walks, WalkPath, Found, WalkOf, From, AtOrBelow;
    if d !in s.wd {
      assert d in wd.Keys;
      AddedEntry(s, wd, d);
    }
  }

  lemma CatchUpStep(ss: seq<State>, steps: seq<Step>, i: nat)
    requires CatchesUp(ss, steps) && i < |steps| && Base(ss[i])
    ensures i + 1 < |ss| && steps[i].Take? && Takes(ss[i], steps[i].ans, steps[i].ignored, ss[i + 1])
    ensures |ss[i].queue| > 0 && TakeOne(ss[i], steps[i].ans).stop != AfterRebuild
  {
    RunLength(ss, steps);
    StepAt(ss, steps, i);
    assert !RebuildsAt(ss, steps, i);
    SoundBase(ss[i]);
    TakesParts(ss[i], steps[i].ans, steps[i].ignored, ss[i + 1]);
  }

  lemma {:induction false} WrongToTheEnd(ss: seq<State>, steps: seq<Step>, i: nat)
    requires CatchesUp(ss, steps) && Base(ss[0]) && i <= |steps| && i < |ss| && !Right(ss[i])
    ensures !Right(ss[|steps|])
    decreases |steps| - i
  {
    hide *;
    CatchUpIsRun(ss, steps);
    RunLength(ss, steps);
    if i < |steps| {
      RunKeepsBase(ss, steps, i);
      RunKeepsBase(ss, steps, i + 1);
      CatchUpStep(ss, steps, i);
      WrongStays(ss[i], steps[i].ans, steps[i].ignored, ss[i + 1]);
      WrongToTheEnd(ss, steps, i + 1);
    }
  }

  lemma CatchUpIsRun(ss: seq<State>, steps: seq<Step>)
    requires CatchesUp(ss, steps)
    ensures Run(ss, steps)
  {
  }

  /** Whatever others did before: when the program then works through the queue, the cache ends up right if and only if
      no walk is stale. */
  lemma CaughtUpIff(ss: seq<State>, steps: seq<Step>)
    requires CatchesUp(ss, steps) && Inv(ss[0])
    ensures |ss| == |steps| + 1 && Run(ss, steps)
    ensures ss[|steps|].queue == [] ==>
      var last := ss[|steps|];
      Sound(last.tree) && WellFormed(last.m.slots) &&
      (Faithful(Contents(last.m.slots), last.tree, last.wd)
       <==> forall i :: 0 <= i < |steps| ==> !HarmfulAt(ss, steps, i))
  {
    hide *;
    CatchUpIsRun(ss, steps);
    RunLength(ss, steps);
    InvParts(ss[0]);
    RunKeepsBase(ss, steps, |steps|);
    SoundBase(ss[|steps|]);
    if ss[|steps|].queue == [] {
      DrainedIsFaithful(ss[|steps|]);
      if forall i :: 0 <= i < |steps| ==> !HarmfulAt(ss, steps, i) {
        HarmlessKeeps(ss, steps, |steps|);
        InvParts(ss[|steps|]);
      } else {
        var i := FirstHarm(ss, steps, 0);
        HarmlessKeeps(ss, steps, i);
        HarmIsWrong(ss, steps, i);
        WrongToTheEnd(ss, steps, i + 1);
      }
    }
  }

  lemma DefeatStays(s: State, ans: Answers, ignored: seq<Notice>, s': State)
    requires Base(s) && Takes(s, ans, ignored, s') && TakeOne(s, ans).stop != AfterRebuild
    requires Ahead(Contents(s.m.slots), s.queue) == None
    ensures WellFormed(s'.m.slots) && Ahead(Contents(s'.m.slots), s'.queue) == None
  {
    AheadTaken(s, ans, ignored, s');
    hide Sound, WellFormed, Contents, TakeOne, Effect, Defeats, Takes, Added, Proper, OneWatchEach, IsWatch, Ahead,
         Unnamed;
    AheadWith(Effect(Contents(s.m.slots), s.queue[0]), Added(s, s'.wd), s.queue[1..]);
  }

  lemma DrainedIsSome(s: State)
    requires WellFormed(s.m.slots) && Ahead(Contents(s.m.slots), s.queue) == None
    ensures s.queue != []
  {
    hide WellFormed, Contents;
  }

  /** If the queue holds a notice that defeats the program, it cannot catch up without a rebuild. */
  lemma {:induction false} DefeatLeadsToRebuild(ss: seq<State>, steps: seq<Step>, i: nat)
    requires CatchesUp(ss, steps) && Base(ss[0]) && i <= |steps| && i < |ss|
    requires WellFormed(ss[i].m.slots) && Ahead(Contents(ss[i].m.slots), ss[i].queue) == None
    ensures |steps| < |ss| && ss[|steps|].queue != []
    decreases |steps| - i
  {
    hide *;
    CatchUpIsRun(ss, steps);
    RunLength(ss, steps);
    if i < |steps| {
      RunKeepsBase(ss, steps, i);
      CatchUpStep(ss, steps, i);
      DefeatStays(ss[i], steps[i].ans, steps[i].ignored, ss[i + 1]);
      DefeatLeadsToRebuild(ss, steps, i + 1);
    } else {
      DrainedIsSome(ss[i]);
    }
  }

  // ---------------------------------------------------------------- a history, and then the program

  /** Every directory whose entry stays is in one whose entry stays. */
  ghost predicate Closed(s: State)
    requires WellFormed(s.m.slots)
  {
    var f := Ahead(Contents(s.m.slots), s.queue);
    f.Some? ==> ClosedIn(f.value, s.tree, s.wd)
  }

  ghost predicate ClosedIn(f: map<int, string>, t: Tree, wd: map<int, int>) {
    forall d :: Stays(f, t, wd, d) && t.place[d].In? ==> Stays(f, t, wd, t.place[d].parent)
  }

  ghost predicate Stays(f: map<int, string>, t: Tree, wd: map<int, int>, d: int) {
    d in t.place && d in wd && wd[d] in f
  }

  /** Then nothing that stays cached lies below a directory that does not. */
  lemma {:induction false} ClosedUp(f: map<int, string>, t: Tree, wd: map<int, int>, x: int, d: int)
    requires Sound(t) && ClosedIn(f, t, wd) && Stays(f, t, wd, x) && Below(t, x, d)
    ensures Stays(f, t, wd, d)
    decreases t.rank[x]
  {
    hide PlacesApart;
    if x != d {
      ClosedUp(f, t, wd, t.place[x].parent, d);
    }
  }

  lemma ClosedNotSilent(s: State, a: Deed)
    requires Inv(s) && Closed(s) && Possible(s.tree, a)
    ensures !SilentMove(s, a)
  {
    InvParts(s);
    if a.Other? && a.c.Rename? {
      RenameIsIn(s.tree, a.c);
    }
    hide WellFormed, Contents, Ahead, PathOf, Base, Right, Sound;
    if SilentMove(s, a) {
      var f := Ahead(Contents(s.m.slots), s.queue).value;
      var x :| x in s.tree.place && x in s.wd && Below(s.tree, x, a.c.dir) && s.wd[x] in f;
      ClosedUp(f, s.tree, s.wd, x, a.c.dir);
    }
  }

  lemma RenameClosed(f: map<int, string>, t: Tree, wd: map<int, int>, c: Change, f': map<int, string>)
    requires Sound(t) && ClosedIn(f, t, wd) && c.Rename? && Allowed(t, c)
    requires t.place[c.dir].parent in wd ==> c.parent in wd && wd[c.parent] in f
    requires f'.Keys == f.Keys
    ensures ClosedIn(f', TreeAfter(t, c), wd)
  {
    hide Sound, Below;
    var u := TreeAfter(t, c);
    forall x | Stays(f', u, wd, x) && u.place[x].In?
      ensures Stays(f', u, wd, u.place[x].parent)
    {
      assert Stays(f, t, wd, x);
      assert Stays(f, t, wd, t.place[c.dir].parent) ==> t.place[c.dir].parent in wd;
    }
  }

  lemma MoveOutClosed(f: map<int, string>, t: Tree, wd: map<int, int>, c: Change, n: Notice)
    requires Sound(t) && OneWatchEach(wd) && Mirrors(f, t, wd) && ClosedIn(f, t, wd) && c.Rename? && Allowed(t, c)
    requires t.place[c.dir].parent in wd && n == MovedOut(wd[t.place[c.dir].parent], t.place[c.dir].name, c.cookie)
    requires !Defeats(f, n)
    ensures ClosedIn(Effect(f, n), TreeAfter(t, c), wd)
  {
    var u, p := TreeAfter(t, c), t.place[c.dir];
    EntryOf(f, t, wd, p.parent);
    assert From(f, n) == PathOf(t, c.dir);
    forall x | Stays(Effect(f, n), u, wd, x) && u.place[x].In?
      ensures Stays(Effect(f, n), u, wd, u.place[x].parent)
    {
      assert Stays(f, t, wd, x);
      EntryOf(f, t, wd, x);
      var q := t.place[x].parent;
      assert x != c.dir;
      assert Stays(f, t, wd, q);
      EntryOf(f, t, wd, q);
      BelowMeansParentAtOrBelow(PathOf(t, c.dir), PathOf(t, q), t.place[x].name);
    }
  }

  lemma RemoveClosed(f: map<int, string>, t: Tree, wd: map<int, int>, d: int, f': map<int, string>)
    requires Sound(t) && OneWatchEach(wd) && ClosedIn(f, t, wd) && CanRemove(t, d)
    requires f'.Keys == if d in wd then f.Keys - {wd[d]} else f.Keys
    ensures ClosedIn(f', Removed(t, d), wd - {d})
  {
    hide PlacesApart;
    var u, wd' := Removed(t, d), wd - {d};
    forall x | Stays(f', u, wd', x) && u.place[x].In?
      ensures Stays(f', u, wd', u.place[x].parent)
    {
      assert Stays(f, t, wd, x);
    }
  }

  lemma MakeClosed(f: map<int, string>, t: Tree, wd: map<int, int>, d: int, parent: int, name: string)
    requires Sound(t) && wd.Keys <= t.place.Keys && ClosedIn(f, t, wd) && CanMake(t, d, parent, name)
    ensures ClosedIn(f, Made(t, d, parent, name), wd)
  {
    hide Sound;
    var u := Made(t, d, parent, name);
    forall x | Stays(f, u, wd, x) && u.place[x].In?
      ensures Stays(f, u, wd, u.place[x].parent)
    {
      assert x in wd.Keys;
      assert Stays(f, t, wd, x);
    }
  }

  lemma EffectKeys(f: map<int, string>, n: Notice)
    requires !Defeats(f, n) && !n.MovedOut?
    ensures Effect(f, n).Keys == if n.Gone? then f.Keys - {n.w} else f.Keys
  {
    hide Rebase;
    assert forall w :: w in Effect(f, n) <==> w in f && !(n.Gone? && w == n.w);
  }

  lemma DeedClosed(f: map<int, string>, t: Tree, wd: map<int, int>, a: Deed)
    requires Sound(t) && OneWatchEach(wd) && wd.Keys <= t.place.Keys && Mirrors(f, t, wd) && ClosedIn(f, t, wd)
    requires Possible(t, a)
    requires var ns := NoticesOf(t, wd, a); |ns| == 1 ==> !Defeats(f, ns[0])
    ensures var ns := NoticesOf(t, wd, a);
      ClosedIn(if |ns| == 1 then Effect(f, ns[0]) else f, TreeBy(t, a), WatchesBy(wd, a))
  {
    var ns := NoticesOf(t, wd, a);
    var f' := if |ns| == 1 then Effect(f, ns[0]) else f;
    hide Sound, Mirrors, ClosedIn, Made, CanMake, Renamed, CanRename, Removed, CanRemove, Effect;
    if |ns| == 1 && !ns[0].MovedOut? {
      EffectKeys(f, ns[0]);
    }
    match a
    case Mkdir(d, parent, name) =>
      MakeClosed(f, t, wd, d, parent, name);
      if parent in wd {
        NoEffect(f, ns[0]);
      }
    case Other(Rename(d, parent, _, _)) =>
      RenameIsIn(t, a.c);
      if t.place[d].parent in wd && parent !in wd {
        MoveOutClosed(f, t, wd, a.c, ns[0]);
      } else {
        RenameClosed(f, t, wd, a.c, f');
      }
    case Other(Rmdir(d)) => RemoveClosed(f, t, wd, d, f');
    case Other(FileEvent(d, _, _, _)) =>
      FileKeepsTree(t, wd, a.c);
      if d in wd {
        NoEffect(f, ns[0]);
      }
  }

  lemma DeedKeepsClosed(s: State, a: Deed, kept: bool)
    requires Inv(s) && Closed(s) && Possible(s.tree, a)
    ensures Inv(After(s, a, kept)) && Closed(After(s, a, kept))
  {
    InvParts(s);
    SoundBase(s);
    ClosedNotSilent(s, a);
    assert s.wd.Keys <= s.tree.place.Keys;
    hide Base, Possible, TreeBy, NoticesOf, WellFormed, Contents, Ahead, ClosedIn, Defeats, Effect, SilentMove, Sound,
         Mirrors;
    DeedKeepsBase(s, a, kept);
    DeedRightIff(s, a, kept);
    if !kept {
      OverflowAhead(s);
    } else {
      AheadAfter(s, a);
      var f := Ahead(Contents(s.m.slots), s.queue);
      if f.Some? {
        var ns := NoticesOf(s.tree, s.wd, a);
        if |ns| == 0 || !Defeats(f.value, ns[0]) {
          DeedClosed(f.value, s.tree, s.wd, a);
        }
      }
    }
  }

  lemma CompleteIsClosed(m: Mirror, t: Tree, wd: map<int, int>)
    requires InStep(m, t, wd)
    ensures Inv(State(t, wd, m, [])) && Closed(State(t, wd, m, []))
  {
    InStepIsRight(m, t, wd);
    InStepParts(m, t, wd);
    hide WellFormed, Contents, PathOf, RootsMatch, PlacesApart;
    var f := Contents(m.slots);
    assert Ahead(f, []) == Some(f);
    forall d | Stays(f, t, wd, d) && t.place[d].In?
      ensures Stays(f, t, wd, t.place[d].parent)
    {
      assert t.place[d].parent in wd.Keys;
    }
  }

  lemma {:induction false} DeedsKeep(ss: seq<State>, steps: seq<Step>, n: nat)
    requires Run(ss, steps) && Inv(ss[0]) && Closed(ss[0]) && n <= |steps|
    requires forall i :: 0 <= i < n ==> steps[i].Do?
    ensures Inv(ss[n]) && Closed(ss[n])
    decreases n
  {
    hide *;
    RunLength(ss, steps);
    if n > 0 {
      DeedsKeep(ss, steps, n - 1);
      DeedAt(ss, steps, n - 1);
      DeedKeepsClosed(ss[n - 1], steps[n - 1].a, steps[n - 1].kept);
    }
  }

  lemma DeedAt(ss: seq<State>, steps: seq<Step>, i: nat)
    requires Run(ss, steps) && i < |steps| && steps[i].Do?
    ensures Sound(ss[i].tree) && Possible(ss[i].tree, steps[i].a)
    ensures ss[i + 1] == After(ss[i], steps[i].a, steps[i].kept)
  {
    StepAt(ss, steps, i);
    hide Sound, WellFormed, Possible, After, Run;
  }

  lemma RunSuffix(ss: seq<State>, steps: seq<Step>, k: nat)
    requires Run(ss, steps) && k <= |steps|
    ensures Run(ss[k..], steps[k..])
    ensures forall i :: 0 <= i < |steps| - k ==> (HarmfulAt(ss[k..], steps[k..], i) <==> HarmfulAt(ss, steps, k + i))
  {
    hide Proceeds, Harmful;
    var ss', steps' := ss[k..], steps[k..];
    forall i | 0 <= i < |steps'|
      ensures Proceeds(ss'[i], steps'[i], ss'[i + 1])
    {
      assert Proceeds(ss[k + i], steps[k + i], ss[k + i + 1]);
    }
  }

  /** From a complete cache, directories are made, renamed and removed anywhere, k times, and then the program works
      through all that is queued without a rebuild. The cache ends up right if and only if none of its walks found a
      directory, not watched yet, at a pathname that a queued notice still carried elsewhere. */
  lemma HistoryThenProgram(ss: seq<State>, steps: seq<Step>, k: nat)
    requires Run(ss, steps) && Inv(ss[0]) && Closed(ss[0]) && k <= |steps|
    requires forall i :: 0 <= i < k ==> steps[i].Do?
    requires CatchesUp(ss[k..], steps[k..])
    ensures |ss| == |steps| + 1
    ensures ss[|steps|].queue == [] ==>
      var last := ss[|steps|];
      Sound(last.tree) && WellFormed(last.m.slots) &&
      (Faithful(Contents(last.m.slots), last.tree, last.wd)
       <==> forall i :: k <= i < |steps| ==> !HarmfulAt(ss, steps, i))
  {
    hide *;
    RunLength(ss, steps);
    DeedsKeep(ss, steps, k);
    RunSuffix(ss, steps, k);
    CaughtUpIff(ss[k..], steps[k..]);
    assert ss[k..][|steps| - k] == ss[|steps|];
    assert forall i :: k <= i < |steps| ==> (HarmfulAt(ss, steps, i) <==> HarmfulAt(ss[k..], steps[k..], i - k));
  }

  // ---------------------------------------------------------------- one directory

  /** The step gives the directory a watch: a walk comes to it. */
  ghost predicate Finds(s: State, step: Step, d: int)
    requires Sound(s.tree) && WellFormed(s.m.slots)
  {
    && step.Take? && |s.queue| > 0
    && if TakeOne(s, step.ans).stop == AfterRebuild then d in FoundByRoots(s.tree, s.m.roots)
       else Walks(s) && d in Found(s.tree, WalkPath(s))
  }

  ghost predicate FindsAt(ss: seq<State>, steps: seq<Step>, i: nat, d: int)
    requires Run(ss, steps) && i < |steps|
  {
    assert Proceeds(ss[i], steps[i], ss[i + 1]);
    Finds(ss[i], steps[i], d)
  }

  /** A directory gets a watch when a walk comes to it, and in no other way. */
  lemma WatchedByWalk(s: State, step: Step, s': State, d: int)
    requires Base(s) && Next(s, step, s')
    ensures Finds(s, step, d) ==> d in s'.wd
    ensures d in s'.wd ==> d in s.wd || Finds(s, step, d)
  {
    hide WellFormed, Contents, Sound, TakeOne, Walks, WalkPath, Found, WalkOf, IsWatch, Proper, Possible, TreeBy,
         NoticesOf, SplitAt, From, AtOrBelow, FoundByRoots;
    assert d in s'.wd <==> d in s'.wd.Keys;
    assert d in s.wd <==> d in s.wd.Keys;
  }

  /** After step i the directory keeps its watch, up to state n. */
  ghost predicate Kept(ss: seq<State>, i: nat, n: nat, d: int)
    requires n < |ss|
  {
    forall j :: i < j <= n ==> d in ss[j].wd
  }

  lemma FindStep(ss: seq<State>, steps: seq<Step>, i: nat, d: int)
    requires Run(ss, steps) && i < |steps| && Base(ss[i])
    ensures i + 1 < |ss|
    ensures FindsAt(ss, steps, i, d) ==> d in ss[i + 1].wd
    ensures d in ss[i + 1].wd ==> d in ss[i].wd || FindsAt(ss, steps, i, d)
  {
    RunLength(ss, steps);
    StepAt(ss, steps, i);
    hide Next, Base, Finds, Run;
    WatchedByWalk(ss[i], steps[i], ss[i + 1], d);
  }

  /** A directory has a watch in state n if and only if it kept the one it had at first, or some walk came to it and the
      watch stayed. */
  lemma {:induction false} WatchedIffFound(ss: seq<State>, steps: seq<Step>, n: nat, d: int)
    requires Run(ss, steps) && Base(ss[0]) && n <= |steps|
    ensures n < |ss|
    ensures d in ss[n].wd <==>
      || (d in ss[0].wd && Kept(ss, 0, n, d))
      || exists i :: 0 <= i < n && FindsAt(ss, steps, i, d) && Kept(ss, i, n, d)
    decreases n
  {
    hide Run, Base, FindsAt;
    RunLength(ss, steps);
    if n > 0 {
      WatchedIffFound(ss, steps, n - 1, d);
      RunKeepsBase(ss, steps, n - 1);
      FindStep(ss, steps, n - 1, d);
      if d in ss[n].wd {
        if d !in ss[n - 1].wd {
          assert Kept(ss, n - 1, n, d);
        } else if d in ss[0].wd && Kept(ss, 0, n - 1, d) {
          assert Kept(ss, 0, n, d);
        } else {
          var i :| 0 <= i < n - 1 && FindsAt(ss, steps, i, d) && Kept(ss, i, n - 1, d);
          assert Kept(ss, i, n, d);
        }
      }
    }
  }

  /** The step takes the directory's watch away: it is removed, or its entry is zapped as moved out, or a rebuild does
      not come to it. */
  ghost predicate Loses(s: State, step: Step, d: int)
    requires Sound(s.tree) && WellFormed(s.m.slots) && d in s.wd
  {
    var c := Contents(s.m.slots);
    match step
    case Do(a, _) => a == Other(Rmdir(d))
    case Split(_, _) => false
    case Take(ans, _) =>
      |s.queue| > 0 &&
      if TakeOne(s, ans).stop == AfterRebuild then d !in FoundByRoots(s.tree, s.m.roots)
      else
        && s.queue[0].MovedOut? && s.queue[0].w in c
        && s.wd[d] in c && AtOrBelow(From(c, s.queue[0]), c[s.wd[d]])
  }

  lemma LostIff(s: State, step: Step, s': State, d: int)
    requires Base(s) && Next(s, step, s') && d in s.wd
    ensures d !in s'.wd <==> Loses(s, step, d)
  {
    hide WellFormed, Contents, Sound, TakeOne, PathCached, Found, WalkOf, IsWatch, Proper, Possible, TreeBy, NoticesOf,
         SplitAt, From, AtOrBelow, FoundByRoots;
    assert d in s'.wd <==> d in s'.wd.Keys;
    assert d in s.wd.Keys;
  }

  /** The directory is in the cache under its present pathname. */
  ghost predicate Cached(m: Mirror, t: Tree, d: int)
    requires Sound(t) && d in t.place && WellFormed(m.slots)
  {
    exists w :: w in Contents(m.slots) && Contents(m.slots)[w] == PathOf(t, d)
  }

  lemma CachedIffWatched(s: State, d: int)
    requires Base(s) && Faithful(Contents(s.m.slots), s.tree, s.wd) && d in s.tree.place
    ensures Cached(s.m, s.tree, d) <==> d in s.wd
  {
    hide Sound, PathOf, WellFormed, Contents, Proper, IsWatch;
    var c := Contents(s.m.slots);
    if d in s.wd {
      assert s.wd[d] in c;
    } else if w :| w in c && c[w] == PathOf(s.tree, d) {
      var e :| e in s.wd && s.wd[e] == w;
      PathInjective(s.tree, d, e);
    }
  }

  /** In a run without harm, when nothing is queued any more, a directory is cached under its present pathname if and
      only if it kept the watch it had at first, or some walk started while it was at or below the pathname walked, and
      its watch was not lost again. */
  lemma CachedIffFound(ss: seq<State>, steps: seq<Step>, d: int)
    requires Run(ss, steps) && Inv(ss[0])
    requires forall i :: 0 <= i < |steps| ==> !HarmfulAt(ss, steps, i)
    requires |ss| == |steps| + 1 && ss[|steps|].queue == [] && d in ss[|steps|].tree.place
    ensures var last := ss[|steps|];
      Sound(last.tree) && WellFormed(last.m.slots) &&
      (Cached(last.m, last.tree, d) <==>
         || (d in ss[0].wd && Kept(ss, 0, |steps|, d))
         || exists i :: 0 <= i < |steps| && FindsAt(ss, steps, i, d) && Kept(ss, i, |steps|, d))
  {
    hide *;
    var last := ss[|steps|];
    HarmlessKeeps(ss, steps, |steps|);
    InvParts(last);
    SoundBase(last);
    DrainedIsFaithful(last);
    CachedIffWatched(last, d);
    InvParts(ss[0]);
    WatchedIffFound(ss, steps, |steps|, d);
  }

  // ---------------------------------------------------------------- rebuilding

  lemma {:induction false} BelowTop(t: Tree, d: int)
    requires Sound(t) && d in t.place
    ensures Below(t, d, TopOf(t, d))
    decreases t.rank[d]
  {
    if t.place[d].In? {
      BelowTop(t, t.place[d].parent);
    }
  }

  lemma UnderRoot(t: Tree, roots: seq<Option<string>>, d: int)
    requires Sound(t) && d in t.place && forall r, p :: At(t, r, Top(p)) ==> IsRoot(roots, p)
    ensures d in FoundByRoots(t, roots)
  {
    BelowTop(t, d);
    hide PlacesApart, RootIndex;
    var r := TopOf(t, d);
    assert At(t, r, Top(PathOf(t, r)));
    var i := RootIndex(roots, PathOf(t, r));
    assert roots[i] == Some(PathOf(t, r));
    assert d in Found(t, roots[i].value);
  }

  lemma AllUnderRoots(t: Tree, roots: seq<Option<string>>)
    requires Sound(t) && forall r, p :: At(t, r, Top(p)) ==> IsRoot(roots, p)
    ensures FoundByRoots(t, roots) == t.place.Keys
  {
    assert FoundByRoots(t, roots) <= t.place.Keys;
    hide FoundByRoots, Sound, IsRoot;
    forall d | d in t.place
      ensures d in FoundByRoots(t, roots)
    {
      UnderRoot(t, roots, d);
    }
  }

  /** If every root directory is on the root list, a rebuild leaves a complete cache, whatever state it started in. */
  lemma RebuildComplete(s: State, ans: Answers, ignored: seq<Notice>, s': State)
    requires Base(s) && Takes(s, ans, ignored, s') && TakeOne(s, ans).stop == AfterRebuild
    requires forall r, p :: At(s.tree, r, Top(p)) ==> IsRoot(s.m.roots, p)
    ensures Inv(s') && s'.queue == [] && s'.tree == s.tree && s'.wd.Keys == s'.tree.place.Keys
    ensures Faithful(Contents(s'.m.slots), s'.tree, s'.wd)
  {
    hide *;
    TakesParts(s, ans, ignored, s');
    RebuildRight(s, ans, ignored, s');
    InvParts(s');
    SoundBase(s');
    DrainedIsFaithful(s');
    AllUnderRoots(s.tree, s.m.roots);
    RewatchedKeys(s, ans, s'.wd);
  }

  lemma RewatchedKeys(s: State, ans: Answers, wd: map<int, int>)
    requires Sound(s.tree) && Rewatched(s, ans, wd)
    ensures wd.Keys == FoundByRoots(s.tree, s.m.roots)
  {
    hide Sound, FoundByRoots, WalkOf;
  }

  // ---------------------------------------------------------------- the program's own view of a run

  /** The events that the program takes, one chunk for each notice. */
  ghost function Chunks(ss: seq<State>, steps: seq<Step>): seq<seq<Event>>
    requires |ss| == |steps| + 1
    decreases |steps|
  {
    if |steps| == 0 then []
    else
      (if steps[0].Take? && |ss[0].queue| > 0 then [EventsOf(ss[0].queue[0])] else []) + Chunks(ss[1..], steps[1..])
  }

  /** ans(pos + i) are the kernel's answers for the event at index i of all that are taken. */
  ghost predicate AnswersFit(ss: seq<State>, steps: seq<Step>, pos: nat, ans: nat -> Answers)
    requires |ss| == |steps| + 1
    decreases |steps|
  {
    |steps| > 0 ==>
      if steps[0].Take? && |ss[0].queue| > 0 then
        && (forall i :: pos <= i < pos + |EventsOf(ss[0].queue[0])| ==> ans(i) == steps[0].ans)
        && AnswersFit(ss[1..], steps[1..], pos + |EventsOf(ss[0].queue[0])|, ans)
      else AnswersFit(ss[1..], steps[1..], pos, ans)
  }

  lemma {:induction false} SameAnswers(m: Mirror, evs: seq<Event>, pos: nat, ans: nat -> Answers, a: Answers, i: nat)
    requires forall k :: pos <= k < pos + |evs| ==> ans(k) == a
    ensures Replay(m, evs, pos, ans) == Replay(m, evs, i, Always(a))
    decreases |evs|
  {
    hide Process, Replay;
    ReplayUnfolds(m, evs, pos, ans);
    ReplayUnfolds(m, evs, i, Always(a));
    if |evs| > 0 {
      var (m', o) := Process(m, evs[0], NextOf(evs), false, a);
      if o.Took? {
        SameAnswers(m', evs[o.n..], pos + o.n, ans, a, i + o.n);
      }
    }
  }

  ghost predicate Unbroken(ss: seq<State>, steps: seq<Step>) {
    Run(ss, steps) && forall i :: 0 <= i < |steps| ==> !RebuildsAt(ss, steps, i)
  }

  lemma UnbrokenTail(ss: seq<State>, steps: seq<Step>)
    requires Unbroken(ss, steps) && |steps| > 0
    ensures |ss| == |steps| + 1 && Proceeds(ss[0], steps[0], ss[1]) && Unbroken(ss[1..], steps[1..])
    ensures steps[0].Take? ==> |ss[0].queue| > 0 && TakeOne(ss[0], steps[0].ans).stop == Drained
    ensures steps[0].Take? ==> ss[1].m == TakeOne(ss[0], steps[0].ans).m
    ensures !steps[0].Take? ==> ss[1].m == ss[0].m
  {
    assert Proceeds(ss[0], steps[0], ss[1]);
    assert !RebuildsAt(ss, steps, 0);
    assert Run(ss[1..], steps[1..]) by {
      RunSuffix(ss, steps, 1);
    }
    forall i | 0 <= i < |steps[1..]|
      ensures !RebuildsAt(ss[1..], steps[1..], i)
    {
      assert !RebuildsAt(ss, steps, i + 1);
    }
  }

  lemma ChunkTaken(m: Mirror, evs: seq<Event>, rest: seq<seq<Event>>, pos: nat, ans: nat -> Answers)
    requires Replay(m, evs, pos, ans).stop == Drained
    ensures var r := Replay(m, evs, pos, ans);
      var q := ReplayChunks(r.m, rest, pos + |evs|, ans);
      ReplayChunks(m, [evs] + rest, pos, ans) == Progress(q.m, |evs| + q.used, q.stop)
  {
    hide Replay;
    assert ([evs] + rest)[0] == evs && ([evs] + rest)[1..] == rest;
  }

  /** What the program does in a run without rebuilds is its replay of the events that it takes, whatever happens in
      between. */
  lemma {:induction false} RunIsReplay(ss: seq<State>, steps: seq<Step>, pos: nat, ans: nat -> Answers)
    requires Unbroken(ss, steps) && |ss| == |steps| + 1 && AnswersFit(ss, steps, pos, ans)
    ensures var r := ReplayChunks(ss[0].m, Chunks(ss, steps), pos, ans);
      r.stop == Drained && r.m == ss[|steps|].m
    decreases |steps|
  {
    hide Unbroken, Replay, EventsOf, TakeOne, Proceeds;
    if |steps| > 0 {
      UnbrokenTail(ss, steps);
      if steps[0].Take? {
        var evs := EventsOf(ss[0].queue[0]);
        RunIsReplay(ss[1..], steps[1..], pos + |evs|, ans);
        OneChunk(ss[0], steps[0].ans, pos, ans);
        ChunkTaken(ss[0].m, evs, Chunks(ss[1..], steps[1..]), pos, ans);
      } else {
        RunIsReplay(ss[1..], steps[1..], pos, ans);
        assert [] + Chunks(ss[1..], steps[1..]) == Chunks(ss[1..], steps[1..]);
      }
    }
  }

  lemma OneChunk(s: State, a: Answers, pos: nat, ans: nat -> Answers)
    requires |s.queue| > 0 && forall i :: pos <= i < pos + |EventsOf(s.queue[0])| ==> ans(i) == a
    ensures Replay(s.m, EventsOf(s.queue[0]), pos, ans) == TakeOne(s, a)
  {
    hide Replay, EventsOf;
    SameAnswers(s.m, EventsOf(s.queue[0]), pos, ans, a, 0);
  }
}
