/** Which directory a queued notice is about, and what a walk for it may find instead. */
module BacklogReports {
  import opened Basics
  import opened Paths
  import opened WatchCache
  import opened InotifyEvents
  import opened WatchedTree
  import opened LaggingReplay
  import opened Backlog
  import opened BacklogDeeds
  import opened BacklogTakes
  import opened BacklogRuns

  // ---------------------------------------------------------------- where a reported directory ends up

  lemma AheadAt(c: map<int, string>, q: seq<Notice>, k: nat)
    requires k < |q| && Ahead(c, q).Some?
    ensures Ahead(c, q[..k]).Some?
    ensures var d := Ahead(c, q[..k]).value; !Defeats(d, q[k]) && Ahead(d, q[k..]) == Ahead(c, q)
  {
    assert q == q[..k] + q[k..];
    AheadConcat(c, q[..k], q[k..]);
    hide Defeats, Effect;
  }

  /** Where the rest of the queue takes the pathname that notice k reports. */
  ghost function Reported(c: map<int, string>, q: seq<Notice>, k: nat): Option<string>
    requires k < |q| && q[k].NewDir? && Ahead(c, q).Some?
  {
    AheadAt(c, q, k);
    var d := Ahead(c, q[..k]).value;
    Carried(d, q[k..], From(d, q[k]))
  }

  lemma {:induction false} CarriedConcat(c: map<int, string>, a: seq<Notice>, b: seq<Notice>, path: string)
    requires Ahead(c, a + b).Some?
    ensures Ahead(c, a).Some? && Ahead(Ahead(c, a).value, b).Some?
    ensures Carried(c, a + b, path)
         == match Carried(c, a, path) case None => None case Some(p) => Carried(Ahead(c, a).value, b, p)
    decreases |a|
  {
    hide Defeats, Effect, Sent;
    AheadConcat(c, a, b);
    if |a| == 0 {
      assert a + b == b;
    } else {
      assert (a + b)[0] == a[0] && (a + b)[1..] == a[1..] + b;
      var s := Sent(c, a[0], path);
      CarriedConcat(Effect(c, a[0]), a[1..], b, if s.Some? then s.value else path);
    }
  }

  lemma CarriedOne(c: map<int, string>, n: Notice, path: string)
    requires !Defeats(c, n)
    ensures Ahead(c, [n]).Some? && Carried(c, [n], path) == Sent(c, n, path)
  {
    hide Defeats, Effect, Sent;
    AheadOne(c, n);
    assert [n][1..] == [];
  }

  /** One more notice carries the reported pathname one step further. */
  lemma ReportedAppend(c: map<int, string>, q: seq<Notice>, n: Notice, k: nat)
    requires k < |q| && q[k].NewDir? && Ahead(c, q + [n]).Some?
    ensures Ahead(c, q).Some? && !Defeats(Ahead(c, q).value, n)
    ensures Reported(c, q + [n], k)
         == match Reported(c, q, k) case None => None case Some(p) => Sent(Ahead(c, q).value, n, p)
  {
    hide Defeats, Effect, Sent, Ahead, Carried, From;
    AheadConcat(c, q, [n]);
    AheadOne(Ahead(c, q).value, n);
    AheadAt(c, q, k);
    AheadAt(c, q + [n], k);
    assert (q + [n])[..k] == q[..k] && (q + [n])[k..] == q[k..] + [n];
    var d := Ahead(c, q[..k]).value;
    CarriedConcat(d, q[k..], [n], From(d, q[k]));
    forall p ensures Carried(Ahead(c, q).value, [n], p) == Sent(Ahead(c, q).value, n, p) {
      CarriedOne(Ahead(c, q).value, n, p);
    }
  }

  lemma ReportedLast(c: map<int, string>, q: seq<Notice>, n: Notice)
    requires n.NewDir? && Ahead(c, q + [n]).Some?
    ensures Ahead(c, q).Some? && !Defeats(Ahead(c, q).value, n)
    ensures Reported(c, q + [n], |q|) == Some(From(Ahead(c, q).value, n))
  {
    hide Defeats, Effect, Ahead, Carried, From;
    AheadConcat(c, q, [n]);
    AheadOne(Ahead(c, q).value, n);
    AheadAt(c, q + [n], |q|);
    assert (q + [n])[..|q|] == q && (q + [n])[|q|..] == [n];
    CarriedOne(Ahead(c, q).value, n, From(Ahead(c, q).value, n));
  }

  lemma SentWith(c: map<int, string>, e: map<int, string>, n: Notice, path: string)
    requires Unnamed(e, c, [n]) && !Defeats(c, n)
    ensures !Defeats(c + e, n) && Sent(c + e, n, path) == Sent(c, n, path)
  {
    EffectWith(c, e, n);
    assert forall w :: w in Looked(n) ==> w in c && w !in e && (c + e)[w] == c[w];
    hide Rebase, AtOrBelow, Join, Effect;
  }

  /** Entries that a walk adds make no difference to where a pathname is carried. */
  lemma {:induction false} CarriedWith(c: map<int, string>, e: map<int, string>, q: seq<Notice>, path: string)
    requires Unnamed(e, c, q) && Ahead(c, q).Some?
    ensures Ahead(c + e, q).Some? && Carried(c + e, q, path) == Carried(c, q, path)
    decreases |q|
  {
    AheadWith(c, e, q);
    hide Defeats, Effect, Sent, Unnamed;
    if |q| > 0 {
      StillUnnamed(c, e, q);
      EffectWith(c, e, q[0]);
      SentWith(c, e, q[0], path);
      var s := Sent(c, q[0], path);
      CarriedWith(Effect(c, q[0]), SentAll(c, q[0], e), q[1..], if s.Some? then s.value else path);
    }
  }

  lemma UnnamedParts(e: map<int, string>, c: map<int, string>, a: seq<Notice>, b: seq<Notice>)
    requires Unnamed(e, c, a + b)
    ensures Unnamed(e, c, a) && Unnamed(e, c, b)
  {
    hide Looked;
    assert forall i :: 0 <= i < |a| ==> (a + b)[i] == a[i];
    assert forall i :: 0 <= i < |b| ==> (a + b)[|a| + i] == b[i];
  }

  lemma StillUnnamedAll(c: map<int, string>, e: map<int, string>, n: Notice, q: seq<Notice>)
    requires Unnamed(e, c, [n] + q) && !Defeats(c, n)
    ensures Unnamed(SentAll(c, n, e), Effect(c, n), q)
  {
    StillUnnamed(c, e, [n] + q);
    assert ([n] + q)[1..] == q;
  }

  /** The new entries stay apart from the others. */
  lemma {:induction false} AheadApart(c: map<int, string>, e: map<int, string>, a: seq<Notice>, b: seq<Notice>)
      returns (e': map<int, string>)
    requires Unnamed(e, c, a + b) && Ahead(c, a).Some?
    ensures Ahead(c + e, a) == Some(Ahead(c, a).value + e') && Unnamed(e', Ahead(c, a).value, b)
    decreases |a|
  {
    hide Defeats, Effect, Unnamed, SentAll;
    if |a| == 0 {
      assert a + b == b;
      e' := e;
    } else {
      assert a + b == [a[0]] + (a[1..] + b);
      UnnamedParts(e, c, [a[0]], a[1..] + b);
      EffectWith(c, e, a[0]);
      StillUnnamedAll(c, e, a[0], a[1..] + b);
      e' := AheadApart(Effect(c, a[0]), SentAll(c, a[0], e), a[1..], b);
    }
  }

  lemma ReportedWith(c: map<int, string>, e: map<int, string>, q: seq<Notice>, k: nat)
    requires Unnamed(e, c, q) && k < |q| && q[k].NewDir? && Ahead(c, q).Some?
    ensures Ahead(c + e, q).Some? && Reported(c + e, q, k) == Reported(c, q, k)
  {
    hide Effect, Ahead, Carried;
    AheadWith(c, e, q);
    assert q == q[..k] + q[k..];
    AheadAt(c, q, k);
    AheadAt(c + e, q, k);
    var e' := AheadApart(c, e, q[..k], q[k..]);
    var d := Ahead(c, q[..k]).value;
    CarriedWith(d, e', q[k..], From(d, q[k]));
    assert From(d + e', q[k]) == From(d, q[k]) by {
      assert q[k..][0] == q[k];
    }
  }

  lemma ReportedTail(c: map<int, string>, q: seq<Notice>, k: nat)
    requires 1 <= k < |q| && q[k].NewDir? && Ahead(c, q).Some?
    ensures !Defeats(c, q[0]) && Ahead(Effect(c, q[0]), q[1..]).Some?
    ensures Reported(c, q, k) == Reported(Effect(c, q[0]), q[1..], k - 1)
  {
    hide Effect, Defeats, Carried;
    AheadAt(c, q, k);
    AheadAt(Effect(c, q[0]), q[1..], k - 1);
    assert q[1..][..k - 1] == q[..k][1..] && q[1..][k - 1..] == q[k..];
  }

  lemma {:induction false} ReportedIgnored(c: map<int, string>, q: seq<Notice>, ignored: seq<Notice>, k: nat)
    requires k < |q| && q[k].NewDir? && Ahead(c, q).Some? && forall i :: 0 <= i < |ignored| ==> ignored[i].Ignored?
    ensures Ahead(c, q + ignored) == Ahead(c, q) && Reported(c, q + ignored, k) == Reported(c, q, k)
    decreases |ignored|
  {
    hide Effect, Defeats, Carried, Ahead, Reported;
    IgnoredAhead(c, q, ignored);
    if |ignored| == 0 {
      assert q + ignored == q;
    } else {
      var init, last := ignored[..|ignored| - 1], ignored[|ignored| - 1];
      assert q + ignored == (q + init) + [last];
      ReportedIgnored(c, q, init, k);
      ReportedAppend(c, q + init, last, k);
    }
  }

  // ---------------------------------------------------------------- notices keep track of their directories

  /** The directory is in a watched one whose entry stays. */
  ghost predicate Attached(f: map<int, string>, t: Tree, wd: map<int, int>, d: int) {
    d in t.place && t.place[d].In? && t.place[d].parent in wd && wd[t.place[d].parent] in f
  }

  /** The pathname reported by notice k ends up as the present one of its directory, unless that directory was removed
      or moved out of what the program knows. */
  ghost predicate TrackedAt(s: State, k: nat)
    requires Sound(s.tree) && WellFormed(s.m.slots) && Ahead(Contents(s.m.slots), s.queue).Some?
    requires k < |s.queue| && s.queue[k].NewDir? && s.queue[k].of.Some?
  {
    var c, d := Contents(s.m.slots), s.queue[k].of.value;
    var at := Reported(c, s.queue, k);
    d in s.tree.place && at.Some? ==>
      at.value == PathOf(s.tree, d) && Attached(Ahead(c, s.queue).value, s.tree, s.wd, d)
  }

  ghost predicate Tracks(s: State)
    requires Sound(s.tree) && WellFormed(s.m.slots)
  {
    Ahead(Contents(s.m.slots), s.queue).Some? ==>
      forall k :: 0 <= k < |s.queue| && s.queue[k].NewDir? && s.queue[k].of.Some? ==> TrackedAt(s, k)
  }

  /** What happens to the pathname of an attached directory. */
  ghost predicate FollowedBy(f: map<int, string>, ns: seq<Notice>, t: Tree, wd: map<int, int>, d: int, u: Tree,
                             wd': map<int, int>)
    requires Sound(t) && Sound(u) && d in t.place && (|ns| > 0 ==> !Defeats(f, ns[0]))
  {
    var at, g := if |ns| == 0 then Some(PathOf(t, d)) else Sent(f, ns[0], PathOf(t, d)),
                 if |ns| == 0 then f else Effect(f, ns[0]);
    d in u.place && at.Some? ==> at.value == PathOf(u, d) && Attached(g, u, wd', d)
  }

  lemma FollowMake(f: map<int, string>, t: Tree, wd: map<int, int>, a: Deed, d: int)
    requires Sound(t) && Possible(t, a) && a.Mkdir? && Attached(f, t, wd, d) && Sound(TreeBy(t, a))
    requires var ns := NoticesOf(t, wd, a); |ns| > 0 ==> !Defeats(f, ns[0])
    ensures FollowedBy(f, NoticesOf(t, wd, a), t, wd, d, TreeBy(t, a), wd)
  {
    hide Sound, PathOf, Effect;
    MadeSound(t, a.dir, a.parent, a.name);
    var ns := NoticesOf(t, wd, a);
    if |ns| > 0 {
      NoEffect(f, ns[0]);
    }
  }

  /** Both halves of a rename are reported. */
  lemma FollowMoved(f: map<int, string>, t: Tree, wd: map<int, int>, c: Change, d: int)
    requires Sound(t) && OneWatchEach(wd) && Mirrors(f, t, wd) && c.Rename? && Allowed(t, c) && Sound(TreeAfter(t, c))
    requires t.place[c.dir].parent in wd && c.parent in wd && Attached(f, t, wd, d)
    requires !Defeats(f, NoticesOf(t, wd, Other(c))[0])
    ensures FollowedBy(f, NoticesOf(t, wd, Other(c)), t, wd, d, TreeAfter(t, c), wd)
  {
    var p, n := t.place[c.dir], NoticesOf(t, wd, Other(c))[0];
    EntryOf(f, t, wd, p.parent);
    EntryOf(f, t, wd, c.parent);
    PathsAfterRename(t, c.dir, c.parent, c.name);
    assert From(f, n) == PathOf(t, c.dir);
    EffectKeys(f, n);
    hide Sound, PathOf, Rebase, Effect, Below;
  }

  /** Only the half that takes the directory away is reported. */
  lemma FollowOut(f: map<int, string>, t: Tree, wd: map<int, int>, c: Change, d: int)
    requires Sound(t) && OneWatchEach(wd) && Mirrors(f, t, wd) && c.Rename? && Allowed(t, c) && Sound(TreeAfter(t, c))
    requires t.place[c.dir].parent in wd && c.parent !in wd && Attached(f, t, wd, d)
    requires !Defeats(f, NoticesOf(t, wd, Other(c))[0])
    ensures FollowedBy(f, NoticesOf(t, wd, Other(c)), t, wd, d, TreeAfter(t, c), wd)
  {
    var p, n := t.place[c.dir], NoticesOf(t, wd, Other(c))[0];
    EntryOf(f, t, wd, p.parent);
    PathsAfterRename(t, c.dir, c.parent, c.name);
    assert From(f, n) == PathOf(t, c.dir);
    var q := t.place[d].parent;
    EntryOf(f, t, wd, q);
    BelowMeansParentAtOrBelow(PathOf(t, c.dir), PathOf(t, q), t.place[d].name);
    assert PathOf(t, d) == Join(PathOf(t, q), t.place[d].name);
    AtOrBelowSelf(PathOf(t, d));
    hide Sound, PathOf, Rebase, Below, AtOrBelow, Join;
  }

  /** Nothing is reported of the directory's departure; then it is not the directory that moves, nor below it. */
  lemma FollowUnreported(f: map<int, string>, t: Tree, wd: map<int, int>, c: Change, d: int)
    requires Sound(t) && OneWatchEach(wd) && Mirrors(f, t, wd) && c.Rename? && Allowed(t, c) && Sound(TreeAfter(t, c))
    requires t.place[c.dir].parent !in wd && Attached(f, t, wd, d)
    requires forall x :: x in t.place && x in wd && Below(t, x, c.dir) ==> wd[x] !in f
    requires var ns := NoticesOf(t, wd, Other(c)); |ns| > 0 ==> !Defeats(f, ns[0])
    ensures FollowedBy(f, NoticesOf(t, wd, Other(c)), t, wd, d, TreeAfter(t, c), wd)
  {
    var q, ns := t.place[d].parent, NoticesOf(t, wd, Other(c));
    EntryOf(f, t, wd, q);
    assert d != c.dir && !Below(t, d, c.dir);
    hide Sound, PathOf, Below, Effect;
    PathChanges(t, c, d);
    if |ns| > 0 {
      NoEffect(f, ns[0]);
    }
  }

  lemma FollowRemove(f: map<int, string>, t: Tree, wd: map<int, int>, r: int, d: int)
    requires Sound(t) && OneWatchEach(wd) && CanRemove(t, r) && Attached(f, t, wd, d)
    requires r in wd ==> !Defeats(f, Gone(wd[r]))
    ensures Sound(Removed(t, r))
    ensures FollowedBy(f, if r in wd then [Gone(wd[r])] else [], t, wd, d, Removed(t, r), wd - {r})
  {
    RemovedSound(t, r);
    hide Sound, PathOf, Effect;
    if r in wd {
      EffectKeys(f, Gone(wd[r]));
    }
  }

  lemma FollowFile(f: map<int, string>, t: Tree, wd: map<int, int>, a: Deed, d: int)
    requires Sound(t) && Possible(t, a) && a.Other? && a.c.FileEvent? && Attached(f, t, wd, d)
    requires var ns := NoticesOf(t, wd, a); |ns| > 0 ==> !Defeats(f, ns[0])
    ensures FollowedBy(f, NoticesOf(t, wd, a), t, wd, d, TreeBy(t, a), wd)
  {
    hide Sound, PathOf, Effect;
    var ns := NoticesOf(t, wd, a);
    if |ns| > 0 {
      NoEffect(f, ns[0]);
    }
  }

  lemma Follow(f: map<int, string>, t: Tree, wd: map<int, int>, a: Deed, d: int)
    requires Sound(t) && OneWatchEach(wd) && Mirrors(f, t, wd) && Possible(t, a) && Attached(f, t, wd, d)
    requires Sound(TreeBy(t, a))
    requires a.Other? && a.c.Rename? && t.place[a.c.dir].parent !in wd ==>
      forall x :: x in t.place && x in wd && Below(t, x, a.c.dir) ==> wd[x] !in f
    requires var ns := NoticesOf(t, wd, a); |ns| > 0 ==> !Defeats(f, ns[0])
    ensures FollowedBy(f, NoticesOf(t, wd, a), t, wd, d, TreeBy(t, a), WatchesBy(wd, a))
  {
    hide Sound, Mirrors, Attached, FollowedBy, Made, CanMake, Renamed, CanRename, Removed, CanRemove, Defeats;
    match a
    case Mkdir(_, _, _) => FollowMake(f, t, wd, a, d);
    case Other(Rename(r, parent, _, _)) =>
      RenameIsIn(t, a.c);
      if t.place[r].parent !in wd {
        FollowUnreported(f, t, wd, a.c, d);
      } else if parent in wd {
        FollowMoved(f, t, wd, a.c, d);
      } else {
        FollowOut(f, t, wd, a.c, d);
      }
    case Other(Rmdir(r)) => FollowRemove(f, t, wd, r, d);
    case Other(FileEvent(_, _, _, _)) => FollowFile(f, t, wd, a, d);
  }

  /** A notice of a new directory reports where it is. */
  lemma NewNoticeTracked(f: map<int, string>, t: Tree, wd: map<int, int>, a: Deed)
    requires Sound(t) && OneWatchEach(wd) && Mirrors(f, t, wd) && Possible(t, a) && Sound(TreeBy(t, a))
    requires var ns := NoticesOf(t, wd, a); |ns| > 0 && ns[0].NewDir? && !Defeats(f, ns[0])
    ensures var n := NoticesOf(t, wd, a)[0];
      && n.of.Some? && n.of.value in TreeBy(t, a).place
      && From(f, n) == PathOf(TreeBy(t, a), n.of.value) && Effect(f, n) == f
      && Attached(f, TreeBy(t, a), WatchesBy(wd, a), n.of.value)
  {
    var n := NoticesOf(t, wd, a)[0];
    NoEffect(f, n);
    hide Effect, PlacesApart, Below;
    if a.Mkdir? {
      EntryOf(f, t, wd, a.parent);
      MadeSound(t, a.dir, a.parent, a.name);
    } else {
      EntryOf(f, t, wd, a.c.parent);
      ParentStays(t, a.c);
    }
  }

  lemma ParentStays(t: Tree, c: Change)
    requires Sound(t) && c.Rename? && Allowed(t, c) && Sound(TreeAfter(t, c))
    ensures c.parent in TreeAfter(t, c).place && PathOf(TreeAfter(t, c), c.parent) == PathOf(t, c.parent)
  {
    hide Sound, Renamed, PathOf;
    PathChanges(t, c, c.parent);
  }

  lemma ReportedAfter(c: map<int, string>, q: seq<Notice>, ns: seq<Notice>, k: nat)
    requires |ns| <= 1 && k < |q| && q[k].NewDir? && Ahead(c, q + ns).Some?
    ensures Ahead(c, q).Some? && (|ns| > 0 ==> !Defeats(Ahead(c, q).value, ns[0]))
    ensures var f := Ahead(c, q).value;
      && Ahead(c, q + ns).value == (if |ns| == 0 then f else Effect(f, ns[0]))
      && Reported(c, q + ns, k)
         == match Reported(c, q, k)
            case None => None
            case Some(p) => if |ns| == 0 then Some(p) else Sent(f, ns[0], p)
  {
    hide Reported, Ahead, Effect, Defeats, Sent;
    AheadConcat(c, q, ns);
    if |ns| == 0 {
      assert q + ns == q;
    } else {
      assert ns == [ns[0]];
      ReportedAppend(c, q, ns[0], k);
      AheadOne(Ahead(c, q).value, ns[0]);
    }
  }

  /** One more notice, and the directories as they are then. */
  lemma TrackedOn(s: State, s': State, ns: seq<Notice>, k: nat)
    requires Sound(s.tree) && WellFormed(s.m.slots) && Sound(s'.tree) && s'.m == s.m && s'.queue == s.queue + ns
    requires |ns| <= 1 && Ahead(Contents(s.m.slots), s'.queue).Some? && Ahead(Contents(s.m.slots), s.queue).Some?
    requires k < |s.queue| && s.queue[k].NewDir? && s.queue[k].of.Some? && TrackedAt(s, k)
    requires var f, d := Ahead(Contents(s.m.slots), s.queue).value, s.queue[k].of.value;
      && (d in s'.tree.place ==> d in s.tree.place) && (|ns| > 0 ==> !Defeats(f, ns[0]))
      && (d in s.tree.place && Attached(f, s.tree, s.wd, d) ==> FollowedBy(f, ns, s.tree, s.wd, d, s'.tree, s'.wd))
    ensures TrackedAt(s', k)
  {
    assert s'.queue[k] == s.queue[k];
    hide Sound, WellFormed, Contents, PathOf, Ahead, Reported, Effect, Defeats, Sent, Attached;
    ReportedAfter(Contents(s.m.slots), s.queue, ns, k);
  }

  lemma AfterParts(s: State, a: Deed)
    requires Sound(s.tree) && Possible(s.tree, a) && OneWatchEach(s.wd)
    ensures var s', ns := After(s, a, true), NoticesOf(s.tree, s.wd, a);
      && s'.tree == TreeBy(s.tree, a) && s'.wd == WatchesBy(s.wd, a)
      && s'.m == s.m && s'.queue == s.queue + ns && |ns| <= 1
  {
    NoticesProper(s.tree, s.wd, a);
    hide Sound, Possible, TreeBy, NoticesOf, WatchesBy;
  }

  lemma TrackedHere(s: State, k: nat)
    requires Sound(s.tree) && WellFormed(s.m.slots) && Tracks(s) && Ahead(Contents(s.m.slots), s.queue).Some?
    requires k < |s.queue| && s.queue[k].NewDir? && s.queue[k].of.Some?
    ensures TrackedAt(s, k)
  {
    hide TrackedAt, Sound, WellFormed, Contents, Ahead;
  }

  /** Notice k keeps track of its directory through one more deed. */
  lemma OldStillTracked(s: State, a: Deed, f: map<int, string>, k: nat)
    requires Inv(s) && Tracks(s) && Possible(s.tree, a) && NewIdentity(s.queue, a) && !SilentMove(s, a)
    requires Ahead(Contents(s.m.slots), s.queue) == Some(f)
    requires Sound(TreeBy(s.tree, a)) && Ahead(Contents(s.m.slots), After(s, a, true).queue).Some?
    requires k < |s.queue| && s.queue[k].NewDir? && s.queue[k].of.Some?
    ensures var s' := After(s, a, true);
      && Sound(s'.tree) && s'.m == s.m && k < |s'.queue| && s'.queue[k] == s.queue[k] && TrackedAt(s', k)
  {
    hide *;
    InvParts(s);
    SoundBase(s);
    var s', ns, d := After(s, a, true), NoticesOf(s.tree, s.wd, a), s.queue[k].of.value;
    AfterParts(s, a);
    TrackedHere(s, k);
    NotSilent(s, a, f);
    StillThere(s, a, d, k);
    ReportedAfter(Contents(s.m.slots), s.queue, ns, k);
    if d in s.tree.place && Attached(f, s.tree, s.wd, d) {
      Follow(f, s.tree, s.wd, a, d);
    }
    TrackedOn(s, s', ns, k);
  }

  lemma NotSilent(s: State, a: Deed, f: map<int, string>)
    requires Inv(s) && Possible(s.tree, a) && !SilentMove(s, a) && Ahead(Contents(s.m.slots), s.queue) == Some(f)
    requires Sound(TreeBy(s.tree, a)) && Ahead(Contents(s.m.slots), After(s, a, true).queue).Some?
    ensures Mirrors(f, s.tree, s.wd)
    ensures a.Other? && a.c.Rename? ==> a.c.dir in s.tree.place && s.tree.place[a.c.dir].In?
    ensures a.Other? && a.c.Rename? && s.tree.place[a.c.dir].parent !in s.wd ==>
      forall x :: x in s.tree.place && x in s.wd && Below(s.tree, x, a.c.dir) ==> s.wd[x] !in f
  {
    InvParts(s);
    if a.Other? && a.c.Rename? {
      RenameIsIn(s.tree, a.c);
    }
    AheadAfter(s, a);
    hide Sound, WellFormed, Contents, PathOf, Ahead, Base, Mirrors, Possible, TreeBy, WatchesBy, Effect, Below;
  }

  /** A directory that is there after the deed was there before, if a notice is about it. */
  lemma StillThere(s: State, a: Deed, d: int, k: nat)
    requires Sound(s.tree) && Possible(s.tree, a) && NewIdentity(s.queue, a)
    requires k < |s.queue| && s.queue[k].NewDir? && s.queue[k].of == Some(d)
    ensures d in TreeBy(s.tree, a).place ==> d in s.tree.place
  {
    TreeByKeys(s.tree, a);
    hide Sound, Possible, TreeBy;
  }

  lemma DeedKeepsTracks(s: State, a: Deed, kept: bool)
    requires Inv(s) && Tracks(s) && Possible(s.tree, a) && NewIdentity(s.queue, a) && !Harmful(s, Do(a, kept))
    requires Base(After(s, a, kept))
    ensures Tracks(After(s, a, kept))
  {
    SoundBase(After(s, a, kept));
    SoundBase(s);
    if !kept {
      OverflowAhead(s);
      hide *;
      DoomedTracks(After(s, a, kept));
    } else {
      hide *;
      if Ahead(Contents(s.m.slots), After(s, a, true).queue).Some? {
        KeptTracks(s, a);
      } else {
        DoomedTracks(After(s, a, true));
      }
    }
  }

  lemma KeptTracks(s: State, a: Deed)
    requires Inv(s) && Tracks(s) && Possible(s.tree, a) && NewIdentity(s.queue, a) && !SilentMove(s, a)
    requires Sound(After(s, a, true).tree) && After(s, a, true).m == s.m
    requires Ahead(Contents(s.m.slots), After(s, a, true).queue).Some?
    ensures Tracks(After(s, a, true))
  {
    hide *;
    InvParts(s);
    SoundBase(s);
    AfterParts(s, a);
    AheadConcat(Contents(s.m.slots), s.queue, NoticesOf(s.tree, s.wd, a));
    var s', f := After(s, a, true), Ahead(Contents(s.m.slots), s.queue).value;
    forall k | 0 <= k < |s'.queue| && s'.queue[k].NewDir? && s'.queue[k].of.Some?
      ensures TrackedAt(s', k)
    {
      if k < |s.queue| {
        OldStillTracked(s, a, f, k);
      } else {
        LastTracked(s, a, f);
      }
    }
    TracksBy(s');
  }

  lemma DoomedTracks(s: State)
    requires Sound(s.tree) && WellFormed(s.m.slots) && Ahead(Contents(s.m.slots), s.queue) == None
    ensures Tracks(s)
  {
  }

  lemma TracksBy(s: State)
    requires Sound(s.tree) && WellFormed(s.m.slots)
    requires Ahead(Contents(s.m.slots), s.queue).Some? ==>
      forall k :: 0 <= k < |s.queue| && s.queue[k].NewDir? && s.queue[k].of.Some? ==> TrackedAt(s, k)
    ensures Tracks(s)
  {
  }

  lemma LastTracked(s: State, a: Deed, f: map<int, string>)
    requires Inv(s) && Possible(s.tree, a) && Sound(TreeBy(s.tree, a))
    requires Ahead(Contents(s.m.slots), s.queue) == Some(f)
    requires var ns := NoticesOf(s.tree, s.wd, a);
      |ns| == 1 && ns[0].NewDir? && ns[0].of.Some? && Ahead(Contents(s.m.slots), s.queue + ns).Some?
    ensures TrackedAt(After(s, a, true), |s.queue|)
  {
    hide *;
    InvParts(s);
    SoundBase(s);
    AfterParts(s, a);
    RightParts(s, f);
    var ns, s' := NoticesOf(s.tree, s.wd, a), After(s, a, true);
    AheadAfter(s, a);
    assert ns == [ns[0]];
    ReportedLast(Contents(s.m.slots), s.queue, ns[0]);
    NewNoticeTracked(f, s.tree, s.wd, a);
    TrackedFrom(s', |s.queue|);
  }

  lemma RightParts(s: State, f: map<int, string>)
    requires Right(s) && Ahead(Contents(s.m.slots), s.queue) == Some(f)
    ensures Sound(s.tree) && Mirrors(f, s.tree, s.wd)
  {
  }

  lemma TrackedFrom(s: State, k: nat)
    requires Sound(s.tree) && WellFormed(s.m.slots) && Ahead(Contents(s.m.slots), s.queue).Some?
    requires k < |s.queue| && s.queue[k].NewDir? && s.queue[k].of.Some? && s.queue[k].of.value in s.tree.place
    requires Reported(Contents(s.m.slots), s.queue, k) == Some(PathOf(s.tree, s.queue[k].of.value))
    requires Attached(Ahead(Contents(s.m.slots), s.queue).value, s.tree, s.wd, s.queue[k].of.value)
    ensures TrackedAt(s, k)
  {
    hide Sound, WellFormed, Contents, PathOf, Ahead, Reported, Attached;
  }

  // ---------------------------------------------------------------- the program keeps track

  lemma StillAttached(s: State, ans: Answers, wd: map<int, int>, g: map<int, string>, d: int)
    requires Base(s) && OneWatchEach(wd) && TakenAhead(s, wd, g) && Watching(s, ans, wd)
    requires Attached(Ahead(Contents(s.m.slots), s.queue).value, s.tree, s.wd, d)
    ensures Attached(g, s.tree, wd, d)
  {
    SoundBase(s);
    hide Sound, WellFormed, Contents, Ahead, Base, Effect, Added, Watching, Unnamed, OneWatchEach, Defeats;
    var c, e, q := Effect(Contents(s.m.slots), s.queue[0]), Added(s, wd), s.queue[1..];
    AheadWith(c, e, q);
    AheadKeys(c, q);
    var p := s.tree.place[d].parent;
    assert s.wd[p] in c.Keys;
    WatchSurvives(s, ans, wd, p);
    assert s.wd[p] !in e by {
      UnnamedApart(e, c, q, s.wd[p]);
    }
  }

  lemma UnnamedApart(e: map<int, string>, c: map<int, string>, q: seq<Notice>, w: int)
    requires Unnamed(e, c, q) && w in c
    ensures w !in e
  {
  }

  /** What a queued notice reports is not changed by taking the one before it. */
  lemma ReportedTaken(c: map<int, string>, e: map<int, string>, q: seq<Notice>, ignored: seq<Notice>, k: nat)
    requires |q| > 0 && !Defeats(c, q[0]) && Unnamed(e, Effect(c, q[0]), q[1..]) && Ahead(c, q).Some?
    requires k < |q| - 1 && q[k + 1].NewDir? && forall i :: 0 <= i < |ignored| ==> ignored[i].Ignored?
    ensures var d := Effect(c, q[0]) + e;
      && Ahead(d, q[1..] + ignored).Some?
      && Reported(d, q[1..] + ignored, k) == Reported(c, q, k + 1)
  {
    hide Ahead, Defeats, Effect, Unnamed, Reported;
    ReportedTail(c, q, k + 1);
    ReportedWith(Effect(c, q[0]), e, q[1..], k);
    ReportedIgnored(Effect(c, q[0]) + e, q[1..], ignored, k);
  }

  lemma TakenTracked(s: State, ans: Answers, ignored: seq<Notice>, s': State, k: nat)
    requires Base(s) && Tracks(s) && Takes(s, ans, ignored, s') && TakeOne(s, ans).stop != AfterRebuild && Base(s')
    requires Ahead(Contents(s'.m.slots), s'.queue).Some?
    requires k < |s'.queue| && s'.queue[k].NewDir? && s'.queue[k].of.Some?
    ensures TrackedAt(s', k)
  {
    hide *;
    SoundBase(s);
    SoundBase(s');
    TakesParts(s, ans, ignored, s');
    TakeWithoutRebuild(s, ans, ignored, s');
    AheadTaken(s, ans, ignored, s');
    var c, e, q := Effect(Contents(s.m.slots), s.queue[0]), Added(s, s'.wd), s.queue[1..];
    AheadWith(c, e, q);
    var g := Ahead(c + e, q).value;
    assert k < |q| && q[k] == s.queue[k + 1] == s'.queue[k];
    TrackedHere(s, k + 1);
    ReportedTaken(Contents(s.m.slots), e, s.queue, ignored, k);
    TakenAheadBy(s, s'.wd, g);
    var d := s'.queue[k].of.value;
    if Attached(Ahead(Contents(s.m.slots), s.queue).value, s.tree, s.wd, d) {
      StillAttached(s, ans, s'.wd, g, d);
    }
    TrackedTaken(s, s', g, k);
  }

  lemma TakenAheadBy(s: State, wd: map<int, int>, g: map<int, string>)
    requires Sound(s.tree) && WellFormed(s.m.slots) && OneWatchEach(wd)
    requires |s.queue| > 0 && !Defeats(Contents(s.m.slots), s.queue[0])
    requires var c, e, q := Effect(Contents(s.m.slots), s.queue[0]), Added(s, wd), s.queue[1..];
      && Unnamed(e, c, q) && Ahead(Contents(s.m.slots), s.queue).Some?
      && Ahead(Contents(s.m.slots), s.queue) == Ahead(c, q) && Ahead(c + e, q) == Some(g)
    ensures TakenAhead(s, wd, g)
  {
    hide Sound, WellFormed, Contents, Effect, Added, Unnamed, Ahead, Defeats;
  }

  lemma TrackedTaken(s: State, s': State, g: map<int, string>, k: nat)
    requires Sound(s.tree) && WellFormed(s.m.slots) && s'.tree == s.tree && WellFormed(s'.m.slots)
    requires Ahead(Contents(s.m.slots), s.queue).Some? && Ahead(Contents(s'.m.slots), s'.queue) == Some(g)
    requires k + 1 < |s.queue| && k < |s'.queue| && s'.queue[k] == s.queue[k + 1]
    requires s'.queue[k].NewDir? && s'.queue[k].of.Some? && TrackedAt(s, k + 1)
    requires Reported(Contents(s'.m.slots), s'.queue, k) == Reported(Contents(s.m.slots), s.queue, k + 1)
    requires var d := s'.queue[k].of.value;
      Attached(Ahead(Contents(s.m.slots), s.queue).value, s.tree, s.wd, d) ==> Attached(g, s.tree, s'.wd, d)
    ensures TrackedAt(s', k)
  {
    hide Sound, WellFormed, Contents, PathOf, Ahead, Reported, Attached;
  }

  lemma TakeKeepsTracks(s: State, ans: Answers, ignored: seq<Notice>, s': State)
    requires Base(s) && Tracks(s) && Takes(s, ans, ignored, s') && Base(s')
    ensures Sound(s'.tree) && WellFormed(s'.m.slots) && Tracks(s')
  {
    hide *;
    SoundBase(s');
    TakesParts(s, ans, ignored, s');
    if TakeOne(s, ans).stop != AfterRebuild && Ahead(Contents(s'.m.slots), s'.queue).Some? {
      forall k | 0 <= k < |s'.queue| && s'.queue[k].NewDir? && s'.queue[k].of.Some?
        ensures TrackedAt(s', k)
      {
        TakenTracked(s, ans, ignored, s', k);
      }
    }
    TracksBy(s');
  }

  // ---------------------------------------------------------------- stale walks

  /** Renames are dealt with in one piece. */
  ghost predicate NoneSplit(steps: seq<Step>) {
    forall i :: 0 <= i < |steps| ==> !steps[i].Split?
  }

  lemma StepKeepsTracks(s: State, step: Step, s': State)
    requires Inv(s) && Tracks(s) && Next(s, step, s') && !step.Split? && !Harmful(s, step) && Base(s')
    ensures Sound(s'.tree) && WellFormed(s'.m.slots) && Tracks(s')
  {
    SoundBase(s');
    InvParts(s);
    hide Inv, Base, Tracks, Possible, After, Takes, Harmful, NewIdentity;
    match step
    case Do(a, kept) => DeedKeepsTracks(s, a, kept);
    case Take(ans, ignored) => TakeKeepsTracks(s, ans, ignored, s');
    case Split(_, _) =>
  }

  /** In every run without harm a queued notice keeps track of the directory it is about. */
  lemma {:induction false} HarmlessTracks(ss: seq<State>, steps: seq<Step>, n: nat)
    requires Run(ss, steps) && Inv(ss[0]) && ss[0].queue == [] && n <= |steps| && NoneSplit(steps)
    requires forall i :: 0 <= i < n ==> !HarmfulAt(ss, steps, i)
    ensures n < |ss| && Inv(ss[n]) && Sound(ss[n].tree) && WellFormed(ss[n].m.slots) && Tracks(ss[n])
    decreases n
  {
    hide *;
    RunLength(ss, steps);
    HarmlessKeeps(ss, steps, n);
    InvParts(ss[n]);
    SoundBase(ss[n]);
    if n == 0 {
      TracksBy(ss[0]);
    } else {
      HarmlessTracks(ss, steps, n - 1);
      HarmlessAt(ss, steps, n - 1);
      StepKeepsTracks(ss[n - 1], steps[n - 1], ss[n]);
    }
  }

  lemma HarmlessAt(ss: seq<State>, steps: seq<Step>, i: nat)
    requires Run(ss, steps) && i < |steps| && !HarmfulAt(ss, steps, i) && NoneSplit(steps)
    ensures Sound(ss[i].tree) && WellFormed(ss[i].m.slots) && i + 1 < |ss|
    ensures Next(ss[i], steps[i], ss[i + 1]) && !Harmful(ss[i], steps[i]) && !steps[i].Split?
  {
    StepAt(ss, steps, i);
    RunLength(ss, steps);
    hide Next, Harmful, Sound, WellFormed, Run;
  }

  /** The walk for a directory d that is still in the trees the program knows: a directory y that is now at the pathname
      walked strays if and only if it is another one. */
  lemma StrayIffAnother(s: State, d: int, y: int)
    requires Inv(s) && Tracks(s) && Walks(s) && s.queue[0].of == Some(d) && d in s.tree.place
    requires Ahead(Contents(s.m.slots), s.queue).Some? && Reported(Contents(s.m.slots), s.queue, 0).Some?
    requires y in s.tree.place && PathOf(s.tree, y) == WalkPath(s)
    ensures Ahead(Contents(s.m.slots), s.queue[1..]).Some?
    ensures Strays(Contents(s.m.slots), s.queue[1..], PathOf(s.tree, y)) <==> y != d
  {
    InvParts(s);
    SoundBase(s);
    TrackedHere(s, 0);
    WalkEffect(s);
    hide Sound, WellFormed, Contents, PathOf, Base, Right, Effect, Inv, Tracks, PathCached;
    if PathOf(s.tree, y) == PathOf(s.tree, d) {
      PathInjective(s.tree, y, d);
    }
  }
}
