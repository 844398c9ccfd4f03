/** The directories below the monitored roots, each with its own identity, and the watches on them.

    A directory knows its containing directory and its name in it, so a rename changes one entry only; pathnames are
    derived by following the chain up to a root. */
module WatchedTree {
  import opened Paths

  datatype Place = Top(path: string) | In(parent: int, name: string)

  /** place says where each directory is; rank grows from a directory to the directories in it. */
  datatype Tree = Tree(place: map<int, Place>, rank: map<int, nat>)

  ghost predicate At(t: Tree, d: int, p: Place) {
    d in t.place && t.place[d] == p
  }

  /** Every directory is in a directory of the tree, unless it is a root. */
  ghost predicate Ranked(t: Tree) {
    && t.rank.Keys == t.place.Keys
    && (forall d :: d in t.place && t.place[d].In? ==>
          && t.place[d].parent in t.place
          && t.rank[t.place[d].parent] < t.rank[d]
          && IsName(t.place[d].name))
  }

  /** No two directories are in the same place, and no root lies inside another. */
  ghost predicate PlacesApart(t: Tree) {
    && (forall d, e, p :: At(t, d, p) && At(t, e, p) ==> d == e)
    && (forall d, e, p, q :: At(t, d, Top(p)) && At(t, e, Top(q)) && d != e ==> Apart(p, q))
  }

  ghost predicate Sound(t: Tree) {
    Ranked(t) && PlacesApart(t)
  }

  ghost function PathOf(t: Tree, d: int): string
    requires Sound(t) && d in t.place
    decreases t.rank[d]
  {
    match t.place[d]
    case Top(path) => path
    case In(parent, name) => Join(PathOf(t, parent), name)
  }

  /** The root that d lies under. */
  ghost function TopOf(t: Tree, d: int): (r: int)
    requires Sound(t) && d in t.place
    ensures r in t.place && t.place[r].Top?
    decreases t.rank[d]
  {
    if t.place[d].Top? then d else TopOf(t, t.place[d].parent)
  }

  /** x is d or lies somewhere below it. */
  ghost predicate Below(t: Tree, x: int, d: int)
    requires Sound(t) && x in t.place
    decreases t.rank[x]
  {
    x == d || (t.place[x].In? && Below(t, t.place[x].parent, d))
  }

  lemma {:induction false} PathUnderTop(t: Tree, d: int)
    requires Sound(t) && d in t.place
    ensures AtOrBelow(PathOf(t, TopOf(t, d)), PathOf(t, d))
    ensures t.place[d].In? ==> |PathOf(t, d)| > |PathOf(t, TopOf(t, d))|
    decreases t.rank[d]
  {
    if t.place[d].In? {
      var parent := t.place[d].parent;
      PathUnderTop(t, parent);
      BelowMeansParentAtOrBelow(PathOf(t, TopOf(t, d)), PathOf(t, parent), t.place[d].name);
    }
  }

  lemma RootPathsDiffer(t: Tree, r: int, d: int)
    requires Sound(t) && r in t.place && t.place[r].Top? && d in t.place
    requires AtOrBelow(PathOf(t, TopOf(t, d)), PathOf(t, r))
    ensures r == TopOf(t, d)
  {
    var s := TopOf(t, d);
    assert At(t, s, Top(PathOf(t, s))) && At(t, r, Top(PathOf(t, r)));
  }

  /** Different directories have different pathnames. */
  lemma {:induction false} PathInjective(t: Tree, d: int, e: int)
    requires Sound(t) && d in t.place && e in t.place && PathOf(t, d) == PathOf(t, e)
    ensures d == e
    decreases t.rank[d]
  {
    PathUnderTop(t, d);
    PathUnderTop(t, e);
    match (t.place[d], t.place[e])
    case (In(p, m), In(q, n)) =>
      JoinInjective(PathOf(t, p), m, PathOf(t, q), n);
      PathInjective(t, p, q);
      assert At(t, d, t.place[d]) && At(t, e, t.place[d]);
    case (Top(_), _) => RootPathsDiffer(t, d, e);
    case (_, Top(_)) => RootPathsDiffer(t, e, d);
  }

  /** The program's string test on pathnames decides the relation between the directories. */
  lemma {:induction false} AtOrBelowIsBelow(t: Tree, d: int, x: int)
    requires Sound(t) && d in t.place && x in t.place
    ensures AtOrBelow(PathOf(t, d), PathOf(t, x)) <==> Below(t, x, d)
    decreases t.rank[x]
  {
    match t.place[x]
    case Top(path) =>
      if AtOrBelow(PathOf(t, d), path) {
        PathUnderTop(t, d);
        AtOrBelowTransitive(PathOf(t, TopOf(t, d)), PathOf(t, d), path);
        RootPathsDiffer(t, x, d);
        PathInjective(t, d, x);
      }
    case In(parent, name) =>
      BelowMeansParentAtOrBelow(PathOf(t, d), PathOf(t, parent), name);
      AtOrBelowIsBelow(t, d, parent);
      if PathOf(t, d) == PathOf(t, x) {
        PathInjective(t, d, x);
      }
  }

  // ---------------------------------------------------------------- changes made by other processes

  ghost predicate CanMake(t: Tree, d: int, parent: int, name: string) {
    d !in t.place && parent in t.place && IsName(name) && In(parent, name) !in t.place.Values
  }

  /** mkdir(). */
  ghost function Made(t: Tree, d: int, parent: int, name: string): Tree
    requires Sound(t) && CanMake(t, d, parent, name)
  {
    Tree(t.place[d := In(parent, name)], t.rank[d := t.rank[parent] + 1])
  }

  lemma {:induction false} PathAfterMake(t: Tree, d: int, parent: int, name: string, x: int)
    requires Sound(t) && CanMake(t, d, parent, name) && x in t.place
    requires Sound(Made(t, d, parent, name))
    ensures PathOf(Made(t, d, parent, name), x) == PathOf(t, x)
    decreases t.rank[x]
  {
    if t.place[x].In? {
      PathAfterMake(t, d, parent, name, t.place[x].parent);
    }
  }

  /** A new directory leaves every other pathname alone. */
  lemma MadeSound(t: Tree, d: int, parent: int, name: string)
    requires Sound(t) && CanMake(t, d, parent, name)
    ensures var u := Made(t, d, parent, name);
      && Sound(u) && PathOf(u, d) == Join(PathOf(t, parent), name)
      && forall x :: x in t.place ==> PathOf(u, x) == PathOf(t, x)
  {
    var u := Made(t, d, parent, name);
    assert PlacesApart(u) by {
      assert forall x, p :: At(u, x, p) <==> (x != d && At(t, x, p)) || (x == d && p == In(parent, name));
      assert forall x, p :: At(t, x, p) ==> p in t.place.Values;
    }
    hide PlacesApart;
    forall x | x in t.place
      ensures PathOf(u, x) == PathOf(t, x)
    {
      PathAfterMake(t, d, parent, name, x);
    }
  }

  ghost predicate CanRemove(t: Tree, d: int) {
    d in t.place && forall x :: x in t.place && t.place[x].In? ==> t.place[x].parent != d
  }

  /** rmdir(). */
  ghost function Removed(t: Tree, d: int): Tree {
    Tree(t.place - {d}, t.rank - {d})
  }

  lemma {:induction false} PathAfterRemove(t: Tree, d: int, x: int)
    requires Sound(t) && CanRemove(t, d) && Sound(Removed(t, d)) && x in t.place && x != d
    ensures PathOf(Removed(t, d), x) == PathOf(t, x)
    decreases t.rank[x]
  {
    if t.place[x].In? {
      PathAfterRemove(t, d, t.place[x].parent);
    }
  }

  lemma RemovedIsSound(t: Tree, d: int)
    requires Sound(t) && CanRemove(t, d)
    ensures Sound(Removed(t, d))
  {
    var u := Removed(t, d);
    assert PlacesApart(u) by {
      assert forall x, p :: At(u, x, p) <==> x != d && At(t, x, p);
    }
  }

  lemma RemovedSound(t: Tree, d: int)
    requires Sound(t) && CanRemove(t, d)
    ensures Sound(Removed(t, d))
    ensures forall x :: x in t.place && x != d ==> PathOf(Removed(t, d), x) == PathOf(t, x)
  {
    RemovedIsSound(t, d);
    hide PlacesApart;
    forall x | x in t.place && x != d
      ensures PathOf(Removed(t, d), x) == PathOf(t, x)
    {
      PathAfterRemove(t, d, x);
    }
  }

  /** The target is absent and not inside the directory that moves. */
  ghost predicate CanRename(t: Tree, d: int, parent: int, name: string)
    requires Sound(t)
  {
    && d in t.place && t.place[d].In? && parent in t.place && !Below(t, parent, d)
    && IsName(name) && In(parent, name) !in t.place.Values
  }

  /** rename(): one directory changes its place. */
  ghost function Renamed(t: Tree, d: int, parent: int, name: string): Tree
    requires Sound(t) && CanRename(t, d, parent, name)
  {
    Tree(t.place[d := In(parent, name)],
         map x | x in t.place :: if Below(t, x, d) then t.rank[x] + t.rank[parent] + 1 else t.rank[x])
  }

  lemma RenamedSound(t: Tree, d: int, parent: int, name: string)
    requires Sound(t) && CanRename(t, d, parent, name)
    ensures Sound(Renamed(t, d, parent, name))
  {
    var u := Renamed(t, d, parent, name);
    assert PlacesApart(u) by {
      assert forall x, p :: At(u, x, p) <==> (x != d && At(t, x, p)) || (x == d && p == In(parent, name));
      assert forall x, p :: At(t, x, p) ==> p in t.place.Values;
    }
    hide PlacesApart;
    forall x | x in u.place && u.place[x].In?
      ensures u.place[x].parent in u.place && u.rank[u.place[x].parent] < u.rank[x]
    {
      if x != d {
        assert Below(t, x, d) <==> Below(t, t.place[x].parent, d);
      }
    }
  }

  /** The move of one directory shows in the pathnames of everything below it. */
  lemma {:induction false} PathAfterRename(t: Tree, d: int, parent: int, name: string, x: int)
    requires Sound(t) && CanRename(t, d, parent, name) && Sound(Renamed(t, d, parent, name)) && x in t.place
    ensures PathOf(Renamed(t, d, parent, name), x)
         == Rebase(PathOf(t, d), Join(PathOf(t, parent), name), PathOf(t, x))
    decreases Below(t, x, d), t.rank[x]
  {
    hide PlacesApart;
    var u, oldPath, newPath := Renamed(t, d, parent, name), PathOf(t, d), Join(PathOf(t, parent), name);
    AtOrBelowIsBelow(t, d, x);
    if x == d {
      PathAfterRename(t, d, parent, name, parent);
      AtOrBelowIsBelow(t, d, parent);
    } else if t.place[x].In? {
      var p := t.place[x].parent;
      PathAfterRename(t, d, parent, name, p);
      AtOrBelowIsBelow(t, d, p);
      if Below(t, p, d) {
        JoinDrop(PathOf(t, p), t.place[x].name, |oldPath|);
        assert newPath + Join(PathOf(t, p)[|oldPath|..], t.place[x].name)
            == Join(newPath + PathOf(t, p)[|oldPath|..], t.place[x].name);
      }
    }
  }

  lemma PathsAfterRename(t: Tree, d: int, parent: int, name: string)
    requires Sound(t) && CanRename(t, d, parent, name)
    ensures var u := Renamed(t, d, parent, name);
      && Sound(u) && u.place.Keys == t.place.Keys
      && forall x :: x in t.place ==>
           PathOf(u, x) == Rebase(PathOf(t, d), Join(PathOf(t, parent), name), PathOf(t, x))
  {
    RenamedSound(t, d, parent, name);
    hide PlacesApart, Ranked, PathOf;
    forall x | x in t.place
      ensures PathOf(Renamed(t, d, parent, name), x)
           == Rebase(PathOf(t, d), Join(PathOf(t, parent), name), PathOf(t, x))
    {
      PathAfterRename(t, d, parent, name, x);
    }
  }

  lemma JoinDrop(p: string, n: string, k: nat)
    requires k <= |p|
    ensures Join(p, n)[k..] == Join(p[k..], n)
  {
  }

  // ---------------------------------------------------------------- watches

  /** One watch per directory: no two directories share a descriptor. */
  ghost predicate OneWatchEach(wd: map<int, int>) {
    && (forall d :: d in wd ==> wd[d] >= 0)
    && (forall d, e :: d in wd && e in wd && wd[d] == wd[e] ==> d == e)
  }

  /** The cache holds exactly the watches there are, each with its directory's present pathname. */
  ghost predicate Faithful(m: map<int, string>, t: Tree, wd: map<int, int>)
    requires Sound(t)
  {
    && OneWatchEach(wd)
    && (forall d :: d in wd ==> d in t.place && wd[d] in m && m[wd[d]] == PathOf(t, d))
    && (forall w :: w in m ==> exists d :: d in wd && wd[d] == w)
  }

  /** Every pathname is rebased, in the tree and in the cache. */
  lemma FaithfulRebased(m: map<int, string>, t: Tree, u: Tree, wd: map<int, int>, oldPath: string, newPath: string)
    requires Sound(t) && Sound(u) && Faithful(m, t, wd) && u.place.Keys == t.place.Keys
    requires forall x :: x in t.place ==> PathOf(u, x) == Rebase(oldPath, newPath, PathOf(t, x))
    ensures Faithful(map w | w in m :: Rebase(oldPath, newPath, m[w]), u, wd)
  {
    hide Sound, PathOf, Rebase;
    assert forall d :: d in wd ==> d in u.place;
  }

  lemma FaithfulRemoved(m: map<int, string>, t: Tree, u: Tree, wd: map<int, int>, d: int)
    requires Sound(t) && Sound(u) && Faithful(m, t, wd) && d in wd && u.place.Keys == t.place.Keys - {d}
    requires forall x :: x in u.place ==> PathOf(u, x) == PathOf(t, x)
    ensures Faithful(m - {wd[d]}, u, wd - {d})
  {
    hide Sound, PathOf;
    forall w | w in m - {wd[d]}
      ensures exists e :: e in wd - {d} && (wd - {d})[e] == w
    {
      var e :| e in wd && wd[e] == w;
      assert e in wd - {d};
    }
  }
}
