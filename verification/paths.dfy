/** Pathname strings as inotify_dtree.c builds and compares them, and the component lists they stand for.

    A cached pathname is a command-line root path followed by "/name" for each level below it. The program only
    ever works on the strings; the lemmas here say what its string tests mean on the component lists. */
module Paths {

  /** One pathname component: nonempty and without a slash. */
  predicate IsName(n: string) {
    n != "" && '/' !in n
  }

  /** Two root paths, neither of which lies inside the other. */
  predicate Apart(r: string, s: string) {
    !AtOrBelow(r, s) && !AtOrBelow(s, r)
  }

  /** What snprintf("%s/%s") produces. */
  function Join(p: string, n: string): string {
    p + "/" + n
  }

  /** The test used by the rename and zap loops: strncmp() over |p| characters, then '/' or the end of the string. */
  predicate AtOrBelow(p: string, q: string) {
    |p| <= |q| && q[..|p|] == p && (|q| == |p| || q[|p|] == '/')
  }

  /** The pathname q after oldPath was renamed to newPath. */
  function Rebase(oldPath: string, newPath: string, q: string): string {
    if AtOrBelow(oldPath, q) then newPath + q[|oldPath|..] else q
  }

  /** The string for a list of components below a root path. */
  function Render(root: string, comps: seq<string>): string {
    if comps == [] then root else Join(Render(root, comps[..|comps| - 1]), comps[|comps| - 1])
  }

  ghost predicate AllNames(comps: seq<string>) {
    forall i :: 0 <= i < |comps| ==> IsName(comps[i])
  }

  lemma AtOrBelowSelf(p: string)
    ensures AtOrBelow(p, p)
  {
  }

  lemma AtOrBelowTransitive(p: string, q: string, r: string)
    requires AtOrBelow(p, q) && AtOrBelow(q, r)
    ensures AtOrBelow(p, r)
  {
    assert r[..|p|] == r[..|q|][..|p|] == p;
    if |p| < |q| {
      assert r[|p|] == r[..|q|][|p|] == q[|p|];
    }
  }

  /** A strictly longer path lies below p exactly when the path of its containing directory is at or below p. */
  lemma BelowMeansParentAtOrBelow(p: string, q: string, n: string)
    requires IsName(n)
    ensures AtOrBelow(p, Join(q, n)) <==> AtOrBelow(p, q) || p == Join(q, n)
  {
    var full := Join(q, n);
    assert full[..|q|] == q && full[|q|] == '/';
    assert forall i :: |q| < i < |full| ==> full[i] == n[i - |q| - 1];
    if AtOrBelow(p, full) && p != full {
      assert |p| <= |q|;
      assert p == full[..|p|] == q[..|p|];
    }
    if AtOrBelow(p, q) {
      AtOrBelowTransitive(p, q, full);
    }
  }

  /** Splitting a joined path at its last slash is unambiguous. */
  lemma JoinInjective(p: string, m: string, q: string, n: string)
    requires IsName(m) && IsName(n) && Join(p, m) == Join(q, n)
    ensures p == q && m == n
  {
    var full := Join(p, m);
    assert full[|p|] == '/' && full[|q|] == '/';
    assert forall i :: |p| < i < |full| ==> full[i] == m[i - |p| - 1];
    assert forall i :: |q| < i < |full| ==> full[i] == n[i - |q| - 1];
    assert p == full[..|p|] == q;
    assert m == full[|p| + 1..] == n;
  }

  lemma {:induction false} RootAtOrBelowRender(root: string, comps: seq<string>)
    requires AllNames(comps)
    ensures AtOrBelow(root, Render(root, comps))
    ensures comps != [] ==> |Render(root, comps)| > |root|
  {
    if comps != [] {
      RootAtOrBelowRender(root, comps[..|comps| - 1]);
      BelowMeansParentAtOrBelow(root, Render(root, comps[..|comps| - 1]), comps[|comps| - 1]);
    }
  }

  /** A rendered path determines its root and its components. */
  lemma {:induction false} RenderInjective(r: string, c: seq<string>, s: string, d: seq<string>)
    requires AllNames(c) && AllNames(d)
    requires r == s || Apart(r, s)
    requires Render(r, c) == Render(s, d)
    ensures r == s && c == d
  {
    RootAtOrBelowRender(r, c);
    RootAtOrBelowRender(s, d);
    if c != [] && d != [] {
      JoinInjective(Render(r, c[..|c| - 1]), c[|c| - 1], Render(s, d[..|d| - 1]), d[|d| - 1]);
      RenderInjective(r, c[..|c| - 1], s, d[..|d| - 1]);
      assert c == c[..|c| - 1] + [c[|c| - 1]] == d;
    }
  }

  /** The string test decides exactly the subtree relation on component lists. In particular a sibling whose name
      merely starts with the other's name is not below it. */
  lemma {:induction false} AtOrBelowIsSubtree(r: string, c: seq<string>, s: string, d: seq<string>)
    requires AllNames(c) && AllNames(d)
    requires r == s || Apart(r, s)
    ensures AtOrBelow(Render(r, c), Render(s, d)) <==> r == s && c <= d
    decreases |d|
  {
    RootAtOrBelowRender(r, c);
    if d == [] {
      if AtOrBelow(Render(r, c), s) {
        AtOrBelowTransitive(r, Render(r, c), s);
      }
    } else {
      var up := d[..|d| - 1];
      BelowMeansParentAtOrBelow(Render(r, c), Render(s, up), d[|d| - 1]);
      AtOrBelowIsSubtree(r, c, s, up);
      if Render(r, c) == Render(s, d) {
        RenderInjective(r, c, s, d);
      }
      if r == s && c <= d {
        if |c| == |d| {
          assert c == d;
        } else {
          assert c <= up;
        }
      }
    }
  }

  lemma {:induction false} RenderSplit(root: string, c: seq<string>, d: seq<string>)
    requires c <= d
    ensures |Render(root, c)| <= |Render(root, d)|
    ensures Render(root, d)[..|Render(root, c)|] == Render(root, c)
    decreases |d|
  {
    if |c| == |d| {
      assert c == d;
    } else {
      RenderSplit(root, c, d[..|d| - 1]);
    }
  }

  lemma {:induction false} RenderAppend(r: string, c: seq<string>, s: string, e: seq<string>, t: seq<string>)
    ensures |Render(r, c)| <= |Render(r, c + t)|
    ensures Render(s, e + t) == Render(s, e) + Render(r, c + t)[|Render(r, c)|..]
    decreases |t|
  {
    if t == [] {
      assert c + t == c && e + t == e;
    } else {
      var init, last := t[..|t| - 1], t[|t| - 1];
      assert (c + t)[..|c + t| - 1] == c + init && (e + t)[..|e + t| - 1] == e + init;
      RenderAppend(r, c, s, e, init);
    }
  }

  /** Rewriting the strings is moving the subtree: a path at or below (ro, co) gets the prefix (rn, cn) in place of
      (ro, co); every other path stays as it is. */
  lemma RebaseMovesSubtree(ro: string, co: seq<string>, rn: string, cn: seq<string>, rq: string, cq: seq<string>)
    requires AllNames(co) && AllNames(cq)
    requires ro == rq || Apart(ro, rq)
    ensures Rebase(Render(ro, co), Render(rn, cn), Render(rq, cq))
         == if ro == rq && co <= cq then Render(rn, cn + cq[|co|..]) else Render(rq, cq)
  {
    AtOrBelowIsSubtree(ro, co, rq, cq);
    if ro == rq && co <= cq {
      assert cq == co + cq[|co|..];
      RenderAppend(ro, co, rn, cn, cq[|co|..]);
    }
  }

  /** Renaming onto a path that nothing occupied keeps different paths different. */
  lemma RebaseKeepsPathsDistinct(oldPath: string, newPath: string, p: string, q: string)
    requires p != q
    requires !AtOrBelow(oldPath, p) ==> !AtOrBelow(newPath, p)
    requires !AtOrBelow(oldPath, q) ==> !AtOrBelow(newPath, q)
    ensures Rebase(oldPath, newPath, p) != Rebase(oldPath, newPath, q)
  {
    if AtOrBelow(oldPath, p) {
      RebaseUndone(oldPath, newPath, p);
    }
    if AtOrBelow(oldPath, q) {
      RebaseUndone(oldPath, newPath, q);
    }
  }

  /** A rewritten path is at or below the new path, and renaming back restores it. */
  lemma RebaseUndone(oldPath: string, newPath: string, p: string)
    requires AtOrBelow(oldPath, p)
    ensures AtOrBelow(newPath, Rebase(oldPath, newPath, p))
    ensures Rebase(newPath, oldPath, Rebase(oldPath, newPath, p)) == p
  {
    var p' := Rebase(oldPath, newPath, p);
    assert p == oldPath + p[|oldPath|..];
    assert p'[..|newPath|] == newPath && p'[|newPath|..] == p[|oldPath|..];
    assert |p| > |oldPath| ==> p'[|newPath|] == p[|oldPath|];
  }
}
