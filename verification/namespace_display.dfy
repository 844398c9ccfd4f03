/** How namespaces_of.go displays the forest: recursively from the root, then from the invisible entry. */
module NamespaceDisplay {
  import opened Basics
  import opened NamespaceForest

  /** One visit of displayNamespaceTree(): a key and the level it is displayed at. */
  type Visits = seq<(ID, nat)>

  /** x is k or lies somewhere under it. */
  ghost predicate Below(sys: System, x: ID, k: ID)
    requires Consistent(sys)
    decreases KeyDepth(sys, x)
  {
    x == k || (UpKey(sys, x).Some? && (UpIsShallower(sys, x); Below(sys, UpKey(sys, x).value, k)))
  }

  /** The number of keys above x. */
  ghost function TreeDepth(sys: System, x: ID): nat
    requires Consistent(sys)
    decreases KeyDepth(sys, x)
  {
    if UpKey(sys, x).Some? then UpIsShallower(sys, x); 1 + TreeDepth(sys, UpKey(sys, x).value) else 0
  }

  lemma ChildFacts(n: NamespaceList, sys: System, k: ID, j: nat)
    requires Consistent(sys) && Linked(n, sys, {}) && k in n && j < |n[k].children|
    ensures var c := n[k].children[j];
      && c in n && UpKey(sys, c) == Some(k) && KeyDepth(sys, k) < KeyDepth(sys, c) <= sys.limit
      && c !in n[k].children[j + 1..]
  {
    var cs := n[k].children;
    var c := cs[j];
    assert cs == cs[..j] + [c] + cs[j + 1..];
    assert multiset(cs)[c] == Copies(n, sys, {}, k, c);
    UpIsShallower(sys, c);
  }

  /** The visits of the whole subtree of k, starting at a level. */
  ghost function Preorder(n: NamespaceList, sys: System, k: ID, level: nat): Visits
    requires Consistent(sys) && Linked(n, sys, {}) && k in n
    decreases sys.limit - KeyDepth(sys, k), |n[k].children| + 1
  {
    [(k, level)] + PreorderFrom(n, sys, k, 0, level + 1)
  }

  /** The visits of the subtrees of k's children from index j on. */
  ghost function PreorderFrom(n: NamespaceList, sys: System, k: ID, j: nat, level: nat): Visits
    requires Consistent(sys) && Linked(n, sys, {}) && k in n && j <= |n[k].children|
    decreases sys.limit - KeyDepth(sys, k), |n[k].children| - j
  {
    if j == |n[k].children| then []
    else
      ChildFacts(n, sys, k, j);
      Preorder(n, sys, n[k].children[j], level) + PreorderFrom(n, sys, k, j + 1, level)
  }

  // ---------------------------------------------------------------- every key of a subtree is visited once

  ghost function Count(vs: Visits, x: ID): nat {
    if vs == [] then 0 else (if vs[0].0 == x then 1 else 0) + Count(vs[1..], x)
  }

  lemma {:induction false} CountConcat(vs: Visits, ws: Visits, x: ID)
    ensures Count(vs + ws, x) == Count(vs, x) + Count(ws, x)
    decreases |vs|
  {
    if vs == [] {
      assert vs + ws == ws;
    } else {
      assert (vs + ws)[0] == vs[0] && (vs + ws)[1..] == vs[1..] + ws;
      CountConcat(vs[1..], ws, x);
    }
  }

  /** The child of k on the way down to x. */
  ghost function Toward(sys: System, x: ID, k: ID): (c: ID)
    requires Consistent(sys) && Below(sys, x, k) && x != k
    ensures UpKey(sys, c) == Some(k)
    decreases KeyDepth(sys, x)
  {
    UpIsShallower(sys, x);
    if UpKey(sys, x) == Some(k) then x else Toward(sys, UpKey(sys, x).value, k)
  }

  lemma {:induction false} BelowIsShallower(sys: System, x: ID, k: ID)
    requires Consistent(sys) && Below(sys, x, k)
    ensures KeyDepth(sys, k) <= KeyDepth(sys, x) && (x != k ==> KeyDepth(sys, k) < KeyDepth(sys, x))
    decreases KeyDepth(sys, x)
  {
    if x != k {
      UpIsShallower(sys, x);
      BelowIsShallower(sys, UpKey(sys, x).value, k);
    }
  }

  /** x lies under exactly one child of k. */
  lemma {:induction false} TowardIsUnique(sys: System, x: ID, k: ID, c: ID)
    requires Consistent(sys) && UpKey(sys, c) == Some(k)
    ensures Below(sys, x, c) <==> Below(sys, x, k) && x != k && Toward(sys, x, k) == c
    decreases KeyDepth(sys, x)
  {
    UpIsShallower(sys, c);
    if x == k {
      if Below(sys, x, c) {
        BelowIsShallower(sys, x, c);
      }
    } else if UpKey(sys, x).Some? {
      UpIsShallower(sys, x);
      TowardIsUnique(sys, UpKey(sys, x).value, k, c);
    }
  }

  lemma {:induction false} TowardIsKey(n: NamespaceList, sys: System, x: ID, k: ID)
    requires Consistent(sys) && Linked(n, sys, {}) && x in n && k in n && Below(sys, x, k) && x != k
    ensures Toward(sys, x, k) in n && Toward(sys, x, k) in n[k].children
    decreases KeyDepth(sys, x)
  {
    UpIsShallower(sys, x);
    if UpKey(sys, x) == Some(k) {
      assert multiset(n[k].children)[x] == Copies(n, sys, {}, k, x) == 1;
    } else {
      TowardIsKey(n, sys, UpKey(sys, x).value, k);
    }
  }

  lemma {:induction false} CountPreorder(n: NamespaceList, sys: System, k: ID, level: nat, x: ID)
    requires Consistent(sys) && Linked(n, sys, {}) && k in n && x in n
    ensures Count(Preorder(n, sys, k, level), x) == if Below(sys, x, k) then 1 else 0
    decreases sys.limit - KeyDepth(sys, k), |n[k].children| + 1
  {
    hide Consistent, Linked, PreorderFrom, UpKey;
    var rest := PreorderFrom(n, sys, k, 0, level + 1);
    CountConcat([(k, level)], rest, x);
    CountFrom(n, sys, k, 0, level + 1, x);
    assert Count([(k, level)], x) == if k == x then 1 else 0;
    assert n[k].children[0..] == n[k].children;
    if Below(sys, x, k) && x != k {
      TowardIsKey(n, sys, x, k);
    }
  }

  lemma {:induction false} CountFrom(n: NamespaceList, sys: System, k: ID, j: nat, level: nat, x: ID)
    requires Consistent(sys) && Linked(n, sys, {}) && k in n && x in n && j <= |n[k].children|
    ensures Count(PreorderFrom(n, sys, k, j, level), x)
         == if Below(sys, x, k) && x != k && Toward(sys, x, k) in n[k].children[j..] then 1 else 0
    decreases sys.limit - KeyDepth(sys, k), |n[k].children| - j
  {
    hide Consistent, Linked, Preorder, UpKey, Below, Toward;
    if j < |n[k].children| {
      var c := n[k].children[j];
      ChildFacts(n, sys, k, j);
      CountPreorder(n, sys, c, level, x);
      CountFrom(n, sys, k, j + 1, level, x);
      CountConcat(Preorder(n, sys, c, level), PreorderFrom(n, sys, k, j + 1, level), x);
      TowardIsUnique(sys, x, k, c);
      assert n[k].children[j..] == [c] + n[k].children[j + 1..];
    }
  }

  // ---------------------------------------------------------------- levels

  /** Every visited key is displayed as much deeper than k as it is deeper in the tree. */
  ghost predicate LevelsFit(sys: System, vs: Visits, level: nat, depth: nat)
    requires Consistent(sys)
  {
    forall i :: 0 <= i < |vs| ==> vs[i].1 + depth == level + TreeDepth(sys, vs[i].0) && vs[i].1 >= level
  }

  lemma {:induction false} PreorderLevels(n: NamespaceList, sys: System, k: ID, level: nat)
    requires Consistent(sys) && Linked(n, sys, {}) && k in n
    ensures LevelsFit(sys, Preorder(n, sys, k, level), level, TreeDepth(sys, k))
    decreases sys.limit - KeyDepth(sys, k), |n[k].children| + 1
  {
    hide Consistent, Linked, PreorderFrom, UpKey, TreeDepth;
    PreorderFromLevels(n, sys, k, 0, level + 1);
  }

  lemma {:induction false} PreorderFromLevels(n: NamespaceList, sys: System, k: ID, j: nat, level: nat)
    requires Consistent(sys) && Linked(n, sys, {}) && k in n && j <= |n[k].children|
    ensures LevelsFit(sys, PreorderFrom(n, sys, k, j, level), level, TreeDepth(sys, k) + 1)
    decreases sys.limit - KeyDepth(sys, k), |n[k].children| - j
  {
    hide Consistent, Linked, Preorder, UpKey;
    if j < |n[k].children| {
      ChildFacts(n, sys, k, j);
      PreorderLevels(n, sys, n[k].children[j], level);
      PreorderFromLevels(n, sys, k, j + 1, level);
    }
  }

  /** The entry that vs[i] is displayed under: the nearest one before it that is displayed less deep. */
  ghost predicate DisplayedUnder(vs: Visits, j: int, i: int) {
    0 <= j < i < |vs| && vs[j].1 + 1 == vs[i].1 && forall m :: j < m < i ==> vs[m].1 >= vs[i].1
  }

  lemma {:induction false} ParentsPrecede(n: NamespaceList, sys: System, k: ID, level: nat, i: nat)
    requires Consistent(sys) && Linked(n, sys, {}) && k in n && 0 < i < |Preorder(n, sys, k, level)|
    ensures var vs := Preorder(n, sys, k, level);
      exists j :: DisplayedUnder(vs, j, i) && UpKey(sys, vs[i].0) == Some(vs[j].0)
    decreases sys.limit - KeyDepth(sys, k), |n[k].children| + 1
  {
    hide Consistent, Linked, PreorderFrom, UpKey;
    var vs, rest := Preorder(n, sys, k, level), PreorderFrom(n, sys, k, 0, level + 1);
    PreorderFromLevels(n, sys, k, 0, level + 1);
    ParentsPrecedeFrom(n, sys, k, 0, level + 1, i - 1);
    if j :| DisplayedUnder(rest, j, i - 1) && UpKey(sys, rest[i - 1].0) == Some(rest[j].0) {
      ShiftDisplayed(rest, j, i - 1, [(k, level)], []);
      assert [(k, level)] + rest + [] == vs;
    } else {
      assert DisplayedUnder(vs, 0, i);
    }
  }

  lemma ShiftDisplayed(vs: Visits, j: int, i: int, before: Visits, after: Visits)
    requires DisplayedUnder(vs, j, i)
    ensures DisplayedUnder(before + vs + after, |before| + j, |before| + i)
    ensures (before + vs + after)[|before| + j] == vs[j] && (before + vs + after)[|before| + i] == vs[i]
  {
    var ws := before + vs + after;
    assert forall m :: 0 <= m < |vs| ==> ws[|before| + m] == vs[m];
    assert forall m :: |before| + j < m < |before| + i ==> ws[m] == vs[m - |before|];
  }

  /** Visit i is of a child of k, or comes under its own parent's visit. */
  ghost predicate Preceded(sys: System, vs: Visits, i: nat, k: ID, level: nat)
    requires i < |vs|
  {
    || (UpKey(sys, vs[i].0) == Some(k) && vs[i].1 == level)
    || (exists h :: DisplayedUnder(vs, h, i) && UpKey(sys, vs[i].0) == Some(vs[h].0))
  }

  lemma PrecededLater(sys: System, a: Visits, b: Visits, i: nat, k: ID, level: nat)
    requires i < |b| && Preceded(sys, b, i, k, level)
    ensures Preceded(sys, a + b, |a| + i, k, level)
  {
    hide UpKey;
    if h :| DisplayedUnder(b, h, i) && UpKey(sys, b[i].0) == Some(b[h].0) {
      ShiftDisplayed(b, h, i, a, []);
      assert a + b == a + b + [];
      assert DisplayedUnder(a + b, |a| + h, |a| + i);
    }
  }

  lemma PrecededEarlier(sys: System, a: Visits, b: Visits, i: nat, j: nat, k: ID, level: nat)
    requires DisplayedUnder(a, j, i) && UpKey(sys, a[i].0) == Some(a[j].0)
    ensures Preceded(sys, a + b, i, k, level)
  {
    hide UpKey;
    ShiftDisplayed(a, j, i, [], b);
    assert a + b == [] + a + b;
    assert DisplayedUnder(a + b, j, i);
  }

  lemma FromUnfolds(n: NamespaceList, sys: System, k: ID, j: nat, level: nat)
    requires Consistent(sys) && Linked(n, sys, {}) && k in n && j <= |n[k].children|
    ensures j == |n[k].children| ==> PreorderFrom(n, sys, k, j, level) == []
    ensures j < |n[k].children| ==>
      && n[k].children[j] in n
      && PreorderFrom(n, sys, k, j, level)
         == Preorder(n, sys, n[k].children[j], level) + PreorderFrom(n, sys, k, j + 1, level)
  {
    hide Consistent, Linked, Preorder;
    if j < |n[k].children| {
      ChildFacts(n, sys, k, j);
    }
  }

  lemma {:induction false} ParentsPrecedeFrom(n: NamespaceList, sys: System, k: ID, j: nat, level: nat, i: nat)
    requires Consistent(sys) && Linked(n, sys, {}) && k in n && j <= |n[k].children|
    requires i < |PreorderFrom(n, sys, k, j, level)|
    ensures Preceded(sys, PreorderFrom(n, sys, k, j, level), i, k, level)
    decreases sys.limit - KeyDepth(sys, k), |n[k].children| - j
  {
    hide Consistent, Linked, UpKey, Preorder, PreorderFrom, Preceded;
    FromUnfolds(n, sys, k, j, level);
    var c := n[k].children[j];
    ChildFacts(n, sys, k, j);
    var a, b := Preorder(n, sys, c, level), PreorderFrom(n, sys, k, j + 1, level);
    if i >= |a| {
      ParentsPrecedeFrom(n, sys, k, j + 1, level, i - |a|);
      PrecededLater(sys, a, b, i - |a|, k, level);
    } else if i > 0 {
      ParentsPrecede(n, sys, c, level, i);
      var h :| DisplayedUnder(a, h, i) && UpKey(sys, a[i].0) == Some(a[h].0);
      PrecededEarlier(sys, a, b, i, h, k, level);
    } else {
      FirstVisit(n, sys, c, level);
      assert Preceded(sys, a + b, 0, k, level) by {
        PrecededFirst(sys, a, b, k, level);
      }
    }
  }

  lemma PrecededFirst(sys: System, a: Visits, b: Visits, k: ID, level: nat)
    requires |a| > 0 && UpKey(sys, a[0].0) == Some(k) && a[0].1 == level
    ensures Preceded(sys, a + b, 0, k, level)
  {
    hide UpKey;
  }

  lemma FirstVisit(n: NamespaceList, sys: System, k: ID, level: nat)
    requires Consistent(sys) && Linked(n, sys, {}) && k in n
    ensures |Preorder(n, sys, k, level)| > 0 && Preorder(n, sys, k, level)[0] == (k, level)
  {
  }

  // ---------------------------------------------------------------- the program's recursion

  /** User namespaces are always displayed, other ones if their type was asked for. */
  function Shown(n: NamespaceList, vs: Visits, types: set<NsType>): Visits
    requires forall v :: v in vs ==> v.0 in n
  {
    if vs == [] then []
    else (if n[vs[0].0].nsType == USER || n[vs[0].0].nsType in types then [vs[0]] else []) + Shown(n, vs[1..], types)
  }

  lemma ShownUnfolds(n: NamespaceList, vs: Visits, types: set<NsType>)
    requires forall v :: v in vs ==> v.0 in n
    ensures vs == [] ==> Shown(n, vs, types) == []
    ensures vs != [] ==> vs[0] in vs && forall v :: v in vs[1..] ==> v.0 in n
    ensures vs != [] ==>
      Shown(n, vs, types) == (if n[vs[0].0].nsType == USER || n[vs[0].0].nsType in types then [vs[0]] else [])
        + Shown(n, vs[1..], types)
  {
  }

  lemma {:induction false} ShownConcat(n: NamespaceList, vs: Visits, ws: Visits, types: set<NsType>)
    requires (forall v :: v in vs ==> v.0 in n) && (forall v :: v in ws ==> v.0 in n)
    ensures forall v :: v in vs + ws ==> v.0 in n
    ensures Shown(n, vs + ws, types) == Shown(n, vs, types) + Shown(n, ws, types)
    decreases |vs|
  {
    hide Shown;
    ShownUnfolds(n, vs, types);
    ShownUnfolds(n, vs + ws, types);
    if vs == [] {
      assert vs + ws == ws;
    } else {
      assert (vs + ws)[0] == vs[0] && (vs + ws)[1..] == vs[1..] + ws;
      ShownConcat(n, vs[1..], ws, types);
    }
  }

  lemma {:induction false} VisitsAreKeys(n: NamespaceList, sys: System, k: ID, level: nat)
    requires Consistent(sys) && Linked(n, sys, {}) && k in n
    ensures forall v :: v in Preorder(n, sys, k, level) ==> v.0 in n
    decreases sys.limit - KeyDepth(sys, k), |n[k].children| + 1
  {
    hide Consistent, Linked, PreorderFrom;
    VisitsFromAreKeys(n, sys, k, 0, level + 1);
  }

  lemma {:induction false} VisitsFromAreKeys(n: NamespaceList, sys: System, k: ID, j: nat, level: nat)
    requires Consistent(sys) && Linked(n, sys, {}) && k in n && j <= |n[k].children|
    ensures forall v :: v in PreorderFrom(n, sys, k, j, level) ==> v.0 in n
    decreases sys.limit - KeyDepth(sys, k), |n[k].children| - j
  {
    hide Consistent, Linked, Preorder, UpKey;
    if j < |n[k].children| {
      ChildFacts(n, sys, k, j);
      VisitsAreKeys(n, sys, n[k].children[j], level);
      VisitsFromAreKeys(n, sys, k, j + 1, level);
    }
  }

  ghost function ShownTree(n: NamespaceList, sys: System, k: ID, level: nat, types: set<NsType>): Visits
    requires Consistent(sys) && Linked(n, sys, {}) && k in n
  {
    VisitsAreKeys(n, sys, k, level);
    Shown(n, Preorder(n, sys, k, level), types)
  }

  ghost function ShownFrom(n: NamespaceList, sys: System, k: ID, j: nat, level: nat, types: set<NsType>): Visits
    requires Consistent(sys) && Linked(n, sys, {}) && k in n && j <= |n[k].children|
  {
    VisitsFromAreKeys(n, sys, k, j, level);
    Shown(n, PreorderFrom(n, sys, k, j, level), types)
  }

  lemma ShownTreeUnfolds(n: NamespaceList, sys: System, k: ID, level: nat, types: set<NsType>)
    requires Consistent(sys) && Linked(n, sys, {}) && k in n
    ensures ShownTree(n, sys, k, level, types)
         == (if n[k].nsType == USER || n[k].nsType in types then [(k, level)] else [])
            + ShownFrom(n, sys, k, 0, level + 1, types)
  {
    hide PreorderFrom, Linked, Consistent;
    VisitsAreKeys(n, sys, k, level);
    VisitsFromAreKeys(n, sys, k, 0, level + 1);
    var vs := Preorder(n, sys, k, level);
    assert vs[1..] == PreorderFrom(n, sys, k, 0, level + 1);
  }

  lemma ShownFromUnfolds(n: NamespaceList, sys: System, k: ID, j: nat, level: nat, types: set<NsType>)
    requires Consistent(sys) && Linked(n, sys, {}) && k in n && j <= |n[k].children|
    ensures j == |n[k].children| ==> ShownFrom(n, sys, k, j, level, types) == []
    ensures j < |n[k].children| ==> n[k].children[j] in n
    ensures j < |n[k].children| ==>
      ShownFrom(n, sys, k, j, level, types)
      == ShownTree(n, sys, n[k].children[j], level, types) + ShownFrom(n, sys, k, j + 1, level, types)
  {
    hide Preorder, Linked, Consistent, Shown;
    if j < |n[k].children| {
      ChildFacts(n, sys, k, j);
      VisitsAreKeys(n, sys, n[k].children[j], level);
      VisitsFromAreKeys(n, sys, k, j + 1, level);
      ShownConcat(n, Preorder(n, sys, n[k].children[j], level), PreorderFrom(n, sys, k, j + 1, level), types);
    } else {
      assert Shown(n, [], types) == [] by {
        ShownNothing(n, types);
      }
    }
  }

  lemma ShownNothing(n: NamespaceList, types: set<NsType>)
    ensures Shown(n, [], types) == []
  {
  }

  method DisplayNamespaceTree(n: NamespaceList, ghost sys: System, nsid: ID, level: nat, types: set<NsType>)
      returns (out: Visits)
    requires Consistent(sys) && Linked(n, sys, {}) && nsid in n
    ensures out == ShownTree(n, sys, nsid, level, types)
    decreases sys.limit - KeyDepth(sys, nsid)
  {
    hide Consistent, Linked, ShownTree, ShownFrom, UpKey;
    out := [];
    if n[nsid].nsType == USER || n[nsid].nsType in types {
      out := [(nsid, level)];
    }
    ShownTreeUnfolds(n, sys, nsid, level, types);
    var children := n[nsid].children;
    for j := 0 to |children|
      invariant ShownTree(n, sys, nsid, level, types) == out + ShownFrom(n, sys, nsid, j, level + 1, types)
    {
      ChildFacts(n, sys, nsid, j);
      ShownFromUnfolds(n, sys, nsid, j, level + 1, types);
      var sub := DisplayNamespaceTree(n, sys, children[j], level + 1, types);
      out := out + sub;
    }
    ShownFromUnfolds(n, sys, nsid, |children|, level + 1, types);
  }

  /** Everything displayNamespaceHierarchies() visits without the subtree option. */
  ghost function AllVisits(n: NamespaceList, sys: System, root: ID): Visits
    requires Consistent(sys) && Linked(n, sys, {}) && root in n
  {
    Preorder(n, sys, root, 0) + if INVIS_USER_NS in n then Preorder(n, sys, INVIS_USER_NS, 0) else []
  }

  /** Without an entry for the root there is nothing to dereference and the program crashes (None). */
  method DisplayNamespaceHierarchies(nsi: NamespaceInfo, ghost sys: System, types: set<NsType>)
      returns (out: Option<Visits>)
    requires Consistent(sys) && Linked(nsi.nsList, sys, {})
    ensures out.Some? <==> nsi.rootNS in nsi.nsList
    ensures out.Some? ==>
      out.value == ShownTree(nsi.nsList, sys, nsi.rootNS, 0, types)
        + if INVIS_USER_NS in nsi.nsList then ShownTree(nsi.nsList, sys, INVIS_USER_NS, 0, types) else []
  {
    if nsi.rootNS !in nsi.nsList {
      return None;
    }
    var tree := DisplayNamespaceTree(nsi.nsList, sys, nsi.rootNS, 0, types);
    if INVIS_USER_NS in nsi.nsList {
      var rest := DisplayNamespaceTree(nsi.nsList, sys, INVIS_USER_NS, 0, types);
      tree := tree + rest;
    }
    return Some(tree);
  }

  // ---------------------------------------------------------------- when the display is complete

  /** The key above x that belongs under no other. */
  ghost function EndOf(sys: System, x: ID): (e: ID)
    requires Consistent(sys)
    ensures UpKey(sys, e) == None
    decreases KeyDepth(sys, x)
  {
    if UpKey(sys, x).Some? then UpIsShallower(sys, x); EndOf(sys, UpKey(sys, x).value) else x
  }

  lemma {:induction false} BelowEnd(sys: System, x: ID, e: ID)
    requires Consistent(sys) && UpKey(sys, e) == None
    ensures Below(sys, x, e) <==> EndOf(sys, x) == e
    decreases KeyDepth(sys, x)
  {
    if UpKey(sys, x).Some? {
      UpIsShallower(sys, x);
      BelowEnd(sys, UpKey(sys, x).value, e);
    }
  }

  lemma {:induction false} EndIsKey(n: NamespaceList, sys: System, x: ID)
    requires Consistent(sys) && Linked(n, sys, {}) && x in n
    ensures EndOf(sys, x) in n && (IsTop(sys, EndOf(sys, x)) || EndOf(sys, x) == INVIS_USER_NS)
    decreases KeyDepth(sys, x)
  {
    if UpKey(sys, x).Some? {
      UpIsShallower(sys, x);
      EndIsKey(n, sys, UpKey(sys, x).value);
    }
  }

  lemma {:induction false} TopOfLineage(sys: System, k: ID, x: ID)
    requires Consistent(sys) && x in Lineage(sys, k) && IsTop(sys, x)
    ensures TopAbove(sys, k) == Some(x)
    decreases KeyDepth(sys, k)
  {
    if UpKey(sys, k).Some? {
      UpIsShallower(sys, k);
      TopOfLineage(sys, UpKey(sys, k).value, x);
    }
  }

  /** The root is one of the topmost namespaces found; without any it keeps its zero value. */
  lemma {:induction false} RootIsTop(sys: System, log: Scan)
    requires Consistent(sys)
    ensures (exists t :: t in KeysOf(sys, log) && IsTop(sys, t)) ==>
      RootOf(sys, log) in KeysOf(sys, log) && IsTop(sys, RootOf(sys, log))
    ensures (forall t :: t in KeysOf(sys, log) ==> !IsTop(sys, t)) ==> RootOf(sys, log) == INVIS_USER_NS
    decreases |log|
  {
    if log != [] {
      var init, k := log[..|log| - 1], log[|log| - 1].0;
      RootIsTop(sys, init);
      TopInLineage(sys, k);
      forall t | t in Lineage(sys, k) && IsTop(sys, t)
        ensures TopAbove(sys, k) == Some(t)
      {
        TopOfLineage(sys, k, t);
      }
      hide Lineage, TopAbove;
    }
  }

  lemma CountAll(n: NamespaceList, sys: System, root: ID, x: ID)
    requires Consistent(sys) && Linked(n, sys, {}) && root in n && x in n
    ensures Count(AllVisits(n, sys, root), x)
         == (if Below(sys, x, root) then 1 else 0)
            + (if INVIS_USER_NS in n && Below(sys, x, INVIS_USER_NS) then 1 else 0)
  {
    hide Consistent, Linked, Preorder, Below;
    CountPreorder(n, sys, root, 0, x);
    if INVIS_USER_NS in n {
      CountPreorder(n, sys, INVIS_USER_NS, 0, x);
      CountConcat(Preorder(n, sys, root, 0), Preorder(n, sys, INVIS_USER_NS, 0), x);
    } else {
      assert Preorder(n, sys, root, 0) + [] == Preorder(n, sys, root, 0);
    }
  }

  ghost predicate EachVisitedOnce(n: NamespaceList, sys: System, root: ID)
    requires Consistent(sys) && Linked(n, sys, {})
  {
    root in n && forall x :: x in n ==> Count(AllVisits(n, sys, root), x) == 1
  }

  ghost predicate OnlyTop(n: NamespaceList, sys: System, r: ID) {
    r in n && forall k :: k in n ==> (IsTop(sys, k) <==> k == r)
  }

  lemma CountByEnd(n: NamespaceList, sys: System, root: ID, x: ID)
    requires Consistent(sys) && Linked(n, sys, {}) && root in n && x in n && (IsTop(sys, root) || root == INVIS_USER_NS)
    ensures EndOf(sys, x) in n && (IsTop(sys, EndOf(sys, x)) || EndOf(sys, x) == INVIS_USER_NS)
    ensures IsTop(sys, x) ==> EndOf(sys, x) == x && x != INVIS_USER_NS
    ensures Count(AllVisits(n, sys, root), x)
         == (if EndOf(sys, x) == root then 1 else 0) + (if EndOf(sys, x) == INVIS_USER_NS then 1 else 0)
  {
    hide Linked, AllVisits, Count, Below, EndOf, UpKey;
    CountAll(n, sys, root, x);
    EndIsKey(n, sys, x);
    EndFacts(sys, x, root);
    InvisibleFacts(sys);
  }

  lemma OnlyTopSuffices(n: NamespaceList, sys: System, root: ID)
    requires Consistent(sys) && Linked(n, sys, {}) && OnlyTop(n, sys, root)
    ensures EachVisitedOnce(n, sys, root)
  {
    hide Consistent, Linked, AllVisits, Count, EndOf;
    InvisibleFacts(sys);
    forall x | x in n
      ensures Count(AllVisits(n, sys, root), x) == 1
    {
      CountByEnd(n, sys, root, x);
    }
  }

  lemma OnlyTopNeeded(n: NamespaceList, sys: System, root: ID)
    requires Consistent(sys) && Linked(n, sys, {}) && EachVisitedOnce(n, sys, root)
    requires IsTop(sys, root) || root == INVIS_USER_NS
    ensures OnlyTop(n, sys, root)
  {
    hide Consistent, Linked, AllVisits, Count, EndOf;
    InvisibleFacts(sys);
    CountByEnd(n, sys, root, root);
    forall x | x in n && IsTop(sys, x)
      ensures x == root
    {
      CountByEnd(n, sys, root, x);
    }
  }

  /** The display visits every key exactly once if and only if the scan found exactly one topmost namespace. With none,
      the program crashes or displays the invisible entry twice; with several, only one hierarchy is displayed. */
  lemma DisplayCompleteIff(n: NamespaceList, root: ID, sys: System, log: Scan)
    requires Consistent(sys) && Built(n, root, sys, log)
    ensures EachVisitedOnce(n, sys, root) <==> exists r :: OnlyTop(n, sys, r)
  {
    RootIsTop(sys, log);
    hide Consistent, Linked, KeysOf, RootOf, PidsRecorded, Labelled, EachVisitedOnce;
    if r :| OnlyTop(n, sys, r) {
      assert OnlyTop(n, sys, root);
      OnlyTopSuffices(n, sys, root);
    }
    if EachVisitedOnce(n, sys, root) {
      OnlyTopNeeded(n, sys, root);
    }
  }

  /** At most one of the keys is topmost. */
  ghost predicate OneTop(keys: set<ID>, sys: System) {
    forall k, x :: k in keys && x in keys && IsTop(sys, k) && IsTop(sys, x) ==> k == x
  }

  /** Then the root, too, does not depend on the order of the scan. */
  lemma SameRoot(sys: System, log: Scan, log': Scan, n: NamespaceList, n': NamespaceList, root: ID, root': ID)
    requires Consistent(sys) && multiset(log) == multiset(log')
    requires Built(n, root, sys, log) && Built(n', root', sys, log') && OneTop(n.Keys, sys)
    ensures root == root'
  {
    RootIsTop(sys, log);
    RootIsTop(sys, log');
    SameKeys(sys, log, log');
    hide Consistent, KeysOf, RootOf, Linked, Labelled, PidsRecorded, IsTop;
  }

  /** With a PID namespace that was unshared under the /proc of its parent, a scan of the PID hierarchy finds two
      namespaces whose parents are not visible: the one found first is not displayed. */
  lemma TwoTopsFail(outer: ID, inner: ID, pid: int, pid': int) returns (sys: System, log: Scan, n: NamespaceList)
    requires outer != inner && outer != INVIS_USER_NS && inner != INVIS_USER_NS && pid > 0 && pid' > 0
    ensures Consistent(sys) && sys.pidns && log == [(outer, pid), (inner, pid')] && Built(n, inner, sys, log)
    ensures !EachVisitedOnce(n, sys, inner) && Count(AllVisits(n, sys, inner), outer) == 0
  {
    sys := System(map[outer := Fact(PID, 0, None), inner := Fact(PID, 0, None)], map[outer := 0, inner := 0], 1, true);
    log := [(outer, pid), (inner, pid')];
    n := map[outer := Namespace(PID, [pid], [], 0), inner := Namespace(PID, [pid'], [], 0)];
    TwoTopsBuilt(sys, log, n, outer, inner, pid, pid');
    hide Built, Count, AllVisits, Linked;
    CountByEnd(n, sys, inner, outer);
  }

  lemma TwoTopsBuilt(sys: System, log: Scan, n: NamespaceList, outer: ID, inner: ID, pid: int, pid': int)
    requires outer != inner && outer != INVIS_USER_NS && inner != INVIS_USER_NS && pid > 0 && pid' > 0
    requires sys == System(map[outer := Fact(PID, 0, None), inner := Fact(PID, 0, None)],
        map[outer := 0, inner := 0], 1, true)
    requires log == [(outer, pid), (inner, pid')]
    requires n == map[outer := Namespace(PID, [pid], [], 0), inner := Namespace(PID, [pid'], [], 0)]
    ensures Consistent(sys) && Built(n, inner, sys, log) && Linked(n, sys, {})
  {
    TopAlone(sys, outer);
    TopAlone(sys, inner);
    hide Lineage, TopAbove, IsTop, Linked, Labelled;
    ScanAppend(sys, [], (outer, pid));
    ScanAppend(sys, [(outer, pid)], (inner, pid'));
    assert [] + [(outer, pid)] == [(outer, pid)] && [(outer, pid)] + [(inner, pid')] == log;
    NoLinks(n, sys);
  }

  lemma TopAlone(sys: System, k: ID)
    requires Consistent(sys) && IsTop(sys, k)
    ensures Lineage(sys, k) == {k} && TopAbove(sys, k) == Some(k)
  {
  }

  lemma NoLinks(n: NamespaceList, sys: System)
    requires n.Keys == sys.facts.Keys && INVIS_USER_NS !in sys.facts
    requires forall k :: k in n ==> IsTop(sys, k) && n[k].children == [] && n[k].nsType == sys.facts[k].nsType != USER
    ensures Linked(n, sys, {}) && Labelled(n, sys)
  {
  }

  lemma ScanAppend(sys: System, log: Scan, x: (ID, int))
    requires Consistent(sys)
    ensures KeysOf(sys, log + [x]) == KeysOf(sys, log) + Lineage(sys, x.0)
    ensures RootOf(sys, log + [x]) == NewRoot(sys, KeysOf(sys, log), RootOf(sys, log), x.0)
    ensures forall k :: PidsOf(log + [x], k) == PidsOf(log, k) + if x.0 == k && x.1 > 0 then [x.1] else []
  {
    hide Lineage, NewRoot;
    assert (log + [x])[..|log + [x]| - 1] == log;
  }

  lemma EndFacts(sys: System, x: ID, root: ID)
    requires Consistent(sys)
    ensures Below(sys, x, INVIS_USER_NS) <==> EndOf(sys, x) == INVIS_USER_NS
    ensures IsTop(sys, root) ==> (Below(sys, x, root) <==> EndOf(sys, x) == root)
    ensures IsTop(sys, x) ==> EndOf(sys, x) == x
  {
    BelowEnd(sys, x, INVIS_USER_NS);
    if IsTop(sys, root) {
      BelowEnd(sys, x, root);
    }
  }

  lemma InvisibleFacts(sys: System)
    requires Consistent(sys)
    ensures !IsTop(sys, INVIS_USER_NS) && Below(sys, INVIS_USER_NS, INVIS_USER_NS)
    ensures EndOf(sys, INVIS_USER_NS) == INVIS_USER_NS
  {
  }
}
