/** The list that a scan builds and what is displayed of it, told from what the kernel reports about each namespace. */
module NamespaceLaws {
  import opened Basics
  import opened NamespaceForest
  import opened NamespaceDisplay

  /** How often x is among the children of k. */
  function TimesChild(n: NamespaceList, k: ID, x: ID): nat {
    if k in n then multiset(n[k].children)[x] else 0
  }

  /** Its owner is not visible, and it is neither a user namespace nor is the PID hierarchy shown. */
  ghost predicate Ownerless(sys: System, x: ID) {
    x in sys.facts && sys.facts[x].up == None && sys.facts[x].nsType != USER && !sys.pidns
  }

  /** Its parent is not visible, and it is a user namespace or the PID hierarchy is shown. */
  ghost predicate Topmost(sys: System, x: ID) {
    x in sys.facts && sys.facts[x].up == None && (sys.facts[x].nsType == USER || sys.pidns)
  }

  lemma UpKeyMeans(sys: System, x: ID)
    requires Consistent(sys)
    ensures x in sys.facts && sys.facts[x].up.Some? ==> UpKey(sys, x) == sys.facts[x].up
    ensures Ownerless(sys, x) ==> UpKey(sys, x) == Some(INVIS_USER_NS)
    ensures x !in sys.facts || Topmost(sys, x) ==> UpKey(sys, x) == None
  {
  }

  /** Each namespace found has the type and, if it is a user namespace, the creator that the kernel reports. It is once
      among the children of the parent or owner that the kernel reports, and among no others; without a report it is
      once under the invisible entry, or if it is topmost nowhere. */
  lemma EntryMeans(n: NamespaceList, root: ID, sys: System, log: Scan, x: ID, k: ID)
    requires Consistent(sys) && Built(n, root, sys, log) && x in n && x in sys.facts
    ensures n[x].nsType == sys.facts[x].nsType
    ensures n[x].nsType == USER ==> n[x].creatorUID == sys.facts[x].creatorUID
    ensures sys.facts[x].up.Some? ==>
      sys.facts[x].up.value in n && TimesChild(n, k, x) == if k == sys.facts[x].up.value then 1 else 0
    ensures Ownerless(sys, x) ==> INVIS_USER_NS in n && TimesChild(n, k, x) == if k == INVIS_USER_NS then 1 else 0
    ensures Topmost(sys, x) ==> TimesChild(n, k, x) == 0
  {
    UpKeyMeans(sys, x);
    hide UpKey, Consistent, KeysOf, RootOf, PidsRecorded;
    assert k in n ==> multiset(n[k].children)[x] == Copies(n, sys, {}, k, x);
  }

  /** Nothing else is a child. */
  lemma OnlyEntriesAreChildren(n: NamespaceList, root: ID, sys: System, log: Scan, x: ID, k: ID)
    requires Consistent(sys) && Built(n, root, sys, log) && (x !in n || x !in sys.facts)
    ensures TimesChild(n, k, x) == 0
  {
    UpKeyMeans(sys, x);
    hide UpKey, Consistent, KeysOf, RootOf, PidsRecorded, Labelled;
    assert k in n ==> multiset(n[k].children)[x] == Copies(n, sys, {}, k, x);
  }

  ghost predicate Scanned(log: Scan, k: ID) {
    exists i :: 0 <= i < |log| && log[i].0 == k
  }

  lemma ScannedLast(log: Scan, k: ID)
    requires log != []
    ensures Scanned(log, k) <==> log[|log| - 1].0 == k || Scanned(log[..|log| - 1], k)
  {
    var init := log[..|log| - 1];
    if Scanned(log, k) {
      var i :| 0 <= i < |log| && log[i].0 == k;
      assert i < |init| ==> init[i].0 == k;
    }
    if Scanned(init, k) {
      var i :| 0 <= i < |init| && init[i].0 == k;
      assert log[i].0 == k;
    }
    assert log[|log| - 1].0 == k ==> Scanned(log, k);
  }

  lemma {:induction false} LineageEnds(sys: System, k: ID, x: ID)
    requires Consistent(sys) && x in Lineage(sys, k)
    ensures x == k || exists c :: c in Lineage(sys, k) && UpKey(sys, c) == Some(x)
    decreases KeyDepth(sys, k)
  {
    if x != k {
      UpIsShallower(sys, k);
      var u := UpKey(sys, k).value;
      SelfInLineage(sys, k);
      if x != u {
        LineageEnds(sys, u, x);
        var c :| c in Lineage(sys, u) && UpKey(sys, c) == Some(x);
        assert c in Lineage(sys, k);
      }
    }
  }

  /** The keys are the namespaces scanned and what the kernel reports above them: every key was scanned or is above
      another key. */
  lemma {:induction false} KeysMean(sys: System, log: Scan, x: ID)
    requires Consistent(sys)
    ensures Scanned(log, x) ==> x in KeysOf(sys, log)
    ensures x in KeysOf(sys, log) ==>
      Scanned(log, x) || exists c :: c in KeysOf(sys, log) && UpKey(sys, c) == Some(x)
    decreases |log|
  {
    hide UpKey, Lineage, Consistent;
    if log != [] {
      var init, k := log[..|log| - 1], log[|log| - 1].0;
      ScannedLast(log, x);
      KeysMean(sys, init, x);
      SelfInLineage(sys, k);
      if x in Lineage(sys, k) {
        LineageEnds(sys, k, x);
      }
    }
  }

  /** So an entry that was not scanned is there because the kernel reports it above another one, and the invisible one
      because some owner is not visible. */
  lemma WhyThere(n: NamespaceList, root: ID, sys: System, log: Scan, x: ID)
    requires Consistent(sys) && Built(n, root, sys, log)
    ensures Scanned(log, x) ==> x in n
    ensures x in n && !Scanned(log, x) ==>
      exists c :: c in n && c in sys.facts &&
        if x == INVIS_USER_NS then Ownerless(sys, c) else sys.facts[c].up == Some(x)
  {
    KeysMean(sys, log, x);
    hide KeysOf, RootOf, PidsRecorded, Labelled, Linked;
    if x in n && !Scanned(log, x) {
      var c :| c in n && UpKey(sys, c) == Some(x);
      assert c in sys.facts && if x == INVIS_USER_NS then Ownerless(sys, c) else sys.facts[c].up == Some(x);
    }
  }

  /** The members of a namespace are the processes it was scanned for, in the order of the scan. */
  lemma MembersMean(n: NamespaceList, root: ID, sys: System, log: Scan, k: ID, pid: int)
    requires Consistent(sys) && Built(n, root, sys, log) && k in n
    ensures multiset(n[k].pids)[pid] == if pid > 0 then multiset(log)[(k, pid)] else 0
  {
    hide PidsOf, KeysOf, RootOf, Labelled, Linked;
    PidCount(log, k, pid);
  }

  /** The root is a topmost namespace that was found; without one it keeps its zero value. */
  lemma RootMeans(n: NamespaceList, root: ID, sys: System, log: Scan)
    requires Consistent(sys) && Built(n, root, sys, log)
    ensures if exists t :: t in n && Topmost(sys, t) then root in n && Topmost(sys, root) else root == ID(0, 0)
  {
    hide KeysOf, RootOf, PidsRecorded, Labelled, Linked, Consistent;
    RootIsTop(sys, log);
    forall t ensures Topmost(sys, t) <==> IsTop(sys, t) {
    }
  }

  // ---------------------------------------------------------------- the display

  /** Levels start at zero, and each namespace is displayed one level deeper than the entry it belongs under. */
  lemma LevelsMean(n: NamespaceList, root: ID, sys: System, log: Scan, i: nat)
    requires Consistent(sys) && Built(n, root, sys, log) && root in n && i < |AllVisits(n, sys, root)|
    ensures var (x, level) := AllVisits(n, sys, root)[i];
      && level == TreeDepth(sys, x)
      && (level == 0 <==> x == INVIS_USER_NS || Topmost(sys, x))
      && (x in sys.facts && sys.facts[x].up.Some? ==> level == 1 + TreeDepth(sys, sys.facts[x].up.value))
  {
    RootMeans(n, root, sys, log);
    var (x, level) := AllVisits(n, sys, root)[i];
    hide Built, Linked, Preorder, LevelsFit;
    DepthMeans(sys, x);
    DepthMeans(sys, root);
    DepthMeans(sys, INVIS_USER_NS);
    LevelsAt(n, sys, root, 0);
    if INVIS_USER_NS in n {
      LevelsAt(n, sys, INVIS_USER_NS, 0);
    }
    VisitsAreKeys(n, sys, root, 0);
  }

  lemma LevelsAt(n: NamespaceList, sys: System, k: ID, level: nat)
    requires Consistent(sys) && Linked(n, sys, {}) && k in n
    ensures forall v :: v in Preorder(n, sys, k, level) ==> v.1 + TreeDepth(sys, k) == level + TreeDepth(sys, v.0)
    ensures forall v :: v in Preorder(n, sys, k, level) ==> v.0 == INVIS_USER_NS || v.0 in sys.facts
  {
    PreorderLevels(n, sys, k, level);
    VisitsAreKeys(n, sys, k, level);
    hide Preorder, TreeDepth, Consistent;
  }

  lemma DepthMeans(sys: System, x: ID)
    requires Consistent(sys)
    ensures x == INVIS_USER_NS || Topmost(sys, x) ==> TreeDepth(sys, x) == 0
    ensures Ownerless(sys, x) ==> TreeDepth(sys, x) == 1
    ensures x in sys.facts && sys.facts[x].up.Some? ==> TreeDepth(sys, x) == 1 + TreeDepth(sys, sys.facts[x].up.value)
  {
    UpKeyMeans(sys, x);
    UpKeyMeans(sys, INVIS_USER_NS);
    hide UpKey;
  }

  /** Of the visits, those of user namespaces and of the types asked for are displayed, each as often as it occurs, and
      in their order. */
  lemma {:induction false} ShownMeans(n: NamespaceList, vs: Visits, types: set<NsType>, v: (ID, nat))
    requires forall v :: v in vs ==> v.0 in n
    ensures multiset(Shown(n, vs, types))[v]
         == if v in vs && (n[v.0].nsType == USER || n[v.0].nsType in types) then multiset(vs)[v] else 0
    decreases |vs|
  {
    if vs != [] {
      ShownMeans(n, vs[1..], types, v);
      assert vs == [vs[0]] + vs[1..];
    }
  }

  lemma {:induction false} ShownInOrder(n: NamespaceList, vs: Visits, types: set<NsType>, i: nat, j: nat)
    returns (a: nat, b: nat)
    requires (forall v :: v in vs ==> v.0 in n) && i < j < |Shown(n, vs, types)|
    ensures a < b < |vs| && vs[a] == Shown(n, vs, types)[i] && vs[b] == Shown(n, vs, types)[j]
    decreases |vs|
  {
    ShownUnfolds(n, vs, types);
    hide Shown;
    var shown := Shown(n, vs, types);
    var later := Shown(n, vs[1..], types);
    if shown == later {
      a, b := ShownInOrder(n, vs[1..], types, i, j);
      a, b := a + 1, b + 1;
    } else {
      assert shown == [vs[0]] + later;
      if i > 0 {
        a, b := ShownInOrder(n, vs[1..], types, i - 1, j - 1);
        a, b := a + 1, b + 1;
      } else {
        b := ShownSomewhere(n, vs[1..], types, j - 1);
        a, b := 0, b + 1;
      }
    }
  }

  lemma {:induction false} ShownSomewhere(n: NamespaceList, vs: Visits, types: set<NsType>, j: nat)
    returns (b: nat)
    requires (forall v :: v in vs ==> v.0 in n) && j < |Shown(n, vs, types)|
    ensures b < |vs| && vs[b] == Shown(n, vs, types)[j]
    decreases |vs|
  {
    ShownUnfolds(n, vs, types);
    hide Shown;
    var later := Shown(n, vs[1..], types);
    if Shown(n, vs, types) == [vs[0]] + later && j == 0 {
      b := 0;
    } else {
      b := ShownSomewhere(n, vs[1..], types, if Shown(n, vs, types) == later then j else j - 1);
      b := b + 1;
    }
  }

  /** All that is displayed is that selection of all the visits. */
  lemma AllShown(n: NamespaceList, sys: System, root: ID, types: set<NsType>)
    requires Consistent(sys) && Linked(n, sys, {}) && root in n
    ensures forall v :: v in AllVisits(n, sys, root) ==> v.0 in n
    ensures Shown(n, AllVisits(n, sys, root), types)
         == ShownTree(n, sys, root, 0, types)
            + if INVIS_USER_NS in n then ShownTree(n, sys, INVIS_USER_NS, 0, types) else []
  {
    VisitsAreKeys(n, sys, root, 0);
    hide Shown, Preorder, Linked, Consistent;
    if INVIS_USER_NS in n {
      VisitsAreKeys(n, sys, INVIS_USER_NS, 0);
      ShownConcat(n, Preorder(n, sys, root, 0), Preorder(n, sys, INVIS_USER_NS, 0), types);
    } else {
      assert Preorder(n, sys, root, 0) + [] == Preorder(n, sys, root, 0);
    }
  }
}
