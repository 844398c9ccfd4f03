/** The forest that namespaces_of.go builds from the namespaces it scans. */
module NamespaceForest {
  import opened Basics

  datatype NsType = CGROUP | IPC | MNT | NET | PID | TIME | USER | UTS

  datatype ID = ID(device: nat, inode: nat)

  /** The key of the entry that stands for user namespaces above the visible ones. */
  const INVIS_USER_NS := ID(0, 0)

  /** What the kernel says about a namespace: its type, its creator, and what the ioctl() for its parent or owning
      namespace returns (None for EPERM). */
  datatype Fact = Fact(nsType: NsType, creatorUID: int, up: Option<ID>)

  /** The namespaces of the system and their nesting depth, which the kernel limits. pidns says that the PID namespace
      hierarchy is shown instead of the user namespace hierarchy. */
  datatype System = System(facts: map<ID, Fact>, depth: map<ID, nat>, limit: nat, pidns: bool)

  ghost predicate Consistent(sys: System) {
    && INVIS_USER_NS !in sys.facts
    && sys.depth.Keys == sys.facts.Keys
    && (forall k :: k in sys.facts ==> sys.depth[k] < sys.limit)
    && (forall k :: k in sys.facts && sys.facts[k].up.Some? ==>
          sys.facts[k].up.value in sys.facts && sys.depth[sys.facts[k].up.value] < sys.depth[k])
  }

  datatype Namespace = Namespace(nsType: NsType, pids: seq<int>, children: seq<ID>, creatorUID: int)

  type NamespaceList = map<ID, Namespace>

  /** The topmost visible namespace of a hierarchy. */
  predicate IsTop(sys: System, k: ID) {
    k in sys.facts && sys.facts[k].up == None && (sys.facts[k].nsType == USER || sys.pidns)
  }

  /** The key that k belongs under: its parent or owner, or the invisible entry when the owner is not visible. */
  function UpKey(sys: System, k: ID): Option<ID> {
    if k !in sys.facts || IsTop(sys, k) then None
    else if sys.facts[k].up == None then Some(INVIS_USER_NS)
    else sys.facts[k].up
  }

  function KeyDepth(sys: System, k: ID): nat
    requires k in sys.facts ==> k in sys.depth
  {
    if k in sys.facts then sys.depth[k] + 1 else 0
  }

  lemma UpIsShallower(sys: System, k: ID)
    requires Consistent(sys) && UpKey(sys, k).Some?
    ensures KeyDepth(sys, UpKey(sys, k).value) < KeyDepth(sys, k) <= sys.limit
  {
  }

  /** k and all keys above it. */
  ghost function Lineage(sys: System, k: ID): set<ID>
    requires Consistent(sys)
    decreases KeyDepth(sys, k)
  {
    if UpKey(sys, k).Some? then UpIsShallower(sys, k); {k} + Lineage(sys, UpKey(sys, k).value) else {k}
  }

  // ---------------------------------------------------------------- the shape of the list

  /** How often x has to be among the children of k when the keys in open are not linked to their parents yet. */
  ghost function Copies(n: NamespaceList, sys: System, open: set<ID>, k: ID, x: ID): nat {
    if x in n && x !in open && UpKey(sys, x) == Some(k) then 1 else 0
  }

  ghost predicate Linked(n: NamespaceList, sys: System, open: set<ID>) {
    && (forall k :: k in n ==> k == INVIS_USER_NS || k in sys.facts)
    && (forall k :: k in n && k !in open && UpKey(sys, k).Some? ==> UpKey(sys, k).value in n)
    && (forall k, x :: k in n ==> multiset(n[k].children)[x] == Copies(n, sys, open, k, x))
  }

  /** Types and creators are those that the kernel reported. */
  ghost predicate Labelled(n: NamespaceList, sys: System) {
    forall k :: k in n ==>
      n[k].nsType == (if k in sys.facts then sys.facts[k].nsType else USER)
      && (k in sys.facts && n[k].nsType == USER ==> n[k].creatorUID == sys.facts[k].creatorUID)
  }

  /** Keys in open are deeper than k, so k and what is above it is not among them. */
  ghost predicate AllDeeper(sys: System, open: set<ID>, k: ID) {
    forall o :: o in open ==> o in sys.facts && o in sys.depth && k in sys.depth && sys.depth[k] < sys.depth[o]
  }

  lemma {:induction false} LineagePresent(n: NamespaceList, sys: System, open: set<ID>, k: ID)
    requires Consistent(sys) && Linked(n, sys, open) && k in n
    requires k in sys.facts ==> AllDeeper(sys, open, k)
    requires k == INVIS_USER_NS ==> k !in open
    ensures Lineage(sys, k) <= n.Keys
    decreases KeyDepth(sys, k)
  {
    if UpKey(sys, k).Some? {
      var u := UpKey(sys, k).value;
      UpIsShallower(sys, k);
      assert k !in open;
      assert INVIS_USER_NS !in open;
      LineagePresent(n, sys, open, u);
    }
  }

  // ---------------------------------------------------------------- what one assignment to the list does

  function WithChild(n: NamespaceList, parent: ID, child: ID): NamespaceList
    requires parent in n
  {
    n[parent := n[parent].(children := n[parent].children + [child])]
  }

  lemma InsertKeepsLinks(n: NamespaceList, sys: System, open: set<ID>, k: ID, uid: int)
    requires Linked(n, sys, open) && Labelled(n, sys) && k in sys.facts && k !in n
    requires sys.facts[k].nsType == USER ==> uid == sys.facts[k].creatorUID
    ensures var m := n[k := Namespace(sys.facts[k].nsType, [], [], uid)];
      Linked(m, sys, open + {k}) && Labelled(m, sys)
  {
  }

  lemma InsertInvisibleKeepsLinks(n: NamespaceList, sys: System, open: set<ID>)
    requires Linked(n, sys, open) && Labelled(n, sys) && INVIS_USER_NS !in n && INVIS_USER_NS !in sys.facts
    ensures var m := n[INVIS_USER_NS := Namespace(USER, [], [], 0)];
      Linked(m, sys, open) && Labelled(m, sys)
  {
  }

  lemma LinkingClosesKey(n: NamespaceList, sys: System, open: set<ID>, k: ID, parent: ID)
    requires Linked(n, sys, open + {k}) && Labelled(n, sys) && k in n && k !in open
    requires UpKey(sys, k) == Some(parent) && parent in n
    ensures Linked(WithChild(n, parent, k), sys, open) && Labelled(WithChild(n, parent, k), sys)
  {
    var m := WithChild(n, parent, k);
    forall x, y | x in m
      ensures multiset(m[x].children)[y] == Copies(m, sys, open, x, y)
    {
      assert multiset(n[x].children)[y] == Copies(n, sys, open + {k}, x, y);
    }
  }

  lemma TopClosesItself(n: NamespaceList, sys: System, open: set<ID>, k: ID)
    requires Linked(n, sys, open + {k}) && IsTop(sys, k)
    ensures Linked(n, sys, open)
  {
    forall x, y | x in n
      ensures multiset(n[x].children)[y] == Copies(n, sys, open, x, y)
    {
      assert multiset(n[x].children)[y] == Copies(n, sys, open + {k}, x, y);
    }
  }

  lemma PidKeepsLinks(n: NamespaceList, sys: System, open: set<ID>, k: ID, pid: int)
    requires Linked(n, sys, open) && Labelled(n, sys) && k in n
    ensures var m := n[k := n[k].(pids := n[k].pids + [pid])]; Linked(m, sys, open) && Labelled(m, sys)
  {
    var m := n[k := n[k].(pids := n[k].pids + [pid])];
    forall x, y | x in m
      ensures multiset(m[x].children)[y] == Copies(m, sys, open, x, y)
    {
      assert multiset(n[x].children)[y] == Copies(n, sys, open, x, y);
    }
  }

  /** The members recorded for each key are those recorded before. */
  ghost predicate SamePids(n: NamespaceList, m: NamespaceList) {
    forall k :: k in m ==> m[k].pids == if k in n then n[k].pids else []
  }

  lemma SamePidsInserted(n: NamespaceList, k: ID, ns: Namespace)
    requires k !in n && ns.pids == []
    ensures SamePids(n, n[k := ns])
  {
  }

  lemma SamePidsLinked(n: NamespaceList, parent: ID, child: ID)
    requires parent in n
    ensures SamePids(n, WithChild(n, parent, child)) && WithChild(n, parent, child).Keys == n.Keys
  {
  }

  lemma SamePidsTransitive(a: NamespaceList, b: NamespaceList, c: NamespaceList)
    requires a.Keys <= b.Keys && SamePids(a, b) && SamePids(b, c)
    ensures SamePids(a, c)
  {
  }

  // ---------------------------------------------------------------- building

  class NamespaceInfo {
    var nsList: NamespaceList
    var rootNS: ID

    constructor ()
      ensures nsList == map[] && rootNS == INVIS_USER_NS
    {
      nsList, rootNS := map[], ID(0, 0);
    }

    /** Adds a namespace, its ancestors, and (when pid is positive) one member process. open holds the keys whose
        links are still being made further out in the recursion. */
    method AddNamespace(sys: System, nsid: ID, pid: int, ghost open: set<ID>)
      requires Consistent(sys) && nsid in sys.facts && AllDeeper(sys, open, nsid)
      requires Linked(nsList, sys, open) && Labelled(nsList, sys)
      modifies this
      ensures Linked(nsList, sys, open) && Labelled(nsList, sys)
      ensures nsList.Keys == old(nsList.Keys) + Lineage(sys, nsid) && nsid in nsList
      ensures pid <= 0 ==> SamePids(old(nsList), nsList)
      ensures pid > 0 ==> SamePids(old(nsList), nsList[nsid := nsList[nsid].(pids := Members(old(nsList), nsid))])
      ensures pid > 0 ==> nsList[nsid].pids == Members(old(nsList), nsid) + [pid]
      ensures rootNS == NewRoot(sys, old(nsList).Keys, old(rootNS), nsid)
      decreases sys.depth[nsid], 1
    {
      hide Linked, Labelled, UpKey, NewRoot, Lineage;
      SelfInLineage(sys, nsid);
      if nsid !in nsList {
        AddNamespaceToList(sys, nsid, open);
      } else {
        VisibleKey(sys, nsid, open);
        LineagePresent(nsList, sys, open, nsid);
        TopPresent(sys, nsList, rootNS, nsid);
      }
      if pid > 0 {
        PidKeepsLinks(nsList, sys, open, nsid, pid);
        nsList := nsList[nsid := nsList[nsid].(pids := nsList[nsid].pids + [pid])];
      }
    }

    method AddNamespaceToList(sys: System, nsid: ID, ghost open: set<ID>)
      requires Consistent(sys) && nsid in sys.facts && nsid !in nsList && AllDeeper(sys, open, nsid)
      requires Linked(nsList, sys, open) && Labelled(nsList, sys)
      modifies this
      ensures Linked(nsList, sys, open) && Labelled(nsList, sys)
      ensures nsList.Keys == old(nsList.Keys) + Lineage(sys, nsid)
      ensures SamePids(old(nsList), nsList)
      ensures rootNS == NewRoot(sys, old(nsList).Keys, old(rootNS), nsid)
      decreases sys.depth[nsid], 0
    {
      hide Linked, Labelled, Lineage, NewRoot, TopAbove, Consistent, SamePids, WithChild;
      ghost var before := nsList;
      VisibleKey(sys, nsid, open);
      LineageUnfolds(sys, nsid);
      TopUnfolds(sys, nsid, before, rootNS);
      var fact := sys.facts[nsid];
      InsertEntry(sys, nsid, open);
      ghost var inserted, root := nsList, rootNS;
      if fact.up == None {
        if nsList[nsid].nsType == USER || sys.pidns {
          rootNS := nsid;
          TopClosesItself(nsList, sys, open, nsid);
        } else {
          LinkUnderInvisible(sys, open, before, nsid);
        }
      } else {
        var parent := fact.up.value;
        AddNamespace(sys, parent, -1, open + {nsid});
        SameNewRoot(sys, before, inserted, root, nsid, parent);
        SamePidsTransitive(before, inserted, nsList);
        LinkUnder(sys, open, before, nsid, parent);
      }
    }

    /** The new entry, before it is linked. */
    method InsertEntry(sys: System, nsid: ID, ghost open: set<ID>)
      requires nsid in sys.facts && nsid !in nsList && Linked(nsList, sys, open) && Labelled(nsList, sys)
      modifies this`nsList
      ensures nsList.Keys == old(nsList.Keys) + {nsid} && nsList[nsid].nsType == sys.facts[nsid].nsType
      ensures Linked(nsList, sys, open + {nsid}) && Labelled(nsList, sys) && SamePids(old(nsList), nsList)
    {
      hide Linked, Labelled, SamePids;
      var fact := sys.facts[nsid];
      ghost var before := nsList;
      ghost var entry := Namespace(fact.nsType, [], [], if fact.nsType == USER then fact.creatorUID else 0);
      InsertKeepsLinks(nsList, sys, open, nsid, entry.creatorUID);
      SamePidsInserted(nsList, nsid, entry);
      nsList := nsList[nsid := Namespace(fact.nsType, [], [], 0)];
      if nsList[nsid].nsType == USER {
        nsList := nsList[nsid := nsList[nsid].(creatorUID := fact.creatorUID)];
      }
      assert nsList == before[nsid := entry];
    }

    /** Makes nsid a child of the invisible entry, which is created if it is not there yet. */
    method LinkUnderInvisible(sys: System, ghost open: set<ID>, ghost before: NamespaceList, nsid: ID)
      requires Linked(nsList, sys, open + {nsid}) && Labelled(nsList, sys) && SamePids(before, nsList)
      requires before.Keys <= nsList.Keys && nsid in nsList && nsid !in open
      requires INVIS_USER_NS !in sys.facts && UpKey(sys, nsid) == Some(INVIS_USER_NS)
      modifies this`nsList
      ensures nsList.Keys == old(nsList.Keys) + {INVIS_USER_NS}
      ensures Linked(nsList, sys, open) && Labelled(nsList, sys) && SamePids(before, nsList)
    {
      hide Linked, Labelled, SamePids, WithChild, UpKey;
      if INVIS_USER_NS !in nsList {
        InsertInvisibleKeepsLinks(nsList, sys, open + {nsid});
        SamePidsInserted(nsList, INVIS_USER_NS, Namespace(USER, [], [], 0));
        SamePidsTransitive(before, nsList, nsList[INVIS_USER_NS := Namespace(USER, [], [], 0)]);
        nsList := nsList[INVIS_USER_NS := Namespace(USER, [], [], 0)];
      }
      LinkUnder(sys, open, before, nsid, INVIS_USER_NS);
    }

    /** Makes nsid a child of the key it belongs under. */
    method LinkUnder(sys: System, ghost open: set<ID>, ghost before: NamespaceList, nsid: ID, parent: ID)
      requires Linked(nsList, sys, open + {nsid}) && Labelled(nsList, sys) && SamePids(before, nsList)
      requires before.Keys <= nsList.Keys && nsid in nsList && nsid !in open
      requires parent in nsList && UpKey(sys, nsid) == Some(parent)
      modifies this`nsList
      ensures nsList == WithChild(old(nsList), parent, nsid) && nsList.Keys == old(nsList.Keys)
      ensures Linked(nsList, sys, open) && Labelled(nsList, sys) && SamePids(before, nsList)
    {
      hide Linked, Labelled, SamePids;
      LinkingClosesKey(nsList, sys, open, nsid, parent);
      SamePidsLinked(nsList, parent, nsid);
      SamePidsTransitive(before, nsList, WithChild(nsList, parent, nsid));
      nsList := nsList[parent := nsList[parent].(children := nsList[parent].children + [nsid])];
    }
  }

  function Members(n: NamespaceList, k: ID): seq<int> {
    if k in n then n[k].pids else []
  }

  lemma VisibleKey(sys: System, k: ID, open: set<ID>)
    requires Consistent(sys) && k in sys.facts && AllDeeper(sys, open, k)
    ensures k != INVIS_USER_NS && k !in open && k in sys.depth && INVIS_USER_NS !in sys.facts
    ensures sys.facts[k].up.Some? ==> sys.facts[k].up.value in sys.facts && sys.facts[k].up.value in sys.depth
    ensures sys.facts[k].up.Some? ==> sys.depth[sys.facts[k].up.value] < sys.depth[k]
    ensures sys.facts[k].up.Some? ==> AllDeeper(sys, open + {k}, sys.facts[k].up.value)
  {
  }

  lemma SelfInLineage(sys: System, k: ID)
    requires Consistent(sys)
    ensures k in Lineage(sys, k)
  {
  }

  lemma LineageUnfolds(sys: System, k: ID)
    requires Consistent(sys) && k in sys.facts
    ensures UpKey(sys, k) == None ==> Lineage(sys, k) == {k}
    ensures UpKey(sys, k) == Some(INVIS_USER_NS) ==> Lineage(sys, k) == {k, INVIS_USER_NS}
    ensures sys.facts[k].up.Some? && UpKey(sys, k).Some? ==>
      Lineage(sys, k) == {k} + Lineage(sys, sys.facts[k].up.value)
    ensures sys.facts[k].up.Some? ==> UpKey(sys, k) == sys.facts[k].up
  {
  }

  lemma TopUnfolds(sys: System, k: ID, n: NamespaceList, root: ID)
    requires Consistent(sys) && k in sys.facts && k !in n
    ensures IsTop(sys, k) ==> NewRoot(sys, n.Keys, root, k) == k
    ensures !IsTop(sys, k) && sys.facts[k].up == None ==> NewRoot(sys, n.Keys, root, k) == root
  {
    assert TopAbove(sys, INVIS_USER_NS) == None;
  }

  /** Having inserted k does not matter for what is above its parent. */
  lemma SameNewRoot(sys: System, n: NamespaceList, m: NamespaceList, root: ID, k: ID, parent: ID)
    requires Consistent(sys) && k in sys.facts && sys.facts[k].up == Some(parent)
    requires k !in n && m.Keys == n.Keys + {k}
    ensures NewRoot(sys, m.Keys, root, parent) == NewRoot(sys, n.Keys, root, k)
  {
    hide TopAbove;
    TopBelowUnfolds(sys, k, parent);
    TopInLineage(sys, k);
  }

  lemma TopBelowUnfolds(sys: System, k: ID, parent: ID)
    requires Consistent(sys) && k in sys.facts && sys.facts[k].up == Some(parent)
    ensures TopAbove(sys, k) == TopAbove(sys, parent)
  {
  }

  /** The top of the hierarchy that k is in, if that is visible. */
  ghost function TopAbove(sys: System, k: ID): Option<ID>
    requires Consistent(sys)
    decreases KeyDepth(sys, k)
  {
    if UpKey(sys, k).Some? then UpIsShallower(sys, k); TopAbove(sys, UpKey(sys, k).value)
    else if IsTop(sys, k) then Some(k) else None
  }

  /** Adding a namespace makes the top above it the root, unless that was known before. */
  ghost function NewRoot(sys: System, known: set<ID>, root: ID, k: ID): ID
    requires Consistent(sys)
  {
    match TopAbove(sys, k)
    case Some(r) => if r in known then root else r
    case None => root
  }

  lemma {:induction false} TopInLineage(sys: System, k: ID)
    requires Consistent(sys)
    ensures TopAbove(sys, k).Some? ==> TopAbove(sys, k).value in Lineage(sys, k) && IsTop(sys, TopAbove(sys, k).value)
    decreases KeyDepth(sys, k)
  {
    if UpKey(sys, k).Some? {
      UpIsShallower(sys, k);
      TopInLineage(sys, UpKey(sys, k).value);
    }
  }

  lemma TopPresent(sys: System, n: NamespaceList, root: ID, k: ID)
    requires Consistent(sys) && Lineage(sys, k) <= n.Keys
    ensures NewRoot(sys, n.Keys, root, k) == root
  {
    TopInLineage(sys, k);
  }

  // ---------------------------------------------------------------- a whole scan

  /** What was scanned, in order: a namespace and a member process, or a namespace alone with pid -1. */
  type Scan = seq<(ID, int)>

  ghost function KeysOf(sys: System, log: Scan): set<ID>
    requires Consistent(sys)
  {
    if log == [] then {} else KeysOf(sys, log[..|log| - 1]) + Lineage(sys, log[|log| - 1].0)
  }

  function PidsOf(log: Scan, k: ID): seq<int> {
    if log == [] then []
    else
      var last := log[|log| - 1];
      PidsOf(log[..|log| - 1], k) + if last.0 == k && last.1 > 0 then [last.1] else []
  }

  ghost function RootOf(sys: System, log: Scan): ID
    requires Consistent(sys)
  {
    if log == [] then INVIS_USER_NS
    else NewRoot(sys, KeysOf(sys, log[..|log| - 1]), RootOf(sys, log[..|log| - 1]), log[|log| - 1].0)
  }

  ghost predicate PidsRecorded(n: NamespaceList, log: Scan) {
    forall k :: k in n ==> n[k].pids == PidsOf(log, k)
  }

  /** The list and root that a scan leaves: the scanned namespaces and everything visible above them are the keys, each
      key is linked once under the key it belongs under, and members are recorded. */
  ghost predicate Built(n: NamespaceList, root: ID, sys: System, log: Scan)
    requires Consistent(sys)
  {
    && n.Keys == KeysOf(sys, log) && root == RootOf(sys, log)
    && Linked(n, sys, {}) && Labelled(n, sys) && PidsRecorded(n, log)
  }

  method ScanAll(nsi: NamespaceInfo, sys: System, log: Scan)
    requires Consistent(sys) && nsi.nsList == map[] && nsi.rootNS == INVIS_USER_NS
    requires forall i :: 0 <= i < |log| ==> log[i].0 in sys.facts
    modifies nsi
    ensures Built(nsi.nsList, nsi.rootNS, sys, log)
  {
    hide Linked, Labelled, Lineage, NewRoot, PidsRecorded, Consistent, SamePids;
    NothingScanned(sys);
    for i := 0 to |log|
      invariant Built(nsi.nsList, nsi.rootNS, sys, log[..i])
    {
      ghost var n := nsi.nsList;
      assert log[..i + 1][..i] == log[..i];
      nsi.AddNamespace(sys, log[i].0, log[i].1, {});
      PidsStayRecorded(n, nsi.nsList, log[..i], log[i], log[..i + 1], sys);
    }
    assert log[..|log|] == log;
  }

  lemma NothingScanned(sys: System)
    requires Consistent(sys)
    ensures Built(map[], INVIS_USER_NS, sys, [])
  {
  }

  lemma {:induction false} NoPidsOutsideKeys(sys: System, log: Scan, k: ID)
    requires Consistent(sys) && k !in KeysOf(sys, log)
    ensures PidsOf(log, k) == []
    decreases |log|
  {
    if log != [] {
      SelfInLineage(sys, log[|log| - 1].0);
      NoPidsOutsideKeys(sys, log[..|log| - 1], k);
    }
  }

  lemma PidsStayRecorded(n: NamespaceList, m: NamespaceList, log: Scan, last: (ID, int), longer: Scan, sys: System)
    requires Consistent(sys) && PidsRecorded(n, log) && n.Keys == KeysOf(sys, log) && longer == log + [last]
    requires last.0 in m
    requires last.1 <= 0 ==> SamePids(n, m)
    requires last.1 > 0 ==> SamePids(n, m[last.0 := m[last.0].(pids := Members(n, last.0))])
    requires last.1 > 0 ==> m[last.0].pids == Members(n, last.0) + [last.1]
    ensures PidsRecorded(m, longer)
  {
    assert longer[..|longer| - 1] == log;
    forall k | k in m
      ensures m[k].pids == PidsOf(longer, k)
    {
      if k !in n {
        NoPidsOutsideKeys(sys, log, k);
      }
      if last.1 > 0 {
        var m' := m[last.0 := m[last.0].(pids := Members(n, last.0))];
        assert k in m' && m'[k].pids == if k in n then n[k].pids else [];
      }
    }
  }

  // ---------------------------------------------------------------- scan order does not matter

  lemma {:induction false} KeysOfMembers(sys: System, log: Scan, x: ID)
    requires Consistent(sys)
    ensures x in KeysOf(sys, log) <==> exists e :: e in multiset(log) && x in Lineage(sys, e.0)
    decreases |log|
  {
    if log != [] {
      var init, last := log[..|log| - 1], log[|log| - 1];
      KeysOfMembers(sys, init, x);
      assert log == init + [last];
    }
  }

  lemma MembersAppend<T>(s: seq<T>, x: T, y: T)
    ensures multiset(s + [x])[y] == multiset(s)[y] + if x == y then 1 else 0
  {
  }

  lemma PidsOfLast(log: Scan, k: ID)
    requires log != []
    ensures var init, last := log[..|log| - 1], log[|log| - 1];
      PidsOf(log, k) == if last.0 == k && last.1 > 0 then PidsOf(init, k) + [last.1] else PidsOf(init, k)
  {
    assert PidsOf(log[..|log| - 1], k) + [] == PidsOf(log[..|log| - 1], k);
  }

  lemma NoPids(k: ID, p: int)
    ensures PidsOf([], k) == []
  {
  }

  lemma {:induction false} PidCount(log: Scan, k: ID, p: int)
    ensures multiset(PidsOf(log, k))[p] == if p > 0 then multiset(log)[(k, p)] else 0
    decreases |log|
  {
    hide *;
    if log == [] {
      NoPids(k, p);
    } else {
      var init, last := log[..|log| - 1], log[|log| - 1];
      PidCount(init, k, p);
      PidsOfLast(log, k);
      MembersAppend(init, last, (k, p));
      MembersAppend(PidsOf(init, k), last.1, p);
      assert log == init + [last];
    }
  }

  lemma SameKeys(sys: System, log: Scan, log': Scan)
    requires Consistent(sys) && multiset(log) == multiset(log')
    ensures KeysOf(sys, log) == KeysOf(sys, log')
  {
    hide Consistent, Lineage, KeysOf;
    forall x
      ensures x in KeysOf(sys, log) <==> x in KeysOf(sys, log')
    {
      KeysOfMembers(sys, log, x);
      KeysOfMembers(sys, log', x);
    }
  }

  lemma SameMembers(log: Scan, log': Scan, k: ID)
    requires multiset(log) == multiset(log')
    ensures multiset(PidsOf(log, k)) == multiset(PidsOf(log', k))
  {
    hide PidsOf;
    forall p
      ensures multiset(PidsOf(log, k))[p] == multiset(PidsOf(log', k))[p]
    {
      PidCount(log, k, p);
      PidCount(log', k, p);
    }
  }

  lemma SameLinksAndLabels(sys: System, n: NamespaceList, n': NamespaceList, k: ID)
    requires Linked(n, sys, {}) && Linked(n', sys, {}) && Labelled(n, sys) && Labelled(n', sys)
    requires n.Keys == n'.Keys && k in n
    ensures n[k].nsType == n'[k].nsType && multiset(n[k].children) == multiset(n'[k].children)
  {
    hide UpKey;
    forall x
      ensures multiset(n[k].children)[x] == multiset(n'[k].children)[x]
    {
      assert k in n' && Copies(n, sys, {}, k, x) == Copies(n', sys, {}, k, x);
    }
  }

  /** Two scans of the same namespaces and processes, in any order, give the same keys, and for each key the same type,
      the same children and the same members. */
  lemma ScanOrderDoesNotMatter(sys: System, log: Scan, log': Scan, n: NamespaceList, n': NamespaceList, root: ID,
      root': ID)
    requires Consistent(sys) && multiset(log) == multiset(log')
    requires Built(n, root, sys, log) && Built(n', root', sys, log')
    ensures n.Keys == n'.Keys
    ensures forall k :: k in n ==>
      && n[k].nsType == n'[k].nsType
      && multiset(n[k].children) == multiset(n'[k].children)
      && multiset(n[k].pids) == multiset(n'[k].pids)
  {
    hide Consistent, RootOf, KeysOf, PidsOf, Linked, Labelled;
    SameKeys(sys, log, log');
    forall k | k in n
      ensures n[k].nsType == n'[k].nsType && multiset(n[k].children) == multiset(n'[k].children)
      ensures multiset(n[k].pids) == multiset(n'[k].pids)
    {
      assert k in n';
      SameLinksAndLabels(sys, n, n', k);
      SameMembers(log, log', k);
    }
  }
}
