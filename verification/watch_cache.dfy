/** The watch-list cache of inotify_dtree.c: a growable array of slots, each free or holding a watch descriptor and
    the pathname of the watched directory.

    The functions give the array that each operation leaves; the class performs the operations in place; the lemmas
    show that the array stands for a map from watch descriptor to pathname. */
module WatchCache {
  import opened Paths

  datatype Slot = Slot(wd: int, path: string)

  const EMPTY := Slot(-1, "")
  const ALLOC_INCR: nat := 200

  ghost predicate Holds(s: seq<Slot>, i: int, wd: int) {
    0 <= i < |s| && s[i].wd == wd
  }

  /** Every slot is free (and then blank) or holds a descriptor that no other slot holds. */
  ghost predicate WellFormed(s: seq<Slot>) {
    && (forall i :: 0 <= i < |s| ==> s[i].wd >= 0 || s[i] == EMPTY)
    && (forall i, j, wd :: Holds(s, i, wd) && Holds(s, j, wd) && wd >= 0 ==> i == j)
  }

  /** The map that the slots stand for. */
  ghost function Contents(s: seq<Slot>): (m: map<int, string>)
    requires WellFormed(s)
    ensures forall i, wd :: Holds(s, i, wd) && wd >= 0 ==> wd in m && m[wd] == s[i].path
    ensures forall wd :: wd in m ==> wd >= 0 && exists i :: Holds(s, i, wd)
  {
    assert forall i :: 0 <= i < |s| ==> Holds(s, i, s[i].wd);
    map i | 0 <= i < |s| && s[i].wd >= 0 :: s[i].wd := s[i].path
  }

  /** Index of the first slot from i on that holds wd, or the length if there is none. */
  function IndexFrom(s: seq<Slot>, wd: int, i: nat): (k: nat)
    requires i <= |s|
    ensures i <= k <= |s|
    ensures k < |s| ==> s[k].wd == wd
    ensures forall j :: i <= j < k ==> s[j].wd != wd
    decreases |s| - i
  {
    if i == |s| || s[i].wd == wd then i else IndexFrom(s, wd, i + 1)
  }

  function IndexOf(s: seq<Slot>, wd: int): (k: nat)
    ensures k <= |s|
    ensures k < |s| ==> s[k].wd == wd
    ensures forall j :: 0 <= j < k ==> s[j].wd != wd
  {
    IndexFrom(s, wd, 0)
  }

  /** The array with room for one more entry: unchanged if some slot is free, else longer by ALLOC_INCR free slots. */
  function Grown(s: seq<Slot>): (t: seq<Slot>)
    ensures IndexOf(t, -1) < |t|
  {
    if IndexOf(s, -1) < |s| then s
    else
      var t := s + seq(ALLOC_INCR, _ => EMPTY);
      assert t[|s|].wd == -1;
      t
  }

  /** The first free slot filled in. */
  function Filled(t: seq<Slot>, wd: int, path: string): seq<Slot>
    requires IndexOf(t, -1) < |t|
  {
    t[IndexOf(t, -1) := Slot(wd, path)]
  }

  function AddSlot(s: seq<Slot>, wd: int, path: string): seq<Slot> {
    Filled(Grown(s), wd, path)
  }

  function RewriteSlots(s: seq<Slot>, oldPath: string, newPath: string): seq<Slot> {
    seq(|s|, i requires 0 <= i < |s| => s[i].(path := Rebase(oldPath, newPath, s[i].path)))
  }

  /** A used slot whose path is at or below p. */
  predicate Hit(slot: Slot, p: string) {
    slot.wd >= 0 && AtOrBelow(p, slot.path)
  }

  /** Index of the first hit from i on whose watch the kernel refuses to remove, or the length if there is none. */
  function FirstRefused(s: seq<Slot>, p: string, refused: set<int>, i: nat := 0): (k: nat)
    requires i <= |s|
    ensures i <= k <= |s|
    ensures k < |s| ==> Hit(s[k], p) && s[k].wd in refused
    ensures forall j :: i <= j < k && Hit(s[j], p) ==> s[j].wd !in refused
    decreases |s| - i
  {
    if i == |s| || (Hit(s[i], p) && s[i].wd in refused) then i else FirstRefused(s, p, refused, i + 1)
  }

  /** The hits before index n become free. */
  function ZapSlots(s: seq<Slot>, p: string, n: nat): seq<Slot> {
    seq(|s|, i requires 0 <= i < |s| => if i < n && Hit(s[i], p) then EMPTY else s[i])
  }

  /** The watch descriptors of the hits before index n. */
  ghost function HitWatches(s: seq<Slot>, p: string, n: nat): set<int>
    requires n <= |s|
  {
    set i | 0 <= i < n && Hit(s[i], p) :: s[i].wd
  }

  /** Those descriptors in slot order. */
  function HitList(s: seq<Slot>, p: string, n: nat): seq<int>
    requires n <= |s|
  {
    if n == 0 then [] else HitList(s, p, n - 1) + if Hit(s[n - 1], p) then [s[n - 1].wd] else []
  }

  // ---------------------------------------------------------------- the array stands for a map

  lemma ContentsUnique(s: seq<Slot>, m: map<int, string>)
    requires WellFormed(s)
    requires forall i, wd :: Holds(s, i, wd) && wd >= 0 ==> wd in m && m[wd] == s[i].path
    requires forall wd :: wd in m ==> wd >= 0 && exists i :: Holds(s, i, wd)
    ensures Contents(s) == m
  {
  }

  /** Looking a descriptor up in the array is looking it up in the map. */
  lemma LookupRefines(s: seq<Slot>, wd: int)
    requires WellFormed(s) && wd >= 0
    ensures wd in Contents(s) <==> IndexOf(s, wd) < |s|
    ensures wd in Contents(s) ==> Contents(s)[wd] == s[IndexOf(s, wd)].path
  {
    assert IndexOf(s, wd) < |s| ==> Holds(s, IndexOf(s, wd), wd);
  }

  lemma GrownRefines(s: seq<Slot>)
    requires WellFormed(s)
    ensures WellFormed(Grown(s)) && Contents(Grown(s)) == Contents(s)
  {
    var t := Grown(s);
    assert forall i :: |s| <= i < |t| ==> t[i] == EMPTY;
    assert forall i, wd :: wd >= 0 ==> (Holds(t, i, wd) <==> Holds(s, i, wd));
    ContentsUnique(t, Contents(s));
  }

  lemma FilledRefines(t: seq<Slot>, wd: int, path: string)
    requires WellFormed(t) && IndexOf(t, -1) < |t| && wd >= 0 && wd !in Contents(t)
    ensures WellFormed(Filled(t, wd, path))
    ensures Contents(Filled(t, wd, path)) == Contents(t)[wd := path]
  {
    var r, k := Filled(t, wd, path), IndexOf(t, -1);
    assert forall i, w :: w >= 0 ==> (Holds(r, i, w) <==> Holds(t, i, w) || (i == k && w == wd));
    ContentsUnique(r, Contents(t)[wd := path]);
  }

  /** Adding an entry extends the map and keeps descriptors unique. */
  lemma AddRefines(s: seq<Slot>, wd: int, path: string)
    requires WellFormed(s) && wd >= 0 && wd !in Contents(s)
    ensures WellFormed(AddSlot(s, wd, path))
    ensures Contents(AddSlot(s, wd, path)) == Contents(s)[wd := path]
  {
    GrownRefines(s);
    FilledRefines(Grown(s), wd, path);
  }

  /** Adding an entry, even by growing the array, leaves every used slot where it was. */
  lemma AddDisturbsNothing(s: seq<Slot>, wd: int, path: string)
    ensures |s| <= |AddSlot(s, wd, path)|
    ensures forall i :: 0 <= i < |s| && s[i].wd != -1 ==> AddSlot(s, wd, path)[i] == s[i]
  {
    var t := Grown(s);
    assert |s| <= |t| && forall i :: 0 <= i < |s| ==> t[i] == s[i];
  }

  lemma EmptyRefines(s: seq<Slot>, k: nat)
    requires WellFormed(s) && k < |s|
    ensures WellFormed(s[k := EMPTY])
    ensures Contents(s[k := EMPTY]) == Contents(s) - {s[k].wd}
  {
    var r := s[k := EMPTY];
    assert forall i, wd :: wd >= 0 ==> (Holds(r, i, wd) <==> i != k && Holds(s, i, wd));
    assert Holds(s, k, s[k].wd);
    ContentsUnique(r, Contents(s) - {s[k].wd});
  }

  /** Rewriting keeps every descriptor, in its slot, and rebases every path. */
  lemma RewriteRefines(s: seq<Slot>, oldPath: string, newPath: string)
    requires WellFormed(s) && oldPath != ""
    ensures WellFormed(RewriteSlots(s, oldPath, newPath))
    ensures Contents(RewriteSlots(s, oldPath, newPath))
         == map wd | wd in Contents(s) :: Rebase(oldPath, newPath, Contents(s)[wd])
  {
    var r := RewriteSlots(s, oldPath, newPath);
    assert forall i, wd :: Holds(r, i, wd) <==> Holds(s, i, wd);
    ContentsUnique(r, map wd | wd in Contents(s) :: Rebase(oldPath, newPath, Contents(s)[wd]));
  }

  /** Zapping up to index n removes exactly the hits found there. */
  lemma ZapRefines(s: seq<Slot>, p: string, n: nat)
    requires WellFormed(s) && n <= |s|
    ensures WellFormed(ZapSlots(s, p, n))
    ensures Contents(ZapSlots(s, p, n)) == Contents(s) - HitWatches(s, p, n)
  {
    var r, gone := ZapSlots(s, p, n), HitWatches(s, p, n);
    forall i, wd | wd >= 0
      ensures Holds(r, i, wd) <==> Holds(s, i, wd) && wd !in gone
    {
      if Holds(s, i, wd) && wd in gone {
        var j :| 0 <= j < n && Hit(s[j], p) && s[j].wd == wd;
        assert Holds(s, j, wd);
      }
    }
    ContentsUnique(r, Contents(s) - gone);
  }

  lemma ZappedPointwise(s: seq<Slot>, p: string, n: nat, t: seq<Slot>)
    requires |t| == |s|
    requires forall k :: 0 <= k < |s| ==> t[k] == if k < n && Hit(s[k], p) then EMPTY else s[k]
    ensures t == ZapSlots(s, p, n)
  {
  }

  /** The list of hits names each of them once. */
  lemma {:induction false} HitListLists(s: seq<Slot>, p: string, n: nat)
    requires WellFormed(s) && n <= |s|
    ensures forall wd :: wd in HitList(s, p, n) <==> wd in HitWatches(s, p, n)
    ensures forall i, j :: 0 <= i < j < |HitList(s, p, n)| ==> HitList(s, p, n)[i] != HitList(s, p, n)[j]
  {
    if n > 0 {
      HitListLists(s, p, n - 1);
      if Hit(s[n - 1], p) {
        var wd := s[n - 1].wd;
        assert forall i :: 0 <= i < n - 1 && s[i].wd == wd ==> Holds(s, i, wd) && Holds(s, n - 1, wd);
        assert wd !in HitWatches(s, p, n - 1);
        assert HitList(s, p, n)[|HitList(s, p, n - 1)|] == wd;
        assert HitWatches(s, p, n) == HitWatches(s, p, n - 1) + {wd};
      } else {
        assert HitWatches(s, p, n) == HitWatches(s, p, n - 1);
      }
    }
  }

  lemma AllHits(s: seq<Slot>, p: string)
    requires WellFormed(s)
    ensures HitWatches(s, p, |s|) == set wd | wd in Contents(s) && AtOrBelow(p, Contents(s)[wd])
  {
    forall i | 0 <= i < |s| && Hit(s[i], p)
      ensures s[i].wd in Contents(s) && AtOrBelow(p, Contents(s)[s[i].wd])
    {
      assert Holds(s, i, s[i].wd);
    }
  }

  // ---------------------------------------------------------------- every sequence of operations

  datatype Op =
    | Add(wd: int, path: string)
    | Empty(wd: int)
    | Rewrite(oldPath: string, newPath: string)
    | Zap(path: string)
    | Rebuild

  /** What an operation does to the slots. Descriptors already cached are not added again, as in traverseTree(). */
  function StepSlots(s: seq<Slot>, op: Op): seq<Slot> {
    match op
    case Add(wd, path) => if IndexOf(s, wd) < |s| then s else AddSlot(s, wd, path)
    case Empty(wd) => if IndexOf(s, wd) < |s| then s[IndexOf(s, wd) := EMPTY] else s
    case Rewrite(o, n) => RewriteSlots(s, o, n)
    case Zap(p) => ZapSlots(s, p, |s|)
    case Rebuild => []
  }

  /** The same operation on a map from descriptors to paths. */
  ghost function StepMap(m: map<int, string>, op: Op): map<int, string> {
    match op
    case Add(wd, path) => if wd in m then m else m[wd := path]
    case Empty(wd) => m - {wd}
    case Rewrite(o, n) => map wd | wd in m :: Rebase(o, n, m[wd])
    case Zap(p) => map wd | wd in m && !AtOrBelow(p, m[wd]) :: m[wd]
    case Rebuild => map[]
  }

  ghost predicate Sensible(op: Op) {
    (op.Add? || op.Empty? ==> op.wd >= 0) && (op.Rewrite? ==> op.oldPath != "")
  }

  lemma StepAdd(s: seq<Slot>, wd: int, path: string)
    requires WellFormed(s) && wd >= 0
    ensures var t := StepSlots(s, Add(wd, path));
      WellFormed(t) && Contents(t) == StepMap(Contents(s), Add(wd, path))
  {
    hide AddSlot, IndexFrom, Contents, WellFormed;
    LookupRefines(s, wd);
    if wd !in Contents(s) {
      AddRefines(s, wd, path);
    }
  }

  lemma StepEmpty(s: seq<Slot>, wd: int)
    requires WellFormed(s) && wd >= 0
    ensures var t := StepSlots(s, Empty(wd));
      WellFormed(t) && Contents(t) == StepMap(Contents(s), Empty(wd))
  {
    hide IndexFrom, Contents, WellFormed;
    LookupRefines(s, wd);
    if wd in Contents(s) {
      EmptyRefines(s, IndexOf(s, wd));
    }
  }

  lemma StepRewrite(s: seq<Slot>, o: string, n: string)
    requires WellFormed(s) && o != ""
    ensures var t := StepSlots(s, Rewrite(o, n));
      WellFormed(t) && Contents(t) == StepMap(Contents(s), Rewrite(o, n))
  {
    hide RewriteSlots, Contents, WellFormed;
    RewriteRefines(s, o, n);
  }

  lemma StepZap(s: seq<Slot>, p: string)
    requires WellFormed(s)
    ensures var t := StepSlots(s, Zap(p)); WellFormed(t) && Contents(t) == StepMap(Contents(s), Zap(p))
  {
    hide ZapSlots, HitWatches, Contents, WellFormed;
    ZapRefines(s, p, |s|);
    AllHits(s, p);
  }

  lemma StepRebuild(s: seq<Slot>)
    requires WellFormed(s)
    ensures WellFormed(StepSlots(s, Rebuild)) && Contents(StepSlots(s, Rebuild)) == StepMap(Contents(s), Rebuild)
  {
    ContentsUnique([], map[]);
  }

  lemma StepRefines(s: seq<Slot>, op: Op)
    requires WellFormed(s) && Sensible(op)
    ensures WellFormed(StepSlots(s, op)) && Contents(StepSlots(s, op)) == StepMap(Contents(s), op)
  {
    hide StepSlots, StepMap, WellFormed, Contents;
    match op
    case Add(wd, path) => StepAdd(s, wd, path);
    case Empty(wd) => StepEmpty(s, wd);
    case Rewrite(o, n) => StepRewrite(s, o, n);
    case Zap(p) => StepZap(s, p);
    case Rebuild => StepRebuild(s);
  }

  function RunSlots(s: seq<Slot>, ops: seq<Op>): seq<Slot>
    decreases |ops|
  {
    if |ops| == 0 then s else RunSlots(StepSlots(s, ops[0]), ops[1..])
  }

  ghost function RunMap(m: map<int, string>, ops: seq<Op>): map<int, string>
    decreases |ops|
  {
    if |ops| == 0 then m else RunMap(StepMap(m, ops[0]), ops[1..])
  }

  /** After any sequence of operations the array still stands for the map, and no descriptor occupies two slots. */
  lemma {:induction false} RunRefines(s: seq<Slot>, ops: seq<Op>)
    requires WellFormed(s)
    requires forall i :: 0 <= i < |ops| ==> Sensible(ops[i])
    ensures WellFormed(RunSlots(s, ops)) && Contents(RunSlots(s, ops)) == RunMap(Contents(s), ops)
    decreases |ops|
  {
    if ops != [] {
      StepRefines(s, ops[0]);
      RunRefines(StepSlots(s, ops[0]), ops[1..]);
    }
  }

  // ---------------------------------------------------------------- the program's own array

  /** A pathname argument: a string of the caller's, or a pointer into the cache itself. */
  datatype PathArg = Given(text: string) | Cached(slot: nat)

  class Cache {
    var slots: array<Slot>

    ghost predicate Valid()
      reads this, slots
    {
      WellFormed(slots[..])
    }

    ghost function Map(): map<int, string>
      reads this, slots
      requires Valid()
    {
      Contents(slots[..])
    }

    constructor ()
      ensures Valid() && fresh(slots) && slots[..] == []
    {
      slots := new Slot[0];
    }

    /** freeCache(). */
    method Free()
      modifies this
      ensures Valid() && fresh(slots) && slots[..] == []
    {
      slots := new Slot[0];
    }

    method FindWatch(wd: int) returns (slot: int)
      requires Valid()
      ensures -1 <= slot < slots.Length
      ensures slot == -1 <==> IndexOf(slots[..], wd) == slots.Length
      ensures slot >= 0 ==> slot == IndexOf(slots[..], wd) && slots[slot].wd == wd
      ensures wd >= 0 ==> (slot >= 0 <==> wd in Map()) && (slot >= 0 ==> Map()[wd] == slots[slot].path)
    {
      for j := 0 to slots.Length
        invariant forall k :: 0 <= k < j ==> slots[k].wd != wd
      {
        if slots[j].wd == wd {
          if wd >= 0 {
            LookupRefines(slots[..], wd);
          }
          return j;
        }
      }
      if wd >= 0 {
        LookupRefines(slots[..], wd);
      }
      return -1;
    }

    method MarkCacheSlotEmpty(slot: nat)
      requires Valid() && slot < slots.Length
      modifies slots
      ensures Valid() && slots[..] == old(slots[..])[slot := EMPTY]
      ensures Map() == old(Map()) - {old(slots[slot].wd)}
    {
      EmptyRefines(slots[..], slot);
      slots[slot] := EMPTY;
    }

    method FindEmptyCacheSlot() returns (slot: nat)
      requires Valid()
      modifies this
      ensures slots == old(slots) || fresh(slots)
      ensures slots[..] == Grown(old(slots[..]))
      ensures if exists k :: 0 <= k < old(slots.Length) && old(slots[..])[k].wd == -1
        then slots == old(slots) else slots.Length == old(slots.Length) + 200 && slot == old(slots.Length)
      ensures slot == IndexOf(slots[..], -1) < slots.Length
    {
      for j := 0 to slots.Length
        modifies {}
        invariant forall k :: 0 <= k < j ==> slots[k].wd != -1
      {
        if slots[j].wd == -1 {
          assert slots[..][j].wd == -1;
          return j;
        }
      }
      var n := slots.Length;
      var bigger := new Slot[n + ALLOC_INCR];
      for j := 0 to n
        modifies bigger
        invariant forall k :: 0 <= k < j ==> bigger[k] == slots[k]
      {
        bigger[j] := slots[j];
      }
      for j := n to n + ALLOC_INCR
        modifies bigger
        invariant forall k :: 0 <= k < n ==> bigger[k] == slots[k]
        invariant forall k :: n <= k < j ==> bigger[k] == EMPTY
      {
        bigger[j] := EMPTY;
      }
      assert bigger[..] == slots[..] + seq(ALLOC_INCR, _ => EMPTY);
      slots := bigger;
      slot := n;
      assert slots[..][n].wd == -1;
    }

    method AddWatchToCache(wd: int, pathname: string) returns (slot: nat)
      requires Valid() && wd >= 0 && wd !in Map()
      modifies this, slots
      ensures slots == old(slots) || fresh(slots)
      ensures Valid() && slots[..] == AddSlot(old(slots[..]), wd, pathname)
      ensures Map() == old(Map())[wd := pathname]
      ensures slot < slots.Length && slots[slot] == Slot(wd, pathname)
    {
      AddRefines(slots[..], wd, pathname);
      slot := FindEmptyCacheSlot();
      slots[slot] := Slot(wd, pathname);
    }

    method PathnameInCache(pathname: string) returns (found: bool)
      requires Valid()
      ensures found <==> exists i :: 0 <= i < slots.Length && slots[i].wd >= 0 && slots[i].path == pathname
    {
      for j := 0 to slots.Length
        invariant forall k :: 0 <= k < j ==> !(slots[k].wd >= 0 && slots[k].path == pathname)
      {
        if slots[j].wd >= 0 && slots[j].path == pathname {
          return true;
        }
      }
      return false;
    }

    /** The directory prefixes are given as slots of the array that is being rewritten. */
    method RewriteCachedPaths(oldDir: nat, oldName: string, newDir: nat, newName: string)
      requires Valid() && oldDir < slots.Length && newDir < slots.Length
      modifies slots
      ensures Valid()
      ensures slots[..] == RewriteSlots(old(slots[..]), old(Join(slots[oldDir].path, oldName)),
                                        old(Join(slots[newDir].path, newName)))
    {
      ghost var s := slots[..];
      var fullPath, newPrefix := Join(slots[oldDir].path, oldName), Join(slots[newDir].path, newName);
      ghost var r := RewriteSlots(s, fullPath, newPrefix);
      for j := 0 to slots.Length
        invariant forall k :: 0 <= k < j ==> slots[k] == r[k]
        invariant forall k :: j <= k < slots.Length ==> slots[k] == s[k]
      {
        if AtOrBelow(fullPath, slots[j].path) {
          slots[j] := Slot(slots[j].wd, newPrefix + slots[j].path[|fullPath|..]);
        }
      }
      assert slots[..] == r;
      RewriteRefines(s, fullPath, newPrefix);
    }

    /** Removes the watch and the entry of every path at or below the argument, in slot order, stopping at the first
        watch that inotify_rm_watch() fails to remove (refused is the set of descriptors for which it fails).
        removed lists the watches taken off the kernel's list. */
    method ZapSubtree(arg: PathArg, refused: set<int>) returns (cnt: int, removed: seq<int>)
      requires Valid() && (arg.Cached? ==> arg.slot < slots.Length)
      modifies slots
      ensures Valid()
      ensures var k := FirstRefused(old(slots[..]), old(Target(arg)), refused);
        && slots[..] == ZapSlots(old(slots[..]), old(Target(arg)), k)
        && removed == HitList(old(slots[..]), old(Target(arg)), k)
        && cnt == if k < slots.Length then -1 else |removed|
    {
      hide WellFormed, Contents, FirstRefused, ZapSlots;
      var pn := Target(arg);
      ghost var s := slots[..];
      cnt, removed := 0, [];
      var j := 0;
      while j < slots.Length
        invariant 0 <= j <= slots.Length == |s|
        invariant forall k :: 0 <= k < j && Hit(s[k], pn) ==> s[k].wd !in refused
        invariant forall k :: 0 <= k < j ==> slots[k] == if Hit(s[k], pn) then EMPTY else s[k]
        invariant forall k :: j <= k < slots.Length ==> slots[k] == s[k]
        invariant removed == HitList(s, pn, j)
        invariant cnt == |removed|
      {
        if slots[j].wd >= 0 && AtOrBelow(pn, slots[j].path) {
          if slots[j].wd in refused {
            cnt := -1;
            break;
          }
          removed := removed + [slots[j].wd];
          slots[j] := EMPTY;
          cnt := cnt + 1;
        }
        j := j + 1;
      }
      assert j == FirstRefused(s, pn, refused);
      ZappedPointwise(s, pn, j, slots[..]);
      ZapRefines(s, pn, j);
    }

    function Target(arg: PathArg): string
      reads this, slots
      requires arg.Cached? ==> arg.slot < slots.Length
    {
      if arg.Given? then arg.text else slots[arg.slot].path
    }
  }
}
