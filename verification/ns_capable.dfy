/** ns_capable.c: the walk up the chain of parent user namespaces, with the descriptors it opens and closes. */
module NsCapable {
  import opened Basics

  /** A namespace is identified by device and inode number. */
  datatype Ns = Ns(dev: nat, ino: nat)

  /** The user namespaces: the parent that the kernel lets the caller see (None when NS_GET_PARENT gives EPERM), the
      nesting depth, and the user ID of the creator. */
  datatype Hierarchy = Hierarchy(parent: map<Ns, Option<Ns>>, depth: map<Ns, nat>, owner: map<Ns, int>)

  ghost predicate Consistent(h: Hierarchy) {
    && h.depth.Keys == h.parent.Keys == h.owner.Keys
    && forall n :: n in h.parent && h.parent[n].Some? ==>
         h.parent[n].value in h.parent && h.depth[h.parent[n].value] < h.depth[n]
  }

  /** a is n or one of the namespaces above it. */
  ghost predicate AtOrAbove(h: Hierarchy, a: Ns, n: Ns)
    requires Consistent(h) && n in h.parent
    decreases h.depth[n]
  {
    a == n || (h.parent[n].Some? && AtOrAbove(h, a, h.parent[n].value))
  }

  ghost predicate ProperAncestor(h: Hierarchy, a: Ns, n: Ns)
    requires Consistent(h) && n in h.parent
  {
    h.parent[n].Some? && AtOrAbove(h, a, h.parent[n].value)
  }

  /** x is on the chain from n upwards, immediately below a. */
  ghost predicate LinkBelow(h: Hierarchy, a: Ns, x: Ns, n: Ns)
    requires Consistent(h) && n in h.parent
  {
    x in h.parent && h.parent[x] == Some(a) && AtOrAbove(h, x, n)
  }

  lemma {:induction false} AboveIsShallower(h: Hierarchy, a: Ns, n: Ns)
    requires Consistent(h) && n in h.parent && AtOrAbove(h, a, n)
    ensures a in h.parent && h.depth[a] <= h.depth[n] && (a != n ==> h.depth[a] < h.depth[n])
    decreases h.depth[n]
  {
    if a != n {
      AboveIsShallower(h, a, h.parent[n].value);
    }
  }

  /** Such a link exists only below a proper ancestor, and there is only one. */
  lemma {:induction false} LinkIsUnique(h: Hierarchy, a: Ns, x: Ns, y: Ns, n: Ns)
    requires Consistent(h) && n in h.parent && LinkBelow(h, a, x, n) && LinkBelow(h, a, y, n)
    ensures x == y && ProperAncestor(h, a, n) && a != n
    decreases h.depth[n]
  {
    AboveIsShallower(h, x, n);
    AboveIsShallower(h, y, n);
    if x != n && y != n {
      LinkIsUnique(h, a, x, y, h.parent[n].value);
    } else if x != n {
      AboveIsShallower(h, x, h.parent[n].value);
    } else if y != n {
      AboveIsShallower(h, y, h.parent[n].value);
    }
  }

  lemma {:induction false} LinkExists(h: Hierarchy, a: Ns, n: Ns) returns (x: Ns)
    requires Consistent(h) && n in h.parent && ProperAncestor(h, a, n)
    ensures LinkBelow(h, a, x, n)
    decreases h.depth[n]
  {
    var p := h.parent[n].value;
    if p == a {
      x := n;
    } else {
      x := LinkExists(h, a, p);
    }
  }

  lemma {:induction false} AboveAppend(h: Hierarchy, a: Ns, b: Ns, n: Ns)
    requires Consistent(h) && n in h.parent && AtOrAbove(h, b, n) && b in h.parent && h.parent[b] == Some(a)
    ensures AtOrAbove(h, a, n)
    decreases h.depth[n]
  {
    if b != n {
      AboveAppend(h, a, b, h.parent[n].value);
    }
  }

  // ---------------------------------------------------------------- descriptors

  lemma {:induction false} SomeNumberIsFree(s: set<int>) returns (n: int)
    ensures n >= 0 && forall k :: k in s ==> k < n
    decreases |s|
  {
    if x :| x in s {
      var m := SomeNumberIsFree(s - {x});
      n := if x >= m then x + 1 else m;
      assert forall k :: k in s ==> k == x || k in s - {x};
    } else {
      n := 0;
    }
  }

  /** The process's open descriptors, each with the namespace it refers to. */
  class Descriptors {
    var open: map<int, Ns>

    ghost predicate Valid(h: Hierarchy)
      reads this
    {
      Consistent(h) && forall fd :: fd in open ==> fd >= 0 && open[fd] in h.parent
    }

    constructor (h: Hierarchy)
      requires Consistent(h)
      ensures Valid(h) && open == map[]
    {
      open := map[];
    }

    /** A call that opens a namespace returns any descriptor that is not in use. */
    method Open(ns: Ns) returns (fd: int)
      modifies this
      ensures fd >= 0 && fd !in old(open) && open == old(open)[fd := ns]
    {
      ghost var free := SomeNumberIsFree(open.Keys);
      assert free >= 0 && free !in open.Keys;
      fd :| fd >= 0 && fd !in open.Keys;
      open := open[fd := ns];
    }

    /** close() fails on a descriptor that is not open. */
    method Close(fd: int)
      requires fd in open
      modifies this
      ensures open == old(open) - {fd}
    {
      open := open - {fd};
    }

    /** ioctl(fd, NS_GET_PARENT): -1 when there is no parent to be seen. */
    method GetParent(h: Hierarchy, fd: int) returns (parent: int)
      requires Valid(h) && fd in open
      modifies this
      ensures Valid(h)
      ensures h.parent[old(open)[fd]] == None ==> parent == -1 && open == old(open)
      ensures h.parent[old(open)[fd]].Some? ==>
        parent >= 0 && parent !in old(open) && open == old(open)[parent := h.parent[old(open)[fd]].value]
    {
      if h.parent[open[fd]] == None {
        return -1;
      }
      parent := Open(h.parent[open[fd]].value);
    }

    /** Whether source refers to a proper ancestor of target. If so the result is a descriptor for the namespace right
        below it on the chain, which may be target itself; the only descriptor left open is that one. */
    method IsAncestorUserns(h: Hierarchy, source: int, target: int) returns (r: int)
      requires Valid(h) && source in open && target in open
      modifies this
      ensures Valid(h)
      ensures r == -1 <==> !ProperAncestor(h, old(open)[source], old(open)[target])
      ensures r == -1 || r == target ==> open == old(open)
      ensures r != -1 ==> r in open && LinkBelow(h, old(open)[source], open[r], old(open)[target])
      ensures r != -1 && r != target ==> r !in old(open) && open == old(open)[r := open[r]]
    {
      ghost var before, a, n := open, open[source], open[target];
      var child := target;
      while true
        invariant Valid(h) && child in open
        invariant AtOrAbove(h, open[child], n)
        invariant ProperAncestor(h, a, n) <==> ProperAncestor(h, a, open[child])
        invariant child == target ==> open == before
        invariant child != target ==> child !in before && open == before[child := open[child]]
        decreases h.depth[open[child]]
      {
        ghost var here := open[child];
        var parent := GetParent(h, child);
        if parent == -1 {
          if child != target {
            Close(child);
            assert open == before;
          }
          return -1;
        }
        if open[parent] == open[source] {
          Close(parent);
          assert h.parent[open[child]] == Some(a);
          return child;
        }
        AboveAppend(h, open[parent], here, n);
        if child != target {
          Close(child);
        }
        child := parent;
        assert open == before[child := open[child]];
      }
    }

    /** The namespace that the second argument stands for. */
    method OpenTarget(h: Hierarchy, arg: TargetArg) returns (fd: int)
      requires Valid(h) && TargetOf(arg) in h.parent
      modifies this
      ensures Valid(h) && fd !in old(open) && open == old(open)[fd := TargetOf(arg)]
      ensures arg.Pid? || arg.UserFile? ==> open[fd] == arg.ns
      ensures arg.OtherFile? ==> open[fd] == arg.owner
    {
      match arg
      case Pid(ns) =>
        fd := Open(ns);
      case UserFile(ns) =>
        fd := Open(ns);
      case OtherFile(file, owner) =>
        ghost var before := open;
        var other := Open(file);
        fd := Open(owner);
        Close(other);
        assert open == before[fd := owner];
    }

    /** main(): the verdict, with every descriptor that was opened closed again. */
    method Check(h: Hierarchy, sourceNs: Ns, euid: int, arg: TargetArg) returns (verdict: Verdict)
      requires Valid(h) && sourceNs in h.parent && TargetOf(arg) in h.parent
      modifies this
      ensures open == old(open)
      ensures verdict == Member <==> sourceNs == TargetOf(arg)
      ensures verdict == Outside <==> sourceNs != TargetOf(arg) && !ProperAncestor(h, sourceNs, TargetOf(arg))
      ensures verdict.FromAbove? ==> exists x ::
        LinkBelow(h, sourceNs, x, TargetOf(arg)) && (verdict.all <==> h.owner[x] == euid)
    {
      ghost var before := open;
      var source := Open(sourceNs);
      ghost var with1 := open;
      var target := OpenTarget(h, arg);
      ghost var with2 := open;
      if open[source] == open[target] {
        verdict := Member;
      } else {
        var child := IsAncestorUserns(h, source, target);
        if child == -1 {
          verdict := Outside;
        } else {
          verdict := FromAbove(euid == h.owner[open[child]]);
          if child != target {
            Close(child);
            assert open == with2;
          }
        }
      }
      Close(target);
      assert open == with1;
      Close(source);
      assert open == before;
    }
  }

  /** The second command-line argument: a process, or a namespace file of a user or another namespace. */
  datatype TargetArg = Pid(ns: Ns) | UserFile(ns: Ns) | OtherFile(file: Ns, owner: Ns)

  function TargetOf(arg: TargetArg): Ns {
    match arg
    case Pid(ns) => ns
    case UserFile(ns) => ns
    case OtherFile(_, owner) => owner
  }

  /** In the target namespace, outside its ancestors, or above it with all capabilities there or not. */
  datatype Verdict = Member | Outside | FromAbove(all: bool)
}
