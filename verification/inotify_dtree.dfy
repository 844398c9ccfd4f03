/** The monitoring program itself: its global cache and root list, and the two routines that read and process events.

    The read buffer keeps byte positions but not byte contents: the cell at an event's first byte holds the event, and
    the cells of its remaining bytes are blank. */
module InotifyDtree {
  import opened Basics
  import opened Paths
  import opened WatchCache
  import opened InotifyEvents

  datatype Cell = Head(ev: Event) | Blank

  const HEADER: nat := 16
  const INOTIFY_READ_BUF_LEN: nat := 100 * (HEADER + 255 + 1)

  function Size(e: Event): nat {
    HEADER + e.len
  }

  function Bytes(evs: seq<Event>): nat {
    if |evs| == 0 then 0 else Size(evs[0]) + Bytes(evs[1..])
  }

  function EncodeOne(e: Event): seq<Cell> {
    [Head(e)] + seq(Size(e) - 1, _ => Blank)
  }

  function Encode(evs: seq<Event>): (cells: seq<Cell>)
    ensures |cells| == Bytes(evs)
    ensures |evs| > 0 ==> |cells| >= Size(evs[0]) && cells[0] == Head(evs[0])
  {
    if |evs| == 0 then [] else EncodeOne(evs[0]) + Encode(evs[1..])
  }

  lemma EncodeUnfolds(evs: seq<Event>)
    ensures |evs| == 0 ==> Encode(evs) == []
    ensures |evs| > 0 ==> Encode(evs) == EncodeOne(evs[0]) + Encode(evs[1..])
  {
  }

  lemma {:induction false} EncodeConcat(a: seq<Event>, b: seq<Event>)
    ensures Encode(a + b) == Encode(a) + Encode(b)
    decreases |a|
  {
    hide Encode, EncodeOne, Bytes;
    EncodeUnfolds(a);
    if |a| == 0 {
      assert a + b == b;
    } else {
      EncodeUnfolds(a + b);
      EncodeConcat(a[1..], b);
      assert (a + b)[1..] == a[1..] + b && (a + b)[0] == a[0];
    }
  }

  /** Where the events of an encoded run start. */
  lemma EncodeShape(evs: seq<Event>)
    ensures evs == [] <==> Encode(evs) == []
    ensures |evs| == 1 ==> |Encode(evs)| == Size(evs[0])
    ensures |evs| > 0 ==> Encode(evs)[0] == Head(evs[0]) && Encode(evs[1..]) == Encode(evs)[Size(evs[0])..]
    ensures |evs| > 1 ==> |Encode(evs)| > Size(evs[0]) && Encode(evs)[Size(evs[0])] == Head(evs[1])
  {
    if |evs| > 0 {
      EncodeUnfolds(evs);
      EncodeUnfolds(evs[1..]);
    }
  }

  /** Dropping the first n events' bytes leaves the encoding of the rest. */
  lemma EncodeDrop(evs: seq<Event>, n: nat)
    requires n <= |evs|
    ensures Bytes(evs[..n]) <= |Encode(evs)|
    ensures Encode(evs)[Bytes(evs[..n])..] == Encode(evs[n..])
  {
    assert evs == evs[..n] + evs[n..];
    EncodeConcat(evs[..n], evs[n..]);
  }

  function CountFree(roots: seq<Option<string>>): nat {
    if |roots| == 0 then 0 else CountFree(roots[..|roots| - 1]) + if roots[|roots| - 1] == None then 1 else 0
  }

  lemma {:induction false} CountFreeAll(roots: seq<Option<string>>)
    ensures CountFree(roots) <= |roots|
    ensures CountFree(roots) == |roots| <==> NoRoots(roots)
    decreases |roots|
  {
    if |roots| > 0 {
      CountFreeAll(roots[..|roots| - 1]);
      assert roots == roots[..|roots| - 1] + [roots[|roots| - 1]];
    }
  }

  lemma {:induction false} CountFreeUpdate(roots: seq<Option<string>>, i: nat)
    requires i < |roots| && roots[i] != None
    ensures CountFree(roots[i := None]) == CountFree(roots) + 1
    decreases |roots|
  {
    var n := |roots| - 1;
    if i == n {
      assert roots[i := None][..n] == roots[..n];
    } else {
      assert roots[i := None][..n] == roots[..n][i := None];
      CountFreeUpdate(roots[..n], i);
    }
  }

  class Monitor {
    const cache: Cache
    const roots: array<Option<string>>
    var ignoreRootDirs: nat
    /** The events that the current inotify instance has still to deliver. */
    var stream: seq<Event>
    /** How many calls of read() returned. */
    var inotifyReadCnt: nat

    ghost predicate Valid()
      reads this`ignoreRootDirs, this`stream, cache, cache.slots, roots
    {
      cache.Valid() && ignoreRootDirs == CountFree(roots[..]) && AllFromKernel(stream)
    }

    ghost function State(): Mirror
      reads cache, cache.slots, roots
    {
      Mirror(cache.slots[..], roots[..])
    }

    constructor (paths: array<Option<string>>, stream: seq<Event>)
      requires AllFromKernel(stream)
      ensures cache.Valid() && fresh(cache) && fresh(cache.slots)
      ensures roots == paths && this.stream == stream && cache.slots[..] == []
      ensures ignoreRootDirs == 0 && inotifyReadCnt == 0
    {
      cache := new Cache();
      roots := paths;
      ignoreRootDirs := 0;
      this.stream := stream;
      inotifyReadCnt := 0;
    }

    method TraverseTree(v: Visit)
      requires cache.Valid()
      modifies cache, cache.slots
      ensures cache.slots == old(cache.slots) || fresh(cache.slots)
      ensures cache.Valid() && cache.slots[..] == Traverse(old(cache.slots[..]), v)
    {
      if !v.isDir {
        return;
      }
      if v.wd == -1 {
        return;
      }
      var found := cache.FindWatch(v.wd);
      if found >= 0 {
        return;
      }
      var _ := cache.AddWatchToCache(v.wd, v.path);
    }

    method WatchSubtree(visits: seq<Visit>)
      requires cache.Valid()
      modifies cache, cache.slots
      ensures cache.slots == old(cache.slots) || fresh(cache.slots)
      ensures cache.Valid() && cache.slots[..] == Walk(old(cache.slots[..]), visits)
    {
      ghost var s := cache.slots[..];
      for i := 0 to |visits|
        invariant cache.slots == old(cache.slots) || fresh(cache.slots)
        invariant cache.Valid() && cache.slots[..] == Walk(s, visits[..i])
      {
        TraverseTree(visits[i]);
        assert visits[..i + 1][..i] == visits[..i];
      }
      assert visits[..|visits|] == visits;
    }

    method Reinitialize(ans: Answers)
      requires Valid() && AllFromKernel(ans.newStream)
      modifies this, cache, cache.slots
      ensures inotifyReadCnt == old(inotifyReadCnt)
      ensures fresh(cache.slots)
      ensures Valid() && State() == Reinitialized(old(State()), ans).0 && stream == ans.newStream
      ensures ignoreRootDirs == old(ignoreRootDirs)
    {
      stream := ans.newStream;
      cache.Free();
      for j := 0 to roots.Length
        invariant fresh(cache.slots)
        invariant cache.Valid() && cache.slots[..] == WalkRoots(roots[..j], ans)
        invariant stream == ans.newStream && ignoreRootDirs == old(ignoreRootDirs) && roots[..] == old(roots[..])
        invariant inotifyReadCnt == old(inotifyReadCnt)
      {
        assert roots[..j + 1][..j] == roots[..j];
        if roots[j].Some? {
          WatchSubtree(ans.walk(roots[j].value));
        }
      }
      assert roots[..roots.Length] == roots[..];
    }

    method IsRootDirPath(path: string) returns (k: nat)
      ensures k == RootIndex(roots[..], path)
    {
      k := 0;
      while k < roots.Length && roots[k] != Some(path)
        invariant k <= roots.Length
        invariant forall j :: 0 <= j < k ==> roots[j] != Some(path)
      {
        k := k + 1;
      }
      assert k < roots.Length ==> roots[..][k] == Some(path);
    }

    /** Forgets a root path; exits says that it was the last one. */
    method ZapRootDirPath(path: string) returns (exits: bool)
      requires Valid() && IsRoot(roots[..], path)
      modifies this, roots
      ensures inotifyReadCnt == old(inotifyReadCnt)
      ensures Valid() && roots[..] == WithoutRoot(old(roots[..]), path) && stream == old(stream)
      ensures exits <==> NoRoots(roots[..])
    {
      var k := IsRootDirPath(path);
      CountFreeUpdate(roots[..], k);
      roots[k] := None;
      ignoreRootDirs := ignoreRootDirs + 1;
      CountFreeAll(roots[..]);
      exits := ignoreRootDirs == roots.Length;
    }

    /** Zaps a subtree, and rebuilds everything if the kernel refuses to remove one of its watches. */
    method ZapOrReinitialize(arg: PathArg, ans: Answers) returns (rebuilt: bool)
      requires Valid() && AllFromKernel(ans.newStream)
      requires arg.Cached? ==> arg.slot < cache.slots.Length
      modifies this, cache, cache.slots
      ensures inotifyReadCnt == old(inotifyReadCnt)
      ensures cache.slots == old(cache.slots) || fresh(cache.slots)
      ensures Valid() && roots[..] == old(roots[..])
      ensures var r := ZapOrRebuild(old(State()), old(cache.Target(arg)), ans);
        State() == r.0 && (rebuilt <==> r.1 == Rebuilt) && (!rebuilt <==> r.1 == Took(1))
      ensures stream == if rebuilt then ans.newStream else old(stream)
    {
      hide ZapSlots, HitList, WalkRoots, CountFree, WellFormed;
      var cnt, _ := cache.ZapSubtree(arg, ans.refused);
      rebuilt := cnt == -1;
      if rebuilt {
        Reinitialize(ans);
      }
    }

    method NewDirectory(path: string, ans: Answers)
      requires Valid()
      modifies cache, cache.slots
      ensures cache.slots == old(cache.slots) || fresh(cache.slots)
      ensures Valid() && (State(), Took(1)) == OnNewDirectory(old(State()), path, ans)
    {
      hide WellFormed, Walk, CountFree;
      var cached := cache.PathnameInCache(path);
      if !cached {
        WatchSubtree(ans.walk(path));
      }
    }

    method DirectoryDeleted(slot: nat) returns (exits: bool)
      requires Valid() && slot < cache.slots.Length
      modifies this, cache.slots, roots
      ensures inotifyReadCnt == old(inotifyReadCnt)
      ensures Valid() && stream == old(stream)
      ensures (State(), if exits then Exited else Took(1)) == OnDeleted(old(State()), slot)
    {
      hide WellFormed, CountFree, Contents;
      exits := false;
      var k := IsRootDirPath(cache.slots[slot].path);
      if k < roots.Length {
        exits := ZapRootDirPath(cache.slots[slot].path);
        if exits {
          return;
        }
      }
      cache.MarkCacheSlotEmpty(slot);
    }

    method DirectoryMovedFrom(slot: nat, ev: Event, next: Option<Event>, firstTry: bool, ans: Answers)
        returns (o: Outcome)
      requires Valid() && AllFromKernel(ans.newStream) && slot < cache.slots.Length
      requires next.Some? ==> FromKernel(next.value)
      modifies this, cache, cache.slots
      ensures inotifyReadCnt == old(inotifyReadCnt)
      ensures cache.slots == old(cache.slots) || fresh(cache.slots)
      ensures Valid() && stream == if o == Rebuilt then ans.newStream else old(stream)
      ensures o.Took? ==> 1 <= o.n <= if next.Some? then 2 else 1
      ensures (State(), o)
           == OnMovedFrom(old(State()), old(Join(cache.slots[slot].path, ev.name)), ev, next, firstTry, ans)
    {
      hide WellFormed, CountFree, Contents, RewriteSlots, ZapOrRebuild, WalkRoots, IndexFrom;
      if next.Some? && MOVED_TO in next.value.mask && next.value.cookie == ev.cookie {
        var nextSlot := cache.FindWatch(next.value.wd);
        if nextSlot == -1 {
          Reinitialize(ans);
          return Rebuilt;
        }
        cache.RewriteCachedPaths(slot, ev.name, nextSlot, next.value.name);
        return Took(2);
      } else if next.Some? || !firstTry {
        var rebuilt := ZapOrReinitialize(Given(Join(cache.slots[slot].path, ev.name)), ans);
        return if rebuilt then Rebuilt else Took(1);
      } else {
        return Hanging;
      }
    }

    method RootMoved(slot: nat, ans: Answers) returns (o: Outcome)
      requires Valid() && AllFromKernel(ans.newStream) && slot < cache.slots.Length
      requires IsRoot(roots[..], cache.slots[slot].path)
      modifies this, cache, cache.slots, roots
      ensures inotifyReadCnt == old(inotifyReadCnt)
      ensures cache.slots == old(cache.slots) || fresh(cache.slots)
      ensures Valid() && stream == if o == Rebuilt then ans.newStream else old(stream)
      ensures o.Took? ==> o.n == 1
      ensures (State(), o) == OnRootMoved(old(State()), old(cache.slots[slot].path), ans)
    {
      hide WellFormed, CountFree, Contents, ZapOrRebuild;
      var exits := ZapRootDirPath(cache.slots[slot].path);
      if exits {
        return Exited;
      }
      var rebuilt := ZapOrReinitialize(Cached(slot), ans);
      return if rebuilt then Rebuilt else Took(1);
    }

    /** Acts on one event. Only an event that names a watch descriptor has a slot. */
    method Dispatch(slot: nat, ev: Event, next: Option<Event>, firstTry: bool, ans: Answers) returns (o: Outcome)
      requires Valid() && AllFromKernel(ans.newStream) && slot < cache.slots.Length
      requires next.Some? ==> FromKernel(next.value)
      modifies this, cache, cache.slots, roots
      ensures inotifyReadCnt == old(inotifyReadCnt)
      ensures cache.slots == old(cache.slots) || fresh(cache.slots)
      ensures Valid() && stream == if o == Rebuilt then ans.newStream else old(stream)
      ensures o.Took? ==> 1 <= o.n <= if next.Some? then 2 else 1
      ensures (State(), o) == InotifyEvents.Dispatch(old(State()), ev, slot, next, firstTry, ans)
    {
      hide WellFormed, CountFree, Contents, OnNewDirectory, OnDeleted, OnMovedFrom, OnRootMoved, Reinitialized;
      o := Took(1);
      if ISDIR in ev.mask && (CREATE in ev.mask || MOVED_TO in ev.mask) {
        NewDirectory(Join(cache.slots[slot].path, ev.name), ans);
      } else if DELETE_SELF in ev.mask {
        var exits := DirectoryDeleted(slot);
        o := if exits then Exited else Took(1);
      } else if MOVED_FROM in ev.mask && ISDIR in ev.mask {
        o := DirectoryMovedFrom(slot, ev, next, firstTry, ans);
      } else if Q_OVERFLOW in ev.mask {
        o := Overflow(ans);
      } else if UNMOUNT in ev.mask {
        cache.MarkCacheSlotEmpty(slot);
      } else if MOVE_SELF in ev.mask {
        var k := IsRootDirPath(cache.slots[slot].path);
        if k < roots.Length {
          o := RootMoved(slot, ans);
        }
      }
    }

    method Overflow(ans: Answers) returns (o: Outcome)
      requires Valid() && AllFromKernel(ans.newStream)
      modifies this, cache, cache.slots
      ensures inotifyReadCnt == old(inotifyReadCnt)
      ensures fresh(cache.slots)
      ensures Valid() && stream == ans.newStream && o == Rebuilt && (State(), o) == Reinitialized(old(State()), ans)
    {
      Reinitialize(ans);
      o := Rebuilt;
    }

    /** Processes the event at byte position at of the buffer, of which bufSize bytes remain. The result is the number
        of bytes used, -1 to ask for another read, or the buffer length to drop what remains. */
    method ProcessNextInotifyEvent(buf: array<Cell>, at: nat, bufSize: nat, firstTry: bool, ans: Answers)
        returns (evLen: int, o: Outcome)
      requires Valid() && AllFromKernel(ans.newStream)
      requires EventAt(buf, at) && (Size(buf[at].ev) < bufSize ==> EventAt(buf, at + Size(buf[at].ev)))
      modifies this, cache, cache.slots, roots
      ensures inotifyReadCnt == old(inotifyReadCnt)
      ensures cache.slots == old(cache.slots) || fresh(cache.slots)
      ensures Valid() && stream == if o == Rebuilt then ans.newStream else old(stream)
      ensures (State(), o)
           == Process(old(State()), old(buf[at].ev), old(Following(buf, at, bufSize)), firstTry, ans)
      ensures evLen == Advance(o, old(buf[at].ev), old(Following(buf, at, bufSize)))
      ensures o == Took(1) ==> evLen == 16 + old(buf[at].ev.len)
      ensures o == Took(2) ==> evLen == 16 + old(buf[at].ev.len) + 16 + old(buf[at + 16 + buf[at].ev.len].ev.len)
      ensures o == Hanging ==> evLen == -1
      ensures o == Rebuilt ==> evLen == 100 * 272
    {
      hide WellFormed, CountFree, Contents, InotifyEvents.Dispatch, Reinitialized, IndexFrom;
      var ev := buf[at].ev;
      evLen := Size(ev);
      var next := if evLen < bufSize then Some(buf[at + evLen].ev) else None;
      if ev.wd != -1 && IGNORED !in ev.mask {
        var slot := cache.FindWatch(ev.wd);
        if slot == -1 {
          o := Overflow(ans);
        } else {
          o := Dispatch(slot, ev, next, firstTry, ans);
        }
      } else if Q_OVERFLOW in ev.mask {
        o := Overflow(ans);
      } else {
        o := Took(1);
      }
      match o
      case Took(n) =>
        if n == 2 {
          evLen := evLen + Size(next.value);
        }
      case Hanging => evLen := -1;
      case Rebuilt => evLen := INOTIFY_READ_BUF_LEN;
      case Exited => evLen := 0;
    }

    /** read() on the inotify file descriptor: a nonempty run of whole events that fits, in order. If the next event
        does not fit, the call fails. With a timer running the call may also come back empty-handed. */
    method Read(limit: nat, timed: bool) returns (evs: seq<Event>, ok: bool)
      requires Valid() && (!timed ==> stream != [])
      modifies this`stream
      ensures Valid()
      ensures old(stream) == evs + stream && AllFromKernel(evs)
      ensures ok ==> Bytes(evs) <= limit && (!timed ==> evs != [])
      ensures !ok ==> old(stream) != [] && evs == [] && Size(old(stream)[0]) > limit && stream == old(stream)
      ensures limit >= HEADER + 255 + 1 ==> ok
    {
      if stream == [] {
        return [], true;
      }
      if timed {
        if * {
          return [], true;
        }
      }
      if Size(stream[0]) > limit {
        return [], false;
      }
      assert Bytes(stream[..1]) == Size(stream[0]) && stream[..1] != [];
      var k :| 1 <= k <= |stream| && Bytes(stream[..k]) <= limit;
      evs, ok := stream[..k], true;
      stream := stream[k..];
    }

    /** The follow-up read(): what is left of the buffer moves to its start and new events go behind it. The result of
        read() is added to the byte count even when it is -1 because the timer interrupted the call. */
    method ReadMore(buf: array<Cell>, evp: nat, numRead: nat, ghost rest: seq<Event>)
        returns (more: seq<Event>, total: nat)
      requires Valid() && buf.Length == INOTIFY_READ_BUF_LEN
      requires Holding(buf, evp, numRead, rest) && |rest| == 1 && FromKernel(rest[0])
      modifies this`stream, this`inotifyReadCnt, buf
      ensures Valid() && old(stream) == more + stream && AllFromKernel(more)
      ensures inotifyReadCnt == old(inotifyReadCnt) + 1
      ensures Buffered(buf, 0, total, rest + more, more == [])
    {
      hide *;
      HoldingSpan(buf, evp, numRead, rest);
      LoneEvent(rest);
      total := numRead - evp;
      ShuffleToStart(buf, evp, total);
      var fits;
      more, fits := Read(INOTIFY_READ_BUF_LEN - total, true);
      assert fits;
      var nr: int;
      if more == [] {
        nr := -1;
        NothingMore(buf, rest, total);
      } else {
        Store(buf, total, more);
        nr := Bytes(more);
        MoreBuffered(buf, rest, total, more);
      }
      total := total + nr;
      inotifyReadCnt := inotifyReadCnt + 1;
    }

    /** One turn of the event loop. Unless the event asks for another read, the position moves past what was used. */
    method Turn(buf: array<Cell>, evp: nat, numRead: nat, firstTry: bool, ans: Answers, ghost m0: Mirror,
                ghost taken: seq<Event>, pos: nat, ghost timedOut: bool, ghost retried: seq<nat>,
                ghost allAns: nat -> Answers)
        returns (evp': nat, o: Outcome)
      requires Valid() && evp < numRead && pos <= |taken|
      requires ans == allAns(pos) && AllFromKernel(ans.newStream)
      requires Reading(m0, taken, pos, State(), firstTry, timedOut, retried, allAns)
      requires Buffered(buf, evp, numRead, taken[pos..], timedOut)
      modifies this, cache, cache.slots, roots
      ensures inotifyReadCnt == old(inotifyReadCnt)
      ensures Valid() && (cache.slots == old(cache.slots) || fresh(cache.slots))
      ensures o.Hanging? || (o.Took? && !timedOut) ==> stream == old(stream)
      ensures o.Hanging? ==> State() == old(State()) && evp' == evp
      ensures o.Hanging? ==> firstTry && !timedOut && pos == |taken| - 1 && IsDirMoveFrom(taken[pos])
      ensures o.Took? && !timedOut ==> 1 <= o.n && pos + o.n <= |taken|
      ensures o.Took? && !timedOut ==> Reading(m0, taken, pos + o.n, State(), true, false, retried, allAns)
      ensures o.Took? && !timedOut ==> Buffered(buf, evp', numRead, taken[pos + o.n..], false)
      ensures o.Rebuilt? || o.Exited? || (o.Took? && timedOut) ==>
        Outcomes(m0, taken, State(), timedOut, o.Exited?, retried, allAns, taken + old(stream), stream)
    {
      hide *;
      ghost var rest, m, later := taken[pos..], State(), stream;
      ReadingRest(m0, taken, pos, m, firstTry, timedOut, retried, allAns);
      BufferShape(buf, evp, numRead, rest, timedOut);
      var evLen;
      evLen, o := ProcessNextInotifyEvent(buf, evp, numRead - evp, firstTry, ans);
      Used(m0, taken, pos, m, firstTry, timedOut, retried, allAns, State(), o);
      AdvanceIs(o, rest);
      evp' := if evLen > 0 then evp + evLen else evp;
      if o.Took? && !timedOut {
        BufferHolds(buf, evp, numRead, rest);
        BufferAfter(buf, evp, numRead, rest, o.n);
        assert rest[o.n..] == taken[pos + o.n..];
      } else if !o.Hanging? {
        ghost var r := Progress(State(), if o.Took? then |taken| else pos + 1,
                                if o.Took? then Drained else if o.Rebuilt? then AfterRebuild else AtExit);
        Concluded(m0, taken, r, timedOut, retried, allAns, later, stream);
      }
    }

    /** Processes the events evs in the first numRead bytes of the buffer, reading more behind them when the last one
        is a directory move-from. */
    method ProcessBuffer(buf: array<Cell>, bytes: nat, ghost evs: seq<Event>, ans: nat -> Answers)
        returns (ghost taken: seq<Event>, ghost retried: seq<nat>, timedOut: bool, exits: bool)
      requires Valid() && buf.Length == INOTIFY_READ_BUF_LEN
      requires Reading(State(), evs, 0, State(), true, false, [], ans) && Buffered(buf, 0, bytes, evs[0..], false)
      requires forall i :: AllFromKernel(ans(i).newStream)
      modifies this, cache, cache.slots, roots, buf
      ensures Valid() && (cache.slots == old(cache.slots) || fresh(cache.slots))
      ensures Outcomes(old(State()), taken, State(), timedOut, exits, retried, ans, evs + old(stream), stream)
      ensures inotifyReadCnt == old(inotifyReadCnt) + |retried|
    {
      hide *;
      ghost var m0, before := State(), evs + stream;
      timedOut, exits, retried, taken := false, false, [], evs;
      var numRead: nat, evp: nat, pos: nat, firstTry := bytes, 0, 0, true;
      while evp < numRead
        invariant cache.slots == old(cache.slots) || fresh(cache.slots)
        invariant Valid() && before == taken + stream && inotifyReadCnt == old(inotifyReadCnt) + |retried|
        invariant pos <= |taken| && Reading(m0, taken, pos, State(), firstTry, timedOut, retried, ans)
        invariant Buffered(buf, evp, numRead, taken[pos..], timedOut)
        decreases |stream|, |taken| - pos, !timedOut
      {
        var o;
        evp, o := Turn(buf, evp, numRead, firstTry, ans(pos), m0, taken, pos, timedOut, retried, ans);
        if o == Hanging {
          ghost var rest, m := taken[pos..], State();
          ReadingRest(m0, taken, pos, m, firstTry, timedOut, retried, ans);
          BufferHolds(buf, evp, numRead, rest);
          var more;
          more, numRead := ReadMore(buf, evp, numRead, rest);
          MoreTaken(m0, taken, pos, m, retried, ans, more);
          firstTry, timedOut, evp := false, more == [], 0;
          taken, retried := taken + more, retried + [pos];
        } else if o.Took? && !timedOut {
          firstTry, pos := true, pos + o.n;
        } else {
          exits := o == Exited;
          return;
        }
      }
      AllUsed(m0, taken, pos, State(), firstTry, timedOut, retried, ans, buf, evp, numRead);
      Concluded(m0, taken, Progress(State(), |taken|, Drained), timedOut, retried, ans, stream, stream);
    }

    /** Reads one block of events and processes them. ans(i) are the kernel's answers for the i-th event taken; failed
        says that the first read() failed. retried are the positions of the events for which more input was awaited,
        with one further read() each. */
    method ProcessInotifyEvents(readBufferSize: nat, ans: nat -> Answers)
        returns (ghost taken: seq<Event>, ghost retried: seq<nat>, timedOut: bool, exits: bool, failed: bool)
      requires Valid() && stream != [] && readBufferSize <= INOTIFY_READ_BUF_LEN
      requires forall i :: AllFromKernel(ans(i).newStream)
      modifies this, cache, cache.slots, roots
      ensures Valid() && (cache.slots == old(cache.slots) || fresh(cache.slots))
      ensures failed ==> State() == old(State()) && stream == old(stream) && inotifyReadCnt == old(inotifyReadCnt)
      ensures !failed ==>
        && Outcomes(old(State()), taken, State(), timedOut, exits, retried, ans, old(stream), stream)
        && inotifyReadCnt == old(inotifyReadCnt) + 1 + |retried|
    {
      hide *;
      var buf := new Cell[INOTIFY_READ_BUF_LEN];
      var evs, ok := Read(if readBufferSize > 0 then readBufferSize else INOTIFY_READ_BUF_LEN, false);
      if !ok {
        taken, retried, timedOut, exits, failed := [], [], false, false, true;
        return;
      }
      failed, inotifyReadCnt := false, inotifyReadCnt + 1;
      Store(buf, 0, evs);
      Start(State(), evs, ans, buf);
      taken, retried, timedOut, exits := ProcessBuffer(buf, Bytes(evs), evs, ans);
    }
  }

  // ---------------------------------------------------------------- the state of the read loop

  /** The events put back to wait for more input are directory move-froms among the first n, and each was put back
      once. */
  ghost predicate OnceEach(retried: seq<nat>, taken: seq<Event>, n: nat) {
    && n <= |taken|
    && (forall i :: 0 <= i < |retried| ==> retried[i] < n && IsDirMoveFrom(taken[retried[i]]))
    && (forall i, j :: 0 <= i < j < |retried| ==> retried[i] < retried[j])
  }

  /** The events taken from the stream so far, of which the first pos have been used, reaching m. After a follow-up
      read, firstTry is off and the next event is the move-from that asked for it. */
  ghost predicate Reading(m0: Mirror, taken: seq<Event>, pos: nat, m: Mirror, firstTry: bool, timedOut: bool,
                          retried: seq<nat>, ans: nat -> Answers) {
    && taken != [] && AllFromKernel(taken)
    && pos <= |taken| && OnTrack(m0, taken, pos, m, ans)
    && (pos == |taken| ==> !EndsHanging(taken))
    && (timedOut ==> !firstTry)
    && (!firstTry ==> pos < |taken| && IsDirMoveFrom(taken[pos]) && (timedOut <==> pos == |taken| - 1))
    && OnceEach(retried, taken, if firstTry then pos else pos + 1)
  }

  /** How a call of processInotifyEvents() that took these events came out. */
  ghost predicate Outcomes(m0: Mirror, taken: seq<Event>, m: Mirror, timedOut: bool, exits: bool, retried: seq<nat>,
                           ans: nat -> Answers, before: seq<Event>, after: seq<Event>) {
    var r := Replay(m0, taken, 0, ans);
    && taken != [] && taken <= before
    && m == r.m
    && (exits <==> r.stop == AtExit)
    && (r.stop == Drained ==> after == before[|taken|..] && (EndsHanging(taken) <==> timedOut))
    && (r.stop == AfterRebuild ==> r.used > 0 && after == ans(r.used - 1).newStream)
    && OnceEach(retried, taken, |taken|)
  }

  /** The unused bytes of the buffer hold exactly these events. */
  ghost predicate Holding(buf: array<Cell>, evp: nat, numRead: nat, rest: seq<Event>)
    reads buf
  {
    evp <= numRead <= buf.Length && buf[evp..numRead] == Encode(rest)
  }

  /** After a timeout a lone event is left and the byte count is one short: the -1 that read() returned was added. */
  ghost predicate Stranded(buf: array<Cell>, evp: nat, numRead: nat, rest: seq<Event>)
    reads buf
  {
    |rest| == 1 && evp == 0 && numRead == Size(rest[0]) - 1 && 0 < buf.Length && buf[0] == Head(rest[0])
  }

  ghost predicate Buffered(buf: array<Cell>, evp: nat, numRead: nat, rest: seq<Event>, timedOut: bool)
    reads buf
  {
    if timedOut then Stranded(buf, evp, numRead, rest) else Holding(buf, evp, numRead, rest)
  }

  lemma BufferShape(buf: array<Cell>, evp: nat, numRead: nat, rest: seq<Event>, timedOut: bool)
    requires evp < numRead && AllFromKernel(rest) && Buffered(buf, evp, numRead, rest, timedOut)
    ensures rest != [] && EventAt(buf, evp) && buf[evp].ev == rest[0]
    ensures Size(rest[0]) < numRead - evp ==> EventAt(buf, evp + Size(rest[0]))
    ensures Following(buf, evp, numRead - evp) == NextOf(rest)
  {
    EncodeShape(rest);
    if !timedOut {
      assert buf[evp] == buf[evp..numRead][0];
      if |rest| > 1 {
        assert buf[evp + Size(rest[0])] == buf[evp..numRead][Size(rest[0])];
      }
    }
  }

  lemma BufferHolds(buf: array<Cell>, evp: nat, numRead: nat, rest: seq<Event>)
    requires Buffered(buf, evp, numRead, rest, false)
    ensures Holding(buf, evp, numRead, rest)
  {
  }

  lemma HoldingSpan(buf: array<Cell>, evp: nat, numRead: nat, rest: seq<Event>)
    requires Holding(buf, evp, numRead, rest)
    ensures evp <= numRead <= buf.Length && buf[evp..numRead] == Encode(rest)
  {
  }

  /** The largest event leaves room for another one. */
  lemma LoneEvent(rest: seq<Event>)
    requires |rest| == 1 && FromKernel(rest[0])
    ensures 1 < |Encode(rest)| <= INOTIFY_READ_BUF_LEN - (HEADER + 255 + 1)
  {
    EncodeShape(rest);
  }

  lemma NothingMore(buf: array<Cell>, rest: seq<Event>, total: nat)
    requires |rest| == 1 && total <= buf.Length && buf[..total] == Encode(rest)
    ensures total > 0 && Buffered(buf, 0, total - 1, rest + [], true)
  {
    EncodeShape(rest);
    assert rest + [] == rest && buf[0] == buf[..total][0];
  }

  lemma MoreBuffered(buf: array<Cell>, rest: seq<Event>, total: nat, more: seq<Event>)
    requires total + Bytes(more) <= buf.Length && buf[..total] == Encode(rest)
    requires buf[total..total + Bytes(more)] == Encode(more)
    ensures Buffered(buf, 0, total + Bytes(more), rest + more, false)
  {
    hide Encode;
    EncodeConcat(rest, more);
    assert buf[0..total + Bytes(more)] == buf[..total] + buf[total..total + Bytes(more)];
  }

  lemma BufferAfter(buf: array<Cell>, evp: nat, numRead: nat, rest: seq<Event>, n: nat)
    requires Holding(buf, evp, numRead, rest) && n <= |rest|
    ensures Buffered(buf, evp + Bytes(rest[..n]), numRead, rest[n..], false)
  {
    EncodeDrop(rest, n);
    assert buf[evp + Bytes(rest[..n])..numRead] == buf[evp..numRead][Bytes(rest[..n])..];
  }

  lemma Start(m0: Mirror, evs: seq<Event>, ans: nat -> Answers, buf: array<Cell>)
    requires evs != [] && AllFromKernel(evs)
    requires Bytes(evs) <= buf.Length && buf[0..Bytes(evs)] == Encode(evs)
    ensures Reading(m0, evs, 0, m0, true, false, [], ans) && Buffered(buf, 0, Bytes(evs), evs[0..], false)
  {
    OnTrackInitially(m0, evs, ans);
    assert evs[0..] == evs;
  }

  /** One event, or one rename, was dealt with. */
  lemma Used(m0: Mirror, taken: seq<Event>, pos: nat, m: Mirror, firstTry: bool, timedOut: bool, retried: seq<nat>,
             ans: nat -> Answers, m': Mirror, o: Outcome)
    requires Reading(m0, taken, pos, m, firstTry, timedOut, retried, ans) && pos < |taken|
    requires (m', o) == Process(m, taken[pos], NextOf(taken[pos..]), firstTry, ans(pos))
    ensures o.Took? ==> 1 <= o.n <= 2 && pos + o.n <= |taken|
    ensures o.Took? && !timedOut ==> Reading(m0, taken, pos + o.n, m', true, false, retried, ans)
    ensures o.Hanging? ==> m' == m && firstTry && !timedOut && pos == |taken| - 1 && IsDirMoveFrom(taken[pos])
    ensures o.Rebuilt? ==> Replay(m0, taken, 0, ans) == Progress(m', pos + 1, AfterRebuild)
    ensures o.Exited? ==> Replay(m0, taken, 0, ans) == Progress(m', pos + 1, AtExit)
    ensures o.Took? && timedOut ==> Replay(m0, taken, 0, ans) == Progress(m', |taken|, Drained) && EndsHanging(taken)
    ensures !o.Hanging? ==> OnceEach(retried, taken, |taken|)
  {
    hide Replay, Process, OnTrack, FromKernel;
    var rest := taken[pos..];
    ProcessBounds(m, rest[0], NextOf(rest), firstTry, ans(pos));
    if o.Took? {
      LastUsed(m, rest[0], NextOf(rest), firstTry, ans(pos), o);
    }
    if timedOut {
      OnTrackTimeout(m0, taken, m, ans);
    } else if o != Hanging {
      OnTrackStep(m0, taken, pos, m, firstTry, ans, m', o);
    }
  }

  lemma ReadingRest(m0: Mirror, taken: seq<Event>, pos: nat, m: Mirror, firstTry: bool, timedOut: bool,
                    retried: seq<nat>, ans: nat -> Answers)
    requires Reading(m0, taken, pos, m, firstTry, timedOut, retried, ans)
    ensures taken != [] && pos <= |taken| && AllFromKernel(taken[pos..])
  {
  }

  /** later is what remained of the stream when the last event was dealt with, after what remains now. */
  lemma Concluded(m0: Mirror, taken: seq<Event>, r: Progress, timedOut: bool, retried: seq<nat>, ans: nat -> Answers,
                  later: seq<Event>, after: seq<Event>)
    requires taken != [] && Replay(m0, taken, 0, ans) == r && OnceEach(retried, taken, |taken|)
    requires r.stop == Drained ==> after == later && (EndsHanging(taken) <==> timedOut)
    requires r.stop == AfterRebuild ==> r.used > 0 && after == ans(r.used - 1).newStream
    ensures Outcomes(m0, taken, r.m, timedOut, r.stop == AtExit, retried, ans, taken + later, after)
  {
    hide Replay;
    assert (taken + later)[|taken|..] == later;
  }

  /** A follow-up read was made for the last event. */
  lemma MoreTaken(m0: Mirror, taken: seq<Event>, pos: nat, m: Mirror, retried: seq<nat>, ans: nat -> Answers,
                  more: seq<Event>)
    requires Reading(m0, taken, pos, m, true, false, retried, ans)
    requires pos == |taken| - 1 && IsDirMoveFrom(taken[pos]) && AllFromKernel(more)
    ensures Reading(m0, taken + more, pos, m, false, more == [], retried + [pos], ans)
    ensures (taken + more)[pos..] == taken[pos..] + more
  {
    hide OnTrack, FromKernel;
    OnTrackWithMore(m0, taken, pos, m, ans, more);
  }

  /** The loop ended by itself. */
  lemma AllUsed(m0: Mirror, taken: seq<Event>, pos: nat, m: Mirror, firstTry: bool, timedOut: bool, retried: seq<nat>,
                ans: nat -> Answers, buf: array<Cell>, evp: nat, numRead: nat)
    requires Reading(m0, taken, pos, m, firstTry, timedOut, retried, ans)
    requires evp >= numRead && Buffered(buf, evp, numRead, taken[pos..], timedOut)
    ensures pos == |taken| && !timedOut && taken != [] && !EndsHanging(taken)
    ensures Replay(m0, taken, 0, ans) == Progress(m, |taken|, Drained) && OnceEach(retried, taken, |taken|)
  {
    hide Replay, OnTrack;
    EncodeShape(taken[pos..]);
    OnTrackDone(m0, taken, m, ans);
  }

  lemma AdvanceIs(o: Outcome, rest: seq<Event>)
    requires rest != [] && (o.Took? ==> 1 <= o.n <= |rest| && o.n <= 2)
    ensures o.Took? ==> Advance(o, rest[0], NextOf(rest)) == Bytes(rest[..o.n])
    ensures Advance(o, rest[0], NextOf(rest)) > 0 <==> o.Took? || o.Rebuilt?
  {
    var one := rest[..1];
    assert one[1..] == [] && Bytes(one) == Size(rest[0]);
    if o.Took? && o.n == 2 {
      var two, last := rest[..2], [rest[1]];
      assert last[1..] == [] && Bytes(last) == Size(rest[1]);
      assert two[1..] == last;
    }
  }

  /** What read() writes into the buffer from byte at on. */
  method Store(buf: array<Cell>, at: nat, evs: seq<Event>)
    requires at + Bytes(evs) <= buf.Length
    modifies buf
    ensures buf[at..at + Bytes(evs)] == Encode(evs)
    ensures buf[..at] == old(buf[..at])
  {
    var cells := Encode(evs);
    forall i | 0 <= i < |cells| {
      buf[at + i] := cells[i];
    }
  }

  /** Moves n bytes from position evp to the start of the buffer. */
  method ShuffleToStart(buf: array<Cell>, evp: nat, n: nat)
    requires evp + n <= buf.Length
    modifies buf
    ensures buf[..n] == old(buf[evp..evp + n])
  {
    ghost var s := buf[..];
    for j := 0 to n
      invariant forall i :: 0 <= i < j ==> buf[i] == s[evp + i]
      invariant forall i :: j <= i < buf.Length ==> buf[i] == s[i]
    {
      buf[j] := buf[evp + j];
    }
  }

  /** An event starts at this byte of the buffer. */
  ghost predicate EventAt(buf: array<Cell>, at: nat)
    reads buf
  {
    at < buf.Length && buf[at].Head? && FromKernel(buf[at].ev)
  }

  /** The event after the one at this position, if it starts within the bytes that were read. */
  ghost function Following(buf: array<Cell>, at: nat, bufSize: nat): Option<Event>
    reads buf
    requires EventAt(buf, at) && (Size(buf[at].ev) < bufSize ==> EventAt(buf, at + Size(buf[at].ev)))
  {
    if Size(buf[at].ev) < bufSize then Some(buf[at + Size(buf[at].ev)].ev) else None
  }

  ghost function Advance(o: Outcome, e: Event, next: Option<Event>): int {
    match o
    case Took(n) => Size(e) + if n == 2 && next.Some? then Size(next.value) else 0
    case Hanging => -1
    case Rebuilt => INOTIFY_READ_BUF_LEN
    case Exited => 0
  }
}
