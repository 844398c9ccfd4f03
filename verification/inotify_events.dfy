/** Inotify events, and what inotify_dtree.c does to its cache and root list for one event and for a stream of them. */
module InotifyEvents {
  import opened Basics
  import opened Paths
  import opened WatchCache

  datatype Flag = CREATE | MOVED_FROM | MOVED_TO | DELETE_SELF | MOVE_SELF | ISDIR | IGNORED | Q_OVERFLOW | UNMOUNT

  /** len is the size in bytes of the name field with its padding. */
  datatype Event = Event(wd: int, mask: set<Flag>, cookie: nat, name: string, len: nat)

  /** An event about a name in a watched directory; the name field is padded to a multiple of 16 bytes. */
  function NameEvent(wd: int, mask: set<Flag>, cookie: nat, name: string): Event {
    Event(wd, mask, cookie, name, (|name| / 16 + 1) * 16)
  }

  /** The field holds the name and a NUL, and no more padding than that takes. */
  lemma NameFits(wd: int, mask: set<Flag>, cookie: nat, name: string)
    ensures var e := NameEvent(wd, mask, cookie, name);
      && e.len % 16 == 0 && |name| < e.len <= |name| + 16
      && (|name| <= 255 ==> e.len <= 256)
  {
  }

  /** Overflow is reported without a watch descriptor, IN_IGNORED is reported alone, and an event has one type. */
  ghost predicate FromKernel(e: Event) {
    && (e.wd == -1 <==> e.mask == {Q_OVERFLOW})
    && (e.wd != -1 ==> e.wd >= 0)
    && (IGNORED in e.mask ==> e.mask == {IGNORED})
    && (Q_OVERFLOW in e.mask ==> e.mask == {Q_OVERFLOW})
    && (MOVED_FROM in e.mask ==> e.mask <= {MOVED_FROM, ISDIR})
    && (MOVE_SELF in e.mask ==> e.mask <= {MOVE_SELF, ISDIR})
    && e.len <= 256
  }

  ghost predicate AllFromKernel(evs: seq<Event>) {
    forall i :: 0 <= i < |evs| ==> FromKernel(evs[i])
  }

  /** What inotify_add_watch() returned: a descriptor, or -1 when the pathname no longer exists. */
  type WatchResult = w: int | -1 <= w witness -1

  /** One call of traverseTree() by nftw(), with the kernel's answer to it. */
  datatype Visit = Visit(path: string, isDir: bool, wd: WatchResult)

  /** The kernel's answers while one event is processed: the visits of a tree walk from a pathname, the watches that
      inotify_rm_watch() fails to remove, and the events that a newly created inotify instance will deliver. */
  datatype Answers = Answers(walk: string -> seq<Visit>, refused: set<int>, newStream: seq<Event>)

  /** The program's global state. A zapped root path is None. */
  datatype Mirror = Mirror(slots: seq<Slot>, roots: seq<Option<string>>)

  /** How an event was dealt with: n events used up, put back to wait for more input, the cache rebuilt, or no root
      path left to monitor. */
  datatype Outcome = Took(n: nat) | Hanging | Rebuilt | Exited

  // ---------------------------------------------------------------- walking and rebuilding

  function Traverse(s: seq<Slot>, v: Visit): seq<Slot> {
    if !v.isDir || v.wd == -1 || IndexOf(s, v.wd) < |s| then s else AddSlot(s, v.wd, v.path)
  }

  function Walk(s: seq<Slot>, visits: seq<Visit>): seq<Slot> {
    if visits == [] then s else Traverse(Walk(s, visits[..|visits| - 1]), visits[|visits| - 1])
  }

  function WalkRoots(roots: seq<Option<string>>, ans: Answers): seq<Slot> {
    if roots == [] then []
    else
      var s := WalkRoots(roots[..|roots| - 1], ans);
      var r := roots[|roots| - 1];
      if r.Some? then Walk(s, ans.walk(r.value)) else s
  }

  function Reinitialized(m: Mirror, ans: Answers): (Mirror, Outcome) {
    (m.(slots := WalkRoots(m.roots, ans)), Rebuilt)
  }

  // ---------------------------------------------------------------- root paths

  function RootIndex(roots: seq<Option<string>>, path: string, i: nat := 0): (k: nat)
    requires i <= |roots|
    ensures i <= k <= |roots|
    ensures k < |roots| ==> roots[k] == Some(path)
    ensures forall j :: i <= j < k ==> roots[j] != Some(path)
    decreases |roots| - i
  {
    if i == |roots| || roots[i] == Some(path) then i else RootIndex(roots, path, i + 1)
  }

  predicate IsRoot(roots: seq<Option<string>>, path: string) {
    RootIndex(roots, path) < |roots|
  }

  function WithoutRoot(roots: seq<Option<string>>, path: string): seq<Option<string>>
    requires IsRoot(roots, path)
  {
    roots[RootIndex(roots, path) := None]
  }

  predicate NoRoots(roots: seq<Option<string>>) {
    forall i :: 0 <= i < |roots| ==> roots[i] == None
  }

  // ---------------------------------------------------------------- one event

  predicate NeedsLookup(e: Event) {
    e.wd != -1 && IGNORED !in e.mask
  }

  /** A directory was renamed from somewhere inside the trees. */
  predicate IsDirMoveFrom(e: Event) {
    MOVED_FROM in e.mask && ISDIR in e.mask
  }

  /** next completes the rename that e began. */
  predicate Completes(e: Event, next: Option<Event>) {
    next.Some? && MOVED_TO in next.value.mask && next.value.cookie == e.cookie
  }

  function ZapOrRebuild(m: Mirror, p: string, ans: Answers): (Mirror, Outcome) {
    if FirstRefused(m.slots, p, ans.refused) < |m.slots| then Reinitialized(m, ans)
    else (m.(slots := ZapSlots(m.slots, p, |m.slots|)), Took(1))
  }

  predicate PathCached(s: seq<Slot>, path: string) {
    exists i :: 0 <= i < |s| && s[i].wd >= 0 && s[i].path == path
  }

  /** A directory appeared: its subtree is walked unless it is cached already. */
  function OnNewDirectory(m: Mirror, path: string, ans: Answers): (Mirror, Outcome) {
    (if PathCached(m.slots, path) then m else m.(slots := Walk(m.slots, ans.walk(path))), Took(1))
  }

  /** The directory in slot k is gone. */
  function OnDeleted(m: Mirror, k: nat): (Mirror, Outcome)
    requires k < |m.slots|
  {
    var dir := m.slots[k].path;
    if !IsRoot(m.roots, dir) then (m.(slots := m.slots[k := EMPTY]), Took(1))
    else
      var roots := WithoutRoot(m.roots, dir);
      if NoRoots(roots) then (m.(roots := roots), Exited) else (Mirror(m.slots[k := EMPTY], roots), Took(1))
  }

  /** The directory at path was renamed away: within the trees if next completes the rename, else out of them. */
  function OnMovedFrom(m: Mirror, path: string, e: Event, next: Option<Event>, firstTry: bool, ans: Answers)
    : (r: (Mirror, Outcome))
    ensures r.1.Took? ==> r.1.n == if Completes(e, next) then 2 else 1
    ensures r.1.Hanging? ==> firstTry && next == None && r.0 == m
    ensures !r.1.Exited?
  {
    if Completes(e, next) then
      var j := IndexOf(m.slots, next.value.wd);
      if j == |m.slots| then Reinitialized(m, ans)
      else (m.(slots := RewriteSlots(m.slots, path, Join(m.slots[j].path, next.value.name))), Took(2))
    else if next.Some? || !firstTry then ZapOrRebuild(m, path, ans)
    else (m, Hanging)
  }

  function OnRootMoved(m: Mirror, path: string, ans: Answers): (Mirror, Outcome)
    requires IsRoot(m.roots, path)
  {
    var m' := m.(roots := WithoutRoot(m.roots, path));
    if NoRoots(m'.roots) then (m', Exited) else ZapOrRebuild(m', path, ans)
  }

  /** The effect of processNextInotifyEvent() on an event whose watch descriptor, if it has one, is in slot k. */
  function Dispatch(m: Mirror, e: Event, k: nat, next: Option<Event>, firstTry: bool, ans: Answers)
    : (r: (Mirror, Outcome))
    requires k < |m.slots|
    ensures r.1.Took? ==> 1 <= r.1.n <= if next.Some? then 2 else 1
    ensures r.1.Hanging? ==> firstTry && next == None && IsDirMoveFrom(e) && r.0 == m
  {
    var dir := m.slots[k].path;
    if ISDIR in e.mask && (CREATE in e.mask || MOVED_TO in e.mask) then OnNewDirectory(m, Join(dir, e.name), ans)
    else if DELETE_SELF in e.mask then OnDeleted(m, k)
    else if IsDirMoveFrom(e) then OnMovedFrom(m, Join(dir, e.name), e, next, firstTry, ans)
    else if Q_OVERFLOW in e.mask then Reinitialized(m, ans)
    else if UNMOUNT in e.mask then (m.(slots := m.slots[k := EMPTY]), Took(1))
    else if MOVE_SELF in e.mask && IsRoot(m.roots, dir) then OnRootMoved(m, dir, ans)
    else (m, Took(1))
  }

  function Process(m: Mirror, e: Event, next: Option<Event>, firstTry: bool, ans: Answers): (r: (Mirror, Outcome))
    ensures r.1.Took? ==> 1 <= r.1.n <= if next.Some? then 2 else 1
    ensures r.1.Hanging? ==> firstTry && next == None && IsDirMoveFrom(e) && r.0 == m
  {
    if NeedsLookup(e) then
      if IndexOf(m.slots, e.wd) == |m.slots| then Reinitialized(m, ans)
      else Dispatch(m, e, IndexOf(m.slots, e.wd), next, firstTry, ans)
    else if Q_OVERFLOW in e.mask then Reinitialized(m, ans)
    else (m, Took(1))
  }

  // ---------------------------------------------------------------- a stream of events

  datatype Stop = Drained | AfterRebuild | AtExit

  /** The state after a stream, the number of events used, and why processing stopped. */
  datatype Progress = Progress(m: Mirror, used: nat, stop: Stop)

  function NextOf(evs: seq<Event>): Option<Event> {
    if |evs| > 1 then Some(evs[1]) else None
  }

  /** Consuming a whole stream in order; ans(pos + i) are the kernel's answers for the event at index i. A rename pair
      is one step, and a directory move-from that nothing completes is a move out of the trees. */
  function Replay(m: Mirror, evs: seq<Event>, pos: nat, ans: nat -> Answers): (r: Progress)
    ensures r.used <= |evs|
    ensures r.stop.Drained? ==> r.used == |evs|
    decreases |evs|
  {
    if |evs| == 0 then Progress(m, 0, Drained)
    else
      var (m', o) := Process(m, evs[0], NextOf(evs), false, ans(pos));
      match o
      case Took(n) =>
        var r := Replay(m', evs[n..], pos + n, ans);
        Progress(r.m, n + r.used, r.stop)
      case Rebuilt => Progress(m', 1, AfterRebuild)
      case Exited => Progress(m', 1, AtExit)
  }

  /** The stream ends in a directory move-from, which the next event might have completed. */
  predicate EndsHanging(evs: seq<Event>) {
    |evs| > 0 && IsDirMoveFrom(evs[|evs| - 1])
  }

  lemma OnlyMoveFromLooksAhead(m: Mirror, e: Event, next: Option<Event>, firstTry: bool, ans: Answers)
    requires !IsDirMoveFrom(e)
    ensures Process(m, e, next, firstTry, ans) == Process(m, e, None, false, ans)
  {
  }

  lemma {:induction false} ReplayConcat(m: Mirror, a: seq<Event>, b: seq<Event>, pos: nat, ans: nat -> Answers)
    requires !EndsHanging(a)
    ensures var r := Replay(m, a, pos, ans);
      Replay(m, a + b, pos, ans)
      == if r.stop.Drained? then
           var q := Replay(r.m, b, pos + |a|, ans);
           Progress(q.m, |a| + q.used, q.stop)
         else r
    decreases |a|
  {
    hide Process, Replay;
    if |a| == 0 {
      assert a + b == b;
      ReplayUnfolds(m, a, pos, ans);
    } else {
      SameFirstStep(m, a, b, pos, ans);
      ReplayUnfolds(m, a, pos, ans);
      ReplayUnfolds(m, a + b, pos, ans);
      var (m', o) := Process(m, a[0], NextOf(a), false, ans(pos));
      if o.Took? {
        assert (a + b)[o.n..] == a[o.n..] + b;
        ReplayConcat(m', a[o.n..], b, pos + o.n, ans);
      }
    }
  }

  lemma ReplayUnfolds(m: Mirror, evs: seq<Event>, pos: nat, ans: nat -> Answers)
    ensures |evs| == 0 ==> Replay(m, evs, pos, ans) == Progress(m, 0, Drained)
    ensures |evs| > 0 ==>
      var (m', o) := Process(m, evs[0], NextOf(evs), false, ans(pos));
      Replay(m, evs, pos, ans)
      == match o
         case Took(n) =>
           var r := Replay(m', evs[n..], pos + n, ans);
           Progress(r.m, n + r.used, r.stop)
         case Rebuilt => Progress(m', 1, AfterRebuild)
         case Exited => Progress(m', 1, AtExit)
  {
    hide Process;
  }

  lemma SameFirstStep(m: Mirror, a: seq<Event>, b: seq<Event>, pos: nat, ans: nat -> Answers)
    requires |a| > 0 && !EndsHanging(a)
    ensures (a + b)[0] == a[0]
    ensures Process(m, (a + b)[0], NextOf(a + b), false, ans(pos)) == Process(m, a[0], NextOf(a), false, ans(pos))
  {
    if |a| == 1 {
      OnlyMoveFromLooksAhead(m, a[0], NextOf(a + b), false, ans(pos));
    }
  }

  function Shifted(n: nat, r: Progress): Progress {
    Progress(r.m, n + r.used, r.stop)
  }

  ghost predicate Continues(m0: Mirror, taken: seq<Event>, pos: nat, m: Mirror, ans: nat -> Answers, tail: seq<Event>)
    requires pos <= |taken|
  {
    Replay(m0, taken + tail, 0, ans) == Shifted(pos, Replay(m, taken[pos..] + tail, pos, ans))
  }

  /** Whatever arrives later, having used the first pos events and reached m is on the way of the replay from m0. */
  ghost predicate OnTrack(m0: Mirror, taken: seq<Event>, pos: nat, m: Mirror, ans: nat -> Answers) {
    pos <= |taken| && forall tail :: Continues(m0, taken, pos, m, ans, tail)
  }

  lemma OnTrackInitially(m0: Mirror, taken: seq<Event>, ans: nat -> Answers)
    ensures OnTrack(m0, taken, 0, m0, ans)
  {
    hide Replay;
    assert taken[0..] == taken;
  }

  lemma OnTrackWithMore(m0: Mirror, taken: seq<Event>, pos: nat, m: Mirror, ans: nat -> Answers, more: seq<Event>)
    requires OnTrack(m0, taken, pos, m, ans)
    ensures OnTrack(m0, taken + more, pos, m, ans)
  {
    hide Replay;
    forall tail
      ensures Continues(m0, taken + more, pos, m, ans, tail)
    {
      assert Continues(m0, taken, pos, m, ans, more + tail);
      assert taken + more + tail == taken + (more + tail);
      assert (taken + more)[pos..] + tail == taken[pos..] + (more + tail);
    }
  }

  /** The event can be dealt with without knowing what arrives after the events at hand. */
  predicate Decided(m: Mirror, rest: seq<Event>, firstTry: bool, ans: Answers)
    requires |rest| > 0
  {
    |rest| > 1 || !IsDirMoveFrom(rest[0]) || (firstTry && !Process(m, rest[0], None, firstTry, ans).1.Hanging?)
  }

  /** The next event, in view of the event after it, is dealt with as the replay of any longer stream does. */
  lemma NextDecided(m: Mirror, rest: seq<Event>, tail: seq<Event>, firstTry: bool, ans: Answers)
    requires |rest| > 0 && FromKernel(rest[0]) && Decided(m, rest, firstTry, ans)
    ensures Process(m, rest[0], NextOf(rest), firstTry, ans)
         == Process(m, (rest + tail)[0], NextOf(rest + tail), false, ans)
  {
    hide ZapOrRebuild, OnNewDirectory, OnDeleted, OnRootMoved, Reinitialized, IndexFrom;
    if |rest| > 1 {
      assert NextOf(rest + tail) == NextOf(rest);
    } else if !IsDirMoveFrom(rest[0]) {
      OnlyMoveFromLooksAhead(m, rest[0], NextOf(rest + tail), false, ans);
      OnlyMoveFromLooksAhead(m, rest[0], NextOf(rest), firstTry, ans);
    }
  }

  /** A used-up event at the end of what was read was not a directory move-from, unless waiting for more was over. */
  lemma LastUsed(m: Mirror, e: Event, next: Option<Event>, firstTry: bool, ans: Answers, o: Outcome)
    requires FromKernel(e) && (next.Some? ==> FromKernel(next.value))
    requires o == Process(m, e, next, firstTry, ans).1 && o.Took?
    ensures o.n == 1 && next == None && firstTry ==> !IsDirMoveFrom(e)
    ensures o.n == 2 ==> next.Some? && !IsDirMoveFrom(next.value) && IsDirMoveFrom(e)
  {
    hide IndexFrom, Walk, WalkRoots, RewriteSlots, ZapSlots, FirstRefused, RootIndex;
    if IsDirMoveFrom(e) {
      assert e.mask == {MOVED_FROM, ISDIR};
    }
  }

  lemma FirstStep(m: Mirror, rest: seq<Event>, tail: seq<Event>, firstTry: bool, pos: nat, ans: nat -> Answers,
                  m': Mirror, o: Outcome)
    requires |rest| > 0 && FromKernel(rest[0]) && Decided(m, rest, firstTry, ans(pos))
    requires (m', o) == Process(m, rest[0], NextOf(rest), firstTry, ans(pos))
    ensures o.Took? ==> o.n <= |rest|
    ensures o.Took? ==> Replay(m, rest + tail, pos, ans) == Shifted(o.n, Replay(m', rest[o.n..] + tail, pos + o.n, ans))
    ensures o.Rebuilt? ==> Replay(m, rest + tail, pos, ans) == Progress(m', 1, AfterRebuild)
    ensures o.Exited? ==> Replay(m, rest + tail, pos, ans) == Progress(m', 1, AtExit)
    ensures !o.Hanging?
  {
    hide Process, Replay, IsDirMoveFrom, FromKernel;
    ProcessBounds(m, rest[0], NextOf(rest), firstTry, ans(pos));
    NextDecided(m, rest, tail, firstTry, ans(pos));
    ReplayUnfolds(m, rest + tail, pos, ans);
    if o.Took? {
      assert (rest + tail)[o.n..] == rest[o.n..] + tail;
    }
  }

  lemma OnTrackStep(m0: Mirror, taken: seq<Event>, pos: nat, m: Mirror, firstTry: bool, ans: nat -> Answers,
                    m': Mirror, o: Outcome)
    requires OnTrack(m0, taken, pos, m, ans) && pos < |taken|
    requires FromKernel(taken[pos]) && Decided(m, taken[pos..], firstTry, ans(pos))
    requires (m', o) == Process(m, taken[pos], NextOf(taken[pos..]), firstTry, ans(pos))
    ensures o.Took? ==> pos + o.n <= |taken| && OnTrack(m0, taken, pos + o.n, m', ans)
    ensures o.Rebuilt? ==> Replay(m0, taken, 0, ans) == Progress(m', pos + 1, AfterRebuild)
    ensures o.Exited? ==> Replay(m0, taken, 0, ans) == Progress(m', pos + 1, AtExit)
    ensures !o.Hanging?
  {
    hide Process, Replay, FromKernel, Decided;
    var rest := taken[pos..];
    FirstStep(m, rest, [], firstTry, pos, ans, m', o);
    if o.Took? {
      assert rest[o.n..] == taken[pos + o.n..];
      var q := pos + o.n;
      forall tail {:trigger Continues(m0, taken, q, m', ans, tail)}
        ensures Continues(m0, taken, q, m', ans, tail)
      {
        assert Continues(m0, taken, pos, m, ans, tail);
        FirstStep(m, rest, tail, firstTry, pos, ans, m', o);
      }
    } else {
      assert Continues(m0, taken, pos, m, ans, []);
      assert taken + [] == taken && rest + [] == rest;
    }
  }

  /** Everything taken has been used. */
  lemma OnTrackDone(m0: Mirror, taken: seq<Event>, m: Mirror, ans: nat -> Answers)
    requires OnTrack(m0, taken, |taken|, m, ans)
    ensures Replay(m0, taken, 0, ans) == Progress(m, |taken|, Drained)
  {
    hide Replay, Process;
    assert Continues(m0, taken, |taken|, m, ans, []);
    assert taken + [] == taken && taken[|taken|..] + [] == [];
    ReplayUnfolds(m, [], |taken|, ans);
  }

  lemma ProcessBounds(m: Mirror, e: Event, next: Option<Event>, firstTry: bool, ans: Answers)
    ensures var (m', o) := Process(m, e, next, firstTry, ans);
      && (o.Took? ==> 1 <= o.n <= if next.Some? then 2 else 1)
      && (o.Hanging? ==> firstTry && next == None && IsDirMoveFrom(e) && m' == m)
  {
  }

  /** The last event was a move-from that nothing followed. */
  lemma OnTrackTimeout(m0: Mirror, taken: seq<Event>, m: Mirror, ans: nat -> Answers)
    requires |taken| > 0 && OnTrack(m0, taken, |taken| - 1, m, ans)
    ensures var pos := |taken| - 1;
      var (m', o) := Process(m, taken[pos], None, false, ans(pos));
      Replay(m0, taken, 0, ans)
      == Progress(m', |taken|, if o.Rebuilt? then AfterRebuild else if o.Exited? then AtExit else Drained)
  {
    var pos := |taken| - 1;
    var rest := taken[pos..];
    ProcessBounds(m, taken[pos], None, false, ans(pos));
    hide Process, Replay;
    var (m', o) := Process(m, taken[pos], None, false, ans(pos));
    assert Continues(m0, taken, pos, m, ans, []);
    assert taken + [] == taken && rest + [] == rest;
    ReplayUnfolds(m, rest, pos, ans);
    if o.Took? {
      ReplayUnfolds(m', rest[1..], pos + 1, ans);
    }
  }

  function Flatten(chunks: seq<seq<Event>>): seq<Event> {
    if |chunks| == 0 then [] else chunks[0] + Flatten(chunks[1..])
  }

  /** Consuming a stream cut into chunks, one chunk at a time. */
  function ReplayChunks(m: Mirror, chunks: seq<seq<Event>>, pos: nat, ans: nat -> Answers): Progress
    decreases |chunks|
  {
    if |chunks| == 0 then Progress(m, 0, Drained)
    else
      var r := Replay(m, chunks[0], pos, ans);
      if r.stop.Drained? then
        var q := ReplayChunks(r.m, chunks[1..], pos + |chunks[0]|, ans);
        Progress(q.m, r.used + q.used, q.stop)
      else r
  }

  /** However the stream is cut, every event is consumed once and in order, with the same result, as long as no chunk
      but the last ends in a directory move-from. */
  lemma {:induction false} CuttingDoesNotMatter(m: Mirror, chunks: seq<seq<Event>>, pos: nat, ans: nat -> Answers)
    requires forall i :: 0 <= i < |chunks| - 1 ==> !EndsHanging(chunks[i])
    ensures ReplayChunks(m, chunks, pos, ans) == Replay(m, Flatten(chunks), pos, ans)
    decreases |chunks|
  {
    hide Process, Replay;
    if |chunks| == 0 {
      ReplayUnfolds(m, [], pos, ans);
    } else if |chunks| == 1 {
      assert chunks[1..] == [] && Flatten(chunks) == chunks[0] + [] == chunks[0];
    } else {
      assert Flatten(chunks) == chunks[0] + Flatten(chunks[1..]);
      ReplayConcat(m, chunks[0], Flatten(chunks[1..]), pos, ans);
      var r := Replay(m, chunks[0], pos, ans);
      if r.stop.Drained? {
        CuttingDoesNotMatter(r.m, chunks[1..], pos + |chunks[0]|, ans);
      }
    }
  }
}
