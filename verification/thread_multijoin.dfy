/** thread_multijoin.c: threads report their end under a mutex and signal a condition variable; main() waits on it and
    joins, with the mutex held, every thread that reported. */
module ThreadMultijoin {
  import opened Basics
  import opened Tally

  /** thread[].state */
  datatype ThreadState = Alive | Terminated | Joined

  /** Where a thread is: not created, not yet reading its argument, before it locks, before numUnjoined++, before it
      sets its state, before it unlocks, before it signals, at its end. */
  datatype Worker = NotCreated | Created | Working | Entered | Incremented | Marked | Signalling | Ended

  /** Where main() is: in the creation loop (before pthread_create, before idx++), before numLive is set, at the
      test of numLive, before it locks, at the test of numUnjoined, in pthread_cond_wait (asleep, or woken and to
      lock again), at a step of the scan, between joining and counting down, before it unlocks, done. */
  datatype Main =
    | Creating | Advancing | SettingLive | Testing | Locking | Checking
    | Waiting | Woken | Scanning | Dropping | Unlocking | Exited

  datatype Owner = Free | MainThread | Thread(i: nat)

  /** pc, state and index belong to the threads; index is a thread's copy of the index it was given. idx is the variable
      of main()'s loops. joins counts pthread_join() calls, joinedNow says whether this scan made one, and spurious
      counts wake-ups without a signal. */
  datatype State = State(pc: seq<Worker>, state: seq<ThreadState>, index: seq<nat>, owner: Owner, main: Main, idx: nat,
                         numLive: int, numUnjoined: int, joins: nat, joinedNow: bool, spurious: nat)

  ghost predicate Init(s: State) {
    && |s.state| == |s.index| == |s.pc|
    && (forall i :: 0 <= i < |s.pc| ==> s.pc[i] == NotCreated)
    && (forall i :: 0 <= i < |s.state| ==> s.state[i] == Alive)
    && s == State(s.pc, s.state, s.index, Free, Creating, 0, 0, 0, 0, false, 0)
  }

  // ---------------------------------------------------------------- steps of a thread

  /** The thread reads the index it was given: its own, or, with the pointer to the shared variable, whatever idx
      now is. */
  ghost predicate Start(s: State, s': State, i: nat, shared: bool) {
    && i < |s.pc| && s.pc[i] == Created && i < |s.index|
    && s' == s.(pc := s.pc[i := Working], index := s.index[i := if shared then s.idx else i])
  }

  ghost predicate Enter(s: State, s': State, i: nat) {
    i < |s.pc| && s.pc[i] == Working && s.owner == Free && s' == s.(pc := s.pc[i := Entered], owner := Thread(i))
  }

  ghost predicate Increment(s: State, s': State, i: nat) {
    i < |s.pc| && s.pc[i] == Entered && s' == s.(pc := s.pc[i := Incremented], numUnjoined := s.numUnjoined + 1)
  }

  ghost predicate Mark(s: State, s': State, i: nat) {
    && i < |s.pc| && s.pc[i] == Incremented && i < |s.index| && s.index[i] < |s.state|
    && s' == s.(pc := s.pc[i := Marked], state := s.state[s.index[i] := Terminated])
  }

  ghost predicate Leave(s: State, s': State, i: nat) {
    i < |s.pc| && s.pc[i] == Marked && s' == s.(pc := s.pc[i := Signalling], owner := Free)
  }

  /** The signal wakes main() if it is asleep, and is lost if not. */
  ghost predicate Signal(s: State, s': State, i: nat) {
    && i < |s.pc| && s.pc[i] == Signalling
    && s' == s.(pc := s.pc[i := Ended], main := if s.main == Waiting then Woken else s.main)
  }

  ghost predicate WorkerStep(s: State, s': State, i: nat, shared: bool) {
    || Start(s, s', i, shared) || Enter(s, s', i) || Increment(s, s', i) || Mark(s, s', i) || Leave(s, s', i)
    || Signal(s, s', i)
  }

  // ---------------------------------------------------------------- steps of main()

  ghost predicate Create(s: State, s': State) {
    && s.main == Creating && s.idx < |s.pc| && s.idx < |s.state|
    && s' == s.(pc := s.pc[s.idx := Created], state := s.state[s.idx := Alive], main := Advancing)
  }

  ghost predicate Advance(s: State, s': State) {
    s.main == Advancing && s' == s.(idx := s.idx + 1, main := Creating)
  }

  ghost predicate AllCreated(s: State, s': State) {
    s.main == Creating && s.idx == |s.pc| && s' == s.(main := SettingLive)
  }

  ghost predicate SetLive(s: State, s': State) {
    s.main == SettingLive && s' == s.(numLive := |s.pc|, main := Testing)
  }

  ghost predicate Test(s: State, s': State) {
    s.main == Testing && s' == s.(main := if s.numLive > 0 then Locking else Exited)
  }

  /** From pthread_mutex_lock(), or from pthread_cond_wait() after a wake-up. */
  ghost predicate Lock(s: State, s': State) {
    (s.main == Locking || s.main == Woken) && s.owner == Free && s' == s.(owner := MainThread, main := Checking)
  }

  ghost predicate Check(s: State, s': State) {
    && s.main == Checking
    && s' == if s.numUnjoined == 0 then s.(owner := Free, main := Waiting) else s.(idx := 0, main := Scanning)
  }

  ghost predicate WakeUnsignalled(s: State, s': State) {
    s.main == Waiting && s' == s.(main := Woken, spurious := s.spurious + 1)
  }

  ghost predicate Skip(s: State, s': State) {
    s.main == Scanning && s.idx < |s.state| && s.state[s.idx] != Terminated && s' == s.(idx := s.idx + 1)
  }

  /** pthread_join() returns once the thread has ended. */
  ghost predicate Join(s: State, s': State) {
    && s.main == Scanning && s.idx < |s.state| && s.state[s.idx] == Terminated
    && s.idx < |s.pc| && s.pc[s.idx] == Ended
    && s' == s.(state := s.state[s.idx := Joined], main := Dropping, joins := s.joins + 1, joinedNow := true)
  }

  ghost predicate Drop(s: State, s': State) {
    && s.main == Dropping
    && s' == s.(numLive := s.numLive - 1, numUnjoined := s.numUnjoined - 1, idx := s.idx + 1, main := Scanning)
  }

  ghost predicate ScanDone(s: State, s': State) {
    s.main == Scanning && s.idx == |s.pc| && s' == s.(main := Unlocking)
  }

  ghost predicate Unlock(s: State, s': State) {
    s.main == Unlocking && s' == s.(owner := Free, main := Testing, joinedNow := false)
  }

  ghost predicate CreationStep(s: State, s': State) {
    Create(s, s') || Advance(s, s') || AllCreated(s, s') || SetLive(s, s')
  }

  ghost predicate WaitStep(s: State, s': State) {
    Test(s, s') || Lock(s, s') || Check(s, s')
  }

  ghost predicate ScanStep(s: State, s': State) {
    Skip(s, s') || Join(s, s') || Drop(s, s') || ScanDone(s, s') || Unlock(s, s')
  }

  ghost predicate MainStep(s: State, s': State) {
    CreationStep(s, s') || WaitStep(s, s') || ScanStep(s, s')
  }

  ghost predicate Step(s: State, s': State, shared: bool) {
    MainStep(s, s') || WakeUnsignalled(s, s') || exists i: nat :: WorkerStep(s, s', i, shared)
  }

  // ---------------------------------------------------------------- each thread with its own index

  predicate InCreation(m: Main) {
    m == Creating || m == Advancing || m == SettingLive
  }

  predicate Holding(m: Main) {
    m == Checking || m == Scanning || m == Dropping || m == Unlocking
  }

  predicate InScan(m: Main) {
    m == Scanning || m == Dropping || m == Unlocking
  }

  predicate Inside(w: Worker) {
    w == Entered || w == Incremented || w == Marked
  }

  predicate Reported(w: Worker) {
    w == Marked || w == Signalling || w == Ended
  }

  ghost predicate Sized(s: State) {
    && |s.state| == |s.index| == |s.pc| && s.idx <= |s.pc|
    && (s.main == Advancing || s.main == Dropping ==> s.idx < |s.pc|)
  }

  ghost predicate Exclusive(s: State) {
    && (s.owner == MainThread <==> Holding(s.main))
    && (s.owner.Thread? ==> s.owner.i < |s.pc|)
    && forall i :: 0 <= i < |s.pc| ==> (s.owner == Thread(i) <==> Inside(s.pc[i]))
  }

  ghost predicate ThreadOk(s: State, i: nat)
    requires Sized(s) && i < |s.pc|
  {
    && (s.state[i] == Alive <==> !Reported(s.pc[i]))
    && (s.state[i] == Joined ==> s.pc[i] == Ended)
    && (s.pc[i] != NotCreated && s.pc[i] != Created ==> s.index[i] == i)
    && (s.pc[i] == NotCreated <==>
        (s.main == Creating && s.idx <= i) || (s.main == Advancing && s.idx < i))
    && (s.main == Waiting && s.state[i] == Terminated ==> s.pc[i] != Ended)
  }

  ghost predicate ThreadsOk(s: State)
    requires Sized(s)
  {
    forall i :: 0 <= i < |s.pc| ==> ThreadOk(s, i)
  }

  ghost predicate Incrementing(s: State) {
    s.owner.Thread? && s.owner.i < |s.pc| && s.pc[s.owner.i] == Incremented
  }

  /** The counters, and how far they may be off while the mutex is held. */
  ghost predicate UnjoinedRight(s: State) {
    s.numUnjoined == Count(s.state, Terminated) + One(Incrementing(s)) + One(s.main == Dropping)
  }

  ghost predicate LiveRight(s: State) {
    && s.joins == Count(s.state, Joined)
    && (InCreation(s.main) ==> s.joins == 0)
    && (!InCreation(s.main) ==> s.numLive == |s.pc| - Count(s.state, Joined) + One(s.main == Dropping))
    && (s.main == Locking || s.main == Checking || s.main == Waiting || s.main == Woken ==> s.numLive > 0)
    && (s.main == Exited ==> s.numLive <= 0)
  }

  ghost predicate Counted(s: State) {
    UnjoinedRight(s) && LiveRight(s)
  }

  ghost predicate SomeTerminated(s: State) {
    exists j :: s.idx <= j < |s.state| && s.state[j] == Terminated
  }

  /** A scan joins some thread. */
  ghost predicate ScanOk(s: State) {
    && (!InScan(s.main) ==> !s.joinedNow)
    && (s.main == Dropping || s.main == Unlocking ==> s.joinedNow)
    && (s.main == Scanning ==> s.joinedNow || SomeTerminated(s))
  }

  ghost predicate Inv(s: State) {
    Sized(s) && Exclusive(s) && ThreadsOk(s) && Counted(s) && ScanOk(s)
  }

  lemma InvAt(s: State, i: nat)
    requires Inv(s) && i < |s.pc|
    ensures ThreadOk(s, i) && (s.owner == Thread(i) <==> Inside(s.pc[i]))
    ensures s.pc[i] == Incremented ==> s.index[i] == i
  {
    assert ThreadOk(s, i);
  }

  lemma WorkerKeepsLock(s: State, s': State, i: nat)
    requires Inv(s) && WorkerStep(s, s', i, false)
    ensures Sized(s') && Exclusive(s')
  {
    WorkerShape(s, s', i);
    InvAt(s, i);
    hide Counted, ScanOk, ThreadsOk, ThreadOk, WorkerStep;
  }

  /** A thread takes the mutex when it is free, and has it until it leaves. */
  lemma WorkerShape(s: State, s': State, i: nat)
    requires WorkerStep(s, s', i, false)
    ensures i < |s.pc| && i < |s'.pc| && s'.pc == s.pc[i := s'.pc[i]] && s'.idx == s.idx
    ensures |s'.state| == |s.state| && |s'.index| == |s.index|
    ensures s'.main == s.main || (s.main == Waiting && s'.main == Woken)
    ensures s'.owner == (if s.pc[i] == Working then Thread(i) else if s.pc[i] == Marked then Free else s.owner)
    ensures s.pc[i] == Working ==> s.owner == Free
    ensures s.pc[i] != Working && s.pc[i] != Marked ==> (Inside(s'.pc[i]) <==> Inside(s.pc[i]))
    ensures s.pc[i] == Working ==> Inside(s'.pc[i])
    ensures s.pc[i] == Marked ==> !Inside(s'.pc[i])
    ensures Left(s'.pc[i]) < Left(s.pc[i])
    ensures s'.main != s.main ==> Left(s'.pc[i]) + 2 < Left(s.pc[i])
  {
  }

  lemma WorkerKeepsItself(s: State, s': State, i: nat)
    requires Sized(s) && WorkerStep(s, s', i, false) && Sized(s') && i < |s.pc| && ThreadOk(s, i)
    requires s.pc[i] == Incremented ==> s.index[i] == i
    ensures i < |s'.pc| && ThreadOk(s', i)
  {
  }

  lemma WorkerKeepsOther(s: State, s': State, i: nat, j: nat)
    requires Sized(s) && WorkerStep(s, s', i, false) && Sized(s')
    requires i < |s.pc| && ThreadOk(s, i) && j < |s.pc| && ThreadOk(s, j) && i != j
    ensures ThreadOk(s', j)
  {
    assert s'.state[j] == s.state[j] && s'.pc[j] == s.pc[j] && s'.index[j] == s.index[j] && s'.idx == s.idx;
    assert s'.main == s.main || (s.main == Waiting && s'.main == Woken);
    hide WorkerStep;
  }

  lemma WorkerKeepsThreads(s: State, s': State, i: nat)
    requires Inv(s) && WorkerStep(s, s', i, false) && Sized(s')
    ensures ThreadsOk(s')
  {
    WorkerShape(s, s', i);
    InvAt(s, i);
    hide Counted, ScanOk, Exclusive, ThreadOk, Sized, WorkerStep;
    WorkerKeepsItself(s, s', i);
    forall j | 0 <= j < |s'.pc| ensures ThreadOk(s', j) {
      assert ThreadOk(s, j);
      if j != i {
        WorkerKeepsOther(s, s', i, j);
      }
    }
  }

  lemma WorkerIncrementing(s: State, s': State, i: nat)
    requires Inv(s) && WorkerStep(s, s', i, false)
    ensures i < |s.pc| && i < |s'.pc|
    ensures One(Incrementing(s')) == One(Incrementing(s)) + One(s.pc[i] == Entered) - One(s.pc[i] == Incremented)
  {
    WorkerShape(s, s', i);
    InvAt(s, i);
    hide Counted, ScanOk, ThreadsOk, ThreadOk, Exclusive, WorkerStep;
  }

  lemma WorkerCounters(s: State, s': State, i: nat)
    requires Inv(s) && WorkerStep(s, s', i, false)
    ensures i < |s.pc| && s'.numUnjoined == s.numUnjoined + One(s.pc[i] == Entered)
    ensures Count(s'.state, Terminated) == Count(s.state, Terminated) + One(s.pc[i] == Incremented)
    ensures Count(s'.state, Joined) == Count(s.state, Joined)
    ensures s'.joins == s.joins && s'.numLive == s.numLive && s'.joinedNow == s.joinedNow && s'.idx == s.idx
    ensures s'.state == s.state || s'.state == s.state[i := Terminated]
  {
    assert i < |s.pc|;
    InvAt(s, i);
    hide Count, Counted, ScanOk, Exclusive, ThreadsOk;
    if Mark(s, s', i) {
      CountMove(s.state, i, Terminated);
    }
  }

  lemma WorkerKeepsCounts(s: State, s': State, i: nat)
    requires Inv(s) && WorkerStep(s, s', i, false)
    ensures Counted(s') && ScanOk(s')
  {
    WorkerShape(s, s', i);
    WorkerIncrementing(s, s', i);
    WorkerCounters(s, s', i);
    hide Count, Exclusive, ThreadsOk, WorkerStep, Incrementing;
  }

  lemma CreateKeepsState(s: State)
    requires Inv(s) && s.main == Creating && s.idx < |s.pc|
    ensures s.state[s.idx := Alive] == s.state
  {
    assert ThreadOk(s, s.idx);
  }

  lemma CreationKeepsLock(s: State, s': State)
    requires Inv(s) && CreationStep(s, s')
    ensures Sized(s') && Exclusive(s') && s'.state == s.state
  {
    hide Counted, ScanOk, ThreadsOk;
    if Create(s, s') {
      CreateKeepsState(s);
      CreateKeepsPlace(s);
    }
  }

  lemma CreateKeepsPlace(s: State)
    requires Inv(s) && s.main == Creating && s.idx < |s.pc|
    ensures s.pc[s.idx] == NotCreated
  {
    assert ThreadOk(s, s.idx);
  }

  lemma CreationKeepsCounts(s: State, s': State)
    requires Inv(s) && CreationStep(s, s') && Sized(s') && Exclusive(s') && s'.state == s.state
    ensures Counted(s') && ScanOk(s')
  {
    hide Count, ThreadsOk;
  }

  lemma CreationKeeps(s: State, s': State)
    requires Inv(s) && CreationStep(s, s')
    ensures Inv(s')
  {
    CreationKeepsLock(s, s');
    CreationKeepsCounts(s, s');
    hide Count, Counted, Exclusive, ScanOk;
    forall j | 0 <= j < |s'.pc| ensures ThreadOk(s', j) {
      assert ThreadOk(s, j);
    }
  }

  lemma WaitKeepsLock(s: State, s': State)
    requires Inv(s) && (WaitStep(s, s') || WakeUnsignalled(s, s'))
    ensures Sized(s') && Exclusive(s') && Incrementing(s') == Incrementing(s)
  {
    hide Counted, ThreadsOk, ScanOk;
  }

  lemma UnjoinedSeen(s: State)
    requires Inv(s) && s.main == Checking
    ensures s.numUnjoined != 0 <==> SomeTerminated(s.(idx := 0))
  {
    assert !Incrementing(s);
    hide Count, ThreadsOk, Exclusive, Incrementing;
    CountPositive(s.state, Terminated);
  }

  lemma WaitKeepsScan(s: State, s': State)
    requires Inv(s) && (WaitStep(s, s') || WakeUnsignalled(s, s'))
    ensures ScanOk(s')
  {
    hide Count, Exclusive, ThreadsOk, Counted, SomeTerminated;
    if s.main == Checking {
      UnjoinedSeen(s);
      assert s'.main == Scanning ==> SomeTerminated(s') by {
        assert SomeTerminated(s.(idx := 0)) == SomeTerminated(s.(idx := 0, main := Scanning)) by {
          SameScan(s.(idx := 0), s.(idx := 0, main := Scanning));
        }
      }
    }
  }

  lemma SameScan(s: State, s': State)
    requires s'.idx == s.idx && s'.state == s.state
    ensures SomeTerminated(s') == SomeTerminated(s)
  {
  }

  lemma WaitKeepsCounts(s: State, s': State)
    requires Inv(s) && (WaitStep(s, s') || WakeUnsignalled(s, s'))
    ensures Counted(s')
  {
    WaitKeepsLock(s, s');
    hide Count, ThreadsOk, Exclusive, Incrementing, ScanOk;
  }

  lemma WaitKeeps(s: State, s': State)
    requires Inv(s) && (WaitStep(s, s') || WakeUnsignalled(s, s'))
    ensures Inv(s')
  {
    WaitKeepsLock(s, s');
    WaitKeepsCounts(s, s');
    WaitKeepsScan(s, s');
    if s.main == Checking {
      UnjoinedSeen(s);
    }
    hide Counted, ScanOk, Exclusive;
    forall j | 0 <= j < |s'.pc| ensures ThreadOk(s', j) {
      assert ThreadOk(s, j);
    }
  }

  lemma ScanKeepsLock(s: State, s': State)
    requires Inv(s) && ScanStep(s, s')
    ensures Sized(s') && Exclusive(s')
  {
    hide Counted, ThreadsOk, ScanOk;
  }

  lemma ScanHasLock(s: State, s': State)
    requires Inv(s) && ScanStep(s, s')
    ensures !Incrementing(s) && !Incrementing(s')
  {
    hide Counted, ThreadsOk, ScanOk;
  }

  lemma ScanKeepsCounts(s: State, s': State)
    requires Inv(s) && ScanStep(s, s')
    ensures Counted(s')
  {
    hide Count, ThreadsOk, ScanOk, Exclusive, Incrementing;
    ScanHasLock(s, s');
    if Join(s, s') {
      CountMove(s.state, s.idx, Joined);
    }
  }

  lemma ScanKeepsScan(s: State, s': State)
    requires Inv(s) && ScanStep(s, s')
    ensures ScanOk(s')
  {
    hide Count, ThreadsOk, Exclusive, Counted;
  }

  lemma ScanKeeps(s: State, s': State)
    requires Inv(s) && ScanStep(s, s')
    ensures Inv(s')
  {
    ScanKeepsLock(s, s');
    ScanKeepsCounts(s, s');
    ScanKeepsScan(s, s');
    hide Count, ScanOk, Counted, Exclusive;
    forall j | 0 <= j < |s'.pc| ensures ThreadOk(s', j) {
      assert ThreadOk(s, j);
    }
  }

  lemma StepKeeps(s: State, s': State)
    requires Inv(s) && Step(s, s', false)
    ensures Inv(s')
  {
    hide Inv, CreationStep, WaitStep, ScanStep, WorkerStep, WakeUnsignalled;
    if CreationStep(s, s') {
      CreationKeeps(s, s');
    } else if WaitStep(s, s') || WakeUnsignalled(s, s') {
      WaitKeeps(s, s');
    } else if ScanStep(s, s') {
      ScanKeeps(s, s');
    } else {
      var i: nat :| WorkerStep(s, s', i, false);
      WorkerKeeps(s, s', i);
    }
  }

  lemma WorkerKeeps(s: State, s': State, i: nat)
    requires Inv(s) && WorkerStep(s, s', i, false)
    ensures Inv(s')
  {
    hide Sized, Exclusive, ThreadsOk, Counted, ScanOk, WorkerStep;
    WorkerKeepsLock(s, s', i);
    WorkerKeepsThreads(s, s', i);
    WorkerKeepsCounts(s, s', i);
  }

  lemma InitInv(s: State)
    requires Init(s)
    ensures Inv(s)
  {
    CountPositive(s.state, Terminated);
    CountPositive(s.state, Joined);
    forall j | 0 <= j < |s.pc| ensures ThreadOk(s, j) {
    }
  }

  // ---------------------------------------------------------------- main() never gets stuck

  /** Short of its exit the program can always step without a spurious wake-up. So no signal is lost, and joining with
      the mutex held does not deadlock. */
  ghost predicate CanStep(s: State, shared: bool) {
    (exists s' :: MainStep(s, s')) || exists s', i: nat :: WorkerStep(s, s', i, shared)
  }

  lemma WorkerCan(s: State, s': State, i: nat, shared: bool)
    requires WorkerStep(s, s', i, shared)
    ensures CanStep(s, shared)
  {
  }

  lemma MainCan(s: State, s': State, shared: bool)
    requires MainStep(s, s')
    ensures CanStep(s, shared)
  {
  }

  /** A thread that is created and not at its end can go on, unless it is to lock and the mutex is held. */
  lemma ThreadCan(s: State, i: nat)
    requires Inv(s) && i < |s.pc| && s.pc[i] != NotCreated && s.pc[i] != Ended
        && (s.pc[i] == Working ==> s.owner == Free)
    ensures CanStep(s, false)
  {
    hide CanStep, Counted, ScanOk;
    assert ThreadOk(s, i);
    match s.pc[i]
    case Created => WorkerCan(s, s.(pc := s.pc[i := Working], index := s.index[i := i]), i, false);
    case Working => WorkerCan(s, s.(pc := s.pc[i := Entered], owner := Thread(i)), i, false);
    case Entered => WorkerCan(s, s.(pc := s.pc[i := Incremented], numUnjoined := s.numUnjoined + 1), i, false);
    case Incremented => WorkerCan(s, s.(pc := s.pc[i := Marked], state := s.state[s.index[i] := Terminated]), i, false);
    case Marked => WorkerCan(s, s.(pc := s.pc[i := Signalling], owner := Free), i, false);
    case Signalling =>
      WorkerCan(s, s.(pc := s.pc[i := Ended], main := if s.main == Waiting then Woken else s.main), i, false);
  }

  lemma LockerCan(s: State)
    requires Inv(s) && (s.main == Locking || s.main == Woken)
    ensures CanStep(s, false)
  {
    hide CanStep, Counted, ScanOk;
    if s.owner == Free {
      MainCan(s, s.(owner := MainThread, main := Checking), false);
    } else {
      ThreadCan(s, s.owner.i);
    }
  }

  /** While main() sleeps, some thread is on its way to signal. */
  lemma SleeperCan(s: State)
    requires Inv(s) && s.main == Waiting
    ensures CanStep(s, false)
  {
    hide CanStep, ScanOk, Count;
    if s.owner.Thread? {
      ThreadCan(s, s.owner.i);
    } else if i: nat :| i < |s.pc| && s.pc[i] != Ended {
      assert ThreadOk(s, i);
      ThreadCan(s, i);
    } else {
      forall i | 0 <= i < |s.state| ensures s.state[i] == Joined {
        assert ThreadOk(s, i);
      }
      CountAll(s.state, Joined);
    }
  }

  lemma ScannerCan(s: State)
    requires Inv(s) && s.main == Scanning
    ensures CanStep(s, false)
  {
    hide CanStep, Counted, ScanOk;
    if s.idx == |s.pc| {
      MainCan(s, s.(main := Unlocking), false);
    } else if s.state[s.idx] != Terminated {
      MainCan(s, s.(idx := s.idx + 1), false);
    } else {
      assert ThreadOk(s, s.idx);
      if s.pc[s.idx] == Ended {
        MainCan(s, s.(state := s.state[s.idx := Joined], main := Dropping, joins := s.joins + 1, joinedNow := true),
            false);
      } else {
        ThreadCan(s, s.idx);
      }
    }
  }

  lemma NeverStuck(s: State)
    requires Inv(s) && s.main != Exited
    ensures CanStep(s, false)
  {
    hide CanStep, Counted, ScanOk, ThreadsOk;
    match s.main
    case Creating =>
      if s.idx < |s.pc| {
        MainCan(s, s.(pc := s.pc[s.idx := Created], state := s.state[s.idx := Alive], main := Advancing), false);
      } else {
        MainCan(s, s.(main := SettingLive), false);
      }
    case Advancing => MainCan(s, s.(idx := s.idx + 1, main := Creating), false);
    case SettingLive => MainCan(s, s.(numLive := |s.pc|, main := Testing), false);
    case Testing => MainCan(s, s.(main := if s.numLive > 0 then Locking else Exited), false);
    case Locking => LockerCan(s);
    case Woken => LockerCan(s);
    case Waiting => SleeperCan(s);
    case Checking =>
      MainCan(s, if s.numUnjoined == 0 then s.(owner := Free, main := Waiting) else s.(idx := 0, main := Scanning),
          false);
    case Scanning => ScannerCan(s);
    case Dropping =>
      MainCan(s, s.(numLive := s.numLive - 1, numUnjoined := s.numUnjoined - 1, idx := s.idx + 1, main := Scanning),
          false);
    case Unlocking => MainCan(s, s.(owner := Free, main := Testing, joinedNow := false), false);
  }

  // ---------------------------------------------------------------- main() gets to its exit

  function Left(w: Worker): nat {
    match w
    case NotCreated => 9
    case Created => 8
    case Working => 7
    case Entered => 6
    case Incremented => 5
    case Marked => 4
    case Signalling => 3
    case Ended => 0
  }

  function TotalLeft(pc: seq<Worker>): nat {
    if pc == [] then 0 else TotalLeft(pc[..|pc| - 1]) + Left(pc[|pc| - 1])
  }

  lemma {:induction false} TotalLeftUpdate(pc: seq<Worker>, i: nat, w: Worker)
    requires i < |pc|
    ensures TotalLeft(pc[i := w]) == TotalLeft(pc) - Left(pc[i]) + Left(w)
    decreases |pc|
  {
    var n := |pc| - 1;
    if i == n {
      assert pc[i := w][..n] == pc[..n];
    } else {
      assert pc[i := w][..n] == pc[..n][i := w];
      TotalLeftUpdate(pc[..n], i, w);
    }
  }

  /** How far main() is from the end of one round of its loop, which has 2 * n + 6 steps at most. */
  function Ahead(m: Main, n: nat, idx: nat): int {
    match m
    case Creating => 2 * n + 8 + 2 * (n - idx)
    case Advancing => 2 * n + 7 + 2 * (n - idx)
    case SettingLive => 2 * n + 7
    case Testing => 2 * n + 6
    case Locking => 2 * n + 5
    case Woken => 2 * n + 5
    case Checking => 2 * n + 4
    case Waiting => 2 * n + 3
    case Scanning => 2 + 2 * (n - idx)
    case Dropping => 1 + 2 * (n - idx)
    case Unlocking => 1
    case Exited => 0
  }

  /** Rounds that main() can still make: each joins a thread at least. */
  function Rounds(s: State): int {
    |s.pc| - Count(s.state, Joined) + One(s.joinedNow)
  }

  function Work(s: State): int {
    (2 * |s.pc| + 6) * Rounds(s) + TotalLeft(s.pc) + Ahead(s.main, |s.pc|, s.idx)
  }

  /** What is left before the end of this round. */
  function RoundLeft(s: State): int {
    TotalLeft(s.pc) + Ahead(s.main, |s.pc|, s.idx)
  }

  lemma WorkLess(s: State, s': State)
    requires |s'.pc| == |s.pc|
    requires
      || (Rounds(s') <= Rounds(s) && RoundLeft(s') < RoundLeft(s))
      || (Rounds(s') == Rounds(s) - 1 && RoundLeft(s') < RoundLeft(s) + 2 * |s.pc| + 6)
    ensures Work(s') < Work(s)
  {
    hide Rounds, TotalLeft, Ahead;
    RoundPays(2 * |s.pc| + 6, Rounds(s'), Rounds(s));
  }

  lemma RoundPays(k: nat, r': int, r: int)
    ensures r' <= r ==> k * r' <= k * r
    ensures r' == r - 1 ==> k * r' == k * r - k
  {
  }

  lemma WorkerRounds(s: State, s': State, i: nat)
    requires Inv(s) && WorkerStep(s, s', i, false)
    ensures Rounds(s') == Rounds(s)
  {
    WorkerShape(s, s', i);
    WorkerCounters(s, s', i);
    hide Count, Inv, WorkerStep;
  }

  lemma WorkerLeft(s: State, s': State, i: nat)
    requires WorkerStep(s, s', i, false)
    ensures RoundLeft(s') < RoundLeft(s) && |s'.pc| == |s.pc|
  {
    WorkerShape(s, s', i);
    hide TotalLeft, Left, WorkerStep;
    TotalLeftUpdate(s.pc, i, s'.pc[i]);
  }

  lemma WorkerWorks(s: State, s': State, i: nat)
    requires Inv(s) && WorkerStep(s, s', i, false)
    ensures Work(s') < Work(s)
  {
    hide Inv, WorkerStep, Work, Rounds, RoundLeft;
    WorkerRounds(s, s', i);
    WorkerLeft(s, s', i);
    WorkLess(s, s');
  }

  lemma CreationWorks(s: State, s': State)
    requires Inv(s) && CreationStep(s, s')
    ensures Work(s') < Work(s)
  {
    hide Count, ScanOk, Exclusive, Counted, Work;
    if Create(s, s') {
      assert ThreadOk(s, s.idx);
      assert s'.state == s.state;
      TotalLeftUpdate(s.pc, s.idx, Created);
    }
    hide TotalLeft;
    WorkLess(s, s');
  }

  lemma WaitWorks(s: State, s': State)
    requires Inv(s) && WaitStep(s, s')
    ensures Work(s') < Work(s)
  {
    hide Count, Counted, Exclusive, ThreadsOk, TotalLeft, Work, ScanOk;
    WorkLess(s, s');
  }

  lemma ScanWorks(s: State, s': State)
    requires Inv(s) && ScanStep(s, s')
    ensures Work(s') < Work(s)
  {
    hide Count, Counted, Exclusive, ThreadsOk, TotalLeft, Work;
    if Join(s, s') {
      CountMove(s.state, s.idx, Joined);
    }
    WorkLess(s, s');
  }

  lemma SpuriousWorks(s: State, s': State)
    requires WakeUnsignalled(s, s')
    ensures Work(s') < Work(s) + 3 && s'.spurious == s.spurious + 1
  {
    hide TotalLeft, Count;
    assert Rounds(s') == Rounds(s);
    hide Rounds;
  }

  lemma StepSpurious(s: State, s': State)
    requires (exists i: nat :: WorkerStep(s, s', i, false)) || MainStep(s, s')
    ensures s'.spurious == s.spurious
  {
    if i: nat :| WorkerStep(s, s', i, false) {
    } else {
      assert MainStep(s, s');
    }
  }

  lemma StepWorks(s: State, s': State)
    requires Inv(s) && Step(s, s', false)
    ensures Work(s') < Work(s) + 3 * (s'.spurious - s.spurious) && s'.spurious >= s.spurious
  {
    hide Inv, Work, CreationStep, WaitStep, ScanStep, WorkerStep, WakeUnsignalled;
    if WakeUnsignalled(s, s') {
      SpuriousWorks(s, s');
    } else {
      StepSpurious(s, s');
      if CreationStep(s, s') {
        CreationWorks(s, s');
      } else if WaitStep(s, s') {
        WaitWorks(s, s');
      } else if ScanStep(s, s') {
        ScanWorks(s, s');
      } else {
        var i: nat :| WorkerStep(s, s', i, false);
        WorkerWorks(s, s', i);
      }
    }
  }

  // ---------------------------------------------------------------- whole runs

  ghost predicate Run(ss: seq<State>, shared: bool) {
    ss != [] && forall i :: 0 <= i < |ss| - 1 ==> Step(ss[i], ss[i + 1], shared)
  }

  lemma RunWithout(ss: seq<State>, shared: bool)
    requires Run(ss, shared) && |ss| > 1
    ensures Run(ss[..|ss| - 1], shared) && Step(ss[|ss| - 2], ss[|ss| - 1], shared)
  {
    hide Step;
    var init := ss[..|ss| - 1];
    forall i | 0 <= i < |init| - 1 ensures Step(init[i], init[i + 1], shared) {
      assert Step(ss[i], ss[i + 1], shared);
    }
  }

  lemma {:induction false} RunKeeps(ss: seq<State>)
    requires Run(ss, false) && Init(ss[0])
    ensures Inv(ss[|ss| - 1]) && |ss[|ss| - 1].pc| == |ss[0].pc|
    ensures |ss| - 1 + Work(ss[|ss| - 1]) <= Work(ss[0]) + 3 * ss[|ss| - 1].spurious
    decreases |ss|
  {
    if |ss| == 1 {
      hide Inv, Step, Work;
      InitInv(ss[0]);
    } else {
      hide Inv, Step, Work, Init, Run;
      RunWithout(ss, false);
      RunKeeps(ss[..|ss| - 1]);
      StepKeeps(ss[|ss| - 2], ss[|ss| - 1]);
      StepWorks(ss[|ss| - 2], ss[|ss| - 1]);
      SameThreads(ss[|ss| - 2], ss[|ss| - 1], false);
    }
  }

  lemma SameThreads(s: State, s': State, shared: bool)
    requires Step(s, s', shared)
    ensures |s'.pc| == |s.pc|
  {
  }

  function Bound(n: nat): nat {
    (2 * n + 6) * n + 13 * n + 8
  }

  lemma WorkAtFirst(s: State)
    requires Init(s)
    ensures Work(s) == Bound(|s.pc|)
  {
    NoneLeftOut(s.pc);
    CountPositive(s.state, Joined);
    hide Count, TotalLeft;
    assert Rounds(s) == |s.pc|;
  }

  lemma {:induction false} NoneLeftOut(pc: seq<Worker>)
    requires forall i :: 0 <= i < |pc| ==> pc[i] == NotCreated
    ensures TotalLeft(pc) == 9 * |pc|
    decreases |pc|
  {
    if pc != [] {
      NoneLeftOut(pc[..|pc| - 1]);
    }
  }

  lemma WorkIsNatural(s: State)
    requires Inv(s)
    ensures Work(s) >= 0
  {
    hide Exclusive, ThreadsOk, Counted, ScanOk, Count, TotalLeft;
    assert Rounds(s) >= 0;
    hide Rounds;
    assert Ahead(s.main, |s.pc|, s.idx) >= 0;
    hide Ahead;
    assert (2 * |s.pc| + 6) * Rounds(s) >= 0;
  }

  ghost predicate AllJoined(s: State) {
    forall i :: 0 <= i < |s.state| ==> s.state[i] == Joined
  }

  lemma ExitMeansJoined(s: State)
    requires Inv(s) && s.main == Exited
    ensures AllJoined(s) && s.joins == |s.pc|
  {
    hide Count, ThreadsOk;
    CountAll(s.state, Joined);
  }

  /** However threads and main() interleave, main() gets to its exit within so many steps, and at the exit each thread
      has been joined, with one pthread_join() for each. */
  lemma EveryRunEnds(ss: seq<State>)
    requires Run(ss, false) && Init(ss[0])
    ensures var n, s := |ss[0].pc|, ss[|ss| - 1];
      && |ss| - 1 <= Bound(n) + 3 * s.spurious
      && (s.main != Exited ==> CanStep(s, false))
      && (s.main == Exited ==> AllJoined(s) && s.joins == n)
  {
    var s := ss[|ss| - 1];
    hide Run, Init, CanStep, Work, Inv, AllJoined, Bound, Step;
    RunKeeps(ss);
    WorkAtFirst(ss[0]);
    WorkIsNatural(s);
    if s.main == Exited {
      ExitMeansJoined(s);
    } else {
      NeverStuck(s);
    }
  }

  /** Whenever the mutex is free, numUnjoined is the number of threads that wait to be joined, and numLive, once it is
      set, the number not joined yet. */
  lemma CountersRight(ss: seq<State>)
    requires Run(ss, false) && Init(ss[0]) && ss[|ss| - 1].owner == Free
    ensures var s := ss[|ss| - 1];
      && s.numUnjoined == Count(s.state, Terminated)
      && (!InCreation(s.main) ==> s.numLive == |s.state| - Count(s.state, Joined))
  {
    RunKeeps(ss);
    hide Run, Count, Work, Init, ThreadsOk;
  }

  // ---------------------------------------------------------------- the pointer to the shared variable

  /** Each thread that has read its index read its own. */
  ghost predicate OwnIndexes(s: State) {
    forall i :: 0 <= i < |s.pc| && i < |s.index| && s.pc[i] != NotCreated && s.pc[i] != Created ==> s.index[i] == i
  }

  /** What holds for copies of the index holds for the program itself in the runs where each thread reads idx before
      main() moves it on. */
  lemma OwnIndexRun(ss: seq<State>)
    requires Run(ss, true) && forall i :: 0 <= i < |ss| ==> OwnIndexes(ss[i])
    ensures Run(ss, false)
  {
    forall i | 0 <= i < |ss| - 1 ensures Step(ss[i], ss[i + 1], false) {
      assert Step(ss[i], ss[i + 1], true) && OwnIndexes(ss[i + 1]);
      OwnIndexStep(ss[i], ss[i + 1]);
    }
  }

  lemma OwnIndexStep(s: State, s': State)
    requires Step(s, s', true) && OwnIndexes(s')
    ensures Step(s, s', false)
  {
    hide MainStep, WakeUnsignalled;
    if i: nat :| WorkerStep(s, s', i, true) {
      assert s'.pc[i] != Created;
      assert WorkerStep(s, s', i, false);
    }
  }

  lemma Extend(ss: seq<State>, s': State, shared: bool)
    requires Run(ss, shared) && Step(ss[|ss| - 1], s', shared)
    ensures Run(ss + [s'], shared) && (ss + [s'])[|ss + [s']| - 1] == s' && (ss + [s'])[0] == ss[0]
  {
    hide Step;
  }

  lemma {:induction false} CreateFirst(s: State, k: nat) returns (ss: seq<State>)
    requires Init(s) && k <= |s.pc|
    ensures Run(ss, true) && ss[0] == s
    ensures var e := ss[|ss| - 1];
      && e == s.(pc := e.pc, idx := k) && |e.pc| == |s.pc|
      && (forall i :: 0 <= i < k ==> e.pc[i] == Created)
    decreases k
  {
    if k == 0 {
      ss := [s];
    } else {
      ss := CreateFirst(s, k - 1);
      hide Run;
      var e := ss[|ss| - 1];
      assert e.state[k - 1 := Alive] == e.state;
      var c := e.(pc := e.pc[k - 1 := Created], main := Advancing);
      assert Create(e, c);
      Extend(ss, c, true);
      ss := ss + [c];
      var a := c.(idx := k, main := Creating);
      assert Advance(c, a);
      Extend(ss, a, true);
      ss := ss + [a];
    }
  }

  /** Only with no thread at all is every run such a run: else the last thread may read idx after the creation loop, and
      use an index past the end of thread[]. */
  lemma OwnIndexesIffNoThreads(s: State)
    requires Init(s)
    ensures (forall ss :: Run(ss, true) && ss[0] == s ==> OwnIndexes(ss[|ss| - 1])) <==> |s.pc| == 0
  {
    if |s.pc| == 0 {
      forall ss | Run(ss, true) && ss[0] == s ensures OwnIndexes(ss[|ss| - 1]) {
        hide Step;
        NoThreads(ss);
      }
    } else {
      var n := |s.pc|;
      var ss := CreateFirst(s, n);
      hide Run;
      var e := ss[|ss| - 1];
      var b := e.(pc := e.pc[n - 1 := Working], index := e.index[n - 1 := n]);
      assert Start(e, b, n - 1, true);
      assert WorkerStep(e, b, n - 1, true);
      Extend(ss, b, true);
      assert b.pc[n - 1] == Working;
      assert !OwnIndexes(b);
    }
  }

  lemma {:induction false} NoThreads(ss: seq<State>)
    requires Run(ss, true) && ss[0].pc == []
    ensures ss[|ss| - 1].pc == []
    decreases |ss|
  {
    if |ss| > 1 {
      hide Step, Run;
      RunWithout(ss, true);
      NoThreads(ss[..|ss| - 1]);
      SameThreads(ss[|ss| - 2], ss[|ss| - 1], true);
    }
  }

  /** Both threads of two read the same index, and have ended: main() waits for thread 0 for ever, with numUnjoined
      never zero, so it does not even sleep. */
  ghost predicate Hung(s: State) {
    && s.pc == [Ended, Ended] && |s.state| == 2 && s.state[0] == Alive && s.state[1] != Alive
    && s.numLive == s.numUnjoined == 2 - One(s.state[1] == Joined) + One(s.main == Dropping)
    && (s.main == Dropping ==> s.state[1] == Joined)
    && !InCreation(s.main) && s.main != Waiting && s.main != Woken && s.main != Exited
  }

  lemma {:induction false} HungForEver(ss: seq<State>)
    requires Run(ss, true) && Hung(ss[0])
    ensures Hung(ss[|ss| - 1])
    decreases |ss|
  {
    hide Step, Hung;
    if |ss| > 1 {
      hide Run;
      RunWithout(ss, true);
      HungForEver(ss[..|ss| - 1]);
      HungStep(ss[|ss| - 2], ss[|ss| - 1]);
    }
  }

  lemma HungStep(s: State, s': State)
    requires Hung(s) && Step(s, s', true)
    ensures Hung(s')
  {
    hide WorkerStep;
    if i: nat :| WorkerStep(s, s', i, true) {
      EndedDoesNothing(s, s', i);
    }
  }

  lemma EndedDoesNothing(s: State, s': State, i: nat)
    requires WorkerStep(s, s', i, true)
    ensures i < |s.pc| && s.pc[i] != Ended
  {
  }

  lemma ExtendWorker(ss: seq<State>, s': State, i: nat) returns (ss': seq<State>)
    requires Run(ss, true) && WorkerStep(ss[|ss| - 1], s', i, true)
    ensures ss' == ss + [s'] && Run(ss', true) && ss'[|ss'| - 1] == s' && ss'[0] == ss[0]
  {
    hide WorkerStep, Run;
    Extend(ss, s', true);
    ss' := ss + [s'];
  }

  lemma ExtendMain(ss: seq<State>, s': State) returns (ss': seq<State>)
    requires Run(ss, true) && MainStep(ss[|ss| - 1], s')
    ensures ss' == ss + [s'] && Run(ss', true) && ss'[|ss'| - 1] == s' && ss'[0] == ss[0]
  {
    hide MainStep, Run;
    Extend(ss, s', true);
    ss' := ss + [s'];
  }

  /** A thread runs to its end while main() does not move. */
  lemma ThreadRuns(ss: seq<State>, i: nat) returns (ss': seq<State>)
    requires Run(ss, true)
    requires var s := ss[|ss| - 1];
      && s.main == Testing && s.owner == Free
      && i < |s.pc| && s.pc[i] == Working && i < |s.index| && s.index[i] < |s.state|
    ensures Run(ss', true) && ss'[0] == ss[0]
    ensures var s := ss[|ss| - 1];
      ss'[|ss'| - 1] == s.(pc := s.pc[i := Ended], state := s.state[s.index[i] := Terminated],
          numUnjoined := s.numUnjoined + 1)
  {
    var s := ss[|ss| - 1];
    hide Run;
    ss' := ExtendWorker(ss, s.(pc := s.pc[i := Entered], owner := Thread(i)), i);
    s := ss'[|ss'| - 1];
    ss' := ExtendWorker(ss', s.(pc := s.pc[i := Incremented], numUnjoined := s.numUnjoined + 1), i);
    s := ss'[|ss'| - 1];
    ss' := ExtendWorker(ss', s.(pc := s.pc[i := Marked], state := s.state[s.index[i] := Terminated]), i);
    s := ss'[|ss'| - 1];
    ss' := ExtendWorker(ss', s.(pc := s.pc[i := Signalling], owner := Free), i);
    s := ss'[|ss'| - 1];
    ss' := ExtendWorker(ss', s.(pc := s.pc[i := Ended]), i);
    s := ss[|ss| - 1];
    assert s.pc[i := Entered][i := Incremented][i := Marked][i := Signalling][i := Ended] == s.pc[i := Ended];
  }

  function Early(pc: seq<Worker>, index: seq<nat>, main: Main, idx: nat): State {
    State(pc, [Alive, Alive], index, Free, main, idx, 0, 0, 0, false, 0)
  }

  lemma FirstReadsOne() returns (ss: seq<State>)
    ensures Run(ss, true) && Init(ss[0]) && |ss[0].pc| == 2
    ensures ss[|ss| - 1] == Early([Working, NotCreated], [1, 0], Creating, 1)
  {
    var s := Early([NotCreated, NotCreated], [0, 0], Creating, 0);
    ss := [s];
    assert Run(ss, true) && Init(s);
    hide Run, Init, WaitStep, ScanStep;
    ss := ExtendMain(ss, Early([Created, NotCreated], [0, 0], Advancing, 0));
    ss := ExtendMain(ss, Early([Created, NotCreated], [0, 0], Creating, 1));
    ss := ExtendWorker(ss, Early([Working, NotCreated], [1, 0], Creating, 1), 0);
  }

  lemma BothReadOne() returns (ss: seq<State>)
    ensures Run(ss, true) && Init(ss[0]) && |ss[0].pc| == 2
    ensures ss[|ss| - 1] == Early([Working, Working], [1, 1], Testing, 2).(numLive := 2)
  {
    hide Run, Init, WaitStep, ScanStep;
    ss := FirstReadsOne();
    ss := ExtendMain(ss, Early([Working, Created], [1, 0], Advancing, 1));
    ss := ExtendWorker(ss, Early([Working, Working], [1, 1], Advancing, 1), 1);
    ss := ExtendMain(ss, Early([Working, Working], [1, 1], Creating, 2));
    ss := ExtendMain(ss, Early([Working, Working], [1, 1], SettingLive, 2));
    ss := ExtendMain(ss, Early([Working, Working], [1, 1], Testing, 2).(numLive := 2));
  }

  /** With the pointer, the program may never exit. */
  lemma SharedIndexHangs() returns (ss: seq<State>)
    ensures Run(ss, true) && Init(ss[0]) && |ss[0].pc| == 2
    ensures forall rest :: Run(rest, true) && rest[0] == ss[|ss| - 1] ==>
      Hung(rest[|rest| - 1])
  {
    ss := BothReadOne();
    hide Init, Step;
    ss := ThreadRuns(ss, 0);
    ss := ThreadRuns(ss, 1);
    assert Hung(ss[|ss| - 1]);
    hide Hung;
    forall rest | Run(rest, true) && rest[0] == ss[|ss| - 1] ensures Hung(rest[|rest| - 1]) {
      HungForEver(rest);
    }
  }

  // ---------------------------------------------------------------- when the program as written can still finish

  /** Some continuation takes main() to its exit with every thread joined. */
  ghost predicate CanFinish(s: State) {
    exists rest :: Finishing(rest, s)
  }

  ghost predicate Finishing(rest: seq<State>, s: State) {
    Run(rest, true) && rest[0] == s && rest[|rest| - 1].main == Exited && AllJoined(rest[|rest| - 1])
  }

  /** Every thread has been created and has read its index. */
  ghost predicate AllRead(s: State) {
    forall i :: 0 <= i < |s.pc| ==> s.pc[i] != NotCreated && s.pc[i] != Created
  }

  lemma FinishesAfter(s: State, s': State)
    requires Step(s, s', true) && CanFinish(s')
    ensures CanFinish(s)
  {
    hide Step, AllJoined;
    var rest :| Finishing(rest, s');
    var longer := [s] + rest;
    forall i | 0 <= i < |longer| - 1 ensures Step(longer[i], longer[i + 1], true) {
      if i > 0 {
        assert Step(rest[i - 1], rest[i], true);
      }
    }
    assert Finishing(longer, s);
  }

  lemma ReadStays(s: State, s': State)
    requires Inv(s) && AllRead(s) && (MainStep(s, s') || exists i: nat :: WorkerStep(s, s', i, false))
    ensures AllRead(s') && Step(s, s', true)
  {
    hide Inv;
    if i: nat :| WorkerStep(s, s', i, false) {
      assert s.pc[i] != Created;
      assert WorkerStep(s, s', i, true);
      hide MainStep;
    } else {
      ReadNotCreated(s);
      hide WorkerStep, WaitStep, ScanStep;
      MainKeepsThreads(s, s');
    }
  }

  lemma ReadNotCreated(s: State)
    requires Inv(s) && AllRead(s)
    ensures s.main == Creating ==> s.idx >= |s.pc|
  {
    if s.main == Creating && s.idx < |s.pc| {
      CreateKeepsPlace(s);
    }
  }

  lemma MainKeepsThreads(s: State, s': State)
    requires MainStep(s, s')
    ensures s'.pc == s.pc || (s.main == Creating && s.idx < |s.pc|)
  {
  }

  lemma NextState(s: State) returns (s': State)
    requires Inv(s) && s.main != Exited
    ensures MainStep(s, s') || exists i: nat :: WorkerStep(s, s', i, false)
  {
    NeverStuck(s);
    hide Inv, MainStep, WorkerStep;
    if t :| MainStep(s, t) {
      s' := t;
    } else {
      var t, i: nat :| WorkerStep(s, t, i, false);
      s' := t;
    }
  }

  /** With own indexes there is always such a continuation: the program is never stuck and its work comes to an end. */
  lemma {:induction false} Finishes(s: State)
    requires Inv(s) && AllRead(s)
    ensures CanFinish(s)
    decreases Work(s)
  {
    hide Inv, Work, Step, MainStep, WorkerStep, AllRead, AllJoined, CanFinish;
    WorkIsNatural(s);
    if s.main == Exited {
      ExitMeansJoined(s);
      AtTheExit(s);
    } else {
      var s' := NextState(s);
      ReadStays(s, s');
      OneStep(s, s');
      StepKeeps(s, s');
      StepWorks(s, s');
      StepSpurious(s, s');
      Finishes(s');
      FinishesAfter(s, s');
    }
  }

  lemma AtTheExit(s: State)
    requires s.main == Exited && AllJoined(s)
    ensures CanFinish(s)
  {
    hide AllJoined;
    assert Finishing([s], s);
  }

  lemma OneStep(s: State, s': State)
    requires MainStep(s, s') || exists i: nat :: WorkerStep(s, s', i, false)
    ensures Step(s, s', false)
  {
    hide MainStep, WorkerStep;
  }

  /** The created threads are the first ones; one that reads its index in the creation loop, or right after it, reads
      its own or a later one; and thread[] is marked only at indexes that were read. */
  ghost predicate SharedInv(s: State) {
    && |s.state| == |s.index| == |s.pc| && s.idx <= |s.pc|
    && (s.main == Advancing || s.main == Dropping ==> s.idx < |s.pc|)
    && (forall i :: 0 <= i < |s.pc| ==> (s.pc[i] == NotCreated <==> Uncreated(s, i)))
    && (s.main == SettingLive ==> s.idx == |s.pc|)
    && (InCreation(s.main) ==> forall i :: 0 <= i < |s.pc| && HasRead(s.pc[i]) ==> i <= s.index[i])
    && (forall k :: 0 <= k < |s.state| && s.state[k] != Alive ==> WasRead(s, k))
  }

  predicate Uncreated(s: State, i: int) {
    (s.main == Creating && s.idx <= i) || (s.main == Advancing && s.idx < i)
  }

  predicate HasRead(w: Worker) {
    w != NotCreated && w != Created
  }

  ghost predicate WasRead(s: State, k: int) {
    exists i :: 0 <= i < |s.pc| && i < |s.index| && HasRead(s.pc[i]) && s.index[i] == k
  }

  lemma SharedSizes(s: State, s': State)
    requires Step(s, s', true)
    ensures |s'.pc| == |s.pc| && |s'.index| == |s.index| && |s'.state| == |s.state|
  {
    hide MainStep;
    if MainStep(s, s') {
      MainSizes(s, s');
    }
  }

  lemma MainSizes(s: State, s': State)
    requires MainStep(s, s')
    ensures |s'.pc| == |s.pc| && s'.index == s.index && |s'.state| == |s.state|
  {
  }

  /** An index once read stays as it is. */
  lemma ReadOnce(s: State, s': State, i: nat)
    requires SharedInv(s) && Step(s, s', true) && i < |s.pc| && HasRead(s.pc[i])
    ensures |s'.pc| == |s'.index| == |s.pc| && HasRead(s'.pc[i]) && s'.index[i] == s.index[i]
  {
    assert !Uncreated(s, i);
    assert |s.index| == |s.pc|;
    hide SharedInv, MainStep, WorkerStep;
    SharedSizes(s, s');
    if j: nat :| WorkerStep(s, s', j, true) {
      WorkerReads(s, s', j);
    } else if MainStep(s, s') {
      MainReads(s, s');
    }
  }

  lemma WorkerReads(s: State, s': State, j: nat)
    requires WorkerStep(s, s', j, true) && |s.index| == |s.pc|
    ensures j < |s.pc| == |s'.pc| && HasRead(s'.pc[j]) && s.pc[j] != NotCreated
    ensures forall i :: 0 <= i < |s.pc| && i != j ==> s'.pc[i] == s.pc[i]
    ensures |s'.index| == |s.index| && forall i :: 0 <= i < |s.index| && i != j ==> s'.index[i] == s.index[i]
    ensures j < |s.index| && (if s.pc[j] == Created then s'.index[j] == s.idx else s'.index[j] == s.index[j])
    ensures s'.idx == s.idx && (s'.main == s.main || (s.main == Waiting && s'.main == Woken))
    ensures s'.state == s.state || (HasRead(s.pc[j]) && s.index[j] < |s.state|
        && s'.state == s.state[s.index[j] := Terminated])
  {
  }

  lemma MainReads(s: State, s': State)
    requires MainStep(s, s')
    ensures s'.index == s.index
    ensures s'.pc == s.pc || (s.main == Creating && s.idx < |s.pc| && s'.pc == s.pc[s.idx := Created])
  {
  }

  lemma WorkerKeepsShared(s: State, s': State, j: nat)
    requires SharedInv(s) && WorkerStep(s, s', j, true)
    ensures SharedInv(s')
  {
    WorkerReads(s, s', j);
    hide WorkerStep;
    SharedSizesOf(s, s', j);
    forall k | 0 <= k < |s'.state| && s'.state[k] != Alive ensures WasRead(s', k) {
      MarkedWasRead(s, s', j, k);
    }
    hide WasRead;
  }

  lemma SharedSizesOf(s: State, s': State, j: nat)
    requires SharedInv(s) && j < |s.pc| == |s'.pc| && |s'.index| == |s.index|
    requires s'.state == s.state || (s.index[j] < |s.state| && s'.state == s.state[s.index[j] := Terminated])
    ensures |s'.state| == |s.state| == |s'.pc|
  {
  }

  lemma MarkedWasRead(s: State, s': State, j: nat, k: nat)
    requires SharedInv(s) && j < |s.pc| == |s'.pc| && |s'.index| == |s.index| && HasRead(s'.pc[j])
    requires forall i :: 0 <= i < |s.pc| && i != j ==> s'.pc[i] == s.pc[i]
    requires forall i :: 0 <= i < |s.index| && i != j ==> s'.index[i] == s.index[i]
    requires HasRead(s.pc[j]) ==> s'.index[j] == s.index[j]
    requires s'.state == s.state || (HasRead(s.pc[j]) && s.index[j] < |s.state|
        && s'.state == s.state[s.index[j] := Terminated])
    requires k < |s'.state| && s'.state[k] != Alive
    ensures WasRead(s', k)
  {
    if k < |s.state| && s.state[k] != Alive {
      var i :| 0 <= i < |s.pc| && i < |s.index| && HasRead(s.pc[i]) && s.index[i] == k;
      assert HasRead(s'.pc[i]) && s'.index[i] == k;
    } else {
      assert HasRead(s'.pc[j]) && s'.index[j] == k;
    }
  }

  lemma MainKeepsReads(s: State, s': State, k: nat)
    requires SharedInv(s) && MainStep(s, s') && k < |s'.state| && s'.state[k] != Alive
    ensures WasRead(s', k)
  {
    MainReads(s, s');
    MainSizes(s, s');
    MainMarksNone(s, s', k);
    hide MainStep;
    var i :| 0 <= i < |s.pc| && i < |s.index| && HasRead(s.pc[i]) && s.index[i] == k;
    assert s.main == Creating ==> !Uncreated(s, i);
    assert HasRead(s'.pc[i]) && s'.index[i] == k;
  }

  lemma CreationKeepsShared(s: State, s': State)
    requires SharedInv(s) && CreationStep(s, s')
    ensures SharedInv(s')
  {
    forall k | 0 <= k < |s'.state| && s'.state[k] != Alive ensures WasRead(s', k) {
      hide WasRead, CreationStep;
      assert MainStep(s, s');
      MainKeepsReads(s, s', k);
    }
    hide WasRead;
  }

  lemma LoopKeepsShared(s: State, s': State)
    requires SharedInv(s) && (WaitStep(s, s') || ScanStep(s, s'))
    ensures SharedInv(s')
  {
    forall k | 0 <= k < |s'.state| && s'.state[k] != Alive ensures WasRead(s', k) {
      hide WasRead, WaitStep, ScanStep;
      assert MainStep(s, s');
      MainKeepsReads(s, s', k);
    }
    hide WasRead, HasRead;
    LoopShape(s, s');
    hide WaitStep, ScanStep;
  }

  lemma LoopShape(s: State, s': State)
    requires (WaitStep(s, s') || ScanStep(s, s')) && |s.state| == |s.pc| && s.idx <= |s.pc|
    requires s.main == Dropping ==> s.idx < |s.pc|
    ensures s'.pc == s.pc && s'.index == s.index && |s'.state| == |s.state| && s'.idx <= |s.pc|
    ensures s'.main == Dropping ==> s'.idx < |s.pc|
    ensures !InCreation(s.main) && !InCreation(s'.main)
  {
  }

  lemma MainKeepsShared(s: State, s': State)
    requires SharedInv(s) && MainStep(s, s')
    ensures SharedInv(s')
  {
    hide SharedInv, CreationStep, WaitStep, ScanStep;
    if CreationStep(s, s') {
      CreationKeepsShared(s, s');
    } else {
      LoopKeepsShared(s, s');
    }
  }

  lemma MainMarksNone(s: State, s': State, k: nat)
    requires MainStep(s, s') && k < |s.state| == |s'.state| && s'.state[k] != Alive
    ensures s.state[k] != Alive
  {
  }

  lemma SharedKeeps(s: State, s': State)
    requires SharedInv(s) && Step(s, s', true)
    ensures SharedInv(s')
  {
    if i: nat :| WorkerStep(s, s', i, true) {
      hide WorkerStep, MainStep, SharedInv;
      WorkerKeepsShared(s, s', i);
    } else if MainStep(s, s') {
      hide WorkerStep, MainStep, SharedInv;
      MainKeepsShared(s, s');
    } else {
      hide WorkerStep, MainStep, WasRead;
      assert forall k :: WasRead(s, k) ==> WasRead(s', k) by {
        SameReads(s, s');
      }
    }
  }

  lemma SameReads(s: State, s': State)
    requires s'.pc == s.pc && s'.index == s.index
    ensures forall k :: WasRead(s, k) ==> WasRead(s', k)
  {
  }

  lemma {:induction false} SharedRunKeeps(ss: seq<State>)
    requires Run(ss, true) && Init(ss[0])
    ensures SharedInv(ss[|ss| - 1])
    decreases |ss|
  {
    hide Step, Init, SharedInv;
    if |ss| == 1 {
      InitShared(ss[0]);
    } else {
      hide Run;
      RunWithout(ss, true);
      SharedRunKeeps(ss[..|ss| - 1]);
      SharedKeeps(ss[|ss| - 2], ss[|ss| - 1]);
    }
  }

  lemma InitShared(s: State)
    requires Init(s)
    ensures SharedInv(s)
  {
  }

  lemma OwnBefore(s: State, s': State)
    requires SharedInv(s) && Step(s, s', true) && OwnIndexes(s')
    ensures OwnIndexes(s)
  {
    hide Step;
    forall i | 0 <= i < |s.pc| && i < |s.index| && HasRead(s.pc[i]) ensures s.index[i] == i {
      ReadOnce(s, s', i);
    }
    hide SharedInv;
  }

  /** If the indexes read by the end of a run are their readers' own, it is a run with copies of the index. */
  lemma {:induction false} OwnAtTheEnd(ss: seq<State>)
    requires Run(ss, true) && Init(ss[0]) && OwnIndexes(ss[|ss| - 1])
    ensures Run(ss, false)
    decreases |ss|
  {
    hide Step, Init, OwnIndexes, SharedInv;
    if |ss| > 1 {
      hide Run;
      RunWithout(ss, true);
      var init, s, s' := ss[..|ss| - 1], ss[|ss| - 2], ss[|ss| - 1];
      assert init[0] == ss[0] && init[|init| - 1] == s;
      SharedRunKeeps(init);
      OwnBefore(s, s');
      OwnAtTheEnd(init);
      OwnIndexStep(s, s');
      Extend(init, s', false);
      assert init + [s'] == ss;
    }
  }

  /** Nothing will ever mark thread[k]: every thread has read another index, and no thread is still to be created. */
  ghost predicate NeverMarked(s: State, k: nat) {
    && |s.state| == |s.index| == |s.pc| && k < |s.state| && s.state[k] == Alive
    && AllRead(s) && (forall i :: 0 <= i < |s.pc| ==> s.index[i] != k)
    && (s.main == Creating ==> s.idx >= |s.pc|) && (s.main == Advancing ==> s.idx + 1 >= |s.pc|)
  }

  lemma NeverMarkedStays(s: State, s': State, k: nat)
    requires NeverMarked(s, k) && Step(s, s', true)
    ensures NeverMarked(s', k)
  {
    if j: nat :| WorkerStep(s, s', j, true) {
      hide MainStep;
      WorkerReads(s, s', j);
      hide WorkerStep;
    } else if MainStep(s, s') {
      hide WorkerStep;
      MainReads(s, s');
      MainJoinsMarked(s, s', k);
      hide MainStep;
    } else {
      hide MainStep, WorkerStep;
    }
  }

  /** main() joins only threads that are marked, and goes no further back than the end of its creation loop. */
  lemma MainJoinsMarked(s: State, s': State, k: nat)
    requires MainStep(s, s') && |s.state| == |s.pc| && k < |s.state| && s.state[k] == Alive
    requires (s.main == Creating ==> s.idx >= |s.pc|) && (s.main == Advancing ==> s.idx + 1 >= |s.pc|)
    ensures |s'.state| == |s.state| && s'.state[k] == Alive && s'.pc == s.pc && s'.index == s.index
    ensures (s'.main == Creating ==> s'.idx >= |s'.pc|) && (s'.main == Advancing ==> s'.idx + 1 >= |s'.pc|)
  {
  }

  lemma {:induction false} NeverMarkedForEver(ss: seq<State>, k: nat)
    requires Run(ss, true) && NeverMarked(ss[0], k)
    ensures NeverMarked(ss[|ss| - 1], k)
    decreases |ss|
  {
    hide Step, NeverMarked;
    if |ss| > 1 {
      hide Run;
      RunWithout(ss, true);
      NeverMarkedForEver(ss[..|ss| - 1], k);
      NeverMarkedStays(ss[|ss| - 2], ss[|ss| - 1], k);
    }
  }

  lemma UnreadCannotFinish(s: State, k: nat)
    requires NeverMarked(s, k)
    ensures !CanFinish(s)
  {
    hide Run, Step;
    if rest :| Finishing(rest, s) {
      NeverMarkedForEver(rest, k);
    }
  }

  /** Of the threads that did not read their own index in the creation loop, the first one's entry is read by none. */
  lemma {:induction false} FirstUnread(s: State, k: nat) returns (m: nat)
    requires SharedInv(s) && AllRead(s) && InCreation(s.main) && !OwnIndexes(s)
    requires k <= |s.pc| && forall i :: 0 <= i < k ==> s.index[i] == i
    ensures NeverMarked(s, m)
    decreases |s.pc| - k
  {
    if k < |s.pc| && s.index[k] == k {
      m := FirstUnread(s, k + 1);
    } else {
      m := k;
      assert forall i :: k <= i < |s.pc| ==> HasRead(s.pc[i]) && s.index[i] >= i;
      assert k < |s.pc|;
      assert !WasRead(s, k);
      AllReadAllCreated(s);
    }
  }

  lemma AllReadAllCreated(s: State)
    requires SharedInv(s) && AllRead(s)
    ensures (s.main == Creating ==> s.idx >= |s.pc|) && (s.main == Advancing ==> s.idx + 1 >= |s.pc|)
  {
    assert s.main == Creating && s.idx < |s.pc| ==> Uncreated(s, s.idx);
    assert s.main == Advancing && s.idx + 1 < |s.pc| ==> Uncreated(s, s.idx + 1);
  }

  /** When every thread has read its index by the end of the creation loop, the program can still come to its exit with
      every thread joined if and only if each read its own. */
  lemma CanFinishIffOwn(ss: seq<State>)
    requires Run(ss, true) && Init(ss[0])
    requires AllRead(ss[|ss| - 1]) && InCreation(ss[|ss| - 1].main)
    ensures CanFinish(ss[|ss| - 1]) <==> OwnIndexes(ss[|ss| - 1])
  {
    var s := ss[|ss| - 1];
    hide Run, Init, AllRead, CanFinish, SharedInv, OwnIndexes, Inv, Work, NeverMarked;
    SharedRunKeeps(ss);
    if OwnIndexes(s) {
      OwnAtTheEnd(ss);
      RunKeeps(ss);
      Finishes(s);
    } else {
      var k := FirstUnread(s, 0);
      UnreadCannotFinish(s, k);
    }
  }

  // ---------------------------------------------------------------- whenever the indexes are read

  lemma {:induction false} SharedFrom(ss: seq<State>)
    requires Run(ss, true) && SharedInv(ss[0])
    ensures SharedInv(ss[|ss| - 1])
    decreases |ss|
  {
    hide Step, SharedInv;
    if |ss| > 1 {
      hide Run;
      RunWithout(ss, true);
      SharedFrom(ss[..|ss| - 1]);
      SharedKeeps(ss[|ss| - 2], ss[|ss| - 1]);
    }
  }

  lemma {:induction false} ReadForGood(ss: seq<State>, i: nat)
    requires Run(ss, true) && SharedInv(ss[0]) && i < |ss[0].pc| == |ss[0].index| && HasRead(ss[0].pc[i])
    ensures var e := ss[|ss| - 1];
      i < |e.pc| == |e.index| == |ss[0].pc| && HasRead(e.pc[i]) && e.index[i] == ss[0].index[i]
    decreases |ss|
  {
    hide Step, SharedInv;
    if |ss| > 1 {
      hide Run;
      RunWithout(ss, true);
      ReadForGood(ss[..|ss| - 1], i);
      SharedFrom(ss[..|ss| - 1]);
      ReadOnce(ss[|ss| - 2], ss[|ss| - 1], i);
    }
  }

  /** The indexes that these threads have. */
  ghost function IndexesOf(index: seq<nat>, threads: set<nat>): set<nat>
    requires forall i :: i in threads ==> i < |index|
  {
    set i | i in threads :: index[i]
  }

  lemma {:induction false} NoMoreIndexes(index: seq<nat>, threads: set<nat>)
    requires forall i :: i in threads ==> i < |index|
    ensures |IndexesOf(index, threads)| <= |threads|
    decreases |threads|
  {
    if threads == {} {
      assert IndexesOf(index, threads) == {};
    } else {
      var i :| i in threads;
      NoMoreIndexes(index, threads - {i});
      assert IndexesOf(index, threads) == IndexesOf(index, threads - {i}) + {index[i]};
    }
  }

  ghost function UpTo(n: nat): (s: set<nat>)
    ensures |s| == n && forall k: nat :: k in s <==> k < n
  {
    if n == 0 then {} else UpTo(n - 1) + {n - 1}
  }

  /** Thread i is not needed for index k if its own is out of range or another thread's. */
  lemma WithoutOne(index: seq<nat>, i: nat, j: nat, k: nat)
    requires i < |index| && j < |index| && k < |index| && k in index
    requires index[i] >= |index| || (i != j && index[i] == index[j])
    ensures k in IndexesOf(index, UpTo(|index|) - {i})
  {
    var t :| 0 <= t < |index| && index[t] == k;
    var u := if t == i then j else t;
    assert index[u] == k && u in UpTo(|index|) - {i};
  }

  /** If each of n indexes is among those of n threads, no thread has another one, and no two have the same. */
  lemma Pigeonhole(index: seq<nat>, i: nat, j: nat)
    requires forall k :: k in UpTo(|index|) ==> k in index
    requires i < |index| && j < |index|
    ensures index[i] < |index| && (i != j ==> index[i] != index[j])
  {
    if index[i] >= |index| || (i != j && index[i] == index[j]) {
      var all, others := UpTo(|index|), UpTo(|index|) - {i};
      hide UpTo, IndexesOf;
      forall k | k in all ensures k in IndexesOf(index, others) {
        WithoutOne(index, i, j, k);
      }
      NoMoreIndexes(index, others);
      SubsetSize(all, IndexesOf(index, others));
    }
  }

  lemma SubsetSize(a: set<nat>, b: set<nat>)
    requires a <= b
    ensures |a| <= |b|
  {
    assert b == a + (b - a);
  }

  /** Whenever threads read their indexes: once two have read the same one, or one has read past the end, the program
      cannot come to its exit with every thread joined. */
  lemma SameIndexCannotFinish(ss: seq<State>, i: nat, j: nat)
    requires Run(ss, true) && Init(ss[0])
    requires var s := ss[|ss| - 1];
      && i < |s.pc| == |s.index| && j < |s.pc| && HasRead(s.pc[i]) && HasRead(s.pc[j])
      && (s.index[i] >= |s.pc| || (i != j && s.index[i] == s.index[j]))
    ensures !CanFinish(ss[|ss| - 1])
  {
    var s := ss[|ss| - 1];
    hide Run, Init, SharedInv, Step;
    SharedRunKeeps(ss);
    if rest :| Finishing(rest, s) {
      SharedFrom(rest);
      ReadForGood(rest, i);
      ReadForGood(rest, j);
      var e: State := rest[|rest| - 1];
      EachWasRead(e);
      Pigeonhole(e.index, i, j);
    }
  }

  lemma EachWasRead(s: State)
    requires SharedInv(s) && AllJoined(s)
    ensures |s.index| == |s.pc| && forall k :: k in UpTo(|s.index|) ==> k in s.index
  {
    forall k | k in UpTo(|s.index|) ensures k in s.index {
      assert s.state[k] != Alive;
      assert WasRead(s, k);
    }
  }

  /** The first k threads are created, and each reads its index before main() moves idx on. */
  lemma {:induction false} CreateAndRead(s: State, k: nat) returns (ss: seq<State>)
    requires Init(s) && k <= |s.pc|
    ensures Run(ss, true) && ss[0] == s
    ensures var e := ss[|ss| - 1];
      && e == s.(pc := e.pc, index := e.index, idx := k) && |e.pc| == |e.index| == |s.pc|
      && (forall i :: 0 <= i < k ==> e.pc[i] == Working && e.index[i] == i)
      && (forall i :: k <= i < |s.pc| ==> e.pc[i] == NotCreated)
    decreases k
  {
    if k == 0 {
      ss := [s];
    } else {
      ss := CreateAndRead(s, k - 1);
      hide Run, WaitStep, ScanStep;
      var e := ss[|ss| - 1];
      assert e.state[k - 1 := Alive] == e.state;
      var c := e.(pc := e.pc[k - 1 := Created], main := Advancing);
      ss := ExtendMain(ss, c);
      var r := c.(pc := c.pc[k - 1 := Working], index := c.index[k - 1 := k - 1]);
      ss := ExtendWorker(ss, r, k - 1);
      ss := ExtendMain(ss, r.(idx := k, main := Creating));
    }
  }

  /** The next thread is created, and reads idx only after main() has moved it on. */
  lemma ReadLate(ss: seq<State>, k: nat) returns (ss': seq<State>)
    requires Run(ss, true)
    requires var e := ss[|ss| - 1];
      && e.main == Creating && e.idx == k < |e.pc| && |e.index| == |e.state| == |e.pc| && e.state[k] == Alive
    ensures Run(ss', true) && ss'[0] == ss[0]
    ensures var e := ss[|ss| - 1];
      ss'[|ss'| - 1] == e.(pc := e.pc[k := Working], index := e.index[k := k + 1], idx := k + 1)
  {
    var e := ss[|ss| - 1];
    hide Run, WaitStep, ScanStep;
    assert e.state[k := Alive] == e.state;
    var c := e.(pc := e.pc[k := Created], main := Advancing);
    ss' := ExtendMain(ss, c);
    var a := c.(idx := k + 1, main := Creating);
    ss' := ExtendMain(ss', a);
    var w := a.(pc := a.pc[k := Working], index := a.index[k := k + 1]);
    ss' := ExtendWorker(ss', w, k);
    assert e.pc[k := Created][k := Working] == e.pc[k := Working];
  }

  /** Whatever threads and main() do, the program as written can still come to its exit with every thread joined: that
      holds if and only if there are no threads. What happens past the end of thread[] is undefined; here a thread that
      has read such an index stops before it writes there. */
  lemma AlwaysFinishesIffNoThreads(s: State)
    requires Init(s)
    ensures (forall ss :: Run(ss, true) && ss[0] == s ==> CanFinish(ss[|ss| - 1])) <==> |s.pc| == 0
  {
    hide CanFinish, Step, Inv, Work, SharedInv;
    var n := |s.pc|;
    if n == 0 {
      forall ss | Run(ss, true) && ss[0] == s ensures CanFinish(ss[|ss| - 1]) {
        NoThreads(ss);
        OwnAtTheEnd(ss);
        RunKeeps(ss);
        Finishes(ss[|ss| - 1]);
      }
    } else {
      var ss := CreateAndRead(s, n - 1);
      ss := ReadLate(ss, n - 1);
      var e := ss[|ss| - 1];
      assert e.index[n - 1] == n && e.pc[n - 1] == Working;
      CanFinishIffOwn(ss);
    }
  }

  /** The same where no thread reads an index past the end: two threads are already too many. */
  lemma FinishesInRangeIff(s: State)
    requires Init(s)
    ensures (forall ss :: Run(ss, true) && ss[0] == s && AllReadInRange(ss[|ss| - 1]) ==> CanFinish(ss[|ss| - 1]))
       <==> |s.pc| <= 1
  {
    hide CanFinish, Step, Inv, Work, SharedInv;
    var n := |s.pc|;
    if n <= 1 {
      forall ss | Run(ss, true) && ss[0] == s && AllReadInRange(ss[|ss| - 1]) ensures CanFinish(ss[|ss| - 1]) {
        SameThreadsInRun(ss);
        OwnAtTheEnd(ss);
        RunKeeps(ss);
        Finishes(ss[|ss| - 1]);
      }
    } else {
      var ss := CreateAndRead(s, n - 2);
      ss := ReadLate(ss, n - 2);
      var e := ss[|ss| - 1];
      ss := LastReadsOwn(ss);
      var f := ss[|ss| - 1];
      assert f.index[n - 2] == n - 1 && f.pc[n - 2] == Working;
      CanFinishIffOwn(ss);
    }
  }

  ghost predicate AllReadInRange(s: State) {
    AllRead(s) && |s.index| == |s.pc| && forall i :: 0 <= i < |s.pc| ==> s.index[i] < |s.pc|
  }

  lemma LastReadsOwn(ss: seq<State>) returns (ss': seq<State>)
    requires Run(ss, true)
    requires var e := ss[|ss| - 1];
      && e.main == Creating && e.idx + 1 == |e.pc| == |e.index| == |e.state| && e.state[e.idx] == Alive
    ensures Run(ss', true) && ss'[0] == ss[0]
    ensures var e, k := ss[|ss| - 1], ss[|ss| - 1].idx;
      ss'[|ss'| - 1] == e.(pc := e.pc[k := Working], index := e.index[k := k], main := Advancing)
  {
    var e := ss[|ss| - 1];
    hide Run, WaitStep, ScanStep;
    var k := e.idx;
    assert e.state[k := Alive] == e.state;
    var c := e.(pc := e.pc[k := Created], main := Advancing);
    ss' := ExtendMain(ss, c);
    ss' := ExtendWorker(ss', c.(pc := c.pc[k := Working], index := c.index[k := k]), k);
    assert e.pc[k := Created][k := Working] == e.pc[k := Working];
  }

  lemma {:induction false} SameThreadsInRun(ss: seq<State>)
    requires Run(ss, true)
    ensures |ss[|ss| - 1].pc| == |ss[0].pc|
    decreases |ss|
  {
    if |ss| > 1 {
      hide Step, Run;
      RunWithout(ss, true);
      SameThreadsInRun(ss[..|ss| - 1]);
      SameThreads(ss[|ss| - 2], ss[|ss| - 1], true);
    }
  }
}
