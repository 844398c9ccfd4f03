/** multi_SIGCHLD.c: a parent forks children with SIGCHLD blocked and waits for them in sigsuspend(), whose handler
    reaps every zombie it finds. SIGCHLD is not queued: any number of children that exit leave it pending once. */
module MultiSigchld {
  import opened Basics
  import opened Tally

  datatype Child = NotForked | Running | Zombie | Reaped

  /** Where the parent is: in the fork loop, at the loop test, in sigsuspend(), in the handler's waitpid() loop, in the
      handler after that loop, or done. */
  datatype Phase = Forking | Testing | Suspended | Reaping | Returning | Exited

  /** forked is the number of fork() calls made. others counts the SIGCHLDs for children that stopped or continued. */
  datatype State = State(children: seq<Child>, forked: nat, pending: bool, numLiveChildren: int, sigCnt: int, pc: Phase,
                         others: nat)

  ghost predicate Init(s: State) {
    && (forall i :: 0 <= i < |s.children| ==> s.children[i] == NotForked)
    && s == State(s.children, 0, false, |s.children|, 0, Forking, 0)
  }

  ghost predicate Fork(s: State, s': State) {
    && s.pc == Forking && s.forked < |s.children|
    && s' == s.(children := s.children[s.forked := Running], forked := s.forked + 1)
  }

  ghost predicate AllForked(s: State, s': State) {
    s.pc == Forking && s.forked == |s.children| && s' == s.(pc := Testing)
  }

  /** A child exits, at any moment. */
  ghost predicate Exit(s: State, s': State, i: nat) {
    i < |s.children| && s.children[i] == Running && s' == s.(children := s.children[i := Zombie], pending := true)
  }

  /** Something stops or continues a child; the handler is installed without SA_NOCLDSTOP. */
  ghost predicate StopOrContinue(s: State, s': State, i: nat) {
    i < |s.children| && s.children[i] == Running && s' == s.(pending := true, others := s.others + 1)
  }

  ghost predicate Test(s: State, s': State) {
    s.pc == Testing && s' == s.(pc := if s.numLiveChildren > 0 then Suspended else Exited)
  }

  /** sigsuspend() unblocks the signal and the handler starts. */
  ghost predicate Deliver(s: State, s': State) {
    s.pc == Suspended && s.pending && s' == s.(pending := false, pc := Reaping)
  }

  /** waitpid() gives some zombie. */
  ghost predicate Reap(s: State, s': State, i: nat) {
    && s.pc == Reaping && i < |s.children| && s.children[i] == Zombie
    && s' == s.(children := s.children[i := Reaped], numLiveChildren := s.numLiveChildren - 1)
  }

  /** waitpid() finds no zombie. */
  ghost predicate NoneToReap(s: State, s': State) {
    s.pc == Reaping && Zombie !in s.children && s' == s.(pc := Returning)
  }

  /** The handler returns, and so does sigsuspend(), with the signal blocked again. */
  ghost predicate Return(s: State, s': State) {
    s.pc == Returning && s' == s.(pc := Testing, sigCnt := s.sigCnt + 1)
  }

  ghost predicate ChildStep(s: State, s': State) {
    exists i: nat :: Exit(s, s', i) || Reap(s, s', i)
  }

  ghost predicate ParentStep(s: State, s': State) {
    Fork(s, s') || AllForked(s, s') || Test(s, s') || Deliver(s, s') || NoneToReap(s, s') || Return(s, s')
  }

  ghost predicate Step(s: State, s': State) {
    ChildStep(s, s') || ParentStep(s, s') || exists i: nat :: StopOrContinue(s, s', i)
  }

  /** The children forked are the first ones. */
  ghost predicate ForkOrder(s: State) {
    && s.forked <= |s.children| && (s.pc != Forking ==> s.forked == |s.children|)
    && forall i :: 0 <= i < |s.children| ==> (s.children[i] == NotForked <==> s.forked <= i)
  }

  ghost predicate InHandler(s: State) {
    s.pc == Reaping || s.pc == Returning
  }

  /** The counter is right, a zombie always has SIGCHLD pending or the reaping loop to see it, and each signal caught
      was for its own child exit, stop or continue. */
  ghost predicate Counted(s: State) {
    && s.numLiveChildren == |s.children| - Count(s.children, Reaped)
    && (Count(s.children, Zombie) > 0 ==> s.pending || s.pc == Reaping)
    && s.sigCnt >= 0
    && s.sigCnt + One(s.pending) + One(InHandler(s)) <= Count(s.children, Zombie) + Count(s.children, Reaped) + s.others
    && (Count(s.children, Reaped) > 0 ==> s.sigCnt > 0 || InHandler(s))
    && (s.pc == Suspended ==> s.numLiveChildren > 0)
    && (s.pc == Exited ==> s.numLiveChildren <= 0)
  }

  ghost predicate Inv(s: State) {
    ForkOrder(s) && Counted(s)
  }

  lemma ChildKeeps(s: State, s': State, i: nat)
    requires Inv(s) && (Exit(s, s', i) || Reap(s, s', i))
    ensures Inv(s')
  {
    hide Count;
    CountMove(s.children, i, if s.children[i] == Running then Zombie else Reaped);
    if s.pc == Forking || s.pc == Exited {
      CountPositive(s.children, Reaped);
    }
  }

  lemma ParentKeeps(s: State, s': State)
    requires Inv(s) && ParentStep(s, s')
    ensures Inv(s')
  {
    hide Count;
    CountPositive(s.children, Zombie);
    if Fork(s, s') {
      CountMove(s.children, s.forked, Running);
    }
  }

  lemma StepKeeps(s: State, s': State)
    requires Inv(s) && Step(s, s')
    ensures Inv(s')
  {
    hide ParentStep, Exit, Reap;
    if ParentStep(s, s') {
      ParentKeeps(s, s');
    } else if i: nat :| Exit(s, s', i) || Reap(s, s', i) {
      ChildKeeps(s, s', i);
    }
  }

  ghost predicate Run(ss: seq<State>) {
    ss != [] && Init(ss[0]) && forall i :: 0 <= i < |ss| - 1 ==> Step(ss[i], ss[i + 1])
  }

  lemma InitInv(s: State)
    requires Init(s)
    ensures Inv(s)
  {
    CountPositive(s.children, Zombie);
    CountPositive(s.children, Reaped);
  }

  // ---------------------------------------------------------------- the parent always gets to its end

  /** Each child's remaining states, the pending signal, and where the parent is. */
  function Work(s: State): nat {
    7 * Count(s.children, NotForked) + 6 * Count(s.children, Running) + Count(s.children, Zombie)
    + 4 * One(s.pending)
    + match s.pc
      case Forking => 3
      case Testing => 2
      case Suspended => 1
      case Reaping => 4
      case Returning => 3
      case Exited => 0
  }

  lemma ChildWorks(s: State, s': State, i: nat)
    requires Exit(s, s', i) || Reap(s, s', i)
    ensures Work(s') < Work(s)
  {
    hide Count;
    CountMove(s.children, i, if s.children[i] == Running then Zombie else Reaped);
  }

  lemma ParentWorks(s: State, s': State)
    requires Inv(s) && ParentStep(s, s')
    ensures Work(s') < Work(s)
  {
    hide Count, Counted;
    if Fork(s, s') {
      CountMove(s.children, s.forked, Running);
    }
  }

  lemma StepWorks(s: State, s': State)
    requires Inv(s) && Step(s, s')
    ensures Work(s') < Work(s) + 5 * (s'.others - s.others) && s'.others >= s.others
  {
    hide Count, Inv;
    if ParentStep(s, s') {
      ParentWorks(s, s');
    } else if i: nat :| Exit(s, s', i) || Reap(s, s', i) {
      ChildWorks(s, s', i);
    }
  }

  /** The parent can step, or a child can exit or be reaped. */
  ghost predicate CanStep(s: State) {
    exists s' :: ParentStep(s, s') || ChildStep(s, s')
  }

  /** Short of its exit the program can always step: in sigsuspend() either the signal is pending or a child still
      runs, whose exit will wake it. */
  lemma NeverSleepsForEver(s: State)
    requires Inv(s)
    ensures s.pc != Exited ==>
      CanStep(s)
  {
    hide Count;
    CountPositive(s.children, Zombie);
    match s.pc
    case Forking =>
      if s.forked < |s.children| {
        assert ParentStep(s, s.(children := s.children[s.forked := Running], forked := s.forked + 1));
      } else {
        assert ParentStep(s, s.(pc := Testing));
      }
    case Testing => assert ParentStep(s, s.(pc := if s.numLiveChildren > 0 then Suspended else Exited));
    case Suspended =>
      if s.pending {
        assert ParentStep(s, s.(pending := false, pc := Reaping));
      } else {
        var i := SomeRunning(s);
        var s' := s.(children := s.children[i := Zombie], pending := true);
        assert Exit(s, s', i);
        assert ChildStep(s, s');
      }
    case Reaping =>
      if i: nat :| i < |s.children| && s.children[i] == Zombie {
        var s' := s.(children := s.children[i := Reaped], numLiveChildren := s.numLiveChildren - 1);
        assert Reap(s, s', i);
        assert ChildStep(s, s');
      } else {
        assert ParentStep(s, s.(pc := Returning));
      }
    case Returning => assert ParentStep(s, s.(pc := Testing, sigCnt := s.sigCnt + 1));
    case Exited =>
  }

  lemma SomeRunning(s: State) returns (i: nat)
    requires Inv(s) && s.pc == Suspended && !s.pending
    ensures i < |s.children| && s.children[i] == Running
  {
    hide Count;
    CountPositive(s.children, Zombie);
    CountAll(s.children, Reaped);
    i :| 0 <= i < |s.children| && s.children[i] != Reaped;
    assert s.children[i] in s.children;
  }

  lemma {:induction false} RunKeeps(ss: seq<State>)
    requires Run(ss)
    ensures Inv(ss[|ss| - 1]) && |ss[|ss| - 1].children| == |ss[0].children|
    ensures |ss| - 1 + Work(ss[|ss| - 1]) <= Work(ss[0]) + 5 * ss[|ss| - 1].others
    decreases |ss|
  {
    hide Inv, Work, Step;
    if |ss| == 1 {
      InitInv(ss[0]);
    } else {
      var init := ss[..|ss| - 1];
      forall i | 0 <= i < |init| - 1 ensures Step(init[i], init[i + 1]) {
        assert Step(ss[i], ss[i + 1]);
      }
      RunKeeps(init);
      assert Step(ss[|ss| - 2], ss[|ss| - 1]);
      StepKeeps(ss[|ss| - 2], ss[|ss| - 1]);
      StepWorks(ss[|ss| - 2], ss[|ss| - 1]);
      SameChildren(ss[|ss| - 2], ss[|ss| - 1]);
    }
  }

  lemma SameChildren(s: State, s': State)
    requires Step(s, s')
    ensures |s'.children| == |s.children|
  {
  }

  lemma WorkAtFirst(s: State)
    requires Init(s)
    ensures Work(s) == 7 * |s.children| + 3
  {
    hide Count;
    CountAll(s.children, NotForked);
    CountPositive(s.children, Running);
    CountPositive(s.children, Zombie);
  }

  // ---------------------------------------------------------------- what is counted

  /** The handler starts. */
  ghost predicate Caught(s: State, s': State) {
    s.pc == Suspended && s'.pc == Reaping
  }

  /** How often the handler starts in a run. */
  ghost function TimesCaught(ss: seq<State>): nat {
    if |ss| < 2 then 0 else TimesCaught(ss[..|ss| - 1]) + One(Caught(ss[|ss| - 2], ss[|ss| - 1]))
  }

  /** How often a child is stopped or continued in a run. */
  ghost function TimesStopped(ss: seq<State>): nat {
    if |ss| < 2 then 0
    else TimesStopped(ss[..|ss| - 1]) + One(ss[|ss| - 2].others != ss[|ss| - 1].others)
  }

  /** In every run sigCnt is the number of times the handler was started, less the one time that it has not returned
      from, and numLiveChildren the number of children not reaped. */
  lemma {:induction false} SigCntIsTimesCaught(ss: seq<State>)
    requires Run(ss)
    ensures var s := ss[|ss| - 1];
      && s.sigCnt == TimesCaught(ss) - (if s.pc == Reaping || s.pc == Returning then 1 else 0)
      && s.numLiveChildren == |s.children| - Count(s.children, Reaped)
      && s.others == TimesStopped(ss)
    decreases |ss|
  {
    RunKeeps(ss);
    hide Count, Step, ForkOrder;
    if |ss| > 1 {
      var init := ss[..|ss| - 1];
      forall i | 0 <= i < |init| - 1 ensures Step(init[i], init[i + 1]) {
        assert Step(ss[i], ss[i + 1]);
      }
      SigCntIsTimesCaught(init);
      assert Step(ss[|ss| - 2], ss[|ss| - 1]);
      OneCaught(ss[|ss| - 2], ss[|ss| - 1]);
    }
  }

  lemma OneCaught(s: State, s': State)
    requires Step(s, s')
    ensures s'.sigCnt + One(InHandler(s')) == s.sigCnt + One(InHandler(s)) + One(Caught(s, s'))
    ensures s'.others == s.others || (s'.others == s.others + 1 && Running in s.children && s'.children == s.children)
  {
  }

  ghost predicate AllReaped(s: State) {
    forall i :: 0 <= i < |s.children| ==> s.children[i] == Reaped
  }

  /** Whenever the children exit, stop and continue, the program can step until it comes to its exit, within so many
      steps. At the exit each child was reaped, and the count printed is how often SIGCHLD was caught: at least once and
      at most once for each of those events. */
  lemma EveryRunEnds(ss: seq<State>)
    requires Run(ss)
    ensures |ss| - 1 <= 7 * |ss[0].children| + 3 + 5 * ss[|ss| - 1].others
    ensures ss[|ss| - 1].pc != Exited ==>
      CanStep(ss[|ss| - 1])
    ensures ss[|ss| - 1].pc == Exited ==>
      && AllReaped(ss[|ss| - 1])
      && ss[|ss| - 1].sigCnt == TimesCaught(ss)
      && ss[|ss| - 1].sigCnt <= |ss[0].children| + ss[|ss| - 1].others
      && (|ss[0].children| > 0 ==> 1 <= ss[|ss| - 1].sigCnt)
  {
    RunKeeps(ss);
    SigCntIsTimesCaught(ss);
    WorkAtFirst(ss[0]);
    var s := ss[|ss| - 1];
    hide TimesCaught, Run, Work, Count, CanStep;
    NeverSleepsForEver(s);
    CountAll(s.children, Reaped);
    CountBoth(s.children, Zombie, Reaped);
  }
}
