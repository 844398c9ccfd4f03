/** thread_incr_mutex.c: the same increments, each made with a mutex held. */
module ThreadIncrMutex {

  datatype Phase = Locking | Loading | Adding | Storing | Unlocking

  datatype Thread = Thread(loc: int, j: nat, pc: Phase)

  datatype Owner = Free | Held(t: nat)

  datatype State = State(glob: int, owner: Owner, threads: seq<Thread>, loops: nat)

  ghost predicate Init(s: State) {
    && s.glob == 0 && s.owner == Free && |s.threads| == 2
    && forall t :: 0 <= t < 2 ==> s.threads[t].j == 0 && s.threads[t].pc == Locking
  }

  ghost predicate Lock(s: State, s': State, t: nat) {
    && t < |s.threads| && s.threads[t].pc == Locking && s.threads[t].j < s.loops && s.owner == Free
    && s' == s.(owner := Held(t), threads := s.threads[t := s.threads[t].(pc := Loading)])
  }

  ghost predicate Load(s: State, s': State, t: nat) {
    && t < |s.threads| && s.threads[t].pc == Loading
    && s' == s.(threads := s.threads[t := s.threads[t].(loc := s.glob, pc := Adding)])
  }

  ghost predicate Add(s: State, s': State, t: nat) {
    && t < |s.threads| && s.threads[t].pc == Adding
    && s' == s.(threads := s.threads[t := s.threads[t].(loc := s.threads[t].loc + 1, pc := Storing)])
  }

  ghost predicate Store(s: State, s': State, t: nat) {
    && t < |s.threads| && s.threads[t].pc == Storing
    && s' == s.(glob := s.threads[t].loc, threads := s.threads[t := s.threads[t].(pc := Unlocking)])
  }

  /** The critical section is complete. */
  ghost predicate Unlock(s: State, s': State, t: nat) {
    && t < |s.threads| && s.threads[t].pc == Unlocking
    && s' == s.(owner := Free, threads := s.threads[t := s.threads[t].(j := s.threads[t].j + 1, pc := Locking)])
  }

  ghost predicate ThreadStep(s: State, s': State, t: nat) {
    Lock(s, s', t) || Load(s, s', t) || Add(s, s', t) || Store(s, s', t) || Unlock(s, s', t)
  }

  ghost predicate Step(s: State, s': State) {
    exists t: nat :: ThreadStep(s, s', t)
  }

  ghost predicate Done(s: State) {
    forall t :: 0 <= t < |s.threads| ==> s.threads[t].j == s.loops
  }

  /** What the thread inside the critical section has added already. */
  function Stored(th: Thread): int {
    if th.pc == Unlocking then 1 else 0
  }

  ghost predicate ThreadOk(s: State, t: nat)
    requires |s.threads| == 2 && t < 2
  {
    var th := s.threads[t];
    && th.j <= s.loops && (th.pc != Locking ==> th.j < s.loops)
    && (s.owner == Held(t) <==> th.pc != Locking)
    && (th.pc == Adding ==> th.loc == s.glob)
    && (th.pc == Storing ==> th.loc == s.glob + 1)
  }

  ghost predicate Inv(s: State) {
    && |s.threads| == 2 && ThreadOk(s, 0) && ThreadOk(s, 1)
    && (s.owner.Held? ==> s.owner.t < 2)
    && s.glob == s.threads[0].j + s.threads[1].j + Stored(s.threads[0]) + Stored(s.threads[1])
  }

  function Left(pc: Phase): int {
    match pc case Locking => 0 case Loading => -1 case Adding => -2 case Storing => -3 case Unlocking => -4
  }

  /** Steps that a run can still have. */
  function Work(s: State): int
    requires |s.threads| == 2
  {
    5 * (2 * s.loops - s.threads[0].j - s.threads[1].j) + Left(s.threads[0].pc) + Left(s.threads[1].pc)
  }

  lemma OwnKept(s: State, s': State, t: nat)
    requires Inv(s) && t < 2 && ThreadStep(s, s', t)
    ensures |s'.threads| == 2 && s'.threads[1 - t] == s.threads[1 - t] && s'.loops == s.loops
    ensures ThreadOk(s', t) && (s'.owner.Held? ==> s'.owner.t < 2)
    ensures s'.glob - s.glob
         == s'.threads[t].j + Stored(s'.threads[t]) - s.threads[t].j - Stored(s.threads[t])
    ensures 5 * s.threads[t].j - Left(s.threads[t].pc) + 1 == 5 * s'.threads[t].j - Left(s'.threads[t].pc)
  {
    assert ThreadOk(s, t);
    hide Inv;
  }

  lemma OtherKept(s: State, s': State, t: nat)
    requires Inv(s) && t < 2 && ThreadStep(s, s', t) && |s'.threads| == 2
    ensures ThreadOk(s', 1 - t)
  {
    assert ThreadOk(s, t) && ThreadOk(s, 1 - t);
    assert s'.threads[1 - t] == s.threads[1 - t];
    hide Inv;
  }

  lemma StepKeeps(s: State, s': State)
    requires Inv(s) && Step(s, s')
    ensures Inv(s') && s'.loops == s.loops && Work(s') == Work(s) - 1
  {
    var t: nat :| ThreadStep(s, s', t);
    assert t == 0 || t == 1;
    hide ThreadStep, ThreadOk, Stored, Left;
    OwnKept(s, s', t);
    OtherKept(s, s', t);
  }

  ghost predicate Run(ss: seq<State>) {
    ss != [] && Init(ss[0]) && forall i :: 0 <= i < |ss| - 1 ==> Step(ss[i], ss[i + 1])
  }

  lemma {:induction false} RunKeeps(ss: seq<State>)
    requires Run(ss)
    ensures var s := ss[|ss| - 1]; Inv(s) && s.loops == ss[0].loops && Work(s) == 10 * s.loops - (|ss| - 1)
    decreases |ss|
  {
    if |ss| > 1 {
      hide Inv, Step, Init, Work;
      var init := ss[..|ss| - 1];
      forall i | 0 <= i < |init| - 1 ensures Step(init[i], init[i + 1]) {
        assert Step(ss[i], ss[i + 1]);
      }
      RunKeeps(init);
      assert Step(ss[|ss| - 2], ss[|ss| - 1]);
      StepKeeps(ss[|ss| - 2], ss[|ss| - 1]);
    }
  }

  lemma NotDoneCanStep(s: State)
    requires Inv(s)
    ensures Done(s) <==> forall s' :: !Step(s, s')
  {
    if !Done(s) {
      var t := if s.owner == Free then if s.threads[0].j < s.loops then 0 else 1 else s.owner.t;
      var th := s.threads[t];
      assert ThreadOk(s, t);
      var s' := match th.pc
        case Locking => s.(owner := Held(t), threads := s.threads[t := th.(pc := Loading)])
        case Loading => s.(threads := s.threads[t := th.(loc := s.glob, pc := Adding)])
        case Adding => s.(threads := s.threads[t := th.(loc := th.loc + 1, pc := Storing)])
        case Storing => s.(glob := th.loc, threads := s.threads[t := th.(pc := Unlocking)])
        case Unlocking => s.(owner := Free, threads := s.threads[t := th.(j := th.j + 1, pc := Locking)]);
      assert ThreadStep(s, s', t);
      assert Step(s, s');
    }
  }

  /** In every run: whenever the mutex is free, the counter is the number of critical sections completed, and a run that
      cannot go on has length 10 * loops and counted every one. */
  lemma NothingLost(ss: seq<State>)
    requires Run(ss)
    ensures var s := ss[|ss| - 1];
      && |s.threads| == 2
      && (s.owner == Free ==> s.glob == s.threads[0].j + s.threads[1].j)
      && ((forall s' :: !Step(s, s')) <==> |ss| - 1 == 10 * s.loops)
      && ((forall s' :: !Step(s, s')) ==> s.glob == 2 * s.loops)
  {
    var s := ss[|ss| - 1];
    RunKeeps(ss);
    hide Run, Step;
    NotDoneCanStep(s);
  }
}
