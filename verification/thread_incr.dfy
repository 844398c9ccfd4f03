/** thread_incr.c: two threads increment a global without synchronisation; single loads and stores are atomic and take
    effect in one order. */
module ThreadIncr {

  datatype Phase = Loading | Adding | Storing

  datatype Thread = Thread(loc: int, j: nat, pc: Phase)

  datatype State = State(glob: int, threads: seq<Thread>, loops: nat)

  ghost predicate Init(s: State) {
    && s.glob == 0 && |s.threads| == 2
    && forall t :: 0 <= t < 2 ==> s.threads[t].j == 0 && s.threads[t].pc == Loading
  }

  ghost predicate Load(s: State, s': State, t: nat) {
    && t < |s.threads| && s.threads[t].pc == Loading && s.threads[t].j < s.loops
    && s' == s.(threads := s.threads[t := s.threads[t].(loc := s.glob, pc := Adding)])
  }

  ghost predicate Add(s: State, s': State, t: nat) {
    && t < |s.threads| && s.threads[t].pc == Adding
    && s' == s.(threads := s.threads[t := s.threads[t].(loc := s.threads[t].loc + 1, pc := Storing)])
  }

  ghost predicate Store(s: State, s': State, t: nat) {
    && t < |s.threads| && s.threads[t].pc == Storing
    && s' == s.(glob := s.threads[t].loc,
                threads := s.threads[t := s.threads[t].(j := s.threads[t].j + 1, pc := Loading)])
  }

  ghost predicate ThreadStep(s: State, s': State, t: nat) {
    Load(s, s', t) || Add(s, s', t) || Store(s, s', t)
  }

  ghost predicate Step(s: State, s': State) {
    exists t: nat :: ThreadStep(s, s', t)
  }

  ghost predicate Done(s: State) {
    forall t :: 0 <= t < |s.threads| ==> s.threads[t].j == s.loops
  }

  ghost predicate Run(ss: seq<State>) {
    ss != [] && Init(ss[0]) && forall i :: 0 <= i < |ss| - 1 ==> Step(ss[i], ss[i + 1])
  }

  // ---------------------------------------------------------------- no run leaves the bounds

  /** The value a thread holds, as it was when loaded. */
  function Loaded(th: Thread): int {
    if th.pc == Storing then th.loc - 1 else th.loc
  }

  /** Past its first increment a thread never again loads zero, and nobody holds more than the increments made. */
  ghost predicate ThreadOk(s: State, th: Thread, other: Thread) {
    && th.j <= s.loops && (th.pc != Loading ==> th.j < s.loops)
    && (th.pc != Loading ==> 0 <= Loaded(th) <= th.j + other.j)
    && (th.j > 0 ==> s.glob > 0 && (th.pc != Loading ==> Loaded(th) > 0))
  }

  ghost predicate Inv(s: State) {
    && |s.threads| == 2
    && ThreadOk(s, s.threads[0], s.threads[1]) && ThreadOk(s, s.threads[1], s.threads[0])
    && 0 <= s.glob <= s.threads[0].j + s.threads[1].j
    && (s.threads[0].j == s.threads[1].j == s.loops ==> s.glob >= s.loops || s.glob >= 2)
  }

  lemma ThreadKeeps(s: State, s': State, t: nat, o: nat)
    requires |s.threads| == 2 && t < 2 && o == 1 - t && ThreadStep(s, s', t)
    requires ThreadOk(s, s.threads[t], s.threads[o]) && ThreadOk(s, s.threads[o], s.threads[t])
    requires 0 <= s.glob <= s.threads[t].j + s.threads[o].j
    ensures |s'.threads| == 2 && s'.loops == s.loops && s'.threads[o] == s.threads[o]
    ensures ThreadOk(s', s'.threads[t], s'.threads[o]) && ThreadOk(s', s'.threads[o], s'.threads[t])
    ensures 0 <= s'.glob <= s'.threads[t].j + s'.threads[o].j
    ensures s'.threads[t].j == s'.loops ==>
      s'.glob >= s.loops || s'.glob >= 2
  {
  }

  lemma StepKeeps(s: State, s': State)
    requires Inv(s) && Step(s, s')
    ensures Inv(s') && s'.loops == s.loops
  {
    var t: nat :| ThreadStep(s, s', t);
    assert t == 0 || t == 1;
    hide ThreadStep, ThreadOk;
    ThreadKeeps(s, s', t, 1 - t);
  }

  lemma {:induction false} RunKeeps(ss: seq<State>)
    requires Run(ss)
    ensures Inv(ss[|ss| - 1]) && ss[|ss| - 1].loops == ss[0].loops
    decreases |ss|
  {
    if |ss| > 1 {
      hide Inv, Step, Init;
      var init := ss[..|ss| - 1];
      forall i | 0 <= i < |init| - 1 ensures Step(init[i], init[i + 1]) {
        assert Step(ss[i], ss[i + 1]);
      }
      RunKeeps(init);
      assert Step(ss[|ss| - 2], ss[|ss| - 1]);
      StepKeeps(ss[|ss| - 2], ss[|ss| - 1]);
    }
  }

  // ---------------------------------------------------------------- every value in the bounds has a run

  ghost predicate Reachable(s: State) {
    exists ss :: Run(ss) && ss[|ss| - 1] == s
  }

  lemma StepReaches(s: State, s': State, t: nat)
    requires Reachable(s) && ThreadStep(s, s', t)
    ensures Reachable(s')
  {
    hide ThreadStep, Init;
    var ss :| Run(ss) && ss[|ss| - 1] == s;
    var longer := ss + [s'];
    assert Step(s, s');
    forall i | 0 <= i < |longer| - 1 ensures Step(longer[i], longer[i + 1]) {
      if i < |ss| - 1 {
        assert Step(ss[i], ss[i + 1]);
      }
    }
    assert Run(longer);
  }

  function Loads(s: State, t: nat): State
    requires t < |s.threads|
  {
    s.(threads := s.threads[t := s.threads[t].(loc := s.glob, pc := Adding)])
  }

  function Stores(s: State, t: nat): State
    requires t < |s.threads|
  {
    s.(glob := s.threads[t].loc + 1,
       threads := s.threads[t := Thread(s.threads[t].loc + 1, s.threads[t].j + 1, Loading)])
  }

  lemma LoadReaches(s: State, t: nat)
    requires Reachable(s) && t < |s.threads| && s.threads[t].pc == Loading && s.threads[t].j < s.loops
    ensures Reachable(Loads(s, t))
  {
    hide Reachable;
    StepReaches(s, Loads(s, t), t);
  }

  lemma StoreReaches(s: State, t: nat)
    requires Reachable(s) && t < |s.threads| && s.threads[t].pc == Adding
    ensures Reachable(Stores(s, t))
  {
    hide Reachable;
    var th := s.threads[t];
    var added := s.(threads := s.threads[t := th.(loc := th.loc + 1, pc := Storing)]);
    StepReaches(s, added, t);
    assert added.threads[t := Thread(th.loc + 1, th.j + 1, Loading)]
        == s.threads[t := Thread(th.loc + 1, th.j + 1, Loading)];
    StepReaches(added, Stores(s, t), t);
  }

  /** A thread makes n increments while the other does not move. */
  lemma {:induction false} AloneReaches(s: State, t: nat, n: nat) returns (s': State)
    requires Reachable(s) && |s.threads| == 2 && t < 2 && s.threads[t].pc == Loading && s.threads[t].j + n <= s.loops
    ensures Reachable(s') && s'.glob == s.glob + n && s'.loops == s.loops && |s'.threads| == 2
    ensures s'.threads[t].j == s.threads[t].j + n && s'.threads[t].pc == Loading
    ensures s'.threads[1 - t] == s.threads[1 - t]
    decreases n
  {
    hide Reachable;
    if n == 0 {
      s' := s;
    } else {
      s' := AloneReaches(s, t, n - 1);
      LoadReaches(s', t);
      s' := Loads(s', t);
      StoreReaches(s', t);
      s' := Stores(s', t);
    }
  }

  function Start(loops: nat): State {
    State(0, [Thread(0, 0, Loading), Thread(0, 0, Loading)], loops)
  }

  lemma StartReachable(loops: nat)
    ensures Reachable(Start(loops))
  {
    assert Run([Start(loops)]);
    assert [Start(loops)][|[Start(loops)]| - 1] == Start(loops);
  }

  /** One thread holds the initial zero while the other makes x increments, and its store undoes them. */
  lemma LosingReaches(loops: nat, x: nat) returns (s: State)
    requires 1 <= loops && x <= loops
    ensures Reachable(s) && s.loops == loops && |s.threads| == 2 && s.glob == 1
    ensures s.threads[0].j == 1 && s.threads[0].pc == Loading
    ensures s.threads[1].j == x && s.threads[1].pc == Loading
  {
    hide Reachable;
    s := Start(loops);
    StartReachable(loops);
    LoadReaches(s, 0);
    s := AloneReaches(Loads(s, 0), 1, x);
    StoreReaches(s, 0);
    s := Stores(s, 0);
  }

  lemma HighReached(loops: nat, v: int) returns (s: State)
    requires 1 <= loops <= v <= 2 * loops
    ensures Reachable(s) && s.loops == loops && Done(s) && s.glob == v
  {
    hide Reachable;
    s := LosingReaches(loops, 2 * loops - v);
    s := AloneReaches(s, 0, loops - 1);
    s := AloneReaches(s, 1, v - loops);
  }

  lemma LowReached(loops: nat, v: int) returns (s: State)
    requires 2 <= v <= loops
    ensures Reachable(s) && s.loops == loops && Done(s) && s.glob == v
  {
    hide Reachable;
    s := LosingReaches(loops, loops - 1);
    LoadReaches(s, 1);
    s := AloneReaches(Loads(s, 1), 0, loops + 1 - v);
    StoreReaches(s, 1);
    s := AloneReaches(Stores(s, 1), 0, v - 2);
  }

  /** The final values of the counter are exactly those from the lesser of 2 and loops up to 2 * loops. */
  lemma FinalValues(loops: nat, v: int)
    requires loops >= 1
    ensures (exists s :: Reachable(s) && s.loops == loops && Done(s) && s.glob == v)
       <==> (v >= 2 || v >= loops) && v <= 2 * loops
  {
    forall s | Reachable(s) && s.loops == loops && Done(s)
      ensures (s.glob >= 2 || s.glob >= loops) && s.glob <= 2 * loops
    {
      var ss :| Run(ss) && ss[|ss| - 1] == s;
      RunKeeps(ss);
    }
    hide Reachable, Done;
    if loops <= v <= 2 * loops {
      var s := HighReached(loops, v);
    } else if 2 <= v <= 2 * loops {
      var s := LowReached(loops, v);
    }
  }
}
