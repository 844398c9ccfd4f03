/** mq_notify_via_thread.c: each notification starts a thread that registers again and then drains the queue. */
module MqNotifyViaThread {
  import opened MessageQueue
  import opened Tally

  /** Where a thread is: before its mq_notify(), receiving messages, or finished. Thread 0 is main(). */
  datatype Phase = Starting | Draining | Finished

  datatype State = State(q: Queue, threads: seq<Phase>)

  ghost predicate Init(s: State) {
    FreshQueue(s.q) && s.threads == [Starting]
  }

  ghost predicate Send(s: State, s': State, m: int) {
    s' == State(Sent(s.q, m), s.threads + if Notifies(s.q) then [Starting] else [])
  }

  ghost predicate Setup(s: State, s': State, t: nat) {
    t < |s.threads| && s.threads[t] == Starting && s' == State(Registered(s.q), s.threads[t := Draining])
  }

  ghost predicate Receive(s: State, s': State, t: nat) {
    t < |s.threads| && s.threads[t] == Draining && Receives(s.q, s'.q) && s'.threads == s.threads
  }

  /** mq_receive() gives EAGAIN. */
  ghost predicate Finish(s: State, s': State, t: nat) {
    t < |s.threads| && s.threads[t] == Draining && s.q.messages == [] && s' == s.(threads := s.threads[t := Finished])
  }

  ghost predicate ProgramStep(s: State, s': State) {
    exists t: nat :: Setup(s, s', t) || Receive(s, s', t) || Finish(s, s', t)
  }

  ghost predicate Step(s: State, s': State) {
    (exists m :: Send(s, s', m)) || ProgramStep(s, s')
  }

  /** Exactly one of these holds: the process is registered, or one thread is still to register. So mq_notify() never
      finds a registration in place. While messages wait, some thread drains or is about to. */
  ghost predicate Inv(s: State) {
    && !s.q.busy && Conserved(s.q)
    && Count(s.threads, Starting) == (if s.q.registered then 0 else 1)
    && (s.q.messages != [] ==> Starting in s.threads || Draining in s.threads)
  }

  lemma SendKeeps(s: State, s': State, m: int)
    requires Inv(s) && Send(s, s', m)
    ensures Inv(s')
  {
    SentConserves(s.q, m);
    CountPositive(s.threads, Starting);
    CountAppend(s.threads, Starting, Starting);
    assert s.threads + [] == s.threads;
    hide Count, Conserved;
    if Notifies(s.q) {
      assert s'.threads[|s.threads|] == Starting;
    }
  }

  lemma ThreadKeeps(s: State, s': State, t: nat)
    requires Inv(s) && (Setup(s, s', t) || Receive(s, s', t) || Finish(s, s', t))
    ensures Inv(s')
  {
    hide Count, Receives, Conserved;
    CountPositive(s.threads, Starting);
    if Setup(s, s', t) {
      RegisteringConserves(s.q);
      CountUpdate(s.threads, t, Starting, Draining);
      assert s'.threads[t] == Draining;
    } else if Receive(s, s', t) {
      ReceiveConserves(s.q, s'.q);
    } else {
      CountUpdate(s.threads, t, Starting, Finished);
    }
  }

  lemma StepKeeps(s: State, s': State)
    requires Inv(s) && Step(s, s')
    ensures Inv(s')
  {
    hide Inv, Setup, Receive, Finish, Send;
    if m :| Send(s, s', m) {
      SendKeeps(s, s', m);
    } else {
      var t: nat :| Setup(s, s', t) || Receive(s, s', t) || Finish(s, s', t);
      ThreadKeeps(s, s', t);
    }
  }

  ghost predicate Run(ss: seq<State>) {
    ss != [] && Init(ss[0]) && forall i :: 0 <= i < |ss| - 1 ==> Step(ss[i], ss[i + 1])
  }

  lemma RunWithout(ss: seq<State>)
    requires Run(ss) && |ss| > 1
    ensures Run(ss[..|ss| - 1]) && Step(ss[|ss| - 2], ss[|ss| - 1])
  {
    hide Step, Init;
    var init := ss[..|ss| - 1];
    forall i | 0 <= i < |init| - 1 ensures Step(init[i], init[i + 1]) {
      assert Step(ss[i], ss[i + 1]);
    }
  }

  /** Whatever the queue holds at first and however senders and threads interleave. */
  lemma {:induction false} RunKeeps(ss: seq<State>)
    requires Run(ss)
    ensures Inv(ss[|ss| - 1])
    decreases |ss|
  {
    hide Step, Inv, Init;
    if |ss| == 1 {
      InitInv(ss[0]);
    } else {
      RunWithout(ss);
      RunKeeps(ss[..|ss| - 1]);
      StepKeeps(ss[|ss| - 2], ss[|ss| - 1]);
    }
  }

  lemma InitInv(s: State)
    requires Init(s)
    ensures Inv(s)
  {
    assert s.threads == [] + [Starting];
    CountAppend([], Starting, Starting);
    assert Starting in s.threads;
  }

  // ---------------------------------------------------------------- every message is received in the end

  function Work(s: State): nat {
    |s.q.messages| + 2 * Count(s.threads, Starting) + Count(s.threads, Draining)
  }

  /** The program's steps use up its work, and it can always go on while there is some. */
  lemma ProgramWorks(s: State, s': State)
    requires Inv(s) && ProgramStep(s, s')
    ensures Work(s') < Work(s)
  {
    var t: nat :| Setup(s, s', t) || Receive(s, s', t) || Finish(s, s', t);
    if Setup(s, s', t) {
      CountUpdate(s.threads, t, Starting, Draining);
      CountUpdate(s.threads, t, Draining, Draining);
    } else if Receive(s, s', t) {
      ReceiveConserves(s.q, s'.q);
    } else {
      CountUpdate(s.threads, t, Starting, Finished);
      CountUpdate(s.threads, t, Draining, Finished);
    }
  }

  /** All was received, and the process is registered for the next message. */
  ghost predicate Done(s: State) {
    s.q.registered && s.q.messages == [] && s.q.received == s.q.sent && forall p <- s.threads :: p == Finished
  }

  lemma DrainerCanStep(s: State, t: nat) returns (s': State)
    requires t < |s.threads| && s.threads[t] == Draining
    ensures ProgramStep(s, s')
  {
    if s.q.messages == [] {
      s' := s.(threads := s.threads[t := Finished]);
      assert Finish(s, s', t);
    } else {
      var m := s.q.messages[0];
      assert 0 <= 0 < |s.q.messages| && s.q.messages[0] == m;
      s' := s.(q := s.q.(messages := s.q.messages[..0] + s.q.messages[0 + 1..],
          received := s.q.received + multiset{m}));
      assert Receive(s, s', t);
    }
  }

  /** The program is never stuck before that: short of Done, some thread can step. */
  lemma NotDoneCanStep(s: State)
    requires Inv(s)
    ensures Done(s) <==> forall s' :: !ProgramStep(s, s')
  {
    CountPositive(s.threads, Starting);
    if t: nat :| t < |s.threads| && s.threads[t] == Starting {
      var s' := State(Registered(s.q), s.threads[t := Draining]);
      assert Setup(s, s', t);
      assert ProgramStep(s, s') && Starting in s.threads;
    } else if t: nat :| t < |s.threads| && s.threads[t] == Draining {
      assert Draining in s.threads;
      var s' := DrainerCanStep(s, t);
    } else {
      assert Done(s);
    }
  }

  /** Once senders stop, no run of the program is longer than the work left. */
  lemma {:induction false} ProgramRunIsShort(ss: seq<State>)
    requires ss != [] && Inv(ss[0]) && forall i :: 0 <= i < |ss| - 1 ==> ProgramStep(ss[i], ss[i + 1])
    ensures |ss| - 1 <= Work(ss[0])
    decreases |ss|
  {
    hide Inv, ProgramStep, Work;
    if |ss| > 1 {
      assert ProgramStep(ss[0], ss[1]);
      ProgramWorks(ss[0], ss[1]);
      ProgramIsStep(ss[0], ss[1]);
      StepKeeps(ss[0], ss[1]);
      var rest := ss[1..];
      forall i | 0 <= i < |rest| - 1 ensures ProgramStep(rest[i], rest[i + 1]) {
        assert ProgramStep(ss[i + 1], ss[i + 2]);
      }
      ProgramRunIsShort(rest);
    }
  }

  lemma ProgramIsStep(s: State, s': State)
    requires ProgramStep(s, s')
    ensures Step(s, s')
  {
  }
}
