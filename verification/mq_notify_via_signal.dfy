/** mq_notify_via_signal.c: the handler sets a flag, and the main loop, when it sees the flag, clears it, registers
    again and drains the queue. The signal may arrive at any moment. */
module MqNotifyViaSignal {
  import opened Basics
  import opened MessageQueue

  /** Where main() is: about to look at the flag, about to clear it, about to register, or receiving. */
  datatype Phase = Looking | Clearing | Registering | Draining

  /** pending says that the notification signal was generated and not yet delivered. */
  datatype State = State(q: Queue, pending: bool, gotSig: bool, pc: Phase)

  ghost predicate Init(s: State) {
    FreshQueue(s.q) && !s.pending && s.gotSig && s.pc == Looking
  }

  ghost predicate Send(s: State, s': State, m: int) {
    s' == s.(q := Sent(s.q, m), pending := s.pending || Notifies(s.q))
  }

  ghost predicate Handler(s: State, s': State) {
    s.pending && s' == s.(pending := false, gotSig := true)
  }

  /** The flag is not set: main() sleeps and looks again. */
  ghost predicate LookAgain(s: State, s': State) {
    s.pc == Looking && !s.gotSig && s' == s
  }

  ghost predicate SeeFlag(s: State, s': State) {
    s.pc == Looking && s.gotSig && s' == s.(pc := Clearing)
  }

  ghost predicate ClearFlag(s: State, s': State) {
    s.pc == Clearing && s' == s.(gotSig := false, pc := Registering)
  }

  ghost predicate Register(s: State, s': State) {
    s.pc == Registering && s' == s.(q := Registered(s.q), pc := Draining)
  }

  ghost predicate Receive(s: State, s': State) {
    s.pc == Draining && Receives(s.q, s'.q) && s' == s.(q := s'.q)
  }

  /** mq_receive() gives EAGAIN. */
  ghost predicate Drained(s: State, s': State) {
    s.pc == Draining && s.q.messages == [] && s' == s.(pc := Looking)
  }

  /** Delivery of a signal and every step of main() but going back to sleep. */
  ghost predicate WorkStep(s: State, s': State) {
    Handler(s, s') || SeeFlag(s, s') || ClearFlag(s, s') || Register(s, s') || Receive(s, s') || Drained(s, s')
  }

  ghost predicate Step(s: State, s': State) {
    (exists m :: Send(s, s', m)) || LookAgain(s, s') || WorkStep(s, s')
  }

  /** The notification is in exactly one place: with the kernel as a registration, pending as a signal, in the flag, or
      with main() between clearing the flag and registering. */
  ghost predicate OneToken(s: State) {
    One(s.q.registered) + One(s.pending) + One(s.gotSig) + One(s.pc == Registering) == 1
  }

  /** So mq_notify() never finds a registration in place, and while messages wait the notification is not with the
      kernel, unless main() is draining. */
  ghost predicate Inv(s: State) {
    && !s.q.busy && Conserved(s.q) && OneToken(s)
    && (s.pc == Clearing ==> s.gotSig)
    && (s.q.messages != [] ==> !s.q.registered || s.pc == Draining)
  }

  /** A notification never finds its signal already pending, so signals are not merged. */
  lemma StepKeeps(s: State, s': State)
    requires Inv(s) && Step(s, s')
    ensures Inv(s')
    ensures Notifies(s.q) ==> !s.pending
  {
    hide Receives, Conserved;
    if m :| Send(s, s', m) {
      SendKeeps(s, s', m);
    } else if WorkStep(s, s') {
      WorkStepKeeps(s, s');
    }
  }

  lemma WorkStepKeeps(s: State, s': State)
    requires Inv(s) && WorkStep(s, s')
    ensures Inv(s')
  {
    hide Receives, Conserved;
    if Receive(s, s') {
      ReceiveConserves(s.q, s'.q);
    } else {
      RegisteringConserves(s.q);
    }
  }

  lemma SendKeeps(s: State, s': State, m: int)
    requires Inv(s) && Send(s, s', m)
    ensures Inv(s')
  {
    SentConserves(s.q, m);
    hide Conserved;
  }

  ghost predicate Run(ss: seq<State>) {
    ss != [] && Init(ss[0]) && forall i :: 0 <= i < |ss| - 1 ==> Step(ss[i], ss[i + 1])
  }

  lemma RunWithout(ss: seq<State>)
    requires Run(ss) && |ss| > 1
    ensures Run(ss[..|ss| - 1]) && Step(ss[|ss| - 2], ss[|ss| - 1])
  {
    hide Step, Init;
    var init := ss[..|ss| - 1];
    forall i | 0 <= i < |init| - 1 ensures Step(init[i], init[i + 1]) {
      assert Step(ss[i], ss[i + 1]);
    }
  }

  /** Whatever the queue holds at first and whenever messages and signals arrive. No notification finds its signal
      already pending. */
  lemma {:induction false} RunKeeps(ss: seq<State>)
    requires Run(ss)
    ensures Inv(ss[|ss| - 1]) && (Notifies(ss[|ss| - 1].q) ==> !ss[|ss| - 1].pending)
    decreases |ss|
  {
    hide Step, Init, Inv, Notifies;
    if |ss| == 1 {
      InitInv(ss[0]);
    } else {
      RunWithout(ss);
      RunKeeps(ss[..|ss| - 1]);
      StepKeeps(ss[|ss| - 2], ss[|ss| - 1]);
    }
    TokenApart(ss[|ss| - 1]);
  }

  lemma TokenApart(s: State)
    requires Inv(s)
    ensures Notifies(s.q) ==> !s.pending
  {
  }

  lemma InitInv(s: State)
    requires Init(s)
    ensures Inv(s)
  {
  }

  // ---------------------------------------------------------------- every message is received in the end

  /** What main() and the handler still have to do before they wait for the next message. */
  function Work(s: State): nat {
    |s.q.messages| + 6 * One(s.pending)
    + if s.pc == Clearing then 4
      else 5 * One(s.gotSig) + (if s.pc == Registering then 3 else if s.pc == Draining then 1 else 0)
  }

  lemma WorkStepWorks(s: State, s': State)
    requires Inv(s) && WorkStep(s, s')
    ensures Work(s') < Work(s)
  {
    hide Receives, Conserved;
    if Receive(s, s') {
      ReceiveConserves(s.q, s'.q);
    }
  }

  /** All was received, and main() sleeps, registered for the next message. */
  ghost predicate Done(s: State) {
    && s.q.registered && s.q.messages == [] && s.q.received == s.q.sent
    && s.pc == Looking && !s.gotSig && !s.pending
  }

  lemma DrainerCanStep(s: State) returns (s': State)
    requires s.pc == Draining
    ensures WorkStep(s, s')
  {
    if s.q.messages == [] {
      s' := s.(pc := Looking);
    } else {
      var m := s.q.messages[0];
      assert 0 <= 0 < |s.q.messages| && s.q.messages[0] == m;
      s' := s.(q := s.q.(messages := s.q.messages[..0] + s.q.messages[0 + 1..],
          received := s.q.received + multiset{m}));
      assert Receive(s, s');
    }
  }

  /** The program never sleeps before that: short of Done, a signal can be delivered or main() has work. */
  lemma NotDoneCanStep(s: State)
    requires Inv(s)
    ensures Done(s) <==> forall s' :: !WorkStep(s, s')
  {
    hide Receives;
    if s.pending {
      assert WorkStep(s, s.(pending := false, gotSig := true));
    } else {
      match s.pc
      case Looking => assert s.gotSig ==> WorkStep(s, s.(pc := Clearing));
      case Clearing => assert WorkStep(s, s.(gotSig := false, pc := Registering));
      case Registering => assert WorkStep(s, s.(q := Registered(s.q), pc := Draining));
      case Draining => var s' := DrainerCanStep(s);
    }
  }

  /** Once senders stop, the work is done after finitely many steps, however sleeping is interleaved with them. */
  lemma {:induction false} WorkRunIsShort(ss: seq<State>)
    requires ss != [] && Inv(ss[0]) && forall i :: 0 <= i < |ss| - 1 ==> WorkStep(ss[i], ss[i + 1])
    ensures |ss| - 1 <= Work(ss[0])
    decreases |ss|
  {
    hide Inv, WorkStep, Work;
    if |ss| > 1 {
      assert WorkStep(ss[0], ss[1]);
      WorkStepWorks(ss[0], ss[1]);
      StepKeeps(ss[0], ss[1]);
      var rest := ss[1..];
      forall i | 0 <= i < |rest| - 1 ensures WorkStep(rest[i], rest[i + 1]) {
        assert WorkStep(ss[i + 1], ss[i + 2]);
      }
      WorkRunIsShort(rest);
    }
  }
}
