/** mq_notify_sig.c: the notification signal is blocked but while the main loop waits in sigsuspend(); once woken, the
    loop registers again and drains the queue. Unlike the other two programs it waits before it first drains. */
module MqNotifySig {
  import opened Basics
  import opened MessageQueue

  /** Where main() is: before its first mq_notify(), in sigsuspend(), before the mq_notify() of the loop, or
      receiving. */
  datatype Phase = Starting | Suspended | Registering | Draining

  datatype State = State(q: Queue, pending: bool, pc: Phase)

  ghost predicate Init(s: State) {
    FreshQueue(s.q) && !s.pending && s.pc == Starting
  }

  ghost predicate Send(s: State, s': State, m: int) {
    s' == s.(q := Sent(s.q, m), pending := s.pending || Notifies(s.q))
  }

  ghost predicate FirstRegister(s: State, s': State) {
    s.pc == Starting && s' == s.(q := Registered(s.q), pc := Suspended)
  }

  /** The signal is delivered inside sigsuspend(), which then returns. */
  ghost predicate Wake(s: State, s': State) {
    s.pc == Suspended && s.pending && s' == s.(pending := false, pc := Registering)
  }

  ghost predicate Register(s: State, s': State) {
    s.pc == Registering && s' == s.(q := Registered(s.q), pc := Draining)
  }

  ghost predicate Receive(s: State, s': State) {
    s.pc == Draining && Receives(s.q, s'.q) && s' == s.(q := s'.q)
  }

  /** mq_receive() gives EAGAIN. */
  ghost predicate Drained(s: State, s': State) {
    s.pc == Draining && s.q.messages == [] && s' == s.(pc := Suspended)
  }

  ghost predicate ProgramStep(s: State, s': State) {
    FirstRegister(s, s') || Wake(s, s') || Register(s, s') || Receive(s, s') || Drained(s, s')
  }

  ghost predicate Step(s: State, s': State) {
    (exists m :: Send(s, s', m)) || ProgramStep(s, s')
  }

  /** The notification is with the kernel as a registration, pending as a signal, or with main() about to register. */
  ghost predicate OneToken(s: State) {
    One(s.q.registered) + One(s.pending) + One(s.pc == Starting) + One(s.pc == Registering) == 1
  }

  /** So mq_notify() never finds a registration in place, whatever the queue holds at first. */
  ghost predicate Inv(s: State) {
    !s.q.busy && Conserved(s.q) && OneToken(s)
  }

  /** Messages wait and no notification of them will come. */
  ghost predicate Forgotten(s: State) {
    s.q.messages != [] && s.q.registered && s.pc == Suspended
  }

  lemma ProgramKeeps(s: State, s': State)
    requires Inv(s) && ProgramStep(s, s')
    ensures Inv(s')
    ensures Forgotten(s') ==>
      FirstRegister(s, s')
    ensures !Forgotten(s)
  {
    hide Receives, Conserved;
    if Receive(s, s') {
      ReceiveConserves(s.q, s'.q);
    } else {
      RegisteringConserves(s.q);
    }
  }

  lemma SendKeeps(s: State, s': State, m: int)
    requires Inv(s) && Send(s, s', m)
    ensures Inv(s') && (Forgotten(s) <==> Forgotten(s')) && s'.q.received == s.q.received
  {
    SentConserves(s.q, m);
    hide Conserved;
  }

  ghost predicate RunFrom(s: State, ss: seq<State>) {
    ss != [] && ss[0] == s && forall i :: 0 <= i < |ss| - 1 ==> Step(ss[i], ss[i + 1])
  }

  lemma RunWithout(s: State, ss: seq<State>)
    requires RunFrom(s, ss) && |ss| > 1
    ensures RunFrom(s, ss[..|ss| - 1]) && Step(ss[|ss| - 2], ss[|ss| - 1])
  {
    hide Step;
    var init := ss[..|ss| - 1];
    forall i | 0 <= i < |init| - 1 ensures Step(init[i], init[i + 1]) {
      assert Step(ss[i], ss[i + 1]);
    }
  }

  lemma StepKeeps(s: State, s': State)
    requires Inv(s) && Step(s, s')
    ensures Inv(s')
    ensures s.pc != Starting ==> s'.pc != Starting && Forgotten(s') == Forgotten(s)
    ensures Forgotten(s) ==> s'.q.received == s.q.received
  {
    hide Inv, ProgramStep, Forgotten;
    if m :| Send(s, s', m) {
      SendKeeps(s, s', m);
    } else {
      ProgramKeeps(s, s');
      assert FirstRegister(s, s') ==> s.pc == Starting;
      ProgramLeavesStart(s, s');
    }
  }

  lemma ProgramLeavesStart(s: State, s': State)
    requires ProgramStep(s, s')
    ensures s'.pc != Starting
  {
  }

  /** The token is never lost or doubled. */
  lemma {:induction false} RunKeeps(s: State, ss: seq<State>)
    requires Init(s) && RunFrom(s, ss)
    ensures Inv(ss[|ss| - 1])
    decreases |ss|
  {
    hide Inv, Step;
    if |ss| == 1 {
      InitInv(s, ss);
    } else {
      RunWithout(s, ss);
      RunKeeps(s, ss[..|ss| - 1]);
      StepKeeps(ss[|ss| - 2], ss[|ss| - 1]);
    }
  }

  lemma InitInv(s: State, ss: seq<State>)
    requires Init(s) && RunFrom(s, ss)
    ensures Inv(s) && ss[0] == s
  {
  }

  // ---------------------------------------------------------------- what the queue holds at the first mq_notify()

  /** From the moment after the first mq_notify(), messages are forgotten at the end of a run just when they already
      were at its start; and while they are, none is ever received. */
  lemma {:induction false} ForgottenForEver(s: State, ss: seq<State>)
    requires Inv(s) && s.pc != Starting && RunFrom(s, ss)
    ensures Inv(ss[|ss| - 1]) && ss[|ss| - 1].pc != Starting
    ensures Forgotten(ss[|ss| - 1]) == Forgotten(s)
    ensures Forgotten(s) ==> ss[|ss| - 1].q.received == s.q.received
    decreases |ss|
  {
    if |ss| > 1 {
      hide Inv, Step, RunFrom, Forgotten;
      RunWithout(s, ss);
      ForgottenForEver(s, ss[..|ss| - 1]);
      StepKeeps(ss[|ss| - 2], ss[|ss| - 1]);
    }
  }

  /** Every run receives what is sent if and only if the queue is empty at the first mq_notify(). */
  lemma NothingForgottenIffEmptyAtFirst(s: State, s': State)
    requires Inv(s) && FirstRegister(s, s')
    ensures (forall ss :: RunFrom(s', ss) ==> !Forgotten(ss[|ss| - 1])) <==> s.q.messages == []
  {
    FirstRegisterKeeps(s, s');
    hide Inv, Step, Forgotten, FirstRegister;
    assert RunFrom(s', [s']);
    forall ss | RunFrom(s', ss) ensures Forgotten(ss[|ss| - 1]) == Forgotten(s') {
      ForgottenForEver(s', ss);
    }
    assert [s'][|[s']| - 1] == s';
  }

  lemma FirstRegisterKeeps(s: State, s': State)
    requires Inv(s) && FirstRegister(s, s')
    ensures Inv(s') && s'.pc != Starting && (Forgotten(s') <==> s.q.messages != [])
  {
    hide Conserved;
    RegisteringConserves(s.q);
  }

  // ---------------------------------------------------------------- otherwise every message is received in the end

  /** All was received, and main() waits, registered for the next message. */
  ghost predicate Done(s: State) {
    s.q.registered && s.q.messages == [] && s.q.received == s.q.sent && s.pc == Suspended && !s.pending
  }

  lemma DrainerCanStep(s: State) returns (s': State)
    requires s.pc == Draining
    ensures ProgramStep(s, s')
  {
    if s.q.messages == [] {
      s' := s.(pc := Suspended);
    } else {
      var m := s.q.messages[0];
      assert 0 <= 0 < |s.q.messages| && s.q.messages[0] == m;
      s' := s.(q := s.q.(messages := s.q.messages[..0] + s.q.messages[0 + 1..],
          received := s.q.received + multiset{m}));
      assert Receive(s, s');
    }
  }

  /** sigsuspend() sleeps on only when the work is done, or when messages are forgotten. */
  lemma SleepsIff(s: State)
    requires Inv(s)
    ensures Done(s) || Forgotten(s) <==> forall s' :: !ProgramStep(s, s')
  {
    hide Receives;
    match s.pc
    case Starting => assert ProgramStep(s, s.(q := Registered(s.q), pc := Suspended));
    case Suspended => assert s.pending ==> ProgramStep(s, s.(pending := false, pc := Registering));
    case Registering => assert ProgramStep(s, s.(q := Registered(s.q), pc := Draining));
    case Draining => var s' := DrainerCanStep(s);
  }

  function Work(s: State): nat {
    |s.q.messages| + 4 * One(s.pending)
    + match s.pc case Starting => 1 case Suspended => 0 case Registering => 3 case Draining => 1
  }

  lemma ProgramWorks(s: State, s': State)
    requires Inv(s) && ProgramStep(s, s')
    ensures Work(s') < Work(s)
  {
    hide Receives, Conserved;
    if Receive(s, s') {
      ReceiveConserves(s.q, s'.q);
    }
  }

  /** Once senders stop, the program comes to rest. */
  lemma {:induction false} ProgramRunIsShort(ss: seq<State>)
    requires ss != [] && Inv(ss[0]) && forall i :: 0 <= i < |ss| - 1 ==> ProgramStep(ss[i], ss[i + 1])
    ensures |ss| - 1 <= Work(ss[0])
    decreases |ss|
  {
    hide Inv, ProgramStep, Work;
    if |ss| > 1 {
      assert ProgramStep(ss[0], ss[1]);
      ProgramWorks(ss[0], ss[1]);
      StepKeeps(ss[0], ss[1]);
      var rest := ss[1..];
      forall i | 0 <= i < |rest| - 1 ensures ProgramStep(rest[i], rest[i + 1]) {
        assert ProgramStep(ss[i + 1], ss[i + 2]);
      }
      ProgramRunIsShort(rest);
    }
  }
}
