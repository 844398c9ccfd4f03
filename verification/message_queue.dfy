/** The POSIX message queue as the three notification programs see it. */
module MessageQueue {

  /** The messages queued, whether this process is registered for notification, and what was ever queued and received.
      busy says that mq_notify() found a registration in place, on which the programs exit. */
  datatype Queue = Queue(messages: seq<int>, registered: bool, busy: bool, sent: multiset<int>, received: multiset<int>)

  ghost predicate FreshQueue(q: Queue) {
    !q.registered && !q.busy && q.sent == multiset(q.messages) && q.received == multiset{}
  }

  /** A message arrives. */
  function Sent(q: Queue, m: int): Queue {
    q.(messages := q.messages + [m], sent := q.sent + multiset{m}, registered := q.registered && q.messages != [])
  }

  /** The arrival of a message at an empty queue uses up the registration and notifies the process. */
  predicate Notifies(q: Queue) {
    q.registered && q.messages == []
  }

  /** mq_notify(). */
  function Registered(q: Queue): Queue {
    q.(registered := true, busy := q.busy || q.registered)
  }

  /** mq_receive() of one of the messages; which one depends on their priorities. */
  ghost predicate Receives(q: Queue, q': Queue) {
    exists i :: 0 <= i < |q.messages|
      && q' == q.(messages := q.messages[..i] + q.messages[i + 1..], received := q.received + multiset{q.messages[i]})
  }

  /** Nothing is lost, invented or received twice. */
  ghost predicate Conserved(q: Queue) {
    q.sent == q.received + multiset(q.messages)
  }

  /** A message that arrives is queued and counted as sent. The process is notified exactly if it was registered and
      the queue empty, and then it is registered no longer. */
  lemma SentConserves(q: Queue, m: int)
    requires Conserved(q)
    ensures Conserved(Sent(q, m))
    ensures Sent(q, m).sent == q.sent + multiset{m} && Sent(q, m).received == q.received
    ensures Notifies(q) <==> q.registered && !Sent(q, m).registered
    ensures !q.registered ==> !Sent(q, m).registered
    ensures Notifies(q) ==> Sent(q, m).messages == [m]
  {
  }

  lemma RegisteringConserves(q: Queue)
    requires Conserved(q)
    ensures Conserved(Registered(q))
    ensures Registered(q).registered && Registered(q).messages == q.messages
    ensures Registered(q).busy <==> q.busy || q.registered
  {
  }

  lemma ContentsWithout(s: seq<int>, i: nat)
    requires i < |s|
    ensures multiset(s) == multiset(s[..i] + s[i + 1..]) + multiset{s[i]}
  {
    assert s == s[..i] + [s[i]] + s[i + 1..];
  }

  lemma ReceiveConserves(q: Queue, q': Queue)
    requires Conserved(q) && Receives(q, q')
    ensures Conserved(q') && |q'.messages| == |q.messages| - 1
    ensures q'.registered == q.registered && q'.busy == q.busy && q'.sent == q.sent
  {
    var i :| 0 <= i < |q.messages|
      && q' == q.(messages := q.messages[..i] + q.messages[i + 1..], received := q.received + multiset{q.messages[i]});
    ContentsWithout(q.messages, i);
    assert q'.received + multiset(q'.messages) == q.received + multiset(q.messages);
  }
}
