/** No message is lost or duplicated, whatever the interleaving. */
module StreamConservation {
  import opened Wrappers
  import opened Sums
  import opened StreamProtocol

  /** 1 for a loop that has message `m` in its hand. */
  function Holds(m: Message): Loop -> nat {
    (l: Loop) => if (l.Sending? || l.Broken? || l.Leaving?) && l.m == m then 1 else 0
  }

  /** In how many places message `m` is: queued, blocked, waiting to go back, in hand, or delivered. */
  function Copies(c: Channel, m: Message): nat {
    multiset(c.queue)[m] + c.senders[m] + c.requeues[m] + Sum(c.loops, Holds(m)) + multiset(c.delivered)[m]
  }

  /** Every submitted message is in exactly one place, and the queue respects its capacity. */
  ghost predicate Conserved(c: Channel) {
    && |c.queue| <= CAPACITY
    && forall m: Message :: Copies(c, m) == if m < c.submitted then 1 else 0
  }

  function One(a: Message, b: Message): nat {
    if a == b then 1 else 0
  }

  lemma CountAppend(q: seq<Message>, x: Message, m: Message)
    ensures multiset(q + [x])[m] == multiset(q)[m] + One(x, m)
  {
  }

  lemma CountHead(q: seq<Message>, m: Message)
    requires q != []
    ensures multiset(q[1..])[m] + One(q[0], m) == multiset(q)[m]
  {
    assert q == [q[0]] + q[1..];
  }

  /** A step of loop `i` leaves in the hands what it puts there instead of what it had. */
  lemma HandsMove(loops: seq<Loop>, i: nat, l: Loop, m: Message)
    requires i < |loops|
    ensures Sum(loops[i := l], Holds(m)) + Holds(m)(loops[i]) == Sum(loops, Holds(m)) + Holds(m)(l)
  {
    SumUpdate(loops, i, l, Holds(m));
  }

  /** A push into the queue moves one copy; a `Send` call makes one. */
  lemma PushConserves(c: Channel, op: Op, m: Message)
    requires (op.Send? || op.Accept? || op.Requeue?) && OpEnabled(c, op)
    ensures Copies(OpNext(c, op), m) == Copies(c, m) + if op.Send? then One(c.submitted, m) else 0
  {
  }

  lemma ReceiveConserves(c: Channel, i: nat, m: Message)
    requires OpEnabled(c, Receive(i))
    ensures Copies(OpNext(c, Receive(i)), m) == Copies(c, m)
  {
    hide Sum;
    CountHead(c.queue, m);
    HandsMove(c.loops, i, Sending(c.queue[0]), m);
  }

  lemma SendMsgConserves(c: Channel, i: nat, ok: bool, m: Message)
    requires OpEnabled(c, SendMsg(i, ok))
    ensures Copies(OpNext(c, SendMsg(i, ok)), m) == Copies(c, m)
  {
    hide Sum;
    CountAppend(c.delivered, c.loops[i].m, m);
    HandsMove(c.loops, i, if ok then Waiting else Broken(c.loops[i].m), m);
  }

  lemma LeaveConserves(c: Channel, op: Op, m: Message)
    requires (op.MarkDead? || op.PutBack?) && OpEnabled(c, op)
    ensures Copies(OpNext(c, op), m) == Copies(c, m)
  {
    hide Sum;
    HandsMove(c.loops, op.loop, if op.MarkDead? then Leaving(c.loops[op.loop].m) else Gone, m);
  }

  lemma OpConserves(c: Channel, op: Op, m: Message)
    requires OpEnabled(c, op)
    ensures Copies(OpNext(c, op), m) == Copies(c, m) + if op.Send? then One(c.submitted, m) else 0
  {
    hide Copies;
    match op
    case Receive(i) => ReceiveConserves(c, i, m);
    case SendMsg(i, ok) => SendMsgConserves(c, i, ok, m);
    case MarkDead(i) => LeaveConserves(c, op, m);
    case PutBack(i) => LeaveConserves(c, op, m);
    case _ => PushConserves(c, op, m);
  }

  lemma OpKeepsConserved(c: Channel, op: Op)
    requires Conserved(c) && OpEnabled(c, op)
    ensures Conserved(OpNext(c, op))
  {
    forall m: Message
      ensures Copies(OpNext(c, op), m) == if m < OpNext(c, op).submitted then 1 else 0
    {
      OpConserves(c, op, m);
    }
  }

  /** What callers do to a channel: new stream, new `dead` flag, one more loop. */
  lemma CallersKeepConserved(c: Channel, stream: Option<nat>, dead: bool)
    requires Conserved(c)
    ensures Conserved(c.(stream := stream)) && Conserved(c.(dead := dead))
    ensures Conserved(c.(loops := c.loops + [Waiting]))
  {
    hide Sum;
    forall m: Message
      ensures Copies(c.(stream := stream), m) == Copies(c.(dead := dead), m) == Copies(c, m)
      ensures Copies(c.(loops := c.loops + [Waiting]), m) == Copies(c, m)
    {
      SumAppend(c.loops, Waiting, Holds(m));
    }
  }

  ghost predicate AllConserved(s: System) {
    forall c :: 0 <= c < |s.channels| ==> Conserved(s.channels[c])
  }

  lemma StepKeepsConserved(s: System, step: Step)
    requires AllConserved(s) && Enabled(s, step, false)
    ensures AllConserved(Next(s, step))
  {
    hide Conserved;
    match step
    case On(c, op) => OpKeepsConserved(s.channels[c], op);
    case AddInit(_, _) => NewChannelConserved(s.streams);
    case RestartInit(t, _) => CallersKeepConserved(s.channels[s.callers[t].c], None, true);
      CallersKeepConserved(s.channels[s.callers[t].c], Some(s.streams), true);
    case Revive(t) => CallersKeepConserved(s.channels[s.callers[t].c], None, false);
    case StartLoop(t) => CallersKeepConserved(s.channels[s.callers[t].c], None, false);
    case _ =>
  }

  lemma NewChannelConserved(stream: nat)
    ensures Conserved(NewChannel(stream))
  {
  }

  lemma {:induction false} RunKeepsConserved(s: System, steps: seq<Step>, serial: bool)
    requires AllConserved(s) && Executes(s, steps, serial)
    ensures AllConserved(Run(s, steps, serial))
    decreases |steps|
  {
    if steps == [] {
    } else {
      StepKeepsConserved(s, steps[0]);
      RunKeepsConserved(Next(s, steps[0]), steps[1..], serial);
    }
  }

  /**
  In every state any interleaving can reach, overlapping GetStream calls included, each message
  submitted to a channel object is in exactly one place, and no other message is anywhere.
  */
  lemma MessagesAreConserved(s: System, serial: bool)
    requires Reachable(s, serial)
    ensures AllConserved(s)
  {
    var steps :| Executes(START, steps, serial) && Run(START, steps, serial) == s;
    RunKeepsConserved(START, steps, serial);
  }
}
