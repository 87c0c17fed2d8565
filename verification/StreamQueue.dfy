/** The queue of a channel: first in, first out for every message, sent or put back. */
module StreamQueue {
  import opened Sums
  import opened StreamProtocol
  import opened StreamSerial

  /** The messages of the calls that succeeded, in order. */
  function Succeeded(calls: seq<Call>): seq<Message> {
    if calls == [] then []
    else if calls[0].ok then [calls[0].m] + Succeeded(calls[1..])
    else Succeeded(calls[1..])
  }

  lemma {:induction false} SucceededAppend(calls: seq<Call>, call: Call)
    ensures Succeeded(calls + [call]) == Succeeded(calls) + if call.ok then [call.m] else []
  {
    if calls == [] {
      assert calls + [call] == [call];
    } else {
      SucceededAppend(calls[1..], call);
      assert (calls + [call])[0] == calls[0] && (calls + [call])[1..] == calls[1..] + [call];
    }
  }

  /** Everything taken from the queue and everything in it is, in order, what was put into it. */
  ghost predicate Recorded(c: Channel) {
    && c.received + c.queue == c.entered && |c.queue| <= 1000
    && c.delivered == Succeeded(c.calls)
    && forall m :: m in c.failed <==> Call(m, false) in c.calls
  }

  lemma OpRecords(c: Channel, op: Op)
    requires Recorded(c) && OpEnabled(c, op)
    ensures Recorded(OpNext(c, op))
  {
    match op
    case Accept(m) => assert c.received + (c.queue + [m]) == c.received + c.queue + [m];
    case Requeue(m) => assert c.received + (c.queue + [m]) == c.received + c.queue + [m];
    case Receive(i) => assert c.received + [c.queue[0]] + c.queue[1..] == c.received + c.queue;
    case SendMsg(i, ok) => SucceededAppend(c.calls, Call(c.loops[i].m, ok));
    case _ =>
  }

  ghost predicate AllRecorded(s: System) {
    forall c :: 0 <= c < |s.channels| ==> Recorded(s.channels[c])
  }

  lemma StepRecords(s: System, step: Step)
    requires AllRecorded(s) && Enabled(s, step, false)
    ensures AllRecorded(Next(s, step))
  {
    hide OpNext, OpEnabled, Succeeded;
    if step.On? {
      OpRecords(s.channels[step.c], step.op);
    } else if step.AddInit? {
      NewIsRecorded(s.streams);
    }
  }

  lemma NewIsRecorded(stream: nat)
    ensures Recorded(NewChannel(stream))
  {
  }

  lemma {:induction false} RunRecords(s: System, steps: seq<Step>)
    requires AllRecorded(s) && Executes(s, steps, false)
    ensures AllRecorded(Run(s, steps, false))
    decreases |steps|
  {
    hide AllRecorded, Next, Enabled;
    if steps == [] {
    } else {
      StepRecords(s, steps[0]);
      RunRecords(Next(s, steps[0]), steps[1..]);
    }
  }

  /**
  In every state any interleaving can reach: what was received followed by what is queued is exactly
  what entered, by Send or put back, in that order; never more than 1000 messages are queued, and a
  blocked sender or put-back can go on exactly while there are fewer; what was delivered is what the
  successful calls sent, in their order, and a message has failed exactly if some call for it did.
  */
  lemma QueueIsFifo(s: System, o: nat, m: Message)
    requires Reachable(s, false) && o < |s.channels|
    ensures var c := s.channels[o];
            && c.received + c.queue == c.entered && |c.queue| <= 1000
            && (m in c.senders ==> (OpEnabled(c, Accept(m)) <==> |c.queue| < 1000))
            && (m in c.requeues ==> (OpEnabled(c, Requeue(m)) <==> |c.queue| < 1000))
            && c.delivered == Succeeded(c.calls) && (m in c.failed <==> Call(m, false) in c.calls)
  {
    hide Succeeded;
    var steps :| Executes(START, steps, false) && Run(START, steps, false) == s;
    RunRecords(START, steps);
  }

  // ---------------------------------------------------------------- put back behind the others

  /** Records only grow. */
  predicate Grown(c: Channel, c': Channel) {
    c.entered <= c'.entered && c.received <= c'.received && c.calls <= c'.calls && c.delivered <= c'.delivered
  }

  lemma StepGrows(s: System, step: Step, o: nat)
    requires Enabled(s, step, false) && o < |s.channels|
    ensures o < |Next(s, step).channels| && Grown(s.channels[o], Next(s, step).channels[o])
  {
  }

  lemma {:induction false} RunGrows(s: System, steps: seq<Step>, o: nat)
    requires Executes(s, steps, false) && o < |s.channels|
    ensures o < |Run(s, steps, false).channels| && Grown(s.channels[o], Run(s, steps, false).channels[o])
    decreases |steps|
  {
    hide Next, Enabled;
    if steps == [] {
    } else {
      StepGrows(s, steps[0], o);
      RunGrows(Next(s, steps[0]), steps[1..], o);
    }
  }

  /**
  A message that is put back goes behind everything queued at that moment: whatever happens then,
  once it is received again, all of that has been received before it.
  */
  lemma PutBackWaits(s: System, o: nat, m: Message, steps: seq<Step>)
    requires Reachable(s, false) && Enabled(s, On(o, Requeue(m)), false)
    requires Executes(Next(s, On(o, Requeue(m))), steps, false)
    ensures var c, s' := s.channels[o], Run(Next(s, On(o, Requeue(m))), steps, false);
            && o < |s'.channels|
            && var c' := s'.channels[o];
            && (|c'.received| <= |c.received| + |c.queue| ==> c'.received <= c.received + c.queue)
            && (|c'.received| > |c.received| + |c.queue| ==> c.received + c.queue + [m] <= c'.received)
  {
    hide Succeeded, Executes, Run;
    var next := Next(s, On(o, Requeue(m)));
    assert Reachable(next, false) by {
      ReachesNext(START, s, On(o, Requeue(m)), false);
    }
    RunGrows(next, steps, o);
    QueueIsFifo(s, o, m);
    var s' := Run(next, steps, false);
    assert Reachable(s', false) by {
      ReachesRun(next, steps);
    }
    QueueIsFifo(s', o, m);
    var c, c' := s.channels[o], s'.channels[o];
    Shorter(c'.received, c.received + c.queue, c'.entered);
    Shorter(c.received + c.queue + [m], c'.received, c'.entered);
  }

  lemma Shorter(a: seq<Message>, b: seq<Message>, whole: seq<Message>)
    ensures a <= whole && b <= whole && |a| <= |b| ==> a <= b
  {
  }

  lemma ReachesRun(s: System, steps: seq<Step>)
    requires Reachable(s, false) && Executes(s, steps, false)
    ensures Reachable(Run(s, steps, false), false)
  {
    var before :| Executes(START, before, false) && Run(START, before, false) == s;
    RunConcat(START, before, steps, false);
  }

  // ---------------------------------------------------------------- one sender

  /** The messages of calls. */
  function Called(calls: seq<Call>): seq<Message> {
    seq(|calls|, i requires 0 <= i < |calls| => calls[i].m)
  }

  /** Every message received has been sent, or is being sent, in the order of receipt. */
  ghost predicate InTurn(c: Channel) {
    Called(c.calls) + Hands(c.loops) == c.received
  }

  lemma OpInTurn(c: Channel, op: Op)
    requires InTurn(c) && OpEnabled(c, op) && Sum(c.loops, MaySend()) <= 1
    ensures InTurn(OpNext(c, op))
  {
    hide Sum, Hands;
    match op
    case Receive(i) => HandOf(c.loops, i, Sending(c.queue[0]));
      assert Called(c.calls) + [] == Called(c.calls);
    case SendMsg(i, ok) => HandOf(c.loops, i, OpNext(c, op).loops[i]);
      assert Called(c.calls + [Call(c.loops[i].m, ok)]) == Called(c.calls) + [c.loops[i].m];
    case MarkDead(i) => HandsKept(c.loops, i, OpNext(c, op).loops[i]);
    case PutBack(i) => HandsKept(c.loops, i, OpNext(c, op).loops[i]);
    case _ =>
  }

  ghost predicate AllInTurn(s: System) {
    forall c :: 0 <= c < |s.channels| ==> InTurn(s.channels[c])
  }

  lemma StepInTurn(s: System, step: Step)
    requires Serial(s) && AllInTurn(s) && Enabled(s, step, true)
    ensures AllInTurn(Next(s, step))
  {
    hide Sum, Hands, Called, OpNext, OpEnabled;
    if step.On? {
      OpInTurn(s.channels[step.c], step.op);
    } else if step.StartLoop? {
      HandsAppend(s.channels[0].loops);
    } else if step.AddInit? {
      NewIsInTurn(s.streams);
    }
  }

  lemma NewIsInTurn(stream: nat)
    ensures InTurn(NewChannel(stream))
  {
  }

  lemma {:induction false} RunInTurn(s: System, steps: seq<Step>)
    requires Serial(s) && AllInTurn(s) && Executes(s, steps, true)
    ensures AllInTurn(Run(s, steps, true))
    decreases |steps|
  {
    hide AllInTurn, Serial, Next;
    if steps == [] {
    } else {
      StepInTurn(s, steps[0]);
      StepKeepsSerial(s, steps[0]);
      RunInTurn(Next(s, steps[0]), steps[1..]);
    }
  }

  /**
  Without overlapping GetStream calls, SendMsg is called once for every message received, in the
  order of receipt, failed and repeated ones included.
  */
  lemma SentInTurn(s: System, o: nat)
    requires Reachable(s, true) && o < |s.channels|
    ensures Called(s.channels[o].calls) + Hands(s.channels[o].loops) == s.channels[o].received
  {
    hide Called, Hands;
    var steps :| Executes(START, steps, true) && Run(START, steps, true) == s;
    assert Serial(START) && AllInTurn(START);
    RunInTurn(START, steps);
    assert InTurn(s.channels[o]);
  }
}
