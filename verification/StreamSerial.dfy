/**
What holds when GetStream calls for a target do not overlap: one channel object, one sending
goroutine, and delivery in order.
*/
module StreamSerial {
  import opened Wrappers
  import opened Sums
  import opened StreamProtocol

  /** 1 for a loop that may still call SendMsg. */
  function MaySend(): Loop -> nat {
    (l: Loop) => if l.Waiting? || l.Sending? then 1 else 0
  }

  /** 1 for a loop that has seen an error but has not yet declared the channel dead. */
  function IsBroken(): Loop -> nat {
    (l: Loop) => if l.Broken? then 1 else 0
  }

  /** The call in progress, if any: only the last one can be. */
  function Active(s: System): Caller {
    if s.callers == [] then Returned else s.callers[|s.callers| - 1]
  }

  /** A live channel has one loop that may send, or is just losing or just getting it; a dead one has none. */
  predicate OneSender(c: Channel, p: Caller) {
    Sum(c.loops, MaySend()) + Sum(c.loops, IsBroken()) + (if AboutToStart(p) then 1 else 0) == if c.dead then 0 else 1
  }

  predicate RefersToFirst(p: Caller) {
    (p.Registering? || p.Checking? || p.Restarting? || p.Reviving? || p.Starting?) ==> p.c == 0
  }

  ghost predicate Serial(s: System) {
    var p := Active(s);
    && (forall t :: 0 <= t < |s.callers| - 1 ==> s.callers[t].Returned?)
    && RefersToFirst(p)
    && |s.channels| <= 1
    && (s.channels == [] ==> s.registered.None? && (p.Returned? || p.Called? || p.Adding?))
    && (s.channels != [] ==>
        && (if p.Registering? then s.registered.None? else s.registered == Some(0) && !p.Adding?)
        && OneSender(s.channels[0], p)
        && (p.Restarting? || p.Reviving? ==> s.channels[0].dead))
  }

  lemma OpKeepsOneSender(c: Channel, op: Op, p: Caller)
    requires OneSender(c, p) && OpEnabled(c, op)
    ensures OneSender(OpNext(c, op), p)
    ensures c.dead ==> OpNext(c, op).dead
  {
    hide Sum;
    if op.Receive? || op.SendMsg? || op.MarkDead? || op.PutBack? {
      var l := OpNext(c, op).loops[op.loop];
      SumUpdate(c.loops, op.loop, l, MaySend());
      SumUpdate(c.loops, op.loop, l, IsBroken());
    }
  }

  /** The steps of a call up to the point where it has a channel. */
  lemma FirstStepsKeepSerial(s: System, step: Step)
    requires Serial(s) && Enabled(s, step, true)
    requires step.GetStream? || step.Lookup? || step.AddInit? || step.Register?
    ensures Serial(Next(s, step))
  {
    hide Sum;
    EmptySum();
  }

  /** The steps of a call on a channel that it has found. */
  lemma RestartKeepsSerial(s: System, step: Step)
    requires Serial(s) && Enabled(s, step, true) && (step.CheckDead? || step.RestartInit? || step.Revive?)
    ensures Serial(Next(s, step))
  {
    hide Sum;
  }

  lemma StartKeepsSerial(s: System, t: nat)
    requires Serial(s) && Enabled(s, StartLoop(t), true)
    ensures Serial(Next(s, StartLoop(t)))
  {
    hide Sum;
    SumAppend(s.channels[0].loops, Waiting, MaySend());
    SumAppend(s.channels[0].loops, Waiting, IsBroken());
  }

  lemma StepKeepsSerial(s: System, step: Step)
    requires Serial(s) && Enabled(s, step, true)
    ensures Serial(Next(s, step))
  {
    if step.On? {
      hide OneSender, OpNext, OpEnabled;
      OpKeepsOneSender(s.channels[step.c], step.op, Active(s));
    } else {
      hide Next, Serial;
      if step.StartLoop? {
        StartKeepsSerial(s, step.t);
      } else if step.CheckDead? || step.RestartInit? || step.Revive? {
        RestartKeepsSerial(s, step);
      } else {
        FirstStepsKeepSerial(s, step);
      }
    }
  }

  lemma EmptySum()
    ensures Sum<Loop>([], MaySend()) == Sum<Loop>([], IsBroken()) == 0
  {
  }

  lemma {:induction false} RunKeepsSerial(s: System, steps: seq<Step>)
    requires Serial(s) && Executes(s, steps, true)
    ensures Serial(Run(s, steps, true))
    decreases |steps|
  {
    if steps == [] {
    } else {
      StepKeepsSerial(s, steps[0]);
      RunKeepsSerial(Next(s, steps[0]), steps[1..]);
    }
  }

  /**
  In every reachable state there is at most one channel object, and the loops that may still call
  SendMsg are exactly one if it is live and none if it is dead; a live channel lacks one only
  between two statements, while a loop is about to set `dead` or a caller is about to start one.
  */
  lemma SingleSender(s: System)
    requires Reachable(s, true)
    ensures |s.channels| <= 1
    ensures s.channels != [] ==>
      var c, p := s.channels[0], Active(s);
      && (c.dead ==> Sum(c.loops, MaySend()) == 0)
      && (!c.dead ==> Sum(c.loops, MaySend()) == if AboutToStart(p) || Sum(c.loops, IsBroken()) > 0 then 0 else 1)
  {
    var steps :| Executes(START, steps, true) && Run(START, steps, true) == s;
    RunKeepsSerial(START, steps);
  }

  lemma ReplacedOnlyWhenDead(s: System, step: Step)
    requires Serial(s) && Enabled(s, step, true) && s.channels != []
    ensures |Next(s, step).channels| == 1
    ensures Next(s, step).channels[0].stream != s.channels[0].stream ==>
      s.channels[0].dead && Next(s, step).channels[0].loops == s.channels[0].loops
  {
    hide OneSender;
  }

  /** The stream is replaced, by a successful or a failed restart, only when no loop may still send on it. */
  lemma StreamIsNotReplacedUnderSender(s: System, step: Step)
    requires Reachable(s, true) && Enabled(s, step, true) && s.channels != []
    ensures |Next(s, step).channels| == 1
    ensures Next(s, step).channels[0].stream != s.channels[0].stream ==>
      && Sum(s.channels[0].loops, MaySend()) == 0
      && Next(s, step).channels[0].loops == s.channels[0].loops
  {
    hide Next, Sum;
    var steps :| Executes(START, steps, true) && Run(START, steps, true) == s;
    RunKeepsSerial(START, steps);
    ReplacedOnlyWhenDead(s, step);
    SingleSender(s);
  }

  // ---------------------------------------------------------------- order

  /** The messages of `q` that are not in `failed`, in order. */
  function Keep(q: seq<Message>, failed: set<Message>): seq<Message> {
    if q == [] then []
    else if q[0] in failed then Keep(q[1..], failed)
    else [q[0]] + Keep(q[1..], failed)
  }

  lemma {:induction false} KeepConcat(a: seq<Message>, b: seq<Message>, failed: set<Message>)
    ensures Keep(a + b, failed) == Keep(a, failed) + Keep(b, failed)
  {
    if a == [] {
      assert a + b == b;
    } else {
      KeepConcat(a[1..], b, failed);
      assert (a + b)[0] == a[0] && (a + b)[1..] == a[1..] + b;
      var x, y := Keep(a[1..], failed), Keep(b, failed);
      assert [a[0]] + (x + y) == [a[0]] + x + y;
    }
  }

  lemma {:induction false} KeepFewer(q: seq<Message>, failed: set<Message>, m: Message)
    ensures Keep(q, failed + {m}) == Keep(Keep(q, failed), {m})
  {
    if q == [] {
    } else {
      KeepFewer(q[1..], failed, m);
      assert q[0] !in failed ==> Keep(q, failed)[1..] == Keep(q[1..], failed);
    }
  }

  lemma KeepSkips(a: seq<Message>, m: Message, b: seq<Message>, failed: set<Message>)
    requires m in failed
    ensures Keep(a + [m] + b, failed) == Keep(a + b, failed)
  {
    KeepConcat(a + [m], b, failed);
    KeepConcat(a, [m], failed);
    KeepConcat(a, b, failed);
  }

  /** The message a loop is sending, as a sequence of at most one. */
  function Hand(l: Loop): seq<Message> {
    if l.Sending? then [l.m] else []
  }

  function Hands(loops: seq<Loop>): seq<Message> {
    if loops == [] then [] else Hand(loops[0]) + Hands(loops[1..])
  }

  lemma {:induction false} NoOtherSender(loops: seq<Loop>, i: nat)
    requires i < |loops| && Sum(loops, MaySend()) <= 1 && MaySend()(loops[i]) == 1
    ensures forall j :: 0 <= j < |loops| && j != i ==> MaySend()(loops[j]) == 0
    decreases i
  {
    if i == 0 {
      NoSender(loops[1..]);
      forall j | 1 <= j < |loops|
        ensures MaySend()(loops[j]) == 0
      {
        assert loops[j] == loops[1..][j - 1];
      }
    } else {
      SumAtLeast(loops[1..], i - 1);
      NoOtherSender(loops[1..], i - 1);
      forall j | 1 <= j < |loops| && j != i
        ensures MaySend()(loops[j]) == 0
      {
        assert loops[j] == loops[1..][j - 1];
      }
    }
  }

  lemma {:induction false} NoSender(loops: seq<Loop>)
    requires Sum(loops, MaySend()) == 0
    ensures forall j :: 0 <= j < |loops| ==> MaySend()(loops[j]) == 0
  {
    if loops == [] {
    } else {
      NoSender(loops[1..]);
    }
  }

  lemma {:induction false} SumAtLeast(loops: seq<Loop>, i: nat)
    requires i < |loops|
    ensures Sum(loops, MaySend()) >= MaySend()(loops[i])
    decreases i
  {
    if i > 0 {
      SumAtLeast(loops[1..], i - 1);
    }
  }

  lemma {:induction false} OneHand(loops: seq<Loop>, i: nat)
    requires i < |loops|
    requires forall j :: 0 <= j < |loops| && j != i ==> !loops[j].Sending?
    ensures Hands(loops) == Hand(loops[i])
    decreases i
  {
    if i == 0 {
      NoHand(loops[1..]);
    } else {
      OneHand(loops[1..], i - 1);
    }
  }

  lemma {:induction false} NoHand(loops: seq<Loop>)
    requires forall j :: 0 <= j < |loops| ==> !loops[j].Sending?
    ensures Hands(loops) == []
  {
    if loops == [] {
    } else {
      NoHand(loops[1..]);
    }
  }

  /** When only loop `i` may send, the hands are its hand, before and after a step of it. */
  lemma HandOf(loops: seq<Loop>, i: nat, l: Loop)
    requires i < |loops| && Sum(loops, MaySend()) <= 1 && MaySend()(loops[i]) == 1
    ensures Hands(loops) == Hand(loops[i]) && Hands(loops[i := l]) == Hand(l)
  {
    NoOtherSender(loops, i);
    assert forall j :: 0 <= j < |loops| && MaySend()(loops[j]) == 0 ==> !loops[j].Sending?;
    OneHand(loops, i);
    OneHand(loops[i := l], i);
  }

  /** Messages on their way: delivered, in hand, queued. */
  function Line(c: Channel): seq<Message> {
    c.delivered + Hands(c.loops) + c.queue
  }

  predicate AfterError(l: Loop, failed: set<Message>) {
    l.Broken? || l.Leaving? ==> l.m in failed
  }

  /** Messages that never failed stand in line in the order in which `Send` put them into the queue. */
  ghost predicate InOrder(c: Channel) {
    && (forall m :: m in c.requeues ==> m in c.failed)
    && (forall i :: 0 <= i < |c.loops| ==> AfterError(c.loops[i], c.failed))
    && Keep(Line(c), c.failed) == Keep(c.accepted, c.failed)
  }

  lemma HandsKept(loops: seq<Loop>, i: nat, l: Loop)
    requires i < |loops| && !loops[i].Sending? && !l.Sending?
    ensures Hands(loops[i := l]) == Hands(loops)
    decreases i
  {
    if i > 0 {
      HandsKept(loops[1..], i - 1, l);
      assert loops[i := l][1..] == loops[1..][i - 1 := l];
    } else {
      assert loops[0 := l][1..] == loops[1..];
    }
  }

  lemma PushKeepsOrder(c: Channel, op: Op)
    requires InOrder(c) && (op.Accept? || op.Requeue?) && OpEnabled(c, op)
    ensures InOrder(OpNext(c, op))
  {
    hide Hands;
    var d := OpNext(c, op);
    assert Line(d) == Line(c) + [op.m];
    KeepConcat(Line(c), [op.m], c.failed);
    KeepConcat(c.accepted, [op.m], c.failed);
    assert op.Requeue? ==> Keep([op.m], c.failed) == [];
  }

  lemma ReceiveKeepsOrder(c: Channel, i: nat)
    requires InOrder(c) && OpEnabled(c, Receive(i)) && Sum(c.loops, MaySend()) <= 1
    ensures InOrder(OpNext(c, Receive(i)))
  {
    hide Hands, Keep, Sum;
    HandOf(c.loops, i, Sending(c.queue[0]));
    assert Line(OpNext(c, Receive(i))) == Line(c);
  }

  lemma DeliverKeepsOrder(c: Channel, i: nat)
    requires InOrder(c) && OpEnabled(c, SendMsg(i, true)) && Sum(c.loops, MaySend()) <= 1
    ensures InOrder(OpNext(c, SendMsg(i, true)))
  {
    hide Hands, Keep, Sum;
    HandOf(c.loops, i, Waiting);
    assert Line(OpNext(c, SendMsg(i, true))) == Line(c);
  }

  lemma FailureKeepsOrder(c: Channel, i: nat)
    requires InOrder(c) && OpEnabled(c, SendMsg(i, false)) && Sum(c.loops, MaySend()) <= 1
    ensures InOrder(OpNext(c, SendMsg(i, false)))
  {
    hide Hands, Sum, Keep;
    var m, d := c.loops[i].m, OpNext(c, SendMsg(i, false));
    HandOf(c.loops, i, Broken(m));
    assert Line(c) == c.delivered + [m] + c.queue && Line(d) == c.delivered + c.queue;
    KeepSkips(c.delivered, m, c.queue, d.failed);
    KeepFewer(Line(c), c.failed, m);
    KeepFewer(c.accepted, c.failed, m);
  }

  lemma LeaveKeepsOrder(c: Channel, op: Op)
    requires InOrder(c) && (op.MarkDead? || op.PutBack?) && OpEnabled(c, op)
    ensures InOrder(OpNext(c, op))
  {
    hide Hands, Keep;
    var d := OpNext(c, op);
    HandsKept(c.loops, op.loop, d.loops[op.loop]);
    assert AfterError(c.loops[op.loop], c.failed);
  }

  lemma OpKeepsOrder(c: Channel, op: Op)
    requires InOrder(c) && OpEnabled(c, op) && Sum(c.loops, MaySend()) <= 1
    ensures InOrder(OpNext(c, op))
  {
    match op
    case Send =>
    case Receive(i) => ReceiveKeepsOrder(c, i);
    case SendMsg(i, ok) =>
      if ok {
        DeliverKeepsOrder(c, i);
      } else {
        FailureKeepsOrder(c, i);
      }
    case MarkDead(_) => LeaveKeepsOrder(c, op);
    case PutBack(_) => LeaveKeepsOrder(c, op);
    case _ => PushKeepsOrder(c, op);
  }

  lemma {:induction false} HandsAppend(loops: seq<Loop>)
    ensures Hands(loops + [Waiting]) == Hands(loops)
  {
    if loops == [] {
    } else {
      HandsAppend(loops[1..]);
      assert (loops + [Waiting])[1..] == loops[1..] + [Waiting];
    }
  }

  ghost predicate AllInOrder(s: System) {
    forall c :: 0 <= c < |s.channels| ==> InOrder(s.channels[c])
  }

  lemma CallKeepsOrder(s: System, step: Step)
    requires Serial(s) && AllInOrder(s) && Enabled(s, step, true) && !step.On?
    ensures AllInOrder(Next(s, step))
  {
    hide Sum, Hands, Keep, OneSender;
    if step.StartLoop? {
      HandsAppend(s.channels[0].loops);
    } else if step.AddInit? {
      NewChannelInOrder(s.streams);
    }
  }

  lemma StepKeepsOrder(s: System, step: Step)
    requires Serial(s) && AllInOrder(s) && Enabled(s, step, true)
    ensures AllInOrder(Next(s, step))
  {
    if step.On? {
      hide InOrder, OpNext, OpEnabled, Sum;
      OpKeepsOrder(s.channels[step.c], step.op);
    } else {
      hide Next, AllInOrder, Serial;
      CallKeepsOrder(s, step);
    }
  }

  lemma NewChannelInOrder(stream: nat)
    ensures InOrder(NewChannel(stream))
  {
  }

  lemma {:induction false} RunKeepsOrder(s: System, steps: seq<Step>)
    requires Serial(s) && AllInOrder(s) && Executes(s, steps, true)
    ensures AllInOrder(Run(s, steps, true))
    decreases |steps|
  {
    if steps == [] {
    } else {
      StepKeepsOrder(s, steps[0]);
      StepKeepsSerial(s, steps[0]);
      RunKeepsOrder(Next(s, steps[0]), steps[1..]);
    }
  }

  /**
  Across any number of failures and restarts, the messages whose sending never failed are on their
  way in exactly the order in which they were accepted; so what has been delivered of them is a
  prefix of what was accepted, without gaps.
  */
  lemma DeliveryInOrder(s: System, c: nat)
    requires Reachable(s, true) && c < |s.channels|
    ensures var ch := s.channels[c];
            && Keep(Line(ch), ch.failed) == Keep(ch.accepted, ch.failed)
            && Keep(ch.delivered, ch.failed) <= Keep(ch.accepted, ch.failed)
  {
    var steps :| Executes(START, steps, true) && Run(START, steps, true) == s;
    RunKeepsOrder(START, steps);
    assert InOrder(s.channels[c]);
    DeliveredIsPrefix(s.channels[c]);
  }

  lemma DeliveredIsPrefix(c: Channel)
    ensures Keep(c.delivered, c.failed) <= Keep(Line(c), c.failed)
  {
    assert Line(c) == c.delivered + (Hands(c.loops) + c.queue);
    KeepConcat(c.delivered, Hands(c.loops) + c.queue, c.failed);
  }
}
