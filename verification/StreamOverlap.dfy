/** What goes wrong when GetStream calls for the same target overlap. */
module StreamOverlap {
  import opened Wrappers
  import opened Sums
  import opened StreamProtocol
  import opened StreamSerial
  import opened StreamConservation
  import opened StreamDrain
  import opened StreamPanics

  lemma LostOp(c: Channel, op: Op)
    requires Sum(c.loops, MaySend()) == 0 && OpEnabled(c, op)
    ensures Sum(OpNext(c, op).loops, MaySend()) == 0 && OpNext(c, op).delivered == c.delivered
  {
    NoSender(c.loops);
    if op.MarkDead? || op.PutBack? {
      SumUpdate(c.loops, op.loop, OpNext(c, op).loops[op.loop], MaySend());
    }
  }

  lemma LostStep(s: System, step: Step, o: nat)
    requires Lost(s, o) && Enabled(s, step, false)
    ensures Lost(Next(s, step), o)
    ensures Next(s, step).channels[o].delivered == s.channels[o].delivered
  {
    hide Sum;
    if step.On? {
      hide OpNext, OpEnabled;
      if step.c == o {
        LostOp(s.channels[o], step.op);
      }
    } else if !step.GetStream? {
      assert !RefersTo(s.callers[step.t], o);
    }
  }

  /** Whatever happens from then on, a lost channel never delivers another message. */
  lemma {:induction false} LostNeverDelivers(s: System, steps: seq<Step>, o: nat)
    requires Lost(s, o) && Executes(s, steps, false)
    ensures Lost(Run(s, steps, false), o)
    ensures Run(s, steps, false).channels[o].delivered == s.channels[o].delivered
    decreases |steps|
  {
    hide Lost, Next, Enabled;
    if steps == [] {
    } else {
      LostStep(s, steps[0], o);
      LostNeverDelivers(Next(s, steps[0]), steps[1..], o);
    }
  }

  /** No continuation, with whatever calls, restarts and successes, delivers anything more on channel `o`. */
  ghost predicate NeverDelivers(s: System, o: nat) {
    && o < |s.channels|
    && forall steps :: Executes(s, steps, false) ==>
         && o < |Run(s, steps, false).channels|
         && Run(s, steps, false).channels[o].delivered == s.channels[o].delivered
  }

  lemma LostForEver(s: System, o: nat)
    requires Lost(s, o)
    ensures NeverDelivers(s, o)
  {
    forall steps | Executes(s, steps, false)
      ensures o < |Run(s, steps, false).channels|
      ensures Run(s, steps, false).channels[o].delivered == s.channels[o].delivered
    {
      LostNeverDelivers(s, steps, o);
    }
  }

  // ---------------------------------------------------------------- when delivery is lost

  ghost predicate AllTended(s: System) {
    forall o: nat :: o < |s.channels| ==> Tended(s, o)
  }

  lemma OpKeepsTended(c: Channel, op: Op)
    requires OpEnabled(c, op)
    ensures var c' := OpNext(c, op);
            if c.dead then c'.dead
            else c'.dead || Sum(c'.loops, MaySend()) + Sum(c'.loops, IsBroken())
                            == Sum(c.loops, MaySend()) + Sum(c.loops, IsBroken())
  {
    hide Sum;
    if op.Receive? || op.SendMsg? || op.MarkDead? || op.PutBack? {
      var l := OpNext(c, op).loops[op.loop];
      SumUpdate(c.loops, op.loop, l, MaySend());
      SumUpdate(c.loops, op.loop, l, IsBroken());
    }
  }

  lemma OnKeepsTended(s: System, c: nat, op: Op, o: nat)
    requires Enabled(s, On(c, op), false) && o < |s.channels| && Tended(s, o)
    ensures Tended(Next(s, On(c, op)), o)
  {
    hide Sum, OpNext, OpEnabled;
    if c == o {
      OpKeepsTended(s.channels[o], op);
    }
    assert Next(s, On(c, op)).callers == s.callers;
  }

  /** The steps of calls: starting a loop, and reviving a channel that a loop is then started on. */
  lemma CallKeepsTended(s: System, step: Step, o: nat)
    requires Enabled(s, step, false) && !step.On? && o < |s.channels| && Tended(s, o)
    ensures Tended(Next(s, step), o)
  {
    hide Sum;
    var s' := Next(s, step);
    if step.StartLoop? && s.callers[step.t].c == o {
      SumAppend(s.channels[o].loops, Waiting, MaySend());
    } else if step.Revive? && s.callers[step.t].c == o {
      assert RefersTo(s'.callers[step.t], o) && AboutToStart(s'.callers[step.t]);
    } else if t :| 0 <= t < |s.callers| && RefersTo(s.callers[t], o) && AboutToStart(s.callers[t]) {
      assert RefersTo(s'.callers[t], o) && AboutToStart(s'.callers[t]);
    }
  }

  lemma StepKeepsTended(s: System, step: Step)
    requires Enabled(s, step, false) && AllTended(s)
    ensures AllTended(Next(s, step))
  {
    hide Tended, OpNext, OpEnabled;
    var s' := Next(s, step);
    forall o: nat | o < |s'.channels|
      ensures Tended(s', o)
    {
      if o == |s.channels| {
        NewIsTended(s, step);
      } else if step.On? {
        OnKeepsTended(s, step.c, step.op, o);
      } else {
        CallKeepsTended(s, step, o);
      }
    }
  }

  lemma NewIsTended(s: System, step: Step)
    requires Enabled(s, step, false) && |Next(s, step).channels| == |s.channels| + 1
    ensures Tended(Next(s, step), |s.channels|)
  {
    assert RefersTo(Next(s, step).callers[step.t], |s.channels|);
  }

  lemma {:induction false} RunKeepsTended(s: System, steps: seq<Step>)
    requires AllTended(s) && Executes(s, steps, false)
    ensures AllTended(Run(s, steps, false))
    decreases |steps|
  {
    hide AllTended, Next, Enabled;
    if steps == [] {
      assert Run(s, steps, false) == s;
    } else {
      StepKeepsTended(s, steps[0]);
      RunKeepsTended(Next(s, steps[0]), steps[1..]);
    }
  }

  /**
  With overlapping calls: what was submitted on a channel object can still be delivered if and only
  if the process lives and the object is not lost.
  */
  lemma DeliverableExactly(s: System, o: nat)
    requires Reachable(s, false) && o < |s.channels|
    ensures Deliverable(s, o, false) <==> AllDelivered(s.channels[o]) || (!s.crashed && !Lost(s, o))
  {
    hide Sum, Leads, AllDelivered, AllConserved, Tended, Lost, Executes, Run;
    if AllDelivered(s.channels[o]) {
      LeadsSelf(s, false);
      assert Delivers(s, s, o);
    } else if !s.crashed && !Lost(s, o) {
      MessagesAreConserved(s, false);
      ReachableIsTended(s);
      CanDeliver(s, o, false);
    } else if s' :| Leads(s, s', false) && Delivers(s, s', o) {
      HopelessDelivers(s, s', o);
      assert false;
    }
  }

  lemma ReachableIsTended(s: System)
    requires Reachable(s, false)
    ensures AllTended(s)
  {
    var steps :| Executes(START, steps, false) && Run(START, steps, false) == s;
    RunKeepsTended(START, steps);
  }

  /** Nothing changes for a lost channel or in a process that has panicked. */
  lemma HopelessDelivers(s: System, s': System, o: nat)
    requires Leads(s, s', false) && o < |s.channels| && o < |s'.channels| && (s.crashed || Lost(s, o))
    ensures s'.channels[o].delivered == s.channels[o].delivered
    ensures Delivers(s, s', o) ==> AllDelivered(s.channels[o])
  {
    hide Lost;
    if s.crashed {
      CrashedLeadsNowhere(s, s', false);
    } else {
      var steps :| NoSends(steps) && Executes(s, steps, false) && Run(s, steps, false) == s';
      LostNeverDelivers(s, steps, o);
    }
  }

  lemma CrashedForEver(s: System, o: nat)
    requires s.crashed && o < |s.channels|
    ensures NeverDelivers(s, o)
  {
    forall steps | Executes(s, steps, false)
      ensures Run(s, steps, false) == s
    {
      assert steps == [];
    }
  }

  /** With undelivered messages, a channel never delivers again exactly if it is lost or the process has panicked. */
  lemma StrandedExactly(s: System, o: nat)
    requires Reachable(s, false) && o < |s.channels| && !AllDelivered(s.channels[o])
    ensures NeverDelivers(s, o) <==> s.crashed || Lost(s, o)
  {
    hide Reaches, Lost, AllDelivered;
    if s.crashed {
      CrashedForEver(s, o);
    } else if Lost(s, o) {
      LostForEver(s, o);
    } else {
      DeliverableExactly(s, o);
      var s' :| Leads(s, s', false) && Delivers(s, s', o);
      var steps :| NoSends(steps) && Executes(s, steps, false) && Run(s, steps, false) == s';
      SameDelivered(s.channels[o], s'.channels[o]);
    }
  }

  lemma SameDelivered(c: Channel, c': Channel)
    requires c.submitted == c'.submitted && AllDelivered(c') && !AllDelivered(c)
    ensures c.delivered != c'.delivered
  {
  }

  // ---------------------------------------------------------------- how it comes about

  /** Two calls that both find no channel each make one. */
  lemma BothAdd() returns (s: System)
    ensures Reachable(s, false)
    ensures s == System([NewChannel(0), NewChannel(1)], None, [Registering(0), Registering(1)], 2, false)
  {
    hide Reaches;
    ReachesSelf(START, false);
    s := Then(START, START, GetStream, false);
    s := Then(START, s, GetStream, false);
    s := Then(START, s, Lookup(0), false);
    s := Then(START, s, Lookup(1), false);
    assert s == System([], None, [Adding, Adding], 0, false);
    s := Then(START, s, AddInit(0, Opened), false);
    s := Then(START, s, AddInit(1, Opened), false);
  }

  /** Both register theirs: the second overwrites the first in the map. */
  lemma BothRegister() returns (s: System)
    ensures Reachable(s, false) && s.registered == Some(1) && s.callers == [Returned, Returned] && !s.crashed
    ensures |s.channels| == 2 && s.channels[0] == NewChannel(0).(loops := [Waiting])
  {
    hide Reaches;
    s := BothAdd();
    s := Then(START, s, Register(0), false);
    s := Then(START, s, Register(1), false);
    s := Then(START, s, StartLoop(0), false);
    s := Then(START, s, StartLoop(1), false);
  }

  lemma ChannelStep(s: System, op: Op) returns (s': System)
    requires Reachable(s, false) && |s.channels| == 2 && !s.crashed && OpEnabled(s.channels[0], op)
    ensures Reachable(s', false) && s' == s.(channels := [OpNext(s.channels[0], op), s.channels[1]])
  {
    hide Reaches;
    s' := Then(START, s, On(0, op), false);
  }

  /** A message sent on the overwritten channel fails. */
  lemma SendFails() returns (s: System)
    ensures Reachable(s, false) && s.registered == Some(1) && s.callers == [Returned, Returned] && !s.crashed
    ensures |s.channels| == 2
    ensures var c := s.channels[0];
            c.loops == [Broken(0)] && c.submitted == 1 && c.delivered == [] && c.requeues == multiset{}
  {
    hide Reaches;
    s := BothRegister();
    s := ChannelStep(s, Send);
    s := ChannelStep(s, Accept(0));
    s := ChannelStep(s, Receive(0));
    s := ChannelStep(s, SendMsg(0, false));
  }

  /**
  So delivery can be lost: overlapping GetStream calls can lose a channel object to which a caller holds
  a reference; a message sent there whose SendMsg fails is put back and never delivered.
  */
  lemma OverlapCanStrandMessage()
    ensures exists s :: && Reachable(s, false) && NeverDelivers(s, 0) && s.channels[0].submitted == 1
                        && s.channels[0].delivered == [] && 0 in s.channels[0].requeues
  {
    hide Reaches, NeverDelivers;
    var s := SendFails();
    s := ChannelStep(s, MarkDead(0));
    s := ChannelStep(s, PutBack(0));
    assert s.channels[0].loops == [Gone];
    assert Sum([Gone], MaySend()) == 0;
    assert Lost(s, 0);
    LostForEver(s, 0);
    assert Reachable(s, false) && NeverDelivers(s, 0);
  }

  /** Two overlapping calls both look a dead channel up and decide to restart it. */
  lemma BothSeeDead(s: System, c: nat) returns (s': System)
    requires !s.crashed && s.registered == Some(c) && c < |s.channels| && s.channels[c].dead
    ensures Reaches(s, s', false) && s' == s.(callers := s.callers + [Restarting(c), Restarting(c)])
  {
    hide Reaches;
    var t := |s.callers|;
    ReachesSelf(s, false);
    s' := Then(s, s, GetStream, false);
    s' := Then(s, s', GetStream, false);
    s' := Then(s, s', Lookup(t), false);
    s' := Then(s, s', Lookup(t + 1), false);
    assert s' == s.(callers := s.callers + [Checking(c), Checking(c)]);
    s' := Then(s, s', CheckDead(t), false);
    s' := Then(s, s', CheckDead(t + 1), false);
  }

  /** Both open a stream; the field keeps the second one. */
  lemma BothReopen(s: System, c: nat) returns (s': System)
    requires !s.crashed && s.registered == Some(c) && c < |s.channels| && s.channels[c].dead
    ensures Reaches(s, s', false) && |s'.channels| == |s.channels| && s'.channels[c].loops == s.channels[c].loops
    ensures s'.callers == s.callers + [Starting(c), Starting(c)] && !s'.crashed
  {
    hide Reaches;
    var t := |s.callers|;
    s' := BothSeeDead(s, c);
    s' := Then(s, s', RestartInit(t, Opened), false);
    s' := Then(s, s', RestartInit(t + 1, Opened), false);
    assert s'.callers == s.callers + [Reviving(c), Reviving(c)];
    s' := Then(s, s', Revive(t), false);
    s' := Then(s, s', Revive(t + 1), false);
  }

  /**
  Whenever a registered channel is dead, two overlapping GetStream calls can both restart it and
  leave two goroutines sending on one stream, which gRPC forbids.
  */
  lemma OverlapCanStartTwoSenders(s: System, c: nat)
    requires !s.crashed && s.registered == Some(c) && c < |s.channels| && s.channels[c].dead
    ensures exists s' :: Reaches(s, s', false) && c < |s'.channels|
                         && Sum(s'.channels[c].loops, MaySend()) == Sum(s.channels[c].loops, MaySend()) + 2
  {
    hide Reaches, Sum;
    var t, loops := |s.callers|, s.channels[c].loops;
    var s' := BothReopen(s, c);
    s' := Then(s, s', StartLoop(t), false);
    s' := Then(s, s', StartLoop(t + 1), false);
    assert s'.channels[c].loops == loops + [Waiting] + [Waiting];
    SumAppend(loops, Waiting, MaySend());
    SumAppend(loops + [Waiting], Waiting, MaySend());
  }

  /** Every reachable state has at most one sender on every channel object exactly if calls do not overlap. */
  lemma OneSenderExactly(serial: bool)
    ensures (forall s, c: nat :: Reachable(s, serial) && c < |s.channels| ==> Sum(s.channels[c].loops, MaySend()) <= 1)
       <==> serial
  {
    hide Reaches, Sum;
    if serial {
      forall s, c: nat | Reachable(s, serial) && c < |s.channels|
        ensures Sum(s.channels[c].loops, MaySend()) <= 1
      {
        SingleSender(s);
      }
    } else {
      var s := DeadChannel(false);
      OverlapCanStartTwoSenders(s, 0);
      var s' :| Reaches(s, s', false) && |s'.channels| > 0
                && Sum(s'.channels[0].loops, MaySend()) == Sum(s.channels[0].loops, MaySend()) + 2;
      ReachesTrans(START, s, s', false);
    }
  }

  lemma ReachesTrans(s: System, s': System, s'': System, serial: bool)
    requires Reaches(s, s', serial) && Reaches(s', s'', serial)
    ensures Reaches(s, s'', serial)
  {
    var a :| Executes(s, a, serial) && Run(s, a, serial) == s';
    var b :| Executes(s', b, serial) && Run(s', b, serial) == s'';
    RunConcat(s, a, b, serial);
  }
}
