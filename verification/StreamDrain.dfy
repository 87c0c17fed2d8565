/** A channel with a sending loop empties itself, and every reachable state can still get one. */
module StreamDrain {
  import opened Wrappers
  import opened Sums
  import opened StreamProtocol
  import opened StreamConservation
  import opened StreamSerial

  /** Steps left for the message in a loop's hand: send it, or put it back into the queue and send it. */
  function Effort(): Loop -> nat {
    (l: Loop) =>
      match l
      case Sending(_) => 1
      case Broken(_) => 5
      case Leaving(_) => 4
      case _ => 0
  }

  /** A bound on the steps until everything is delivered. */
  function Work(c: Channel): nat {
    3 * |c.senders| + 3 * |c.requeues| + 2 * |c.queue| + Sum(c.loops, Effort())
  }

  /** Steps other than new `Send` calls and failing SendMsg calls. */
  predicate Draining(op: Op) {
    !op.Send? && (op.SendMsg? ==> op.ok)
  }

  lemma PushDoesWork(c: Channel, op: Op)
    requires OpEnabled(c, op) && (op.Accept? || op.Requeue?)
    ensures Work(OpNext(c, op)) < Work(c)
  {
    hide Sum;
  }

  lemma LoopDoesWork(c: Channel, op: Op)
    requires OpEnabled(c, op) && Draining(op) && !op.Accept? && !op.Requeue?
    ensures Work(OpNext(c, op)) < Work(c)
    ensures Sum(OpNext(c, op).loops, MaySend()) == Sum(c.loops, MaySend())
  {
    hide Sum;
    var l := OpNext(c, op).loops[op.loop];
    SumUpdate(c.loops, op.loop, l, MaySend());
    SumUpdate(c.loops, op.loop, l, Effort());
  }

  lemma OpDoesWork(c: Channel, op: Op)
    requires OpEnabled(c, op) && Draining(op)
    ensures Work(OpNext(c, op)) < Work(c)
    ensures Sum(OpNext(c, op).loops, MaySend()) == Sum(c.loops, MaySend())
    ensures OpNext(c, op).submitted == c.submitted
  {
    hide Work, Sum;
    if op.Accept? || op.Requeue? {
      PushDoesWork(c, op);
    } else {
      LoopDoesWork(c, op);
    }
  }

  /** While a loop may send and something is undelivered, some step can be taken, full queue or not. */
  lemma SomeStepEnabled(c: Channel) returns (op: Op)
    requires Sum(c.loops, MaySend()) > 0 && Work(c) > 0
    ensures OpEnabled(c, op) && Draining(op)
  {
    hide Sum;
    var i := FindPositive(c.loops, MaySend());
    if c.loops[i].Sending? {
      op := SendMsg(i, true);
    } else if c.queue != [] {
      op := Receive(i);
    } else if |c.senders| > 0 {
      var m :| m in c.senders;
      op := Accept(m);
    } else if |c.requeues| > 0 {
      var m :| m in c.requeues;
      op := Requeue(m);
    } else {
      var j := FindPositive(c.loops, Effort());
      op := if c.loops[j].Sending? then SendMsg(j, true) else if c.loops[j].Broken? then MarkDead(j) else PutBack(j);
    }
  }

  predicate DrainRun(c: Channel, ops: seq<Op>)
    decreases |ops|
  {
    ops == [] || (OpEnabled(c, ops[0]) && Draining(ops[0]) && DrainRun(OpNext(c, ops[0]), ops[1..]))
  }

  function After(c: Channel, ops: seq<Op>): Channel
    requires DrainRun(c, ops)
    decreases |ops|
  {
    if ops == [] then c else After(OpNext(c, ops[0]), ops[1..])
  }

  /** Every message ever submitted was delivered, once, and nothing else was. */
  ghost predicate AllDelivered(c: Channel) {
    forall m: Message :: multiset(c.delivered)[m] == if m < c.submitted then 1 else 0
  }

  ghost predicate Stuck(c: Channel) {
    forall op :: Draining(op) ==> !OpEnabled(c, op)
  }

  lemma {:induction false} DrainRunFacts(c: Channel, ops: seq<Op>)
    requires Conserved(c) && DrainRun(c, ops)
    ensures |ops| + Work(After(c, ops)) <= Work(c)
    ensures Conserved(After(c, ops)) && After(c, ops).submitted == c.submitted
    ensures Sum(After(c, ops).loops, MaySend()) == Sum(c.loops, MaySend())
    decreases |ops|
  {
    hide Conserved, Work, Sum, OpNext, OpEnabled;
    if ops == [] {
    } else {
      OpDoesWork(c, ops[0]);
      OpKeepsConserved(c, ops[0]);
      DrainRunFacts(OpNext(c, ops[0]), ops[1..]);
    }
  }

  lemma {:induction false} HandIsWork(loops: seq<Loop>, m: Message)
    ensures Sum(loops, Effort()) >= Sum(loops, Holds(m))
  {
    if loops == [] {
    } else {
      HandIsWork(loops[1..], m);
    }
  }

  lemma NoWorkLeft(c: Channel)
    requires Conserved(c) && Work(c) == 0
    ensures AllDelivered(c)
  {
    hide Sum;
    forall m: Message
      ensures multiset(c.delivered)[m] == Copies(c, m)
    {
      HandIsWork(c.loops, m);
      assert |c.senders| == |c.requeues| == |c.queue| == 0;
      assert c.senders == multiset{} && c.requeues == multiset{} && c.queue == [];
    }
  }

  /**
  From any channel state with a loop that may send, without new sends and further failures, every
  run is finite, with at most `Work` steps, and when no step is left everything submitted has been
  delivered exactly once.
  */
  lemma EveryDrainDelivers(c: Channel)
    requires Conserved(c) && Sum(c.loops, MaySend()) > 0
    ensures forall ops :: DrainRun(c, ops) ==> |ops| <= Work(c)
    ensures forall ops :: DrainRun(c, ops) && Stuck(After(c, ops)) ==>
              AllDelivered(After(c, ops)) && After(c, ops).submitted == c.submitted
  {
    hide Sum, Conserved, Work, AllDelivered;
    forall ops | DrainRun(c, ops)
      ensures |ops| <= Work(c)
      ensures Stuck(After(c, ops)) ==> AllDelivered(After(c, ops)) && After(c, ops).submitted == c.submitted
    {
      DrainRunFacts(c, ops);
      var d := After(c, ops);
      if Work(d) > 0 {
        var op := SomeStepEnabled(d);
      } else {
        NoWorkLeft(d);
      }
    }
  }

  // ---------------------------------------------------------------- runs without new messages

  predicate NoSends(steps: seq<Step>) {
    forall i :: 0 <= i < |steps| ==> !(steps[i].On? && steps[i].op.Send?)
  }

  /** `s` can move to `s'` without new messages. */
  ghost predicate Leads(s: System, s': System, serial: bool) {
    exists steps :: NoSends(steps) && Executes(s, steps, serial) && Run(s, steps, serial) == s'
  }

  lemma LeadsTrans(s: System, s': System, s'': System, serial: bool)
    requires Leads(s, s', serial) && Leads(s', s'', serial)
    ensures Leads(s, s'', serial)
  {
    var a :| NoSends(a) && Executes(s, a, serial) && Run(s, a, serial) == s';
    var b :| NoSends(b) && Executes(s', b, serial) && Run(s', b, serial) == s'';
    RunConcat(s, a, b, serial);
    assert NoSends(a + b);
  }

  lemma LeadsStep(s: System, step: Step, serial: bool)
    requires Enabled(s, step, serial) && !(step.On? && step.op.Send?)
    ensures Leads(s, Next(s, step), serial)
  {
    OneStep(s, step, serial);
    assert NoSends([step]);
  }

  lemma LeadsSelf(s: System, serial: bool)
    ensures Leads(s, s, serial)
  {
    assert NoSends([]) && Executes(s, [], serial) && Run(s, [], serial) == s;
  }

  /** `s` leads to `s'`, with the process alive and every message of channel `o` still in one place. */
  ghost predicate Carries(s: System, s': System, o: nat, serial: bool) {
    && Leads(s, s', serial) && o < |s.channels| && o < |s'.channels|
    && s'.channels[o].submitted == s.channels[o].submitted
    && !s'.crashed && AllConserved(s')
  }

  lemma CarriesTrans(s: System, s': System, s'': System, o: nat, serial: bool)
    requires Carries(s, s', o, serial) && Carries(s', s'', o, serial)
    ensures Carries(s, s'', o, serial)
  {
    LeadsTrans(s, s', s'', serial);
  }

  lemma CarriesSelf(s: System, o: nat, serial: bool)
    requires !s.crashed && AllConserved(s) && o < |s.channels|
    ensures Carries(s, s, o, serial)
  {
    LeadsSelf(s, serial);
  }

  lemma CarriesStep(s: System, step: Step, o: nat, serial: bool)
    requires AllConserved(s) && o < |s.channels| && Enabled(s, step, serial) && !Next(s, step).crashed
    requires !(step.On? && step.op.Send?)
    ensures Carries(s, Next(s, step), o, serial)
  {
    hide AllConserved;
    LeadsStep(s, step, serial);
    StepKeepsConserved(s, step);
  }

  /** A draining channel step is a step of the system, so the whole drain can be run there. */
  lemma {:induction false} SystemDrains(s: System, o: nat, serial: bool) returns (s': System)
    requires !s.crashed && AllConserved(s) && o < |s.channels| && Sum(s.channels[o].loops, MaySend()) > 0
    ensures Carries(s, s', o, serial) && AllDelivered(s'.channels[o])
    decreases Work(s.channels[o])
  {
    hide Sum, Carries, Conserved, Work, AllDelivered, OpNext, OpEnabled;
    if Work(s.channels[o]) == 0 {
      NoWorkLeft(s.channels[o]);
      CarriesSelf(s, o, serial);
      s' := s;
    } else {
      var op := SomeStepEnabled(s.channels[o]);
      OpDoesWork(s.channels[o], op);
      var next := Next(s, On(o, op));
      CarriesStep(s, On(o, op), o, serial);
      StepKeepsConserved(s, On(o, op));
      s' := SystemDrains(next, o, serial);
      CarriesTrans(s, next, s', o, serial);
    }
  }

  // ---------------------------------------------------------------- getting a sending loop again

  /** How far a call that has a channel is from starting its loop. */
  function Remaining(p: Caller): nat {
    match p
    case Checking(_) => 4
    case Restarting(_) => 3
    case Reviving(_) => 2
    case Registering(_) => 2
    case Starting(_) => 1
    case _ => 0
  }

  /** The next step of call `t` on its channel; a restart succeeds. */
  function NextOf(p: Caller, t: nat): Step
    requires exists o :: RefersTo(p, o)
  {
    match p
    case Checking(_) => CheckDead(t)
    case Restarting(_) => RestartInit(t, Opened)
    case Reviving(_) => Revive(t)
    case Registering(_) => Register(t)
    case Starting(_) => StartLoop(t)
  }

  lemma CallAdvances(s: System, t: nat, o: nat, serial: bool)
    requires !s.crashed && t < |s.callers| && o < |s.channels| && RefersTo(s.callers[t], o)
    requires s.callers[t].Checking? ==> s.channels[o].dead
    ensures var step := NextOf(s.callers[t], t);
            && Enabled(s, step, serial) && !step.On?
            && var s' := Next(s, step);
            && !s'.crashed && |s'.callers| == |s.callers| && |s'.channels| == |s.channels|
            && if s.callers[t].Starting? then s'.channels[o].loops == s.channels[o].loops + [Waiting]
               else RefersTo(s'.callers[t], o) && !s'.callers[t].Checking?
                    && Remaining(s'.callers[t]) < Remaining(s.callers[t])
  {
  }

  /** A call that has the channel can go on until its send loop runs. */
  lemma {:induction false} CallStarts(s: System, t: nat, o: nat, serial: bool) returns (s': System)
    requires !s.crashed && AllConserved(s) && t < |s.callers| && o < |s.channels| && RefersTo(s.callers[t], o)
    requires s.callers[t].Checking? ==> s.channels[o].dead
    ensures Carries(s, s', o, serial) && Sum(s'.channels[o].loops, MaySend()) > 0
    decreases Remaining(s.callers[t])
  {
    hide Sum, Leads, Next, AllConserved;
    var step := NextOf(s.callers[t], t);
    CallAdvances(s, t, o, serial);
    CarriesStep(s, step, o, serial);
    var next := Next(s, step);
    if s.callers[t].Starting? {
      SumAppend(s.channels[o].loops, Waiting, MaySend());
      s' := next;
    } else {
      s' := CallStarts(next, t, o, serial);
      CarriesTrans(s, next, s', o, serial);
    }
  }

  /** A call that has just begun, or one that can begin now. */
  ghost predicate CallPossible(s: System, serial: bool) {
    (exists t :: 0 <= t < |s.callers| && s.callers[t].Called?) || Enabled(s, GetStream, serial)
  }

  /** Such a call finds the registered channel. */
  lemma CallFinds(s: System, o: nat, serial: bool) returns (s': System, t: nat)
    requires !s.crashed && AllConserved(s) && o < |s.channels| && s.registered == Some(o) && CallPossible(s, serial)
    ensures Carries(s, s', o, serial) && s'.channels == s.channels
    ensures t < |s'.callers| && s'.callers[t] == Checking(o)
  {
    hide Carries, AllConserved;
    var begun := s;
    if u: nat :| u < |s.callers| && s.callers[u].Called? {
      t := u;
      CarriesSelf(s, o, serial);
    } else {
      t, begun := |s.callers|, Next(s, GetStream);
      CarriesStep(s, GetStream, o, serial);
      StepKeepsConserved(s, GetStream);
    }
    s' := Next(begun, Lookup(t));
    CarriesStep(begun, Lookup(t), o, serial);
    CarriesTrans(s, begun, s', o, serial);
  }

  /** Channel `o` is live only while a loop sends on it, is just breaking, or is about to be started. */
  ghost predicate Tended(s: System, o: nat)
    requires o < |s.channels|
  {
    var c := s.channels[o];
    c.dead || Sum(c.loops, MaySend()) > 0 || Sum(c.loops, IsBroken()) > 0
    || exists t :: 0 <= t < |s.callers| && RefersTo(s.callers[t], o) && AboutToStart(s.callers[t])
  }

  /** Nothing will ever start a loop on channel `o`: none sends on it, the map and the calls do not know it. */
  ghost predicate Lost(s: System, o: nat) {
    && o < |s.channels| && s.registered != Some(o)
    && (forall t :: 0 <= t < |s.callers| ==> !RefersTo(s.callers[t], o))
    && Sum(s.channels[o].loops, MaySend()) == 0
  }

  /** A loop that is breaking can declare the channel dead. */
  lemma LiveDies(s: System, o: nat, serial: bool) returns (s': System)
    requires !s.crashed && AllConserved(s) && o < |s.channels| && Tended(s, o)
    requires Sum(s.channels[o].loops, MaySend()) == 0
    requires forall t :: 0 <= t < |s.callers| && RefersTo(s.callers[t], o) ==> s.callers[t].Checking?
    ensures Carries(s, s', o, serial) && s'.channels[o].dead
    ensures s'.callers == s.callers && s'.registered == s.registered
  {
    hide Sum, Carries, AllConserved;
    if s.channels[o].dead {
      s' := s;
      CarriesSelf(s, o, serial);
    } else {
      var i := FindPositive(s.channels[o].loops, IsBroken());
      s' := Next(s, On(o, MarkDead(i)));
      CarriesStep(s, On(o, MarkDead(i)), o, serial);
    }
  }

  lemma DeadRevives(s: System, o: nat, serial: bool) returns (s': System)
    requires !s.crashed && AllConserved(s) && o < |s.channels| && s.channels[o].dead
    requires || (exists t :: 0 <= t < |s.callers| && RefersTo(s.callers[t], o))
             || (s.registered == Some(o) && CallPossible(s, serial))
    ensures Carries(s, s', o, serial) && Sum(s'.channels[o].loops, MaySend()) > 0
  {
    hide Sum, Leads, AllConserved, Enabled, Next;
    if t: nat :| t < |s.callers| && RefersTo(s.callers[t], o) {
      s' := CallStarts(s, t, o, serial);
    } else {
      var found, t := CallFinds(s, o, serial);
      s' := CallStarts(found, t, o, serial);
      CarriesTrans(s, found, s', o, serial);
    }
  }

  /** Unless the channel is lost or the process has panicked, a sending loop can be had again. */
  lemma SenderReturns(s: System, o: nat, serial: bool) returns (s': System)
    requires !s.crashed && AllConserved(s) && o < |s.channels| && Tended(s, o) && !Lost(s, o)
    requires (exists t :: 0 <= t < |s.callers| && RefersTo(s.callers[t], o)) || CallPossible(s, serial)
    ensures Carries(s, s', o, serial) && Sum(s'.channels[o].loops, MaySend()) > 0
  {
    hide Sum, Leads, AllConserved, Next, Tended;
    if Sum(s.channels[o].loops, MaySend()) > 0 {
      s' := s;
      CarriesSelf(s, o, serial);
    } else if t: nat :| t < |s.callers| && RefersTo(s.callers[t], o) && !s.callers[t].Checking? {
      s' := CallStarts(s, t, o, serial);
    } else {
      var dead := LiveDies(s, o, serial);
      s' := DeadRevives(dead, o, serial);
      CarriesTrans(s, dead, s', o, serial);
    }
  }

  /** ... and then everything can be delivered. */
  lemma CanDeliver(s: System, o: nat, serial: bool)
    requires !s.crashed && AllConserved(s) && o < |s.channels| && Tended(s, o) && !Lost(s, o)
    requires (exists t :: 0 <= t < |s.callers| && RefersTo(s.callers[t], o)) || CallPossible(s, serial)
    ensures Deliverable(s, o, serial)
  {
    hide Sum, Leads, AllConserved, Tended, Lost, CallPossible, AllDelivered;
    var live := SenderReturns(s, o, serial);
    var done := SystemDrains(live, o, serial);
    CarriesTrans(s, live, done, o, serial);
  }

  /** Without new messages, a state can be reached in which all messages submitted on `o` have been delivered. */
  ghost predicate Deliverable(s: System, o: nat, serial: bool) {
    exists s' :: Leads(s, s', serial) && Delivers(s, s', o)
  }

  ghost predicate Delivers(s: System, s': System, o: nat) {
    && o < |s.channels| && o < |s'.channels|
    && s'.channels[o].submitted == s.channels[o].submitted && AllDelivered(s'.channels[o])
  }

  // ---------------------------------------------------------------- self-healing

  lemma SerialIsTended(s: System)
    requires Serial(s) && !s.crashed && s.channels != []
    ensures Tended(s, 0) && !Lost(s, 0)
    ensures (exists t :: 0 <= t < |s.callers| && RefersTo(s.callers[t], 0)) || CallPossible(s, true)
  {
    hide Sum;
    if s.callers != [] {
      var t := |s.callers| - 1;
      assert s.callers[t] == Active(s);
    }
  }

  /** A process that has panicked stays as it is. */
  lemma CrashedLeadsNowhere(s: System, s': System, serial: bool)
    requires s.crashed && Leads(s, s', serial)
    ensures s' == s
  {
    var steps :| NoSends(steps) && Executes(s, steps, serial) && Run(s, steps, serial) == s';
  }

  /**
  Self-healing: from a state reached without overlapping GetStream calls, whatever SendMsg calls and
  first calls have failed so far, everything submitted can still be delivered exactly once, if and
  only if no restart has failed; a failed restart panics, and only what was delivered before then is.
  */
  lemma NothingIsStrandedExactly(s: System)
    requires Reachable(s, true) && s.channels != []
    ensures |s.channels| == 1
    ensures Deliverable(s, 0, true) <==> !s.crashed || AllDelivered(s.channels[0])
  {
    hide Sum, Leads, AllDelivered, AllConserved, Tended, CallPossible;
    var steps :| Executes(START, steps, true) && Run(START, steps, true) == s;
    RunKeepsSerial(START, steps);
    MessagesAreConserved(s, true);
    if !s.crashed {
      SerialIsTended(s);
      CanDeliver(s, 0, true);
    } else if AllDelivered(s.channels[0]) {
      LeadsSelf(s, true);
      assert Delivers(s, s, 0);
    } else if s' :| Leads(s, s', true) && Delivers(s, s', 0) {
      CrashedLeadsNowhere(s, s', true);
      assert false;
    }
  }
}
