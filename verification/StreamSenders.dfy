/** Run by run: when at most one goroutine sends, or is about to, on each channel object. */
module StreamSenders {
  import opened Sums
  import opened StreamProtocol
  import opened StreamSerial

  /** 1 for a call that is going to start a loop on channel `c`. */
  function StartsOn(c: nat): Caller -> nat {
    (p: Caller) => if AboutToStart(p) && p.c == c then 1 else 0
  }

  function LoopSenders(loops: seq<Loop>): nat {
    Sum(loops, MaySend()) + Sum(loops, IsBroken())
  }

  /** Loops that may send or are just breaking, and calls about to start one. */
  function Senders(s: System, c: nat): nat
    requires c < |s.channels|
  {
    LoopSenders(s.channels[c].loops) + Sum(s.callers, StartsOn(c))
  }

  ghost predicate AtMostOne(s: System) {
    forall c: nat :: c < |s.channels| ==> Senders(s, c) <= 1
  }

  /** A live channel has exactly one sender, a dead one has none. */
  predicate Balanced(s: System, c: nat)
    requires c < |s.channels|
  {
    Senders(s, c) == if s.channels[c].dead then 0 else 1
  }

  ghost predicate AllBalanced(s: System) {
    && (forall c: nat :: c < |s.channels| ==> Balanced(s, c))
    && (forall t :: 0 <= t < |s.callers| && AboutToStart(s.callers[t]) ==> s.callers[t].c < |s.channels|)
  }

  /** If the step revives a channel, the channel is still dead. */
  predicate RevivesDead(s: System, step: Step) {
    step.Revive? && Enabled(s, step, false) ==> s.channels[s.callers[step.t].c].dead
  }

  lemma OpBalances(c: Channel, op: Op, starting: nat)
    requires OpEnabled(c, op) && LoopSenders(c.loops) + starting == if c.dead then 0 else 1
    ensures LoopSenders(OpNext(c, op).loops) + starting == if OpNext(c, op).dead then 0 else 1
  {
    hide Sum;
    if op.Receive? || op.SendMsg? || op.MarkDead? || op.PutBack? {
      var l := OpNext(c, op).loops[op.loop];
      SumUpdate(c.loops, op.loop, l, MaySend());
      SumUpdate(c.loops, op.loop, l, IsBroken());
    }
  }

  lemma OnBalances(s: System, c: nat, op: Op, o: nat)
    requires Enabled(s, On(c, op), false) && o < |s.channels| && Balanced(s, o)
    ensures Balanced(Next(s, On(c, op)), o)
  {
    hide Sum, OpNext, OpEnabled, LoopSenders;
    if c == o {
      OpBalances(s.channels[o], op, Sum(s.callers, StartsOn(o)));
    }
  }

  lemma StartBalances(s: System, t: nat, o: nat)
    requires Enabled(s, StartLoop(t), false) && o < |s.channels| && Balanced(s, o)
    ensures Balanced(Next(s, StartLoop(t)), o)
  {
    hide Sum;
    SumUpdate(s.callers, t, Returned, StartsOn(o));
    SumAppend(s.channels[o].loops, Waiting, MaySend());
    SumAppend(s.channels[o].loops, Waiting, IsBroken());
  }

  lemma ReviveBalances(s: System, t: nat, o: nat)
    requires Enabled(s, Revive(t), false) && o < |s.channels| && Balanced(s, o)
    ensures RevivesDead(s, Revive(t)) ==> Balanced(Next(s, Revive(t)), o)
    ensures o == s.callers[t].c && !s.channels[o].dead ==> Senders(Next(s, Revive(t)), o) == 2
  {
    hide Sum, LoopSenders;
    SumUpdate(s.callers, t, Starting(s.callers[t].c), StartsOn(o));
  }

  /** The other steps of calls change neither loops nor the `dead` flag of channels that are there. */
  lemma CallBalances(s: System, step: Step, o: nat)
    requires Enabled(s, step, false) && !step.On? && !step.StartLoop? && !step.Revive?
    requires o < |s.channels| && Balanced(s, o)
    ensures o < |Next(s, step).channels| && Balanced(Next(s, step), o)
  {
    hide Sum, LoopSenders;
    if step.GetStream? {
      SumAppend(s.callers, Called, StartsOn(o));
    } else {
      SumUpdate(s.callers, step.t, Next(s, step).callers[step.t], StartsOn(o));
      assert s.callers[step.t := s.callers[step.t]] == s.callers;
    }
  }

  lemma {:induction false} NoneStarts(callers: seq<Caller>, o: nat)
    requires forall t :: 0 <= t < |callers| && AboutToStart(callers[t]) ==> callers[t].c < o
    ensures Sum(callers, StartsOn(o)) == 0
  {
    if callers == [] {
    } else {
      NoneStarts(callers[1..], o);
    }
  }

  /** A new channel has the call that made it. */
  lemma NewBalances(s: System, t: nat)
    requires Enabled(s, AddInit(t, Opened), false) && AllBalanced(s)
    ensures Balanced(Next(s, AddInit(t, Opened)), |s.channels|)
  {
    hide Sum;
    var o := |s.channels|;
    NoneStarts(s.callers, o);
    SumUpdate(s.callers, t, Registering(o), StartsOn(o));
    EmptySum();
  }

  lemma NextBalances(s: System, step: Step)
    requires Enabled(s, step, false) && AllBalanced(s) && RevivesDead(s, step)
    ensures AllBalanced(Next(s, step))
  {
    hide Balanced, OpNext, OpEnabled, RevivesDead;
    var s' := Next(s, step);
    forall o: nat | o < |s'.channels|
      ensures Balanced(s', o)
    {
      if o == |s.channels| {
        NewBalances(s, step.t);
      } else if step.On? {
        OnBalances(s, step.c, step.op, o);
      } else if step.StartLoop? {
        StartBalances(s, step.t, o);
      } else if step.Revive? {
        ReviveBalances(s, step.t, o);
      } else {
        CallBalances(s, step, o);
      }
    }
  }

  lemma BalancedIsOne(s: System)
    requires AllBalanced(s)
    ensures AtMostOne(s)
  {
    forall c: nat | c < |s.channels|
      ensures Senders(s, c) <= 1
    {
      assert Balanced(s, c);
    }
  }

  // ---------------------------------------------------------------- runs

  ghost predicate AlwaysAtMostOne(s: System, steps: seq<Step>)
    requires Executes(s, steps, false)
    decreases |steps|
  {
    AtMostOne(s) && (steps == [] || AlwaysAtMostOne(Next(s, steps[0]), steps[1..]))
  }

  predicate AlwaysRevivesDead(s: System, steps: seq<Step>)
    requires Executes(s, steps, false)
    decreases |steps|
  {
    steps == [] || (RevivesDead(s, steps[0]) && AlwaysRevivesDead(Next(s, steps[0]), steps[1..]))
  }

  lemma {:induction false} OneSenderFrom(s: System, steps: seq<Step>)
    requires AllBalanced(s) && Executes(s, steps, false)
    ensures AlwaysAtMostOne(s, steps) <==> AlwaysRevivesDead(s, steps)
    decreases |steps|
  {
    hide AllBalanced, AtMostOne, Next, RevivesDead;
    BalancedIsOne(s);
    if steps == [] {
    } else if RevivesDead(s, steps[0]) {
      NextBalances(s, steps[0]);
      OneSenderFrom(Next(s, steps[0]), steps[1..]);
    } else {
      RevivesLive(s, steps[0]);
    }
  }

  lemma RevivesLive(s: System, step: Step)
    requires AllBalanced(s) && Enabled(s, step, false) && !RevivesDead(s, step)
    ensures !AtMostOne(Next(s, step))
  {
    hide Sum, LoopSenders;
    var o := s.callers[step.t].c;
    assert Balanced(s, o);
    ReviveBalances(s, step.t, o);
    assert Senders(Next(s, step), o) == 2;
  }

  /**
  In any run, overlapping or not, each channel object has at most one sending or breaking loop or
  call about to start one, in every state, exactly if no call revives a channel that another call
  has revived since it was found dead.
  */
  lemma OneSenderInRunExactly(steps: seq<Step>)
    requires Executes(START, steps, false)
    ensures AlwaysAtMostOne(START, steps) <==> AlwaysRevivesDead(START, steps)
  {
    OneSenderFrom(START, steps);
  }
}
