/** A whole GetStream call, when nothing comes in between: what it leaves behind. */
module StreamCalls {
  import opened Wrappers
  import opened StreamProtocol

  lemma Last(s: System, step: Step)
    requires Enabled(s, step, false)
    ensures Executes(s, [step], false) && Run(s, [step], false) == Next(s, step)
  {
    OneStep(s, step, false);
  }

  lemma Before(s: System, step: Step, steps: seq<Step>)
    requires Enabled(s, step, false) && Executes(Next(s, step), steps, false)
    ensures Executes(s, [step] + steps, false)
    ensures Run(s, [step] + steps, false) == Run(Next(s, step), steps, false)
  {
    hide Next;
    assert ([step] + steps)[1..] == steps;
  }

  /** The steps of one call, as far as it gets. */
  function CallSteps(s: System, init: Init): seq<Step> {
    var t := |s.callers|;
    [GetStream] + ([Lookup(t)] +
      if s.registered.None? then
        [AddInit(t, init)] + (if init.Opened? then [Register(t)] + [StartLoop(t)] else [])
      else
        [CheckDead(t)]
        + (if s.registered.value < |s.channels| && s.channels[s.registered.value].dead
           then [RestartInit(t, init)] + (if init.Opened? then [Revive(t)] + [StartLoop(t)] else []) else []))
  }

  ghost predicate Calls(s: System, init: Init, s': System) {
    Executes(s, CallSteps(s, init), false) && Run(s, CallSteps(s, init), false) == s'
  }

  /** The call has been made and has looked the target up. */
  lemma LooksUp(s: System, steps: seq<Step>, s': System)
    requires !s.crashed
    requires var looked := if s.registered.None? then Adding else Checking(s.registered.value);
             var s1 := s.(callers := s.callers + [looked]);
             Executes(s1, steps, false) && Run(s1, steps, false) == s'
    ensures var all := [GetStream] + ([Lookup(|s.callers|)] + steps);
            Executes(s, all, false) && Run(s, all, false) == s'
  {
    hide Executes, Run;
    var t := |s.callers|;
    var called := Next(s, GetStream);
    var looked := if s.registered.None? then Adding else Checking(s.registered.value);
    assert Next(called, Lookup(t)).callers == s.callers + [looked];
    assert Next(called, Lookup(t)) == s.(callers := s.callers + [looked]);
    Before(called, Lookup(t), steps);
    Before(s, GetStream, [Lookup(t)] + steps);
  }

  /** A target without a channel gets one: empty, live, registered, with a stream of its own and one send loop. */
  lemma FirstCallExactly(s: System, init: Init)
    requires !s.crashed && s.registered.None?
    ensures Calls(s, init,
      if init.Opened? then
        s.(channels := s.channels + [Channel([], multiset{}, multiset{}, [Waiting], false, Some(s.streams), 0, [], [],
                                             {}, [], [], [])],
           registered := Some(|s.channels|), callers := s.callers + [Returned], streams := s.streams + 1)
      else s.(callers := s.callers + [Returned]))
  {
    hide Executes, Run;
    var t, o := |s.callers|, |s.channels|;
    var s1 := s.(callers := s.callers + [Adding]);
    var s2 := Next(s1, AddInit(t, init));
    if init.Opened? {
      assert s2.callers == s.callers + [Registering(o)];
      var s3 := Next(s2, Register(t));
      assert s3.callers == s.callers + [Starting(o)];
      var s4 := Next(s3, StartLoop(t));
      assert s4.callers == s.callers + [Returned];
      assert s4.channels[o].loops == [] + [Waiting] == [Waiting];
      assert s4.channels == s.channels + [NewChannel(s.streams).(loops := [Waiting])];
      Last(s3, StartLoop(t));
      Before(s2, Register(t), [StartLoop(t)]);
      Before(s1, AddInit(t, init), [Register(t)] + [StartLoop(t)]);
      LooksUp(s, [AddInit(t, init)] + ([Register(t)] + [StartLoop(t)]), s4);
    } else {
      assert s2.callers == s.callers + [Returned];
      Last(s1, AddInit(t, init));
      assert [AddInit(t, init)] + [] == [AddInit(t, init)];
      LooksUp(s, [AddInit(t, init)], s2);
    }
  }

  /** A live channel is returned as it is. */
  lemma LiveCallExactly(s: System, init: Init, o: nat)
    requires !s.crashed && s.registered == Some(o) && o < |s.channels| && !s.channels[o].dead
    ensures Calls(s, init, s.(callers := s.callers + [Returned]))
  {
    hide Executes, Run;
    var t := |s.callers|;
    var s1 := s.(callers := s.callers + [Checking(o)]);
    assert Next(s1, CheckDead(t)).callers == s.callers + [Returned];
    Last(s1, CheckDead(t));
    assert [CheckDead(t)] + [] == [CheckDead(t)];
    LooksUp(s, [CheckDead(t)], s.(callers := s.callers + [Returned]));
  }

  /**
  A dead channel gets a new stream, is live again and has one more send loop; its queue and every
  message in it, being put back or waiting to be sent stay. If the stream cannot be opened, the
  process panics.
  */
  lemma RestartExactly(s: System, init: Init, o: nat)
    requires !s.crashed && s.registered == Some(o) && o < |s.channels| && s.channels[o].dead
    ensures init.Opened? ==>
      var c := s.channels[o];
      Calls(s, init,
        s.(channels := s.channels[o := c.(dead := false, stream := Some(s.streams), loops := c.loops + [Waiting])],
           callers := s.callers + [Returned], streams := s.streams + 1))
    ensures !init.Opened? ==>
      Calls(s, init,
        s.(channels := s.channels[o := if init.Refused? then s.channels[o].(stream := None) else s.channels[o]],
           callers := s.callers + [Restarting(o)], crashed := true))
  {
    hide Executes, Run;
    var t := |s.callers|;
    var s1 := s.(callers := s.callers + [Checking(o)]);
    var s2 := Next(s1, CheckDead(t));
    assert s2.callers == s.callers + [Restarting(o)];
    var s3 := Next(s2, RestartInit(t, init));
    if init.Opened? {
      assert s3.callers == s.callers + [Reviving(o)];
      var s4 := Next(s3, Revive(t));
      assert s4.callers == s.callers + [Starting(o)];
      var s5 := Next(s4, StartLoop(t));
      assert s5.callers == s.callers + [Returned];
      var c := s.channels[o];
      assert s5.channels == s.channels[o := c.(dead := false, stream := Some(s.streams), loops := c.loops + [Waiting])];
      Last(s4, StartLoop(t));
      Before(s3, Revive(t), [StartLoop(t)]);
      Before(s2, RestartInit(t, init), [Revive(t)] + [StartLoop(t)]);
      Before(s1, CheckDead(t), [RestartInit(t, init)] + ([Revive(t)] + [StartLoop(t)]));
      LooksUp(s, [CheckDead(t)] + ([RestartInit(t, init)] + ([Revive(t)] + [StartLoop(t)])), s5);
    } else {
      assert s3.channels == s.channels[o := if init.Refused? then s.channels[o].(stream := None) else s.channels[o]];
      Last(s2, RestartInit(t, init));
      Before(s1, CheckDead(t), [RestartInit(t, init)]);
      assert [RestartInit(t, init)] + [] == [RestartInit(t, init)];
      LooksUp(s, [CheckDead(t)] + [RestartInit(t, init)], s3);
    }
  }

  // ---------------------------------------------------------------- streams are new

  ghost predicate StreamsOpened(s: System) {
    && (forall o :: 0 <= o < |s.channels| && s.channels[o].stream.Some? ==> s.channels[o].stream.value < s.streams)
    && (s.registered.Some? ==> s.registered.value < |s.channels|)
    && (forall t :: 0 <= t < |s.callers| && s.callers[t].Registering? ==> s.callers[t].c < |s.channels|)
  }

  lemma OpKeepsStream(c: Channel, op: Op)
    requires OpEnabled(c, op)
    ensures OpNext(c, op).stream == c.stream
  {
  }

  lemma StepOpens(s: System, step: Step)
    requires StreamsOpened(s) && Enabled(s, step, false)
    ensures StreamsOpened(Next(s, step))
  {
    hide OpNext, OpEnabled;
    if step.On? {
      OpKeepsStream(s.channels[step.c], step.op);
    }
  }

  lemma {:induction false} RunOpens(s: System, steps: seq<Step>)
    requires StreamsOpened(s) && Executes(s, steps, false)
    ensures StreamsOpened(Run(s, steps, false))
    decreases |steps|
  {
    hide StreamsOpened, Next, Enabled;
    if steps == [] {
    } else {
      StepOpens(s, steps[0]);
      RunOpens(Next(s, steps[0]), steps[1..]);
    }
  }

  /** In every reachable state the next stream is one that no channel has, and the map points to a channel. */
  lemma NextStreamIsNew(s: System, o: nat)
    requires Reachable(s, false) && o < |s.channels|
    ensures s.channels[o].stream != Some(s.streams)
    ensures s.registered.Some? ==> s.registered.value < |s.channels|
  {
    var steps :| Executes(START, steps, false) && Run(START, steps, false) == s;
    RunOpens(START, steps);
  }
}
