/** When a GetStream call panics, and what is lost then. */
module StreamPanics {
  import opened Wrappers
  import opened StreamProtocol
  import opened StreamDrain

  predicate FailingRestart(step: Step) {
    step.RestartInit? && !step.init.Opened?
  }

  /** From a live process, a run panics exactly if a restart in it fails. */
  lemma {:induction false} CrashesExactly(s: System, steps: seq<Step>, serial: bool)
    requires !s.crashed && Executes(s, steps, serial)
    ensures Run(s, steps, serial).crashed <==> exists k :: 0 <= k < |steps| && FailingRestart(steps[k])
    decreases |steps|
  {
    if steps == [] {
      assert Run(s, steps, serial) == s;
    } else if FailingRestart(steps[0]) {
      assert Next(s, steps[0]).crashed && steps[1..] == [];
    } else {
      CrashesExactly(Next(s, steps[0]), steps[1..], serial);
      assert forall k :: 0 < k < |steps| ==> steps[k] == steps[1..][k - 1];
    }
  }

  /** Every prefix of a run is a run, and one step further it is the next state. */
  lemma {:induction false} PrefixExecutes(s: System, steps: seq<Step>, n: nat, serial: bool)
    requires Executes(s, steps, serial) && n < |steps|
    ensures Executes(s, steps[..n], serial) && Executes(s, steps[..n + 1], serial)
    ensures Enabled(Run(s, steps[..n], serial), steps[n], serial)
    ensures Run(s, steps[..n + 1], serial) == Next(Run(s, steps[..n], serial), steps[n])
    decreases n
  {
    hide Next;
    if n == 0 {
      assert steps[..0] == [] && steps[..1] == [steps[0]];
      OneStep(s, steps[0], serial);
    } else {
      PrefixExecutes(Next(s, steps[0]), steps[1..], n - 1, serial);
      assert steps[..n][0] == steps[0] && steps[..n][1..] == steps[1..][..n - 1];
      assert steps[..n + 1][0] == steps[0] && steps[..n + 1][1..] == steps[1..][..n];
    }
  }

  /** In step `j` call `t` looked at channel `c` and found it dead. */
  ghost predicate FoundDead(steps: seq<Step>, j: nat, t: nat, c: nat, serial: bool) {
    && j < |steps| && steps[j] == CheckDead(t) && Executes(START, steps[..j], serial)
    && var s := Run(START, steps[..j], serial);
    && t < |s.callers| && s.callers[t] == Checking(c) && c < |s.channels| && s.channels[c].dead
  }

  /** Only `CheckDead` moves a call to `Restarting`, and no step moves it between channels. */
  lemma RestartingNext(s: System, step: Step, t: nat, c: nat)
    requires Enabled(s, step, false) && t < |Next(s, step).callers| && Next(s, step).callers[t] == Restarting(c)
    ensures t < |s.callers|
    ensures || s.callers[t] == Restarting(c)
            || (step == CheckDead(t) && s.callers[t] == Checking(c) && c < |s.channels| && s.channels[c].dead)
  {
  }

  lemma {:induction false} RestartingFoundDead(steps: seq<Step>, n: nat, t: nat, c: nat, serial: bool) returns (j: nat)
    requires Executes(START, steps, serial) && n <= |steps| && Executes(START, steps[..n], serial)
    requires t < |Run(START, steps[..n], serial).callers|
    requires Run(START, steps[..n], serial).callers[t] == Restarting(c)
    ensures j < n && FoundDead(steps, j, t, c, serial)
    decreases n
  {
    hide Next, Enabled;
    if n == 0 {
      assert false;
    } else {
      PrefixExecutes(START, steps, n - 1, serial);
      var s := Run(START, steps[..n - 1], serial);
      SerialIsEnabled(s, steps[n - 1], serial);
      RestartingNext(s, steps[n - 1], t, c);
      if s.callers[t] == Restarting(c) {
        j := RestartingFoundDead(steps, n - 1, t, c, serial);
      } else {
        j := n - 1;
      }
    }
  }

  lemma SerialIsEnabled(s: System, step: Step, serial: bool)
    requires Enabled(s, step, serial)
    ensures Enabled(s, step, false)
  {
  }

  /** Call `t` found its channel dead, and its `init` was nil or failed. */
  ghost predicate PanickingCall(steps: seq<Step>, j: nat, k: nat, t: nat, c: nat, serial: bool) {
    && j < k < |steps| && FoundDead(steps, j, t, c, serial)
    && FailingRestart(steps[k]) && steps[k].t == t
  }

  /**
  In any run, overlapping or not, the process panics if and only if some GetStream call found its
  channel dead and then had no `init` or one that failed; a first call whose `init` fails just
  returns its error.
  */
  lemma GetStreamPanicsExactly(steps: seq<Step>, serial: bool)
    requires Executes(START, steps, serial)
    ensures Run(START, steps, serial).crashed
       <==> exists j, k, t, c :: PanickingCall(steps, j, k, t, c, serial)
  {
    CrashesExactly(START, steps, serial);
    if Run(START, steps, serial).crashed {
      var k :| 0 <= k < |steps| && FailingRestart(steps[k]);
      PrefixExecutes(START, steps, k, serial);
      var t := steps[k].t;
      var c := Run(START, steps[..k], serial).callers[t].c;
      var j := RestartingFoundDead(steps, k, t, c, serial);
      assert PanickingCall(steps, j, k, t, c, serial);
    }
  }

  // ---------------------------------------------------------------- the smallest case

  /** One more step of a run from `origin`. */
  lemma Then(origin: System, s: System, step: Step, serial: bool) returns (s': System)
    requires Reaches(origin, s, serial) && Enabled(s, step, serial)
    ensures Reaches(origin, s', serial) && s' == Next(s, step)
  {
    ReachesNext(origin, s, step, serial);
    s' := Next(s, step);
  }

  /** A first call makes a channel with its send loop. */
  lemma FirstCall(serial: bool) returns (s: System)
    ensures Reachable(s, serial)
    ensures s == System([NewChannel(0).(loops := [Waiting])], Some(0), [Returned], 1, false)
  {
    hide Reaches;
    ReachesSelf(START, serial);
    s := Then(START, START, GetStream, serial);
    s := Then(START, s, Lookup(0), serial);
    assert s == System([], None, [Adding], 0, false);
    s := Then(START, s, AddInit(0, Opened), serial);
    assert s == System([NewChannel(0)], None, [Registering(0)], 1, false);
    s := Then(START, s, Register(0), serial);
    s := Then(START, s, StartLoop(0), serial);
    assert s.channels[0] == NewChannel(0).(loops := [Waiting]);
  }

  lemma ThenOn(s: System, op: Op, serial: bool) returns (s': System)
    requires Reachable(s, serial) && |s.channels| == 1 && !s.crashed && OpEnabled(s.channels[0], op)
    ensures Reachable(s', serial) && s' == s.(channels := [OpNext(s.channels[0], op)])
  {
    hide Reaches;
    s' := Then(START, s, On(0, op), serial);
  }

  /** A message is taken and its sending fails. */
  lemma BrokenLoop(serial: bool) returns (s: System)
    ensures Reachable(s, serial) && s.registered == Some(0) && s.callers == [Returned] && !s.crashed
    ensures |s.channels| == 1
    ensures var c := s.channels[0]; c.loops == [Broken(0)] && c.submitted == 1 && c.delivered == []
  {
    hide Reaches;
    s := FirstCall(serial);
    s := ThenOn(s, Send, serial);
    s := ThenOn(s, Accept(0), serial);
    s := ThenOn(s, Receive(0), serial);
    s := ThenOn(s, SendMsg(0, false), serial);
  }

  lemma DeadChannel(serial: bool) returns (s: System)
    ensures Reachable(s, serial) && s.registered == Some(0) && s.callers == [Returned] && !s.crashed
    ensures |s.channels| == 1
    ensures var c := s.channels[0]; c.dead && c.loops == [Leaving(0)] && c.submitted == 1 && c.delivered == []
  {
    hide Reaches;
    s := BrokenLoop(serial);
    s := ThenOn(s, MarkDead(0), serial);
  }

  /** The next call finds it dead and cannot open a stream: the process panics with the message undelivered. */
  lemma FailedRestartStrandsMessage()
    ensures exists s :: && Reachable(s, true) && s.crashed && |s.channels| == 1
                        && s.channels[0].submitted == 1 && !Deliverable(s, 0, true)
  {
    hide Reaches, Deliverable, AllDelivered;
    var s := DeadChannel(true);
    s := Then(START, s, GetStream, true);
    s := Then(START, s, Lookup(1), true);
    s := Then(START, s, CheckDead(1), true);
    s := Then(START, s, RestartInit(1, Refused), true);
    NoneDelivered(s.channels[0]);
    NothingIsStrandedExactly(s);
  }

  lemma NoneDelivered(c: Channel)
    requires c.submitted == 1 && c.delivered == []
    ensures !AllDelivered(c)
  {
    assert multiset(c.delivered)[0] == 0;
  }
}
