/**
The stream channels of api/streams.go as a system of atomic steps: callers of `GetStream`, the
send loop goroutines, the goroutines that put a failed message back, and the senders, for one
target. `init` and `SendMsg` may succeed or fail at any time. A message is named by the number of
its `Send` call on its channel.

When a restart fails, `GetStream` overwrites its channel variable with nil and then reads fields of
it for the error text. That panic ends the process: no step is possible afterwards. Only the
assignment of the stream is visible to others before, so failing and panicking are one step.
*/
module StreamProtocol {
  import opened Wrappers

  type Message = nat

  /** Capacity of the buffered Go channel. */
  const CAPACITY: nat := 1000

  /** A `sendLoop` goroutine: between messages, calling SendMsg, or on one of the statements after an error. */
  datatype Loop =
    | Waiting
    | Sending(m: Message)
    | Broken(m: Message)   // SendMsg returned an error, `dead` not yet set
    | Leaving(m: Message)  // `dead` set, the goroutine that re-queues the message not yet started
    | Gone

  /**
  A `StreamChannelOf` object. `senders` and `requeues` are the goroutines blocked on `channel <- m`
  in `Send` and after a failure. The last fields are records: `delivered`, `accepted` and `failed` of
  the messages for which SendMsg succeeded, that `Send` put into the queue, and for which some SendMsg
  failed; `entered` and `received` of everything that was put into the queue and taken from it;
  `calls` of the SendMsg calls that have returned.
  */
  datatype Channel = Channel(
    queue: seq<Message>, senders: multiset<Message>, requeues: multiset<Message>, loops: seq<Loop>,
    dead: bool, stream: Option<nat>,
    submitted: nat, accepted: seq<Message>, delivered: seq<Message>, failed: set<Message>,
    entered: seq<Message>, received: seq<Message>, calls: seq<Call>)

  datatype Call = Call(m: Message, ok: bool)

  datatype Op =
    | Send
    | Accept(m: Message)
    | Requeue(m: Message)
    | Receive(loop: nat)
    | SendMsg(loop: nat, ok: bool)
    | MarkDead(loop: nat)
    | PutBack(loop: nat)

  function NewChannel(stream: nat): Channel {
    Channel([], multiset{}, multiset{}, [], false, Some(stream), 0, [], [], {}, [], [], [])
  }

  predicate OpEnabled(c: Channel, op: Op) {
    match op
    case Send => true
    case Accept(m) => m in c.senders && |c.queue| < CAPACITY
    case Requeue(m) => m in c.requeues && |c.queue| < CAPACITY
    case Receive(i) => i < |c.loops| && c.loops[i].Waiting? && c.queue != []
    case SendMsg(i, _) => i < |c.loops| && c.loops[i].Sending?
    case MarkDead(i) => i < |c.loops| && c.loops[i].Broken?
    case PutBack(i) => i < |c.loops| && c.loops[i].Leaving?
  }

  function OpNext(c: Channel, op: Op): Channel
    requires OpEnabled(c, op)
  {
    match op
    case Send => c.(senders := c.senders + multiset{c.submitted}, submitted := c.submitted + 1)
    case Accept(m) =>
      c.(senders := c.senders - multiset{m}, queue := c.queue + [m], accepted := c.accepted + [m],
         entered := c.entered + [m])
    case Requeue(m) =>
      c.(requeues := c.requeues - multiset{m}, queue := c.queue + [m], entered := c.entered + [m])
    case Receive(i) =>
      c.(queue := c.queue[1..], loops := c.loops[i := Sending(c.queue[0])], received := c.received + [c.queue[0]])
    case SendMsg(i, ok) =>
      var m := c.loops[i].m;
      var calls := c.calls + [Call(m, ok)];
      if ok then c.(loops := c.loops[i := Waiting], delivered := c.delivered + [m], calls := calls)
      else c.(loops := c.loops[i := Broken(m)], failed := c.failed + {m}, calls := calls)
    case MarkDead(i) => c.(loops := c.loops[i := Leaving(c.loops[i].m)], dead := true)
    case PutBack(i) => c.(loops := c.loops[i := Gone], requeues := c.requeues + multiset{c.loops[i].m})
  }

  /** Where a `GetStream` call stands; `c` indexes the channel object it has found or made. */
  datatype Caller =
    | Called
    | Adding
    | Registering(c: nat)
    | Checking(c: nat)
    | Restarting(c: nat)
    | Reviving(c: nat)
    | Starting(c: nat)
    | Returned

  /** The call has found or made channel object `o` and still works on it. */
  predicate RefersTo(p: Caller, o: nat) {
    (p.Registering? || p.Checking? || p.Restarting? || p.Reviving? || p.Starting?) && p.c == o
  }

  /** The call is going to start a send loop whatever happens. */
  predicate AboutToStart(p: Caller) {
    p.Registering? || p.Starting?
  }

  /**
  All channel objects ever made for the target, the one the `channels` map points to, the calls and
  the number of streams opened so far; `crashed` once the process has panicked.
  */
  datatype System = System(
    channels: seq<Channel>, registered: Option<nat>, callers: seq<Caller>, streams: nat, crashed: bool)

  /** How the `init` argument behaves: it is nil, reports an error, or opens a stream. */
  datatype Init = Missing | Refused | Opened

  datatype Step =
    | GetStream
    | Lookup(t: nat)
    | AddInit(t: nat, init: Init)
    | Register(t: nat)
    | CheckDead(t: nat)
    | RestartInit(t: nat, init: Init)
    | Revive(t: nat)
    | StartLoop(t: nat)
    | On(c: nat, op: Op)

  const START: System := System([], None, [], 0, false)

  /** With `serial`, a GetStream call begins only after the earlier ones have returned. */
  predicate Enabled(s: System, step: Step, serial: bool) {
    !s.crashed &&
    match step
    case GetStream => serial ==> forall t :: 0 <= t < |s.callers| ==> s.callers[t].Returned?
    case Lookup(t) => t < |s.callers| && s.callers[t].Called?
    case AddInit(t, _) => t < |s.callers| && s.callers[t].Adding?
    case Register(t) => t < |s.callers| && s.callers[t].Registering?
    case CheckDead(t) => t < |s.callers| && s.callers[t].Checking? && s.callers[t].c < |s.channels|
    case RestartInit(t, _) => t < |s.callers| && s.callers[t].Restarting? && s.callers[t].c < |s.channels|
    case Revive(t) => t < |s.callers| && s.callers[t].Reviving? && s.callers[t].c < |s.channels|
    case StartLoop(t) => t < |s.callers| && s.callers[t].Starting? && s.callers[t].c < |s.channels|
    case On(c, op) => c < |s.channels| && OpEnabled(s.channels[c], op)
  }

  function Next(s: System, step: Step): System
    requires Enabled(s, step, false)
  {
    match step
    case GetStream => s.(callers := s.callers + [Called])
    case Lookup(t) => Move(s, t, if s.registered.None? then Adding else Checking(s.registered.value))
    case AddInit(t, init) =>
      if init.Opened? then
        Move(s, t, Registering(|s.channels|)).(
          channels := s.channels + [NewChannel(s.streams)], streams := s.streams + 1)
      else Move(s, t, Returned)
    case Register(t) => Move(s, t, Starting(s.callers[t].c)).(registered := Some(s.callers[t].c))
    case CheckDead(t) =>
      Move(s, t, if s.channels[s.callers[t].c].dead then Restarting(s.callers[t].c) else Returned)
    case RestartInit(t, init) =>
      var c := s.callers[t].c;
      if init.Missing? then s.(crashed := true)
      else if init.Refused? then Update(s, c, s.channels[c].(stream := None)).(crashed := true)
      else Update(Move(s, t, Reviving(c)), c, s.channels[c].(stream := Some(s.streams))).(streams := s.streams + 1)
    case Revive(t) =>
      var c := s.callers[t].c;
      Update(Move(s, t, Starting(c)), c, s.channels[c].(dead := false))
    case StartLoop(t) =>
      var c := s.callers[t].c;
      Update(Move(s, t, Returned), c, s.channels[c].(loops := s.channels[c].loops + [Waiting]))
    case On(c, op) => Update(s, c, OpNext(s.channels[c], op))
  }

  function Move(s: System, t: nat, phase: Caller): System
    requires t < |s.callers|
  {
    s.(callers := s.callers[t := phase])
  }

  function Update(s: System, c: nat, channel: Channel): System
    requires c < |s.channels|
  {
    s.(channels := s.channels[c := channel])
  }

  /** `steps` can be taken one after the other from `s`. */
  predicate Executes(s: System, steps: seq<Step>, serial: bool)
    decreases |steps|
  {
    steps == [] || (Enabled(s, steps[0], serial) && Executes(Next(s, steps[0]), steps[1..], serial))
  }

  function Run(s: System, steps: seq<Step>, serial: bool): System
    requires Executes(s, steps, serial)
    decreases |steps|
  {
    if steps == [] then s else Run(Next(s, steps[0]), steps[1..], serial)
  }

  /** Some sequence of steps leads from `s` to `s'`. */
  ghost predicate Reaches(s: System, s': System, serial: bool) {
    exists steps :: Executes(s, steps, serial) && Run(s, steps, serial) == s'
  }

  ghost predicate Reachable(s: System, serial: bool) {
    Reaches(START, s, serial)
  }

  lemma {:induction false} RunConcat(s: System, a: seq<Step>, b: seq<Step>, serial: bool)
    requires Executes(s, a, serial) && Executes(Run(s, a, serial), b, serial)
    ensures Executes(s, a + b, serial) && Run(s, a + b, serial) == Run(Run(s, a, serial), b, serial)
    decreases |a|
  {
    hide Next;
    if a == [] {
      assert a + b == b;
    } else {
      RunConcat(Next(s, a[0]), a[1..], b, serial);
      assert (a + b)[0] == a[0] && (a + b)[1..] == a[1..] + b;
    }
  }

  lemma OneStep(s: System, step: Step, serial: bool)
    requires Enabled(s, step, serial)
    ensures Executes(s, [step], serial) && Run(s, [step], serial) == Next(s, step)
  {
  }

  lemma ReachesSelf(s: System, serial: bool)
    ensures Reaches(s, s, serial)
  {
    assert Executes(s, [], serial) && Run(s, [], serial) == s;
  }

  lemma ReachesNext(s: System, s': System, step: Step, serial: bool)
    requires Reaches(s, s', serial) && Enabled(s', step, serial)
    ensures Reaches(s, Next(s', step), serial)
  {
    hide Next, Enabled;
    var steps :| Executes(s, steps, serial) && Run(s, steps, serial) == s';
    OneStep(s', step, serial);
    RunConcat(s, steps, [step], serial);
  }
}
