/** Without new calls, every schedule of the goroutines ends, with all of them finished. */
module PolicyTermination {
  import opened Wrappers
  import opened Sums
  import opened CacheKeys
  import opened PolicyModel
  import opened PolicyConcurrency
  import opened PolicyCoherence

  /** Loops run over at most as many metrics as the catalogue has. */
  predicate Bounded(p: Phase, size: nat) {
    match p
    case NeedWrite(_, metrics) => |metrics| <= size
    case AwaitWrite(_, metrics) => |metrics| <= size
    case Scanning(_, loop) => Length(loop) <= size
    case NeedQuery(_, loop, _, _) => Length(loop) < size
    case Looking(_, loop, _, _) => Length(loop) < size
    case Fetched(_, loop, _, _, _) => Length(loop) < size
    case Running(_, loop, _, _) => Length(loop) < size
    case _ => true
  }

  function Length(loop: Loop): nat {
    |loop.rest| + if loop.Filling? then |loop.names| else 0
  }

  ghost predicate ListsBounded(lists: map<string, Option<seq<string>>>, size: nat) {
    forall key :: key in lists && lists[key].Some? ==> |lists[key].value| <= size
  }

  ghost predicate AllBounded(s: State) {
    && (forall i :: 0 <= i < |s.threads| ==> Bounded(s.threads[i], |s.source.catalogue|))
    && ListsBounded(s.lists, |s.source.catalogue|)
  }

  /** Steps that a goroutine in this phase may still take. */
  function Rank(p: Phase, size: nat): nat {
    match p
    case NeedRead(_) => 5 * size + 6
    case Reading(_) => 5 * size + 5
    case Listing(_) => 5 * size + 4
    case NeedWrite(_, metrics) => 5 * |metrics| + 3
    case AwaitWrite(_, metrics) => 5 * |metrics| + 2
    case Scanning(_, loop) => 5 * |loop.rest| + 1
    case NeedQuery(_, loop, _, _) => 5 * |loop.rest| + 5
    case Looking(_, loop, _, _) => 5 * |loop.rest| + 4
    case Fetched(_, loop, _, _, _) => 5 * |loop.rest| + 3
    case Running(_, loop, _, _) => 5 * |loop.rest| + 2
    case NeedEvict(_) => 2
    case Evicting(_) => 1
    case Done(_) => 0
  }

  function RankOf(size: nat): Phase -> nat {
    (p: Phase) => Rank(p, size)
  }

  function Work(s: State): nat {
    Sum(s.threads, RankOf(|s.source.catalogue|))
  }

  /** A step takes its goroutine closer to the end and keeps the bounds. */
  lemma PhaseDescends(rego: Rego, s: State, p: Phase, fails: bool)
    requires !p.Done? && Bounded(p, |s.source.catalogue|) && ListsBounded(s.lists, |s.source.catalogue|)
    ensures var p' := PhaseAfter(rego, s, p, fails);
            && Bounded(p', |s.source.catalogue|)
            && Rank(p', |s.source.catalogue|) < Rank(p, |s.source.catalogue|)
            && ListsBounded(ListsAfter(s.lists, p, p'), |s.source.catalogue|)
  {
    hide QueryKey, RunQuery;
  }

  /** Every step strictly decreases the work left, whichever goroutine takes it and whatever it meets. */
  lemma StepDoesWork(rego: Rego, s: State, i: nat, fails: bool)
    requires AllBounded(s) && CanStep(s, i)
    ensures AllBounded(Step(rego, s, i, fails)) && Work(Step(rego, s, i, fails)) < Work(s)
  {
    hide PhaseAfter, LocksAfter, QueriesAfter, ListsAfter, Rank, Bounded, ListsBounded;
    PhaseDescends(rego, s, s.threads[i], fails);
    SumUpdate(s.threads, i, Step(rego, s, i, fails).threads[i], RankOf(|s.source.catalogue|));
  }

  predicate OnlyRuns(events: seq<Event>) {
    forall k :: 0 <= k < |events| ==> events[k].Run?
  }

  lemma {:induction false} RunsDoWork(rego: Rego, s: State, events: seq<Event>)
    requires AllBounded(s) && LocksMatch(s) && OnlyRuns(events) && Executes(rego, s, events)
    ensures |events| + Work(After(rego, s, events)) <= Work(s)
    ensures LocksMatch(After(rego, s, events)) && AllBounded(After(rego, s, events))
    decreases |events|
  {
    hide AllBounded, LocksMatch, Step, Work;
    if events == [] {
    } else {
      StepDoesWork(rego, s, events[0].i, events[0].fails);
      NextKeepsLocks(rego, s, events[0]);
      RunsDoWork(rego, Next(rego, s, events[0]), events[1..]);
    }
  }

  lemma NextKeepsBounds(rego: Rego, s: State, e: Event)
    requires AllBounded(s) && Possible(s, e)
    ensures AllBounded(Next(rego, s, e))
  {
    hide Step, Work;
    if e.Run? {
      StepDoesWork(rego, s, e.i, e.fails);
    }
  }

  lemma {:induction false} RunKeepsBounds(rego: Rego, s: State, events: seq<Event>)
    requires AllBounded(s) && Executes(rego, s, events)
    ensures AllBounded(After(rego, s, events))
    decreases |events|
  {
    hide AllBounded, Next;
    if events == [] {
    } else {
      NextKeepsBounds(rego, s, events[0]);
      RunKeepsBounds(rego, Next(rego, s, events[0]), events[1..]);
    }
  }

  ghost predicate AllDone(s: State) {
    forall i :: 0 <= i < |s.threads| ==> s.threads[i].Done?
  }

  ghost predicate Stopped(s: State) {
    forall i :: !CanStep(s, i)
  }

  /**
  From any reachable state, in whatever order the goroutines are scheduled and whatever errors they
  meet, only finitely many steps can be taken, at most `Work` of them, and when none is left every
  evaluation and every event handler has returned and every lock is free.
  */
  lemma EveryScheduleFinishes(rego: Rego, source: Contents, before: seq<Event>, events: seq<Event>)
    requires Executes(rego, Start(source), before)
    requires OnlyRuns(events) && Executes(rego, After(rego, Start(source), before), events)
    ensures var s := After(rego, Start(source), before);
            var s' := After(rego, s, events);
            && |events| <= Work(s)
            && (Stopped(s') ==> AllDone(s') && s'.locks == Locks({}, None, {}, None))
  {
    hide Executes, After, Work, CanStep;
    RunKeepsInvariants(rego, Start(source), before);
    RunKeepsBounds(rego, Start(source), before);
    var s := After(rego, Start(source), before);
    RunsDoWork(rego, s, events);
    StoppedIsDone(After(rego, s, events));
  }

  lemma StoppedIsDone(s: State)
    requires LocksMatch(s)
    ensures Stopped(s) ==> AllDone(s) && s.locks == Locks({}, None, {}, None)
  {
    hide CanStep;
    if Stopped(s) {
      forall i | 0 <= i < |s.threads|
        ensures s.threads[i].Done?
      {
        if !s.threads[i].Done? {
          var j := SomeoneCanStep(s, i);
        }
      }
      assert forall i :: i in s.locks.readers ==> Owns(s.locks, i, s.threads[i]);
      assert forall i :: i in s.locks.waiting ==> Owns(s.locks, i, s.threads[i]);
      assert s.locks.writer.Some? ==> Owns(s.locks, s.locks.writer.value, s.threads[s.locks.writer.value]);
      assert s.locks.query.Some? ==> Owns(s.locks, s.locks.query.value, s.threads[s.locks.query.value]);
    }
  }
}
