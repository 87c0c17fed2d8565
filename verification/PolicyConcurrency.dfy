/**
The policy evaluator with its locks: any number of goroutines in `Eval` and `HandleMetricEvent`,
and a source that changes meanwhile, as a system of atomic steps.
*/
module PolicyConcurrency {
  import opened Wrappers
  import opened Values
  import opened CacheKeys
  import opened PolicyModel

  /** An evaluation: its applicability key, its cloud service and its resource. */
  datatype Job = Job(key: string, service: string, resource: Value)

  /**
  Which loop of `Eval` runs, what is left of it and what it has found so far; only the filling one
  holds the metrics lock.
  */
  datatype Loop =
    | Filling(rest: seq<string>, names: seq<string>, findings: seq<Finding>)
    | Serving(rest: seq<string>, findings: seq<Finding>)

  /** What an evaluation returned, and whether it was served from a cached list. */
  datatype Report = Report(job: Job, hit: bool, result: Result<seq<Finding>, Error>)

  /** Where a goroutine stands. The constructors that begin with Need or Await wait for a lock. */
  datatype Phase =
    | NeedRead(job: Job)
    | Reading(job: Job)
    | Listing(job: Job)
    | NeedWrite(job: Job, metrics: seq<string>)   // about to call Lock
    | AwaitWrite(job: Job, metrics: seq<string>)  // in Lock, which already keeps new readers out
    | Scanning(job: Job, loop: Loop)
    | NeedQuery(job: Job, loop: Loop, metric: string, config: Config)
    | Looking(job: Job, loop: Loop, metric: string, config: Config)
    | Fetched(job: Job, loop: Loop, metric: string, config: Config, code: string)
    | Running(job: Job, loop: Loop, metric: string, query: Query)
    | NeedEvict(metric: string)
    | Evicting(metric: string)
    | Done(report: Option<Report>)  // an event handler reports nothing

  /** The read-write lock of the metrics cache, with the writers waiting for it, and the mutex of the query cache. */
  datatype Locks = Locks(readers: set<nat>, writer: Option<nat>, waiting: set<nat>, query: Option<nat>)

  /** What the metrics source holds. */
  datatype Contents = Contents(
    catalogue: seq<string>, code: map<string, string>, configs: map<(string, string), Config>)

  /**
  `pending` and `pendingConfigs` hold, for every change of an implementation and of a configuration,
  an event that has not been handled to the end.
  */
  datatype State = State(
    threads: seq<Phase>, locks: Locks,
    queries: map<string, Query>, lists: map<string, Option<seq<string>>>,
    source: Contents, pending: multiset<string>, pendingConfigs: multiset<string>)

  predicate CanStep(s: State, i: nat) {
    i < |s.threads| &&
    match s.threads[i]
    case NeedRead(_) => s.locks.writer.None? && s.locks.waiting == {}
    case AwaitWrite(_, _) => s.locks.writer.None? && s.locks.readers == {}
    case NeedQuery(_, _, _, _) => s.locks.query.None?
    case NeedEvict(_) => s.locks.query.None?
    case Done(_) => false
    case _ => true
  }

  // ---------------------------------------------------------------- where a step leads

  function Tail(loop: Loop): Loop
    requires loop.rest != []
  {
    loop.(rest := loop.rest[1..])
  }

  /** The metric applies: its finding is kept, and its name if the list is being filled. */
  function Extend(loop: Loop, metric: string, finding: Finding): Loop {
    match loop
    case Filling(rest, names, findings) => Filling(rest, names + [metric], findings + [finding])
    case Serving(rest, findings) => Serving(rest, findings + [finding])
  }

  /** `Eval` returns an error. */
  function Aborted(job: Job, loop: Loop): Phase {
    Done(Some(Report(job, loop.Serving?, Failure(Other))))
  }

  /** The metric is not found: a fill passes it over, serving a cached list fails. */
  function PassedOver(job: Job, loop: Loop): Phase {
    if loop.Filling? then Scanning(job, loop) else Done(Some(Report(job, true, Failure(NotFound))))
  }

  function Finished(job: Job, loop: Loop): Phase {
    Done(Some(Report(job, loop.Serving?, Success(loop.findings))))
  }

  function AfterReading(s: State, job: Job): Phase {
    if job.key in s.lists && s.lists[job.key].Some? then Scanning(job, Serving(s.lists[job.key].value, []))
    else Listing(job)
  }

  function AfterListing(s: State, job: Job, fails: bool): Phase {
    if fails then Done(Some(Report(job, false, Failure(Other)))) else NeedWrite(job, s.source.catalogue)
  }

  function AfterScanning(s: State, job: Job, loop: Loop, fails: bool): Phase {
    if loop.rest == [] then Finished(job, loop)
    else if fails then Aborted(job, loop)
    else if (job.service, loop.rest[0]) !in s.source.configs then PassedOver(job, Tail(loop))
    else NeedQuery(job, Tail(loop), loop.rest[0], s.source.configs[(job.service, loop.rest[0])])
  }

  function AfterLooking(rego: Rego, s: State, job: Job, loop: Loop, m: string, config: Config, fails: bool): Phase {
    var key := QueryKey(rego.render, m, job.service, config);
    if key in s.queries then Running(job, loop, m, s.queries[key])
    else if fails then Aborted(job, loop)
    else if m !in s.source.code then PassedOver(job, loop)
    else Fetched(job, loop, m, config, s.source.code[m])
  }

  function AfterFetched(rego: Rego, job: Job, loop: Loop, m: string, query: Query): Phase {
    if rego.compiles(query) then Running(job, loop, m, query) else Aborted(job, loop)
  }

  function AfterRunning(rego: Rego, job: Job, loop: Loop, m: string, query: Query): Phase {
    match RunQuery(rego, m, query, job.resource)
    case Failure(_) => Aborted(job, loop)
    case Success(None) => Scanning(job, loop)
    case Success(Some(finding)) => Scanning(job, Extend(loop, m, finding))
  }

  /** Where a goroutine goes from `p`; `fails` is whether a call to the source reports an error in this step. */
  function PhaseAfter(rego: Rego, s: State, p: Phase, fails: bool): Phase {
    match p
    case NeedRead(job) => Reading(job)
    case Reading(job) => AfterReading(s, job)
    case Listing(job) => AfterListing(s, job, fails)
    case NeedWrite(job, metrics) => AwaitWrite(job, metrics)
    case AwaitWrite(job, metrics) => Scanning(job, Filling(metrics, [], []))
    case Scanning(job, loop) => AfterScanning(s, job, loop, fails)
    case NeedQuery(job, loop, m, config) => Looking(job, loop, m, config)
    case Looking(job, loop, m, config) => AfterLooking(rego, s, job, loop, m, config, fails)
    case Fetched(job, loop, m, config, code) => AfterFetched(rego, job, loop, m, Query(m, config, code))
    case Running(job, loop, m, query) => AfterRunning(rego, job, loop, m, query)
    case NeedEvict(m) => Evicting(m)
    case Evicting(_) => Done(None)
    case Done(report) => Done(report)
  }

  predicate InLoop(p: Phase) {
    p.Scanning? || p.NeedQuery? || p.Looking? || p.Fetched? || p.Running?
  }

  predicate HoldsWrite(p: Phase) {
    InLoop(p) && p.loop.Filling?
  }

  predicate HoldsQuery(p: Phase) {
    p.Looking? || p.Fetched? || p.Evicting?
  }

  // ---------------------------------------------------------------- what a step does to the rest

  /** `Get` and `Evict` release the query lock when they return; a fill that ends `Eval` the metrics lock. */
  function LocksAfter(l: Locks, i: nat, p: Phase, p': Phase): Locks {
    match p
    case NeedRead(_) => l.(readers := l.readers + {i})
    case Reading(_) => l.(readers := l.readers - {i})
    case NeedWrite(_, _) => l.(waiting := l.waiting + {i})
    case AwaitWrite(_, _) => l.(waiting := l.waiting - {i}, writer := Some(i))
    case NeedQuery(_, _, _, _) => l.(query := Some(i))
    case NeedEvict(_) => l.(query := Some(i))
    case Evicting(_) => l.(query := None)
    case Looking(_, _, _, _) => if p'.Fetched? then l else FillEnds(l.(query := None), p, p')
    case Fetched(_, _, _, _, _) => FillEnds(l.(query := None), p, p')
    case _ => FillEnds(l, p, p')
  }

  function FillEnds(l: Locks, p: Phase, p': Phase): Locks {
    if HoldsWrite(p) && p'.Done? then l.(writer := None) else l
  }

  function QueriesAfter(rego: Rego, queries: map<string, Query>, p: Phase): map<string, Query> {
    match p
    case Evicting(m) => Evicted(queries, m)
    case Fetched(job, _, m, config, code) => Stored(rego, queries, job.service, Query(m, config, code))
    case _ => queries
  }

  function Stored(rego: Rego, queries: map<string, Query>, service: string, query: Query): map<string, Query> {
    if rego.compiles(query) then queries[QueryKey(rego.render, query.metric, service, query.config) := query]
    else queries
  }

  /** Where an entry comes from: it was there and is not evicted, or it is what was fetched and compiled. */
  lemma EntryOrigin(rego: Rego, queries: map<string, Query>, p: Phase, key: string)
    requires key in QueriesAfter(rego, queries, p)
    ensures var query := QueriesAfter(rego, queries, p)[key];
            || (key in queries && queries[key] == query && (p.Evicting? ==> !(p.metric <= key)))
            || (p.Fetched? && query == Query(p.metric, p.config, p.code) && rego.compiles(query)
                && key == QueryKey(rego.render, p.metric, p.job.service, p.config))
  {
    hide QueryKey;
  }

  /** The end of a fill stores its list, or marks it as not cached. */
  function ListsAfter(lists: map<string, Option<seq<string>>>, p: Phase, p': Phase): map<string, Option<seq<string>>> {
    if HoldsWrite(p) && p'.Done? then
      lists[p.job.key := if p'.report.Some? && p'.report.value.result.Success? then Some(p.loop.names) else None]
    else lists
  }

  function EventsAfter(pending: multiset<string>, p: Phase): multiset<string> {
    if p.Evicting? then pending - multiset{p.metric} else pending
  }

  function Step(rego: Rego, s: State, i: nat, fails: bool): State
    requires CanStep(s, i)
  {
    var p := s.threads[i];
    var p' := PhaseAfter(rego, s, p, fails);
    State(s.threads[i := p'], LocksAfter(s.locks, i, p, p'),
          QueriesAfter(rego, s.queries, p), ListsAfter(s.lists, p, p'),
          s.source, EventsAfter(s.pending, p), EventsAfter(s.pendingConfigs, p))
  }

  /** A goroutine that finds its query cached goes on with it, and releases the lock, whether calls fail or not. */
  lemma CachedNeedsNoCall(rego: Rego, s: State, i: nat, fails: bool)
    requires CanStep(s, i) && s.threads[i].Looking?
    requires QueryKey(rego.render, s.threads[i].metric, s.threads[i].job.service, s.threads[i].config) in s.queries
    ensures var s', p := Step(rego, s, i, fails), s.threads[i];
            var key := QueryKey(rego.render, p.metric, p.job.service, p.config);
            && s'.threads[i] == Running(p.job, p.loop, p.metric, s.queries[key])
            && s'.queries == s.queries && s'.lists == s.lists && s'.locks == s.locks.(query := None)
  {
    hide QueryKey;
  }

  /**
  A fill that returns leaves its list cached if it succeeds and nothing cached under its key if it
  fails, even what another one has stored meanwhile; every other list stays, and no other step
  touches any.
  */
  lemma FillLeaves(rego: Rego, s: State, i: nat, fails: bool)
    requires CanStep(s, i)
    ensures var s', p := Step(rego, s, i, fails), s.threads[i];
            if InLoop(p) && p.loop.Filling? && s'.threads[i].Done? then
              && s'.threads[i].report.Some? && p.job.key in s'.lists
              && (s'.lists[p.job.key].Some? <==> s'.threads[i].report.value.result.Success?)
              && (s'.lists[p.job.key].Some? ==> s'.lists[p.job.key].value == p.loop.names && p.loop.rest == [])
              && (forall key :: key != p.job.key ==>
                    (key in s'.lists <==> key in s.lists) && (key in s.lists ==> s'.lists[key] == s.lists[key]))
            else s'.lists == s.lists
  {
    hide PhaseAfter, LocksAfter, QueriesAfter;
    if InLoop(s.threads[i]) {
      FillEndsWhenDone(rego, s, s.threads[i], fails);
    }
  }

  lemma FillEndsWhenDone(rego: Rego, s: State, p: Phase, fails: bool)
    requires InLoop(p)
    ensures var p' := PhaseAfter(rego, s, p, fails);
            p'.Done? ==> p'.report.Some? && (p'.report.value.result.Success? ==> p.loop.rest == [])
  {
    hide QueryKey, RunQuery;
  }

  /**
  A goroutine whose call to the source fails returns that error, whether it asks for the metrics, for
  a configuration or, with nothing cached, for an implementation; nothing is added to the query cache.
  */
  lemma FailedCallReturns(rego: Rego, s: State, i: nat)
    requires CanStep(s, i)
    requires var p := s.threads[i];
             || p.Listing? || (p.Scanning? && p.loop.rest != [])
             || (p.Looking? && QueryKey(rego.render, p.metric, p.job.service, p.config) !in s.queries)
    ensures var s', p := Step(rego, s, i, true), s.threads[i];
            && s'.threads[i] == Done(Some(Report(p.job, InLoop(p) && p.loop.Serving?, Failure(Other))))
            && s'.queries == s.queries
  {
    hide QueryKey, LocksAfter, ListsAfter;
  }

  /** A handler that ends takes one event about its metric away, and no other step takes any. */
  lemma HandlingTakesEvent(rego: Rego, s: State, i: nat, fails: bool, m: string)
    requires CanStep(s, i)
    ensures var s' := Step(rego, s, i, fails);
            if s.threads[i].Evicting? && s.threads[i].metric == m then
              && s'.pending[m] == (if s.pending[m] == 0 then 0 else s.pending[m] - 1)
              && s'.pendingConfigs[m] == (if s.pendingConfigs[m] == 0 then 0 else s.pendingConfigs[m] - 1)
            else s'.pending[m] == s.pending[m] && s'.pendingConfigs[m] == s.pendingConfigs[m]
  {
    hide PhaseAfter, LocksAfter, QueriesAfter, ListsAfter;
  }

  // ---------------------------------------------------------------- runs

  datatype Event =
    | Run(i: nat, fails: bool)
    | StartEval(job: Job)
    | StartHandler(metric: string)
    | ChangeCode(metric: string, code: string)
    | ChangeConfig(service: string, metric: string, config: Config)

  predicate Possible(s: State, e: Event) {
    e.Run? ==> CanStep(s, e.i)
  }

  function Next(rego: Rego, s: State, e: Event): State
    requires Possible(s, e)
  {
    match e
    case Run(i, fails) => Step(rego, s, i, fails)
    case StartEval(job) => s.(threads := s.threads + [NeedRead(job)])
    case StartHandler(m) => s.(threads := s.threads + [NeedEvict(m)])
    case ChangeCode(m, code) =>
      s.(source := s.source.(code := s.source.code[m := code]), pending := s.pending + multiset{m})
    case ChangeConfig(service, m, config) =>
      s.(source := s.source.(configs := s.source.configs[(service, m) := config]),
         pendingConfigs := s.pendingConfigs + multiset{m})
  }

  /** A new evaluator over any source. */
  function Start(source: Contents): State {
    State([], Locks({}, None, {}, None), map[], map[], source, multiset{}, multiset{})
  }

  predicate Executes(rego: Rego, s: State, events: seq<Event>)
    decreases |events|
  {
    events == [] || (Possible(s, events[0]) && Executes(rego, Next(rego, s, events[0]), events[1..]))
  }

  function After(rego: Rego, s: State, events: seq<Event>): State
    requires Executes(rego, s, events)
    decreases |events|
  {
    if events == [] then s else After(rego, Next(rego, s, events[0]), events[1..])
  }

  /** One more event at the end of a run. */
  lemma {:induction false} RunExtends(rego: Rego, s: State, events: seq<Event>, e: Event)
    requires Executes(rego, s, events) && Possible(After(rego, s, events), e)
    ensures Executes(rego, s, events + [e])
    ensures After(rego, s, events + [e]) == Next(rego, After(rego, s, events), e)
    decreases |events|
  {
    hide Next;
    if events == [] {
      assert events + [e] == [e] && [e][1..] == [];
      assert Executes(rego, Next(rego, s, e), []);
    } else {
      RunExtends(rego, Next(rego, s, events[0]), events[1..], e);
      assert (events + [e])[0] == events[0] && (events + [e])[1..] == events[1..] + [e];
    }
  }

  ghost predicate Reachable(rego: Rego, source: Contents, s: State) {
    exists events :: Executes(rego, Start(source), events) && After(rego, Start(source), events) == s
  }

  lemma StartReachable(rego: Rego, source: Contents)
    ensures Reachable(rego, source, Start(source))
  {
    assert Executes(rego, Start(source), []) && After(rego, Start(source), []) == Start(source);
  }

  lemma Then(rego: Rego, source: Contents, s: State, e: Event) returns (s': State)
    requires Reachable(rego, source, s) && Possible(s, e)
    ensures Reachable(rego, source, s') && s' == Next(rego, s, e)
  {
    var events :| Executes(rego, Start(source), events) && After(rego, Start(source), events) == s;
    RunExtends(rego, Start(source), events, e);
    s' := Next(rego, s, e);
  }

  // ---------------------------------------------------------------- locks

  /** Goroutine `i` in phase `p` holds exactly the locks of the sections it is in. */
  predicate Owns(l: Locks, i: nat, p: Phase) {
    && (i in l.readers <==> p.Reading?)
    && (i in l.waiting <==> p.AwaitWrite?)
    && (l.writer == Some(i) <==> HoldsWrite(p))
    && (l.query == Some(i) <==> HoldsQuery(p))
  }

  /** Each lock is held by exactly the goroutines that have taken it and not yet released it. */
  ghost predicate LocksMatch(s: State) {
    && (forall i :: i in s.locks.readers || i in s.locks.waiting ==> i < |s.threads|)
    && (s.locks.writer.Some? ==> s.locks.writer.value < |s.threads|)
    && (s.locks.query.Some? ==> s.locks.query.value < |s.threads|)
    && forall i: nat :: i < |s.threads| ==> Owns(s.locks, i, s.threads[i])
  }

  /** Which phase can follow which, as far as locks are concerned. */
  predicate Follows(p: Phase, p': Phase) {
    match p
    case NeedRead(_) => p'.Reading?
    case Reading(_) => p'.Listing? || (p'.Scanning? && p'.loop.Serving?)
    case Listing(_) => p'.Done? || p'.NeedWrite?
    case NeedWrite(_, _) => p'.AwaitWrite?
    case AwaitWrite(_, _) => p'.Scanning? && p'.loop.Filling?
    case Scanning(_, loop) => p'.Done? || ((p'.Scanning? || p'.NeedQuery?) && p'.loop.Filling? == loop.Filling?)
    case NeedQuery(_, loop, _, _) => p'.Looking? && p'.loop == loop
    case Looking(_, loop, _, _) => p'.Done? || ((p'.Running? || p'.Fetched? || p'.Scanning?) && p'.loop == loop)
    case Fetched(_, loop, _, _, _) => p'.Done? || (p'.Running? && p'.loop == loop)
    case Running(_, loop, _, _) => p'.Done? || (p'.Scanning? && p'.loop.Filling? == loop.Filling?)
    case NeedEvict(_) => p'.Evicting?
    case Evicting(_) => p'.Done?
    case Done(_) => p'.Done?
  }

  lemma PhaseFollows(rego: Rego, s: State, p: Phase, fails: bool)
    ensures Follows(p, PhaseAfter(rego, s, p, fails))
  {
    hide QueryKey, RunQuery;
  }

  /** The locks that a goroutine must find free when it moves on from `p`. */
  predicate FindsFree(l: Locks, p: Phase) {
    && (p.AwaitWrite? ==> l.writer.None?)
    && (p.NeedQuery? || p.NeedEvict? ==> l.query.None?)
  }

  /** Moving on, a goroutine takes and releases for itself exactly what that means, and nothing for others. */
  lemma LocksFollow(l: Locks, i: nat, p: Phase, p': Phase, j: nat, q: Phase)
    requires Follows(p, p') && Owns(l, i, p) && FindsFree(l, p)
    ensures Owns(LocksAfter(l, i, p, p'), i, p')
    ensures j != i && Owns(l, j, q) ==> Owns(LocksAfter(l, i, p, p'), j, q)
  {
  }

  lemma LocksBounded(l: Locks, i: nat, p: Phase, p': Phase, n: nat)
    requires i < n && (forall j :: j in l.readers || j in l.waiting ==> j < n)
    requires (l.writer.Some? ==> l.writer.value < n) && (l.query.Some? ==> l.query.value < n)
    ensures var l' := LocksAfter(l, i, p, p');
            && (forall j :: j in l'.readers || j in l'.waiting ==> j < n)
            && (l'.writer.Some? ==> l'.writer.value < n) && (l'.query.Some? ==> l'.query.value < n)
  {
  }

  /** After every step each lock is held by exactly the goroutines inside the section that it protects. */
  lemma StepKeepsLocks(rego: Rego, s: State, i: nat, fails: bool)
    requires LocksMatch(s) && CanStep(s, i)
    ensures LocksMatch(Step(rego, s, i, fails))
  {
    var p, s' := s.threads[i], Step(rego, s, i, fails);
    assert FindsFree(s.locks, p);
    hide PhaseAfter, LocksAfter, QueriesAfter, ListsAfter, Follows, Owns, CanStep;
    PhaseFollows(rego, s, p, fails);
    LocksBounded(s.locks, i, p, s'.threads[i], |s.threads|);
    forall j: nat | j < |s'.threads|
      ensures Owns(s'.locks, j, s'.threads[j])
    {
      LocksFollow(s.locks, i, p, s'.threads[i], j, s.threads[j]);
    }
  }

  lemma NextKeepsLocks(rego: Rego, s: State, e: Event)
    requires LocksMatch(s) && Possible(s, e)
    ensures LocksMatch(Next(rego, s, e))
  {
    hide Step;
    if e.Run? {
      StepKeepsLocks(rego, s, e.i, e.fails);
    }
  }

  /** Nobody reads while somebody writes. */
  predicate Exclusive(l: Locks) {
    l.writer.Some? ==> l.readers == {}
  }

  lemma StaysExclusive(l: Locks, i: nat, p: Phase, p': Phase)
    requires Exclusive(l) && (p.NeedRead? ==> l.writer.None?) && (p.AwaitWrite? ==> l.readers == {})
    ensures Exclusive(LocksAfter(l, i, p, p'))
  {
  }

  lemma NextKeepsExclusive(rego: Rego, s: State, e: Event)
    requires Exclusive(s.locks) && Possible(s, e)
    ensures Exclusive(Next(rego, s, e).locks)
  {
    hide PhaseAfter, QueriesAfter, ListsAfter, EventsAfter, LocksAfter, Exclusive;
    if e.Run? {
      var p := s.threads[e.i];
      StaysExclusive(s.locks, e.i, p, PhaseAfter(rego, s, p, e.fails));
    }
  }

  /** While a goroutine has not finished, some goroutine can take a step: there is no deadlock. */
  lemma SomeoneCanStep(s: State, i: nat) returns (j: nat)
    requires LocksMatch(s) && i < |s.threads| && !s.threads[i].Done?
    ensures CanStep(s, j)
  {
    assert Owns(s.locks, i, s.threads[i]);
    if CanStep(s, i) {
      j := i;
    } else if s.locks.query.Some? {
      j := s.locks.query.value;
      assert Owns(s.locks, j, s.threads[j]);
    } else if s.locks.writer.Some? {
      j := s.locks.writer.value;
      assert Owns(s.locks, j, s.threads[j]);
    } else if s.locks.readers != {} {
      j :| j in s.locks.readers;
      assert Owns(s.locks, j, s.threads[j]);
    } else {
      j :| j in s.locks.waiting;
      assert Owns(s.locks, j, s.threads[j]);
    }
  }
}
