/** Over a source that does not change: when no interleaving lets an evaluation see the caches. */
module PolicyInvisible {
  import opened Wrappers
  import opened CacheKeys
  import opened PolicyModel
  import opened PolicyAgreement
  import opened PolicyConcurrency
  import opened PolicyCoherence
  import opened PolicyOrder
  import opened PolicyKeys
  import opened PolicyInterleaving
  import opened PolicyResting
  import opened PolicyTermination
  import PolicyRuns

  // ---------------------------------------------------------------- lists are filled by known evaluations

  ghost predicate PhaseKnown(rule: Rule, p: Phase) {
    HoldsWrite(p) || p.NeedRead? || p.Reading? || p.Listing? || p.NeedWrite? || p.AwaitWrite? ==> Known(rule, p.job)
  }

  ghost predicate AllKnown(rule: Rule, s: State) {
    forall i :: 0 <= i < |s.threads| ==> PhaseKnown(rule, s.threads[i])
  }

  lemma PhaseStaysKnown(rego: Rego, s: State, rule: Rule, p: Phase, fails: bool)
    requires PhaseKnown(rule, p)
    ensures PhaseKnown(rule, PhaseAfter(rego, s, p, fails))
  {
    hide QueryKey, RunQuery, Known;
  }

  /** A fill that is finished has its list from an evidence of the pool. */
  lemma FilledIsAllowed(rego: Rego, truth: Truth, rule: Rule, full: bool, job: Job, loop: Loop)
    requires rule.FilledFrom? && Known(rule, job) && loop.Filling? && LoopRight(rego, truth, rule, full, job, loop, [])
    ensures Allowed(rego, truth, rule, job.key, loop.names)
  {
    hide Judge, Views, AllFindings;
    var done :| Progress(rego, truth, rule, full, job, loop, done, []);
    assert done + [] == done;
    var e :| e in rule.pool && IsFor(job, e);
    assert PolicyRuns.FilledBy(rego, truth, loop.names, e);
  }

  lemma ListsStayAllowed(rego: Rego, s: State, rule: Rule, full: bool, p: Phase, fails: bool, reliable: bool)
    requires rule.FilledFrom? && PhaseKnown(rule, p)
    requires PhaseRight(rego, TruthOf(s.source), rule, full, p, reliable)
    requires ListsAllowed(rego, TruthOf(s.source), rule, s.lists)
    ensures ListsAllowed(rego, TruthOf(s.source), rule, ListsAfter(s.lists, p, PhaseAfter(rego, s, p, fails)))
  {
    hide Allowed, LoopRight, RunsRight, QueryKey, RunQuery, Known;
    if HoldsWrite(p) && p.Scanning? && p.loop.rest == [] {
      FilledIsAllowed(rego, TruthOf(s.source), rule, full, p.job, p.loop);
    }
  }

  /** Everything that holds of a run from the start over a source that does not change. */
  ghost predicate Clear(rego: Rego, rule: Rule, s: State, reliable: bool) {
    && Sound(rego, s, false) && Settled(rego, s, true) && rule.FilledFrom? && AllKnown(rule, s)
    && ListsAllowed(rego, TruthOf(s.source), rule, s.lists)
    && NewRight(rego, TruthOf(s.source), rule, true, s, 0, reliable)
  }

  /** Events that leave the source alone and start only evaluations of evidences in the pool. */
  ghost predicate FromPool(rule: Rule, e: Event, reliable: bool) {
    Quiet(e, reliable) && (e.StartEval? ==> Known(rule, e.job) && ValidService(e.job.service))
  }

  lemma NextKeepsLists(rego: Rego, rule: Rule, s: State, e: Event, reliable: bool)
    requires Possible(s, e) && FromPool(rule, e, reliable) && rule.FilledFrom? && AllKnown(rule, s)
    requires ListsAllowed(rego, TruthOf(s.source), rule, s.lists)
    requires NewRight(rego, TruthOf(s.source), rule, true, s, 0, reliable)
    ensures ListsAllowed(rego, TruthOf(s.source), rule, Next(rego, s, e).lists)
    ensures AllKnown(rule, Next(rego, s, e))
  {
    hide PhaseAfter, LocksAfter, QueriesAfter, ListsAfter, ListsAllowed, PhaseRight, Known, LoopRight;
    if e.Run? {
      PhaseStaysKnown(rego, s, rule, s.threads[e.i], e.fails);
      ListsStayAllowed(rego, s, rule, true, s.threads[e.i], e.fails, reliable);
    }
  }

  lemma NextKeepsClear(rego: Rego, rule: Rule, s: State, e: Event, reliable: bool)
    requires Clear(rego, rule, s, reliable) && Possible(s, e) && FromPool(rule, e, reliable)
    ensures Clear(rego, rule, Next(rego, s, e), reliable) && Next(rego, s, e).source == s.source
  {
    hide Sound, Settled, AllKnown, ListsAllowed, NewRight, Next, Possible, Known;
    NextKeepsLists(rego, rule, s, e, reliable);
    QuietKeepsRight(rego, s, rule, true, e, 0, reliable);
    QuietKeepsSettled(rego, s, e, true, reliable);
    QuietKeepsSource(rego, s, e, reliable);
    NextKeepsSound(rego, s, e, false);
  }

  ghost predicate AllFromPool(rule: Rule, events: seq<Event>, reliable: bool) {
    forall k :: 0 <= k < |events| ==> FromPool(rule, events[k], reliable)
  }

  lemma {:induction false} RunKeepsClear(rego: Rego, rule: Rule, s: State, events: seq<Event>, reliable: bool)
    requires Clear(rego, rule, s, reliable) && Executes(rego, s, events) && AllFromPool(rule, events, reliable)
    ensures Clear(rego, rule, After(rego, s, events), reliable) && After(rego, s, events).source == s.source
    decreases |events|
  {
    hide Clear, Next, FromPool;
    if events == [] {
    } else {
      assert FromPool(rule, events[0], reliable);
      NextKeepsClear(rego, rule, s, events[0], reliable);
      RunKeepsClear(rego, rule, Next(rego, s, events[0]), events[1..], reliable);
    }
  }

  lemma StartIsClear(rego: Rego, rule: Rule, source: Contents, reliable: bool)
    requires rule.FilledFrom? && AllDashFreeIds(source.catalogue)
    ensures Clear(rego, rule, Start(source), reliable)
  {
    StartIsSound(rego, source, false);
    hide Sound, Allowed;
  }

  // ---------------------------------------------------------------- the key decides

  /** If the key decides which list is right, a report that is right is plain evaluation's answer. */
  lemma ReportRefines(rego: Rego, truth: Truth, pool: iset<Evidence>, r: Report, e: Evidence, reliable: bool)
    requires AllDashFreeIds(truth.metrics) && PolicyRuns.KeyDecides(rego, truth, pool) && e in pool && IsFor(r.job, e)
    requires ReportRight(rego, truth, FilledFrom(pool), true, r, reliable)
    ensures PolicyRuns.Refines(r.result, PlainEval(rego, truth, e), reliable)
  {
    hide Judge, Findings, Applicable;
    if r.result.Success? {
      PolicyRuns.FullViews(r.result.value);
    }
    PolicyRuns.FullViews(AllFindings(rego, truth, r.job, truth.metrics));
    if r.hit && (r.result.Success? || reliable) {
      var list :| ServedFrom(rego, truth, FilledFrom(pool), true, r, list);
      var e0 :| e0 in pool && KeyOf(e0) == r.job.key && PolicyRuns.FilledBy(rego, truth, list, e0);
      assert PolicyRuns.ListServes(rego, truth, e0, e);
      PolicyRuns.FullViews(AllFindings(rego, truth, r.job, list));
      FaultExactly(rego, truth, e.service, e.resource.value, list);
      if PolicyRuns.Evaluable(rego, truth, e) {
        PolicyRuns.SharedList(rego, truth, e, e0, truth.metrics);
      }
    }
  }

  /** In every interleaving, every evaluation that has returned answers as plain evaluation does. */
  ghost predicate EveryInterleavingRefines(rego: Rego, source: Contents, pool: iset<Evidence>) {
    forall events, i: nat, r, e, reliable ::
      Returns(rego, source, pool, events, i, r, reliable) && e in pool && IsFor(r.job, e) ==>
        PolicyRuns.Refines(r.result, PlainEval(rego, TruthOf(source), e), reliable)
  }

  ghost predicate Returns(rego: Rego, source: Contents, pool: iset<Evidence>, events: seq<Event>, i: nat, r: Report,
                          reliable: bool)
  {
    && Executes(rego, Start(source), events) && AllFromPool(FilledFrom(pool), events, reliable)
    && i < |After(rego, Start(source), events).threads|
    && After(rego, Start(source), events).threads[i] == Done(Some(r))
  }

  lemma DecidedIsInvisible(rego: Rego, source: Contents, pool: iset<Evidence>, events: seq<Event>, i: nat, r: Report,
                           e: Evidence, reliable: bool)
    requires AllDashFreeIds(source.catalogue) && PolicyRuns.KeyDecides(rego, TruthOf(source), pool)
    requires Returns(rego, source, pool, events, i, r, reliable) && e in pool && IsFor(r.job, e)
    ensures PolicyRuns.Refines(r.result, PlainEval(rego, TruthOf(source), e), reliable)
  {
    hide Executes, After, AllFromPool, Sound, Settled, AllKnown, ListsAllowed, ReportRight;
    var rule := FilledFrom(pool);
    StartIsClear(rego, rule, source, reliable);
    RunKeepsClear(rego, rule, Start(source), events, reliable);
    var s := After(rego, Start(source), events);
    assert PhaseRight(rego, TruthOf(source), rule, true, s.threads[i], reliable);
    ReportRefines(rego, TruthOf(source), pool, r, e, reliable);
  }

  // ---------------------------------------------------------------- the key does not decide

  function JobOf(e: Evidence): Job
    requires e.resource.Some?
  {
    Job(KeyOf(e), e.service, e.resource.value)
  }

  predicate HasList(lists: map<string, Option<seq<string>>>, key: string) {
    key in lists && lists[key].Some?
  }

  /** The goroutine evaluates `job`, or has done so. */
  predicate Evaluates(p: Phase, job: Job) {
    && !p.NeedEvict? && !p.Evicting?
    && (if p.Done? then p.report.Some? && p.report.value.job == job else p.job == job)
  }

  lemma StillEvaluates(rego: Rego, s: State, p: Phase, fails: bool, job: Job)
    requires Evaluates(p, job)
    ensures Evaluates(PhaseAfter(rego, s, p, fails), job)
  {
    hide QueryKey, RunQuery;
  }

  /** One evaluation, alone so far: once it succeeds, its list is cached. */
  ghost predicate Alone(s: State, job: Job) {
    && |s.threads| == 1 && Evaluates(s.threads[0], job)
    && (Served(s.threads[0]) ==> HasList(s.lists, job.key))
  }

  predicate Served(p: Phase) {
    (InLoop(p) && p.loop.Serving?) || (p.Done? && p.report.Some? && p.report.value.result.Success?)
  }

  lemma AloneStep(rego: Rego, s: State, job: Job, fails: bool)
    requires Alone(s, job) && CanStep(s, 0)
    ensures Alone(Step(rego, s, 0, fails), job)
  {
    hide LocksAfter, QueriesAfter, PhaseAfter;
    StillEvaluates(rego, s, s.threads[0], fails, job);
    ServedStays(rego, s, s.threads[0], fails);
  }

  lemma ServedStays(rego: Rego, s: State, p: Phase, fails: bool)
    requires !p.NeedEvict? && !p.Evicting? && !p.Done? && (Served(p) ==> HasList(s.lists, p.job.key))
    ensures var p' := PhaseAfter(rego, s, p, fails);
            Served(p') ==> HasList(ListsAfter(s.lists, p, p'), p.job.key)
  {
    hide QueryKey, RunQuery;
  }

  /** A run over the pool can be extended until every goroutine has returned. */
  ghost predicate Extends(rego: Rego, source: Contents, pool: iset<Evidence>, events: seq<Event>, s: State) {
    && Executes(rego, Start(source), events) && After(rego, Start(source), events) == s
    && AllFromPool(FilledFrom(pool), events, true)
  }

  lemma OneMore(rego: Rego, source: Contents, pool: iset<Evidence>, events: seq<Event>, s: State, e: Event)
    requires Extends(rego, source, pool, events, s) && Possible(s, e) && FromPool(FilledFrom(pool), e, true)
    ensures Extends(rego, source, pool, events + [e], Next(rego, s, e))
  {
    hide Executes, After, Next, FromPool, Possible;
    RunExtends(rego, Start(source), events, e);
  }

  ghost predicate FirstRuns(rego: Rego, s: State, e0: Evidence) {
    && e0.resource.Some? && Clear(rego, FilledFrom(iset{e0}), s, true) && AllBounded(s) && Alone(s, JobOf(e0))
  }

  lemma FirstSteps(rego: Rego, s: State, e0: Evidence, i: nat)
    requires FirstRuns(rego, s, e0) && CanStep(s, i)
    ensures FirstRuns(rego, Step(rego, s, i, false), e0) && Work(Step(rego, s, i, false)) < Work(s)
    ensures Step(rego, s, i, false).source == s.source
  {
    hide Clear, AllBounded, Step, Work;
    AloneStep(rego, s, JobOf(e0), false);
    StepDoesWork(rego, s, i, false);
    NextKeepsClear(rego, FilledFrom(iset{e0}), s, Run(i, false), true);
  }

  lemma {:induction false} FirstFinishes(rego: Rego, source: Contents, pool: iset<Evidence>, events: seq<Event>,
                                         s: State, e0: Evidence)
    returns (events': seq<Event>, s': State)
    requires Extends(rego, source, pool, events, s) && FirstRuns(rego, s, e0) && s.source == source
    ensures Extends(rego, source, pool, events', s') && FirstRuns(rego, s', e0) && s'.source == source
    ensures s'.threads[0].Done?
    decreases Work(s)
  {
    hide Extends, Step, Work, AllBounded, Coherent, Proper, Keyed, Settled, AllKnown, ListsAllowed, NewRight, CanStep;
    if s.threads[0].Done? {
      events', s' := events, s;
    } else {
      var i := SomeoneCanStep(s, 0);
      OneMore(rego, source, pool, events, s, Run(i, false));
      FirstSteps(rego, s, e0, i);
      events', s' := FirstFinishes(rego, source, pool, events + [Run(i, false)], Step(rego, s, i, false), e0);
    }
  }

  /** An evidence without errors fills its list. */
  lemma FirstSucceeds(rego: Rego, s: State, e0: Evidence)
    requires FirstRuns(rego, s, e0) && s.threads[0].Done? && PolicyRuns.Evaluable(rego, TruthOf(s.source), e0)
    ensures HasList(s.lists, KeyOf(e0))
  {
    hide Sound, Settled, AllKnown, Judge, ListsAllowed, AllBounded, Views;
    var truth, rule := TruthOf(s.source), FilledFrom(iset{e0});
    assert PhaseRight(rego, truth, rule, true, s.threads[0], true);
    var r := s.threads[0].report.value;
    if r.result.Failure? && r.hit {
      var list :| ServedFrom(rego, truth, rule, true, r, list);
      assert AllDashFreeIds(truth.metrics) by {
        assert Sound(rego, s, false);
        SoundIsDashFree(rego, s);
      }
      PolicyRuns.SharedList(rego, truth, e0, e0, truth.metrics);
      FaultExactly(rego, truth, e0.service, e0.resource.value, list);
    }
  }

  lemma SoundIsDashFree(rego: Rego, s: State)
    requires Sound(rego, s, false)
    ensures AllDashFreeIds(s.source.catalogue)
  {
  }

  /** A second evaluation is served from the list of the first. */
  ghost predicate SecondRuns(rego: Rego, s: State, e0: Evidence, job: Job) {
    var rule := FilledFrom(iset{e0});
    && Sound(rego, s, false) && Settled(rego, s, true) && AllBounded(s)
    && ListsAllowed(rego, TruthOf(s.source), rule, s.lists) && HasList(s.lists, job.key)
    && NewRight(rego, TruthOf(s.source), rule, true, s, 0, true)
    && |s.threads| == 2 && s.threads[0].Done? && OnlyServes(s.threads[1], job)
  }

  predicate OnlyServes(p: Phase, job: Job) {
    && Evaluates(p, job) && !p.Listing? && !p.NeedWrite? && !p.AwaitWrite?
    && (InLoop(p) ==> p.loop.Serving?) && (p.Done? ==> p.report.value.hit)
  }

  lemma StillServes(rego: Rego, s: State, p: Phase, fails: bool, job: Job)
    requires OnlyServes(p, job) && HasList(s.lists, job.key)
    ensures OnlyServes(PhaseAfter(rego, s, p, fails), job)
    ensures ListsAfter(s.lists, p, PhaseAfter(rego, s, p, fails)) == s.lists
  {
    hide QueryKey, RunQuery;
  }

  lemma SecondSteps(rego: Rego, s: State, e0: Evidence, job: Job, i: nat)
    requires SecondRuns(rego, s, e0, job) && CanStep(s, i)
    ensures SecondRuns(rego, Step(rego, s, i, false), e0, job) && Work(Step(rego, s, i, false)) < Work(s)
    ensures Step(rego, s, i, false).source == s.source
  {
    hide PhaseAfter, LocksAfter, QueriesAfter, ListsAfter, Sound, Settled, AllBounded, ListsAllowed, NewRight, Work;
    hide OnlyServes;
    assert i == 1;
    StillServes(rego, s, s.threads[1], false, job);
    StepDoesWork(rego, s, i, false);
    QuietKeepsRight(rego, s, FilledFrom(iset{e0}), true, Run(i, false), 0, true);
    QuietKeepsSettled(rego, s, Run(i, false), true, true);
    NextKeepsSound(rego, s, Run(i, false), false);
  }

  lemma {:induction false} SecondFinishes(rego: Rego, source: Contents, pool: iset<Evidence>, events: seq<Event>,
                                          s: State, e0: Evidence, job: Job)
    returns (events': seq<Event>, s': State)
    requires Extends(rego, source, pool, events, s) && SecondRuns(rego, s, e0, job) && s.source == source
    ensures Extends(rego, source, pool, events', s') && SecondRuns(rego, s', e0, job) && s'.source == source
    ensures s'.threads[1].Done?
    decreases Work(s)
  {
    hide Extends, Step, Work, AllBounded, Coherent, Proper, Keyed, Settled, ListsAllowed, NewRight, CanStep;
    if s.threads[1].Done? {
      events', s' := events, s;
    } else {
      var i := SomeoneCanStep(s, 1);
      OneMore(rego, source, pool, events, s, Run(i, false));
      SecondSteps(rego, s, e0, job, i);
      events', s' := SecondFinishes(rego, source, pool, events + [Run(i, false)], Step(rego, s, i, false), e0, job);
    }
  }

  /** What the second evaluation reports shows that the list was wrong for it. */
  lemma WrongListShows(rego: Rego, truth: Truth, e0: Evidence, e: Evidence, r: Report)
    requires e.resource.Some? && PolicyRuns.Evaluable(rego, truth, e0) && KeyOf(e0) == KeyOf(e) && r.job == JobOf(e)
    requires PolicyRuns.Evaluable(rego, truth, e) ==>
               exists i :: && 0 <= i < |truth.metrics| && PolicyRuns.AppliesTo(rego, truth, e, truth.metrics[i])
                           && !PolicyRuns.AppliesTo(rego, truth, e0, truth.metrics[i])
    requires !PolicyRuns.Evaluable(rego, truth, e) ==> !PolicyRuns.ListServes(rego, truth, e0, e)
    requires r.hit && ReportRight(rego, truth, FilledFrom(iset{e0}), true, r, true)
    ensures !PolicyRuns.Refines(r.result, PlainEval(rego, truth, e), true)
  {
    hide Judge, Findings, Applicable, NoneErroneous, Servable;
    var list :| ServedFrom(rego, truth, FilledFrom(iset{e0}), true, r, list);
    assert list == Applicable(rego, truth, e0.service, e0.resource.value, truth.metrics);
    PolicyRuns.ShorterFindings(rego, truth, e, e0, truth.metrics);
    FaultExactly(rego, truth, e.service, e.resource.value, list);
    if r.result.Success? {
      PolicyRuns.FullViews(r.result.value);
      PolicyRuns.FullViews(AllFindings(rego, truth, r.job, list));
    }
  }

  lemma BeginFirst(rego: Rego, source: Contents, pool: iset<Evidence>, e0: Evidence)
    returns (events: seq<Event>, s: State)
    requires AllDashFreeIds(source.catalogue) && e0 in pool && e0.resource.Some? && ValidService(e0.service)
    ensures Extends(rego, source, pool, events, s) && FirstRuns(rego, s, e0) && s.source == source
  {
    hide Clear, Executes, After;
    var rule, start := FilledFrom(iset{e0}), Start(source);
    StartIsClear(rego, rule, source, true);
    assert IsFor(JobOf(e0), e0);
    NextKeepsClear(rego, rule, start, StartEval(JobOf(e0)), true);
    StartReaches(rego, source, pool);
    OneMore(rego, source, pool, [], start, StartEval(JobOf(e0)));
    events, s := [StartEval(JobOf(e0))], Next(rego, start, StartEval(JobOf(e0)));
    assert [] + [StartEval(JobOf(e0))] == events;
  }

  lemma StartReaches(rego: Rego, source: Contents, pool: iset<Evidence>)
    ensures Extends(rego, source, pool, [], Start(source))
  {
    assert Executes(rego, Start(source), []) && After(rego, Start(source), []) == Start(source);
  }

  lemma BeginSecond(rego: Rego, s: State, e0: Evidence, e: Evidence)
    requires FirstRuns(rego, s, e0) && s.threads[0].Done? && HasList(s.lists, KeyOf(e0))
    requires e.resource.Some? && KeyOf(e) == KeyOf(e0) && ValidService(e.service)
    ensures SecondRuns(rego, Next(rego, s, StartEval(JobOf(e))), e0, JobOf(e))
  {
    hide Sound, Settled, AllKnown, ListsAllowed;
    var start := StartEval(JobOf(e));
    NextKeepsSound(rego, s, start, false);
    QuietKeepsSettled(rego, s, start, true, true);
    NextKeepsBounds(rego, s, start);
  }

  /** Two evaluations, one after the other, are enough to show a list that is wrong for its key. */
  lemma WrongKeyShows(rego: Rego, source: Contents, pool: iset<Evidence>, e0: Evidence, e: Evidence)
    requires AllDashFreeIds(source.catalogue) && e0 in pool && e in pool
    requires ValidService(e0.service) && ValidService(e.service) && KeyOf(e0) == KeyOf(e)
    requires e.resource.Some? && PolicyRuns.Evaluable(rego, TruthOf(source), e0)
    requires PolicyRuns.Evaluable(rego, TruthOf(source), e) ==>
               exists i :: && 0 <= i < |source.catalogue|
                           && PolicyRuns.AppliesTo(rego, TruthOf(source), e, source.catalogue[i])
                           && !PolicyRuns.AppliesTo(rego, TruthOf(source), e0, source.catalogue[i])
    requires !PolicyRuns.Evaluable(rego, TruthOf(source), e) ==> !PolicyRuns.ListServes(rego, TruthOf(source), e0, e)
    ensures !EveryInterleavingRefines(rego, source, pool)
  {
    hide Executes, After, AllFromPool, FirstRuns, NoneErroneous, PolicyRuns.AppliesTo, PolicyRuns.ListServes;
    hide Sound, Settled, AllBounded, ListsAllowed, ReportRight, PolicyRuns.Refines, PlainEval;
    var events, s := BeginFirst(rego, source, pool, e0);
    events, s := FirstFinishes(rego, source, pool, events, s, e0);
    FirstSucceeds(rego, s, e0);
    var start := StartEval(JobOf(e));
    assert IsFor(JobOf(e), e);
    OneMore(rego, source, pool, events, s, start);
    BeginSecond(rego, s, e0, e);
    events, s := SecondFinishes(rego, source, pool, events + [start], Next(rego, s, start), e0, JobOf(e));
    var r := s.threads[1].report.value;
    assert PhaseRight(rego, TruthOf(source), FilledFrom(iset{e0}), true, s.threads[1], true);
    WrongListShows(rego, TruthOf(source), e0, e, r);
    assert Returns(rego, source, pool, events, 1, r, true);
  }

  /**
  The concurrent form: over a source that does not change, no interleaving of evaluations of evidences
  in `pool` and event handlers lets any of them answer otherwise than plain evaluation, exactly when
  the applicability key decides which list is right.
  */
  lemma InterleavingInvisibleExactly(rego: Rego, source: Contents, pool: iset<Evidence>)
    requires AllDashFreeIds(source.catalogue) && forall e :: e in pool ==> ValidService(e.service)
    ensures EveryInterleavingRefines(rego, source, pool) <==> PolicyRuns.KeyDecides(rego, TruthOf(source), pool)
  {
    hide Returns, PolicyRuns.Refines;
    if PolicyRuns.KeyDecides(rego, TruthOf(source), pool) {
      forall events, i: nat, r, e, reliable
        | Returns(rego, source, pool, events, i, r, reliable) && e in pool && IsFor(r.job, e)
        ensures PolicyRuns.Refines(r.result, PlainEval(rego, TruthOf(source), e), reliable)
      {
        DecidedIsInvisible(rego, source, pool, events, i, r, e, reliable);
      }
    } else {
      UndecidedShows(rego, source, pool);
    }
  }

  lemma UndecidedShows(rego: Rego, source: Contents, pool: iset<Evidence>)
    requires AllDashFreeIds(source.catalogue) && forall e :: e in pool ==> ValidService(e.service)
    requires !PolicyRuns.KeyDecides(rego, TruthOf(source), pool)
    ensures !EveryInterleavingRefines(rego, source, pool)
  {
    hide EveryInterleavingRefines, NoneErroneous, Judge, Servable;
    var truth := TruthOf(source);
    var e0, e :| && e0 in pool && e in pool && KeyOf(e0) == KeyOf(e) && PolicyRuns.Evaluable(rego, truth, e0)
                 && e.resource.Some? && !PolicyRuns.ListServes(rego, truth, e0, e);
    var with, without := e, e0;
    if PolicyRuns.Evaluable(rego, truth, e) {
      var i :| && 0 <= i < |truth.metrics|
               && PolicyRuns.AppliesTo(rego, truth, e, truth.metrics[i])
                  != PolicyRuns.AppliesTo(rego, truth, e0, truth.metrics[i]);
      if PolicyRuns.AppliesTo(rego, truth, e0, truth.metrics[i]) {
        with, without := e0, e;
      }
    }
    WrongKeyShows(rego, source, pool, without, with);
  }
}
