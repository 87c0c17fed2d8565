/** Evaluations that start and end while the source rests, after any run and among any others. */
module PolicyResting {
  import opened Wrappers
  import opened CacheKeys
  import opened PolicyModel
  import opened PolicyAgreement
  import opened PolicyChanges
  import opened PolicyConcurrency
  import opened PolicyCoherence
  import opened PolicyOrder
  import opened PolicyKeys
  import opened PolicyMetadata
  import opened PolicyInterleaving
  import opened PolicyFindings

  /** The source does not change; with `reliable`, no call to it fails either. */
  predicate Quiet(e: Event, reliable: bool) {
    !e.ChangeCode? && !e.ChangeConfig? && (reliable && e.Run? ==> !e.fails)
  }

  predicate AllQuiet(events: seq<Event>, reliable: bool) {
    forall k :: 0 <= k < |events| ==> Quiet(events[k], reliable)
  }

  /** A configuration that a goroutine has fetched and may still store is the current one. */
  predicate PhaseFresh(s: State, p: Phase) {
    p.NeedQuery? || p.Looking? || p.Fetched? ==> ConfigCurrent(s, p.job.service, p.metric, p.config)
  }

  ghost predicate InFlightFresh(s: State) {
    forall i :: 0 <= i < |s.threads| ==> PhaseFresh(s, s.threads[i])
  }

  /**
  No event is outstanding. To have metadata right as well (`full`), events about configurations must
  be handled too, and no outdated configuration be cached or about to be.
  */
  ghost predicate Settled(rego: Rego, s: State, full: bool) {
    && s.pending == multiset{} && Comparable(rego, TruthOf(s.source), full)
    && (full ==> s.pendingConfigs == multiset{} && AllFresh(rego, s) && InFlightFresh(s))
  }

  /** Everything that every interleaving keeps. */
  ghost predicate Sound(rego: Rego, s: State, strict: bool) {
    LocksMatch(s) && Coherent(rego, s) && Proper(s) && Keyed(rego, s, strict) && AllDashFreeIds(s.source.catalogue)
  }

  /** In such a state every cached query is current. */
  lemma SettledIsCurrent(rego: Rego, s: State, full: bool)
    requires Sound(rego, s, !full) && Settled(rego, s, full)
    ensures QueriesCurrent(rego, TruthOf(s.source), s.queries, full)
  {
    hide LocksMatch, Proper, Comparable, QueryKey, InFlightFresh;
    forall key | key in s.queries
      ensures exists service :: Current(rego, TruthOf(s.source), key, s.queries[key], service, full)
    {
      var service :| ProperEntry(rego, key, s.queries[key], service, !full);
      EntryIsCurrent(rego, s, key, service, full);
    }
  }

  lemma EntryIsCurrent(rego: Rego, s: State, key: string, service: string, full: bool)
    requires key in s.queries && ProperEntry(rego, key, s.queries[key], service, !full)
    requires Coherent(rego, s) && s.pending == multiset{}
    requires full ==> s.pendingConfigs == multiset{} && AllFresh(rego, s)
    ensures Current(rego, TruthOf(s.source), key, s.queries[key], service, full)
  {
    hide QueryKey, AllowedConfig;
    var query := s.queries[key];
    assert EntryCoherent(rego, s, key, query);
    if full {
      assert EntryFresh(rego, s, key, query);
      var service' :| KeyFits(rego, key, query, service') && ConfigCurrent(s, service', query.metric, query.config);
      ServiceUnique(rego, key, query, service, service');
    }
  }

  // ---------------------------------------------------------------- quiet steps

  lemma PhaseStaysFresh(rego: Rego, s: State, p: Phase, fails: bool)
    requires PhaseFresh(s, p)
    ensures PhaseFresh(s, PhaseAfter(rego, s, p, fails))
  {
    hide QueryKey, RunQuery, Extend;
  }

  lemma QuietKeepsFresh(rego: Rego, s: State, e: Event, reliable: bool)
    requires Possible(s, e) && Quiet(e, reliable) && s.pendingConfigs == multiset{}
    requires AllFresh(rego, s) && InFlightFresh(s)
    ensures AllFresh(rego, Next(rego, s, e)) && InFlightFresh(Next(rego, s, e))
  {
    hide AllFresh, PhaseAfter, LocksAfter, QueriesAfter, ListsAfter;
    NextIsFresh(rego, s, e);
    if e.Run? {
      PhaseStaysFresh(rego, s, s.threads[e.i], e.fails);
    }
  }

  lemma QuietKeepsSource(rego: Rego, s: State, e: Event, reliable: bool)
    requires Possible(s, e) && Quiet(e, reliable)
    ensures Next(rego, s, e).source == s.source
    ensures s.pending == multiset{} ==> Next(rego, s, e).pending == multiset{}
    ensures s.pendingConfigs == multiset{} ==> Next(rego, s, e).pendingConfigs == multiset{}
  {
    hide PhaseAfter, LocksAfter, QueriesAfter, ListsAfter;
  }

  lemma QuietKeepsSettled(rego: Rego, s: State, e: Event, full: bool, reliable: bool)
    requires Settled(rego, s, full) && Possible(s, e) && Quiet(e, reliable)
    ensures Settled(rego, Next(rego, s, e), full)
  {
    hide AllFresh, InFlightFresh, Next, Comparable, Possible, Quiet;
    QuietKeepsSource(rego, s, e, reliable);
    if full {
      QuietKeepsFresh(rego, s, e, reliable);
    }
  }

  lemma NextKeepsSound(rego: Rego, s: State, e: Event, strict: bool)
    requires Sound(rego, s, strict) && Possible(s, e) && ProperEvent(rego, e, strict)
    ensures Sound(rego, Next(rego, s, e), strict)
  {
    hide LocksMatch, Coherent, Proper, Keyed, Next;
    NextKeepsLocks(rego, s, e);
    NextKeepsCoherence(rego, s, e);
    NextKeepsKeyed(rego, s, e, strict);
    NextKeepsProper(rego, s, e);
  }

  lemma {:induction false} RunKeepsSound(rego: Rego, s: State, events: seq<Event>, strict: bool)
    requires Sound(rego, s, strict) && Executes(rego, s, events) && ProperEvents(rego, events, strict)
    ensures Sound(rego, After(rego, s, events), strict)
    decreases |events|
  {
    hide Sound, Next, ProperEvent;
    if events == [] {
    } else {
      assert ProperEvent(rego, events[0], strict);
      NextKeepsSound(rego, s, events[0], strict);
      RunKeepsSound(rego, Next(rego, s, events[0]), events[1..], strict);
    }
  }

  lemma StartIsSound(rego: Rego, source: Contents, strict: bool)
    requires AllDashFreeIds(source.catalogue) && ConfigsProper(rego, source.configs, strict)
    ensures Sound(rego, Start(source), strict)
  {
  }

  // ---------------------------------------------------------------- quiet runs

  /** The evaluations from number `n` on are right. */
  ghost predicate NewRight(rego: Rego, truth: Truth, rule: Rule, full: bool, s: State, n: nat, reliable: bool) {
    forall i :: n <= i < |s.threads| ==> PhaseRight(rego, truth, rule, full, s.threads[i], reliable)
  }

  lemma KeyedAt(rego: Rego, s: State, i: nat, strict: bool)
    requires Keyed(rego, s, strict) && i < |s.threads|
    ensures PhaseKeyed(rego, s.threads[i], strict)
  {
    hide PhaseKeyed;
  }

  lemma QuietKeepsRight(rego: Rego, s: State, rule: Rule, full: bool, e: Event, n: nat, reliable: bool)
    requires Sound(rego, s, !full) && Settled(rego, s, full) && Possible(s, e) && Quiet(e, reliable)
    requires ListsAllowed(rego, TruthOf(s.source), rule, s.lists)
    requires NewRight(rego, TruthOf(s.source), rule, full, s, n, reliable)
    ensures NewRight(rego, TruthOf(s.source), rule, full, Next(rego, s, e), n, reliable)
  {
    hide PhaseAfter, LocksAfter, QueriesAfter, ListsAfter, LocksMatch, Coherent, Proper, Keyed, Comparable;
    hide AllFresh, InFlightFresh, ListsAllowed, LoopRight, ReportRight, RunsRight, QueriesCurrent, PhaseKeyed;
    if e.Run? && n <= e.i {
      SettledIsCurrent(rego, s, full);
      KeyedAt(rego, s, e.i, !full);
      PhaseStaysRight(rego, s, rule, full, s.threads[e.i], e.fails, reliable);
    }
  }

  lemma OrderedIsAllowed(rego: Rego, s: State)
    requires Proper(s)
    ensures ListsAllowed(rego, TruthOf(s.source), InOrder, s.lists)
  {
    hide Subsequence;
  }

  lemma {:induction false} QuietRun(rego: Rego, s: State, events: seq<Event>, full: bool, n: nat, reliable: bool)
    requires Sound(rego, s, !full) && Settled(rego, s, full) && Executes(rego, s, events)
    requires AllQuiet(events, reliable) && ProperEvents(rego, events, !full)
    requires NewRight(rego, TruthOf(s.source), InOrder, full, s, n, reliable)
    ensures NewRight(rego, TruthOf(s.source), InOrder, full, After(rego, s, events), n, reliable)
    decreases |events|
  {
    hide NewRight, Next, Quiet, ProperEvent, Settled, LocksMatch, Coherent, Keyed;
    if events == [] {
    } else {
      assert Quiet(events[0], reliable) && ProperEvent(rego, events[0], !full);
      OrderedIsAllowed(rego, s);
      QuietKeepsRight(rego, s, InOrder, full, events[0], n, reliable);
      QuietKeepsSettled(rego, s, events[0], full, reliable);
      QuietKeepsSource(rego, s, events[0], reliable);
      NextKeepsSound(rego, s, events[0], !full);
      QuietRun(rego, Next(rego, s, events[0]), events[1..], full, n, reliable);
    }
  }

  /**
  A success of a fill is plain evaluation's success, with the same findings, up to metadata unless
  `full`; a success from a cached list has some of the findings that apply, in their order. If no
  call to the source failed, a failure is one that plain evaluation meets too or, from a cached list,
  a metric of the catalogue that is missing.
  */
  ghost predicate ReportWithin(rego: Rego, truth: Truth, full: bool, r: Report, reliable: bool) {
    && (r.result.Success? ==>
          var found, all := Views(r.result.value, full), Views(AllFindings(rego, truth, r.job, truth.metrics), full);
          if r.hit then Subsequence(found, all)
          else NoneErroneous(rego, truth, r.job.service, r.job.resource, truth.metrics) && found == all)
    && (r.result.Failure? && reliable ==>
          if r.hit then !Servable(rego, truth, r.job.service, r.job.resource, truth.metrics)
          else !NoneErroneous(rego, truth, r.job.service, r.job.resource, truth.metrics))
  }

  lemma RightIsWithin(rego: Rego, truth: Truth, full: bool, r: Report, reliable: bool)
    requires ReportRight(rego, truth, InOrder, full, r, reliable)
    ensures ReportWithin(rego, truth, full, r, reliable)
  {
    hide Judge, Views, Subsequence;
    if r.hit && (r.result.Success? || reliable) {
      var list :| ServedFrom(rego, truth, InOrder, full, r, list);
      if r.result.Success? {
        FewerFindings(rego, truth, r.job.service, r.job.resource, list, truth.metrics);
        ViewsSubsequence(AllFindings(rego, truth, r.job, list), AllFindings(rego, truth, r.job, truth.metrics), full);
      } else {
        FaultExactly(rego, truth, r.job.service, r.job.resource, list);
        FewerServable(rego, truth, r.job, list);
      }
    }
  }

  lemma FewerServable(rego: Rego, truth: Truth, job: Job, list: seq<string>)
    requires Subsequence(list, truth.metrics)
    ensures Servable(rego, truth, job.service, job.resource, truth.metrics) ==>
      Servable(rego, truth, job.service, job.resource, list)
  {
    hide Judge, Subsequence;
    forall i | 0 <= i < |list|
      ensures list[i] in truth.metrics
    {
      SubsequenceElement(list, truth.metrics, i);
    }
  }

  /** The finding of a report says what the policy of its metric says about the resource. */
  ghost predicate ReadsRight(rego: Rego, truth: Truth, full: bool, job: Job, f: Finding) {
    && f.metric in truth.metrics && truth.config(job.service, f.metric).Success? && truth.code(f.metric).Success?
    && var config, code := truth.config(job.service, f.metric).value, truth.code(f.metric).value;
    && rego.run(Query(f.metric, config, code), job.resource) == Ran(true, f.compliant)
    && f.operator == config.operator && f.target == config.target && Alike(f.config, config, full)
  }

  lemma ReportReads(rego: Rego, truth: Truth, full: bool, r: Report, reliable: bool, i: nat)
    requires ReportWithin(rego, truth, full, r, reliable) && r.result.Success? && i < |r.result.value|
    ensures ReadsRight(rego, truth, full, r.job, r.result.value[i])
  {
    hide Judge, Applicable, Findings, NoneErroneous, Servable, DescribedBy;
    var all := AllFindings(rego, truth, r.job, truth.metrics);
    var found, whole := Views(r.result.value, full), Views(all, full);
    FindingsExactly(rego, truth, r.job.service, r.job.resource, truth.metrics);
    assert found[i] in whole by {
      if r.hit {
        SubsequenceElement(found, whole, i);
      }
    }
    var j :| 0 <= j < |whole| && whole[j] == found[i];
    var names := Applicable(rego, truth, r.job.service, r.job.resource, truth.metrics);
    ViewReads(rego, truth, full, r.job, names[j], all[j], r.result.value[i]);
  }

  lemma ViewReads(rego: Rego, truth: Truth, full: bool, job: Job, m: string, g: Finding, f: Finding)
    requires DescribedBy(rego, truth, job.service, job.resource, m, g) && m in truth.metrics
    requires View(f, full) == View(g, full)
    ensures ReadsRight(rego, truth, full, job, f)
  {
  }

  /**
  After any run, with whatever changes, once all events have been handled: an evaluation that starts
  and ends while the source rests returns what plain evaluation does, as `ReportWithin` says, however
  it is interleaved with evaluations and handlers, older ones included.
  */
  lemma InterleavedEvalIsRight(rego: Rego, source: Contents, before: seq<Event>, events: seq<Event>, i: nat,
                               report: Report, full: bool, reliable: bool)
    requires AllDashFreeIds(source.catalogue) && ConfigsProper(rego, source.configs, !full)
    requires ProperEvents(rego, before, !full) && ProperEvents(rego, events, !full)
    requires Executes(rego, Start(source), before)
    requires var s := After(rego, Start(source), before);
             && Settled(rego, s, full) && AllQuiet(events, reliable) && Executes(rego, s, events)
             && |s.threads| <= i < |After(rego, s, events).threads|
             && After(rego, s, events).threads[i] == Done(Some(report))
    ensures ReportWithin(rego, TruthOf(After(rego, Start(source), before).source), full, report, reliable)
    ensures var truth := TruthOf(After(rego, Start(source), before).source);
            report.result.Success? ==>
              forall k :: 0 <= k < |report.result.value| ==>
                ReadsRight(rego, truth, full, report.job, report.result.value[k])
  {
    hide Executes, After, ReportRight, ReportWithin, Settled, Sound;
    var s := After(rego, Start(source), before);
    StartIsSound(rego, source, !full);
    RunKeepsSound(rego, Start(source), before, !full);
    QuietRun(rego, s, events, full, |s.threads|, reliable);
    assert PhaseRight(rego, TruthOf(s.source), InOrder, full, After(rego, s, events).threads[i], reliable);
    RightIsWithin(rego, TruthOf(s.source), full, report, reliable);
    if report.result.Success? {
      forall k | 0 <= k < |report.result.value|
        ensures ReadsRight(rego, TruthOf(s.source), full, report.job, report.result.value[k])
      {
        ReportReads(rego, TruthOf(s.source), full, report, reliable, k);
      }
    }
  }
}
