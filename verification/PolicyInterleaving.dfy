/**
What an evaluation returns when it runs together with other evaluations and event handlers: while
the source rests and no event is outstanding, interleaving is invisible in its result.
*/
module PolicyInterleaving {
  import opened Wrappers
  import opened Values
  import opened CacheKeys
  import opened PolicyModel
  import opened PolicyAgreement
  import opened PolicyChanges
  import opened PolicyConcurrency
  import opened PolicyKeys
  import PolicyRuns

  function ConfigIn(configs: map<(string, string), Config>): (string, string) -> Result<Config, Error> {
    (service, m) => if (service, m) in configs then Success(configs[(service, m)]) else Failure(NotFound)
  }

  function CodeIn(code: map<string, string>): string -> Result<string, Error> {
    m => if m in code then Success(code[m]) else Failure(NotFound)
  }

  function TruthOf(source: Contents): Truth {
    Truth(source.catalogue, ConfigIn(source.configs), CodeIn(source.code))
  }

  // ---------------------------------------------------------------- the lists that may be served

  /**
  What is known of the list cached under a key: at least that it is in the catalogue's order; or
  that some evidence of `pool` with that key filled it.
  */
  datatype Rule = InOrder | FilledFrom(pool: iset<Evidence>)

  ghost predicate Allowed(rego: Rego, truth: Truth, rule: Rule, key: string, list: seq<string>) {
    match rule
    case InOrder => Subsequence(list, truth.metrics)
    case FilledFrom(pool) => exists e :: e in pool && KeyOf(e) == key && PolicyRuns.FilledBy(rego, truth, list, e)
  }

  lemma AllowedIsOrdered(rego: Rego, truth: Truth, rule: Rule, key: string, list: seq<string>)
    requires Allowed(rego, truth, rule, key, list)
    ensures Subsequence(list, truth.metrics)
  {
    hide Subsequence, Judge;
    if rule.FilledFrom? {
      var e :| e in rule.pool && KeyOf(e) == key && PolicyRuns.FilledBy(rego, truth, list, e);
      ApplicableSubsequence(rego, truth, e.service, e.resource.value, truth.metrics);
    }
  }

  ghost predicate ListsAllowed(rego: Rego, truth: Truth, rule: Rule, lists: map<string, Option<seq<string>>>) {
    forall key :: key in lists && lists[key].Some? ==> Allowed(rego, truth, rule, key, lists[key].value)
  }

  /** An evaluation that the rule knows about. */
  ghost predicate Known(rule: Rule, job: Job) {
    rule.FilledFrom? ==> exists e :: e in rule.pool && IsFor(job, e)
  }

  predicate IsFor(job: Job, e: Evidence) {
    e.resource == Some(job.resource) && e.service == job.service && KeyOf(e) == job.key
  }

  // ---------------------------------------------------------------- what a loop has done so far

  function AllFindings(rego: Rego, truth: Truth, job: Job, metrics: seq<string>): seq<Finding> {
    Findings(rego, truth, job.service, job.resource, metrics)
  }

  function VerdictOn(rego: Rego, truth: Truth, job: Job, m: string): Verdict {
    Judge(rego, truth, job.service, job.resource, m)
  }

  lemma {:induction false} FindingsConcat(rego: Rego, truth: Truth, job: Job, a: seq<string>, m: string)
    ensures AllFindings(rego, truth, job, a + [m])
         == AllFindings(rego, truth, job, a)
            + (if VerdictOn(rego, truth, job, m).Applies? then [VerdictOn(rego, truth, job, m).finding] else [])
  {
    hide Judge;
    if a == [] {
      assert a + [m] == [m] && [m][1..] == [];
    } else {
      FindingsConcat(rego, truth, job, a[1..], m);
      assert (a + [m])[1..] == a[1..] + [m];
    }
  }

  lemma {:induction false} ApplicableConcat(rego: Rego, truth: Truth, job: Job, a: seq<string>, m: string)
    ensures Applicable(rego, truth, job.service, job.resource, a + [m])
         == Applicable(rego, truth, job.service, job.resource, a)
            + (if VerdictOn(rego, truth, job, m).Applies? then [m] else [])
  {
    hide Judge;
    if a == [] {
      assert a + [m] == [m] && [m][1..] == [];
    } else {
      ApplicableConcat(rego, truth, job, a[1..], m);
      assert (a + [m])[1..] == a[1..] + [m];
    }
  }

  /** `done` are the metrics dealt with, `todo` those to come: what was found is what plain evaluation finds. */
  ghost predicate Progress(rego: Rego, truth: Truth, rule: Rule, full: bool, job: Job, loop: Loop,
                           done: seq<string>, todo: seq<string>)
  {
    && Views(loop.findings, full) == Views(AllFindings(rego, truth, job, done), full)
    && if loop.Filling? then
         && done + todo == truth.metrics
         && loop.names == Applicable(rego, truth, job.service, job.resource, done)
         && NoneErroneous(rego, truth, job.service, job.resource, done)
       else
         && Allowed(rego, truth, rule, job.key, done + todo)
         && Servable(rego, truth, job.service, job.resource, done)
  }

  ghost predicate LoopRight(rego: Rego, truth: Truth, rule: Rule, full: bool, job: Job, loop: Loop, todo: seq<string>) {
    exists done :: Progress(rego, truth, rule, full, job, loop, done, todo)
  }

  /** A loop at its beginning. */
  lemma LoopBegins(rego: Rego, truth: Truth, rule: Rule, full: bool, job: Job, list: seq<string>)
    ensures LoopRight(rego, truth, rule, full, job, Filling(truth.metrics, [], []), truth.metrics)
    ensures Allowed(rego, truth, rule, job.key, list) ==>
      LoopRight(rego, truth, rule, full, job, Serving(list, []), list)
  {
    hide Judge, Allowed;
    assert [] + truth.metrics == truth.metrics && [] + list == list;
    assert Progress(rego, truth, rule, full, job, Filling(truth.metrics, [], []), [], truth.metrics);
    assert Allowed(rego, truth, rule, job.key, list) ==>
             Progress(rego, truth, rule, full, job, Serving(list, []), [], list);
  }

  /** One more metric among those dealt with, when it is no error; when serving, it is not missing either. */
  lemma VerdictsGrow(rego: Rego, truth: Truth, job: Job, done: seq<string>, m: string)
    requires !VerdictOn(rego, truth, job, m).Erroneous?
    ensures NoneErroneous(rego, truth, job.service, job.resource, done) ==>
      NoneErroneous(rego, truth, job.service, job.resource, done + [m])
    ensures Servable(rego, truth, job.service, job.resource, done) && !VerdictOn(rego, truth, job, m).Missing? ==>
      Servable(rego, truth, job.service, job.resource, done + [m])
  {
    hide Judge;
  }

  lemma FindingsGrow(rego: Rego, truth: Truth, job: Job, findings: seq<Finding>, done: seq<string>, m: string,
                     found: Option<Finding>, full: bool)
    requires Views(findings, full) == Views(AllFindings(rego, truth, job, done), full)
    requires Agrees(Success(found), VerdictOn(rego, truth, job, m), full)
    ensures Views(findings + Found(found), full) == Views(AllFindings(rego, truth, job, done + [m]), full)
  {
    hide AllFindings, VerdictOn, Views, View;
    FindingsConcat(rego, truth, job, done, m);
    var verdict := VerdictOn(rego, truth, job, m);
    if found.Some? {
      ViewsAppend(findings, [found.value], full);
      ViewsAppend(AllFindings(rego, truth, job, done), [verdict.finding], full);
      ViewsOne(found.value, verdict.finding, full);
    } else {
      assert findings + [] == findings;
      assert AllFindings(rego, truth, job, done) + [] == AllFindings(rego, truth, job, done);
    }
  }

  /** A metric that ran is dealt with, and its finding kept if it applies. */
  lemma LoopAdvances(rego: Rego, truth: Truth, rule: Rule, full: bool, job: Job, loop: Loop, m: string,
                     found: Option<Finding>)
    requires LoopRight(rego, truth, rule, full, job, loop, [m] + loop.rest)
    requires Agrees(Success(found), VerdictOn(rego, truth, job, m), full)
    ensures LoopRight(rego, truth, rule, full, job,
                      if found.None? then loop else Extend(loop, m, found.value), loop.rest)
  {
    hide AllFindings, VerdictOn, Views, Applicable, NoneErroneous, Servable, Allowed;
    var done :| Progress(rego, truth, rule, full, job, loop, done, [m] + loop.rest);
    assert done + ([m] + loop.rest) == done + [m] + loop.rest;
    assert loop.findings + [] == loop.findings;
    FindingsGrow(rego, truth, job, loop.findings, done, m, found, full);
    ApplicableConcat(rego, truth, job, done, m);
    VerdictsGrow(rego, truth, job, done, m);
    assert loop.Filling? && found.None? ==>
             Applicable(rego, truth, job.service, job.resource, done) + [] == loop.names;
    var extended := if found.None? then loop else Extend(loop, m, found.value);
    assert Progress(rego, truth, rule, full, job, extended, done + [m], loop.rest);
  }

  /** A fill passes a missing metric over. */
  lemma LoopSkips(rego: Rego, truth: Truth, rule: Rule, full: bool, job: Job, loop: Loop, m: string)
    requires LoopRight(rego, truth, rule, full, job, loop, [m] + loop.rest) && loop.Filling?
    requires VerdictOn(rego, truth, job, m).Missing?
    ensures LoopRight(rego, truth, rule, full, job, loop, loop.rest)
  {
    hide AllFindings, VerdictOn, Views, Applicable, NoneErroneous, Servable, Allowed;
    var done :| Progress(rego, truth, rule, full, job, loop, done, [m] + loop.rest);
    assert done + ([m] + loop.rest) == done + [m] + loop.rest;
    FindingsConcat(rego, truth, job, done, m);
    ApplicableConcat(rego, truth, job, done, m);
    VerdictsGrow(rego, truth, job, done, m);
    assert AllFindings(rego, truth, job, done) + [] == AllFindings(rego, truth, job, done);
    assert loop.names + [] == loop.names;
    assert Progress(rego, truth, rule, full, job, loop, done + [m], loop.rest);
  }

  /** Taking the next metric up changes nothing that was found. */
  lemma TailRight(rego: Rego, truth: Truth, rule: Rule, full: bool, job: Job, loop: Loop)
    requires loop.rest != [] && LoopRight(rego, truth, rule, full, job, loop, loop.rest)
    ensures LoopRight(rego, truth, rule, full, job, Tail(loop), [loop.rest[0]] + Tail(loop).rest)
  {
    hide AllFindings, Views, Applicable, NoneErroneous, Servable, Allowed;
    assert [loop.rest[0]] + Tail(loop).rest == loop.rest;
    var done :| Progress(rego, truth, rule, full, job, loop, done, loop.rest);
    assert Progress(rego, truth, rule, full, job, Tail(loop), done, loop.rest);
  }

  // ---------------------------------------------------------------- what is returned

  /** The list was allowed; the evaluation succeeded with its findings, or reports the first fault in it. */
  ghost predicate ServedFrom(rego: Rego, truth: Truth, rule: Rule, full: bool, r: Report, list: seq<string>) {
    && Allowed(rego, truth, rule, r.job.key, list)
    && if r.result.Failure? then FirstFault(rego, truth, r.job.service, r.job.resource, list) == Some(r.result.error)
       else && Servable(rego, truth, r.job.service, r.job.resource, list)
            && Views(r.result.value, full) == Views(AllFindings(rego, truth, r.job, list), full)
  }

  /** The evaluation succeeded as plain evaluation does, or met an error that plain evaluation meets. */
  ghost predicate FilledAs(rego: Rego, truth: Truth, full: bool, r: Report) {
    if r.result.Failure? then
      r.result.error == Other && !NoneErroneous(rego, truth, r.job.service, r.job.resource, truth.metrics)
    else && NoneErroneous(rego, truth, r.job.service, r.job.resource, truth.metrics)
         && Views(r.result.value, full) == Views(AllFindings(rego, truth, r.job, truth.metrics), full)
  }

  /** Only failures of calls to the source are free. */
  ghost predicate ReportRight(rego: Rego, truth: Truth, rule: Rule, full: bool, r: Report, reliable: bool) {
    r.result.Success? || reliable ==>
      if r.hit then exists list :: ServedFrom(rego, truth, rule, full, r, list) else FilledAs(rego, truth, full, r)
  }

  /** Running the query on the resource gives the verdict of fetching, compiling and running afresh. */
  ghost predicate RunsRight(rego: Rego, truth: Truth, full: bool, job: Job, m: string, query: Query) {
    var result, verdict := RunQuery(rego, m, query, job.resource), VerdictOn(rego, truth, job, m);
    Agrees(result, verdict, full) && (result.Failure? ==> result.error.Other? && verdict.Erroneous?)
  }

  /** Where an evaluation stands, everything it carries is right. */
  ghost predicate PhaseRight(rego: Rego, truth: Truth, rule: Rule, full: bool, p: Phase, reliable: bool) {
    match p
    case NeedWrite(_, metrics) => metrics == truth.metrics
    case AwaitWrite(_, metrics) => metrics == truth.metrics
    case Scanning(job, loop) => LoopRight(rego, truth, rule, full, job, loop, loop.rest)
    case NeedQuery(job, loop, m, config) =>
      LoopRight(rego, truth, rule, full, job, loop, [m] + loop.rest) && truth.config(job.service, m) == Success(config)
    case Looking(job, loop, m, config) =>
      LoopRight(rego, truth, rule, full, job, loop, [m] + loop.rest) && truth.config(job.service, m) == Success(config)
    case Fetched(job, loop, m, config, code) =>
      && LoopRight(rego, truth, rule, full, job, loop, [m] + loop.rest)
      && truth.config(job.service, m) == Success(config) && truth.code(m) == Success(code)
    case Running(job, loop, m, query) =>
      && LoopRight(rego, truth, rule, full, job, loop, [m] + loop.rest)
      && RunsRight(rego, truth, full, job, m, query)
    case Done(Some(report)) => ReportRight(rego, truth, rule, full, report, reliable)
    case _ => true
  }

  lemma FinishRight(rego: Rego, truth: Truth, rule: Rule, full: bool, job: Job, loop: Loop, reliable: bool)
    requires LoopRight(rego, truth, rule, full, job, loop, [])
    ensures PhaseRight(rego, truth, rule, full, Finished(job, loop), reliable)
  {
    hide AllFindings, Views, Applicable, NoneErroneous, Servable, Allowed;
    var done :| Progress(rego, truth, rule, full, job, loop, done, []);
    assert done + [] == done;
    var r := Report(job, loop.Serving?, Success(loop.findings));
    assert loop.Serving? ==> ServedFrom(rego, truth, rule, full, r, done);
  }

  /** The metric at hand is one of the catalogue. */
  lemma AtHand(rego: Rego, truth: Truth, rule: Rule, full: bool, job: Job, loop: Loop, m: string)
    requires LoopRight(rego, truth, rule, full, job, loop, [m] + loop.rest)
    ensures m in truth.metrics
  {
    hide AllFindings, Views, Applicable, NoneErroneous, Servable, Allowed, Subsequence;
    var done :| Progress(rego, truth, rule, full, job, loop, done, [m] + loop.rest);
    var list := done + ([m] + loop.rest);
    assert list[|done|] == m;
    if loop.Serving? {
      AllowedIsOrdered(rego, truth, rule, job.key, list);
      SubsequenceElement(list, truth.metrics, |done|);
    }
  }

  /** A metric in error, or missing from a cached list, makes a failure right. */
  lemma FailureRight(rego: Rego, truth: Truth, rule: Rule, full: bool, job: Job, loop: Loop, m: string, error: Error)
    requires LoopRight(rego, truth, rule, full, job, loop, [m] + loop.rest)
    requires var verdict := VerdictOn(rego, truth, job, m);
             (verdict.Erroneous? && error == Other) || (verdict.Missing? && loop.Serving? && error == NotFound)
    ensures ReportRight(rego, truth, rule, full, Report(job, loop.Serving?, Failure(error)), true)
  {
    hide Judge, Views, Applicable, Allowed;
    var done :| Progress(rego, truth, rule, full, job, loop, done, [m] + loop.rest);
    var list := done + ([m] + loop.rest);
    assert list[|done|] == m;
    var r := Report(job, loop.Serving?, Failure(error));
    if loop.Serving? {
      FaultAfter(rego, truth, job.service, job.resource, done, [m] + loop.rest);
      assert ServedFrom(rego, truth, rule, full, r, list);
    }
  }

  /** The ways out of a loop, and the way on past a metric that is not found. */
  lemma LeavingRight(rego: Rego, truth: Truth, rule: Rule, full: bool, job: Job, loop: Loop, m: string, reliable: bool)
    requires LoopRight(rego, truth, rule, full, job, loop, [m] + loop.rest)
    ensures !reliable || VerdictOn(rego, truth, job, m).Erroneous? ==>
      PhaseRight(rego, truth, rule, full, Aborted(job, loop), reliable)
    ensures VerdictOn(rego, truth, job, m).Missing? ==>
      PhaseRight(rego, truth, rule, full, PassedOver(job, loop), reliable)
  {
    hide LoopRight, VerdictOn, ServedFrom, FilledAs;
    if VerdictOn(rego, truth, job, m).Erroneous? {
      FailureRight(rego, truth, rule, full, job, loop, m, Other);
    } else if VerdictOn(rego, truth, job, m).Missing? {
      if loop.Filling? {
        LoopSkips(rego, truth, rule, full, job, loop, m);
      } else {
        FailureRight(rego, truth, rule, full, job, loop, m, NotFound);
      }
    }
  }

  // ---------------------------------------------------------------- steps

  lemma ReadingRight(rego: Rego, s: State, rule: Rule, full: bool, job: Job, reliable: bool)
    requires ListsAllowed(rego, TruthOf(s.source), rule, s.lists)
    ensures PhaseRight(rego, TruthOf(s.source), rule, full, AfterReading(s, job), reliable)
  {
    hide Allowed, LoopRight;
    if job.key in s.lists && s.lists[job.key].Some? {
      LoopBegins(rego, TruthOf(s.source), rule, full, job, s.lists[job.key].value);
    }
  }

  lemma ScanningRight(rego: Rego, s: State, rule: Rule, full: bool, job: Job, loop: Loop, fails: bool, reliable: bool)
    requires LoopRight(rego, TruthOf(s.source), rule, full, job, loop, loop.rest) && (reliable ==> !fails)
    ensures PhaseRight(rego, TruthOf(s.source), rule, full, AfterScanning(s, job, loop, fails), reliable)
  {
    hide LoopRight, ServedFrom, FilledAs, Judge;
    var truth := TruthOf(s.source);
    if loop.rest == [] {
      FinishRight(rego, truth, rule, full, job, loop, reliable);
    } else {
      var m := loop.rest[0];
      TailRight(rego, truth, rule, full, job, loop);
      LeavingRight(rego, truth, rule, full, job, Tail(loop), m, reliable);
      NoConfigVerdict(rego, truth, job.service, m, job.resource);
    }
  }

  lemma LookingRight(rego: Rego, s: State, rule: Rule, full: bool, job: Job, loop: Loop, m: string, config: Config,
                     fails: bool, reliable: bool)
    requires LoopRight(rego, TruthOf(s.source), rule, full, job, loop, [m] + loop.rest) && (reliable ==> !fails)
    requires TruthOf(s.source).config(job.service, m) == Success(config)
    requires AllDashFreeIds(s.source.catalogue) && ValidService(job.service)
    requires Comparable(rego, TruthOf(s.source), full)
    requires QueriesCurrent(rego, TruthOf(s.source), s.queries, full)
    ensures PhaseRight(rego, TruthOf(s.source), rule, full,
                       AfterLooking(rego, s, job, loop, m, config, fails), reliable)
  {
    hide LoopRight, ReportRight, Judge, QueryKey, RunQuery, Comparable, QueriesCurrent;
    var truth, key := TruthOf(s.source), QueryKey(rego.render, m, job.service, config);
    LeavingRight(rego, truth, rule, full, job, loop, m, reliable);
    if key in s.queries {
      AtHand(rego, truth, rule, full, job, loop, m);
      HitIsCurrent(rego, truth, s.queries, job.service, m, config, full);
      RunAlike(rego, truth, s.queries[key], job.service, m, config, job.resource, full);
      RunFails(rego, m, s.queries[key], job.resource);
    } else {
      NoCodeVerdict(rego, truth, job.service, m, config, job.resource);
    }
  }

  lemma RunFails(rego: Rego, m: string, query: Query, resource: Value)
    ensures RunQuery(rego, m, query, resource).Failure? ==> RunQuery(rego, m, query, resource) == Failure(Other)
  {
  }

  lemma FetchedRight(rego: Rego, truth: Truth, rule: Rule, full: bool, job: Job, loop: Loop, query: Query,
                     reliable: bool)
    requires LoopRight(rego, truth, rule, full, job, loop, [query.metric] + loop.rest) && Comparable(rego, truth, full)
    requires truth.config(job.service, query.metric) == Success(query.config)
    requires truth.code(query.metric) == Success(query.code)
    ensures PhaseRight(rego, truth, rule, full, AfterFetched(rego, job, loop, query.metric, query), reliable)
  {
    hide LoopRight, ReportRight, Judge, RunQuery, Comparable;
    var m := query.metric;
    LeavingRight(rego, truth, rule, full, job, loop, m, reliable);
    if rego.compiles(query) {
      RunAlike(rego, truth, query, job.service, m, query.config, job.resource, full);
      RunFails(rego, m, query, job.resource);
    } else {
      assert query == Query(m, query.config, query.code);
      NoCodeVerdict(rego, truth, job.service, m, query.config, job.resource);
    }
  }

  lemma RunningRight(rego: Rego, truth: Truth, rule: Rule, full: bool, job: Job, loop: Loop, m: string, query: Query,
                     reliable: bool)
    requires LoopRight(rego, truth, rule, full, job, loop, [m] + loop.rest)
    requires RunsRight(rego, truth, full, job, m, query)
    ensures PhaseRight(rego, truth, rule, full, AfterRunning(rego, job, loop, m, query), reliable)
  {
    hide LoopRight, ReportRight, VerdictOn, RunQuery, View;
    LeavingRight(rego, truth, rule, full, job, loop, m, reliable);
    var found := RunQuery(rego, m, query, job.resource);
    if found.Success? {
      LoopAdvances(rego, truth, rule, full, job, loop, m, found.value);
    }
  }

  /** Every step of an evaluation keeps what it carries right. */
  lemma PhaseStaysRight(rego: Rego, s: State, rule: Rule, full: bool, p: Phase, fails: bool, reliable: bool)
    requires (reliable ==> !fails) && AllDashFreeIds(s.source.catalogue)
    requires PhaseKeyed(rego, p, !full) && ListsAllowed(rego, TruthOf(s.source), rule, s.lists)
    requires Comparable(rego, TruthOf(s.source), full)
    requires QueriesCurrent(rego, TruthOf(s.source), s.queries, full)
    requires PhaseRight(rego, TruthOf(s.source), rule, full, p, reliable)
    ensures PhaseRight(rego, TruthOf(s.source), rule, full, PhaseAfter(rego, s, p, fails), reliable)
  {
    hide LoopRight, ReportRight, RunsRight, ListsAllowed, Comparable, QueriesCurrent, Admitted;
    hide AfterReading, AfterScanning, AfterLooking, AfterFetched, AfterRunning;
    var truth := TruthOf(s.source);
    match p {
      case Reading(job) => ReadingRight(rego, s, rule, full, job, reliable);
      case AwaitWrite(job, metrics) => LoopBegins(rego, truth, rule, full, job, []);
      case Scanning(job, loop) => ScanningRight(rego, s, rule, full, job, loop, fails, reliable);
      case Looking(job, loop, m, config) =>
        LookingRight(rego, s, rule, full, job, loop, m, config, fails, reliable);
      case Fetched(job, loop, m, config, code) =>
        FetchedRight(rego, truth, rule, full, job, loop, Query(m, config, code), reliable);
      case Running(job, loop, m, query) => RunningRight(rego, truth, rule, full, job, loop, m, query, reliable);
      case Listing(job) => ListingRight(rego, s, rule, full, job, fails, reliable);
      case _ =>
    }
  }

  lemma ListingRight(rego: Rego, s: State, rule: Rule, full: bool, job: Job, fails: bool, reliable: bool)
    requires reliable ==> !fails
    ensures PhaseRight(rego, TruthOf(s.source), rule, full, AfterListing(s, job, fails), reliable)
  {
    hide ServedFrom, FilledAs;
  }
}
