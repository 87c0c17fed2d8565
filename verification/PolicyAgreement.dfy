/** One evaluation through the caches against plain evaluation. */
module PolicyAgreement {
  import opened Wrappers
  import opened Base64Url
  import opened Values
  import opened CacheKeys
  import opened PolicyModel

  // ---------------------------------------------------------------- plain evaluation

  /** What the source really holds. */
  datatype Truth = Truth(
    metrics: seq<string>,
    config: (string, string) -> Result<Config, Error>,
    code: string -> Result<string, Error>)

  datatype Verdict = Missing | Inapplicable | Applies(finding: Finding) | Erroneous

  /** One metric on one resource, fetched, compiled and run afresh. */
  function Judge(rego: Rego, truth: Truth, service: string, resource: Value, metric: string): Verdict {
    match (truth.config(service, metric), truth.code(metric))
    case (Failure(e), _) => if e.NotFound? then Missing else Erroneous
    case (Success(_), Failure(e)) => if e.NotFound? then Missing else Erroneous
    case (Success(config), Success(code)) =>
      var query := Query(metric, config, code);
      if !rego.compiles(query) then Erroneous
      else
        match rego.run(query, resource)
        case Crashed => Erroneous
        case Ran(applicable, compliant) =>
          if applicable then Applies(FindingOf(metric, config, compliant)) else Inapplicable
  }

  /** The metrics among `metrics` that apply, in order. */
  function Applicable(rego: Rego, truth: Truth, service: string, resource: Value, metrics: seq<string>): seq<string> {
    if metrics == [] then []
    else (if Judge(rego, truth, service, resource, metrics[0]).Applies? then [metrics[0]] else [])
         + Applicable(rego, truth, service, resource, metrics[1..])
  }

  /** Their findings, in the same order. */
  function Findings(rego: Rego, truth: Truth, service: string, resource: Value, metrics: seq<string>): seq<Finding> {
    if metrics == [] then []
    else
      var verdict := Judge(rego, truth, service, resource, metrics[0]);
      (if verdict.Applies? then [verdict.finding] else []) + Findings(rego, truth, service, resource, metrics[1..])
  }

  predicate NoneErroneous(rego: Rego, truth: Truth, service: string, resource: Value, metrics: seq<string>) {
    forall i :: 0 <= i < |metrics| ==> !Judge(rego, truth, service, resource, metrics[i]).Erroneous?
  }

  /** Evaluation without any cache: all findings, or an error if any metric has one. */
  function PlainEval(rego: Rego, truth: Truth, e: Evidence): Option<seq<Finding>> {
    if e.resource.Some? && NoneErroneous(rego, truth, e.service, e.resource.value, truth.metrics)
    then Some(Findings(rego, truth, e.service, e.resource.value, truth.metrics))
    else None
  }

  // ---------------------------------------------------------------- what is compared

  /**
  The hash leaves out configuration metadata. While configurations do not change, findings are
  compared in full (`full`); otherwise up to that metadata.
  */
  function View(f: Finding, full: bool): Finding {
    if full then f else f.(config := Bare(f.config))
  }

  function Bare(config: Config): Config {
    config.(isDefault := false, updatedAt := 0)
  }

  function Views(fs: seq<Finding>, full: bool): seq<Finding> {
    seq(|fs|, i requires 0 <= i < |fs| => View(fs[i], full))
  }

  predicate Alike(c: Config, c': Config, full: bool) {
    if full then c == c' else Bare(c) == Bare(c')
  }

  /** Compiling and running a query does not look at configuration metadata. */
  ghost predicate MetadataBlind(rego: Rego) {
    forall metric, config, config', code, r :: Bare(config) == Bare(config') ==>
      && rego.compiles(Query(metric, config, code)) == rego.compiles(Query(metric, config', code))
      && rego.run(Query(metric, config, code), r) == rego.run(Query(metric, config', code), r)
  }

  /** Target values that print alike are equal. */
  ghost predicate TargetsDiffer(rego: Rego) {
    forall v, v' :: rego.targets(v) && rego.targets(v') && rego.render(v) == rego.render(v') ==> v == v'
  }

  predicate AllowedConfig(rego: Rego, config: Config) {
    AllowedOperator(config.operator) && rego.targets(config.target)
  }

  /** What comparing up to metadata needs: keys that determine operator and target value. */
  ghost predicate Comparable(rego: Rego, truth: Truth, full: bool) {
    full || (
      && MetadataBlind(rego) && TargetsDiffer(rego)
      && (forall s, m :: truth.config(s, m).Success? ==> AllowedConfig(rego, truth.config(s, m).value)))
  }

  /** Natural numbers as target values, each printed as that many digits. */
  function Tally(v: Value): seq<Byte> {
    if v.Number? && v.n >= 0.0 then seq(v.n.Floor, i => 49) else []
  }

  predicate Natural(v: Value) {
    v.Number? && v.n >= 0.0 && v.n == v.n.Floor as real
  }

  function Blinded(query: Query): Query {
    query.(config := Bare(query.config))
  }

  /** Any policies, shown configurations without metadata, over target values that are natural numbers. */
  function TallyRego(rego: Rego): Rego {
    Rego(Tally, (q: Query) => rego.compiles(Blinded(q)), (q: Query, r: Value) => rego.run(Blinded(q), r), Natural)
  }

  /** The hypotheses can be met: by such policies and every source that configures natural numbers. */
  lemma ComparableCanBeMet(rego: Rego, truth: Truth)
    requires forall s, m :: truth.config(s, m).Success? ==>
               AllowedOperator(truth.config(s, m).value.operator) && Natural(truth.config(s, m).value.target)
    ensures Comparable(TallyRego(rego), truth, false)
  {
    hide AllowedOperator;
    var tally := TallyRego(rego);
    forall v, v' | tally.targets(v) && tally.targets(v') && tally.render(v) == tally.render(v')
      ensures v == v'
    {
      assert |Tally(v)| == v.n.Floor && |Tally(v')| == v'.n.Floor;
    }
    forall metric, config, config', code | Bare(config) == Bare(config')
      ensures Blinded(Query(metric, config, code)) == Blinded(Query(metric, config', code))
    {
    }
    assert MetadataBlind(tally);
    assert forall s, m :: truth.config(s, m).Success? ==> AllowedConfig(tally, truth.config(s, m).value);
  }

  // ---------------------------------------------------------------- one evaluation

  /** Every answer of the source is the truth or a passing failure. */
  ghost predicate Faithful(src: Source, truth: Truth) {
    && (forall t :: src.metrics(t) == Success(truth.metrics) || src.metrics(t) == Failure(Other))
    && (forall t, s, m :: src.config(t, s, m) == truth.config(s, m) || src.config(t, s, m) == Failure(Other))
    && (forall t, m :: src.code(t, m) == truth.code(m) || src.code(t, m) == Failure(Other))
  }

  /** There are no passing failures either. */
  ghost predicate Reliable(src: Source, truth: Truth) {
    && (forall t :: src.metrics(t) == Success(truth.metrics))
    && (forall t, s, m :: src.config(t, s, m) == truth.config(s, m))
    && (forall t, m :: src.code(t, m) == truth.code(m))
  }

  predicate ValidService(service: string) {
    |service| == UUID_LENGTH
  }

  /**
  An entry is what compiling the current code gives, for the configuration in its key; and, while
  configurations are fixed, for the current configuration.
  */
  predicate Current(rego: Rego, truth: Truth, key: string, query: Query, service: string, full: bool) {
    && DashFree(query.metric) && ValidService(service)
    && truth.code(query.metric) == Success(query.code)
    && rego.compiles(query)
    && key == QueryKey(rego.render, query.metric, service, query.config)
    && (if full then truth.config(service, query.metric) == Success(query.config)
        else AllowedConfig(rego, query.config))
  }

  ghost predicate QueriesCurrent(rego: Rego, truth: Truth, cache: map<string, Query>, full: bool) {
    forall key :: key in cache ==> exists service :: Current(rego, truth, key, cache[key], service, full)
  }

  /** A result of evalMap is right if it is the verdict; other errors may be passing ones. */
  predicate Agrees(result: Result<Option<Finding>, Error>, verdict: Verdict, full: bool) {
    match result
    case Success(None) => verdict.Inapplicable?
    case Success(Some(f)) => verdict.Applies? && View(f, full) == View(verdict.finding, full)
    case Failure(NotFound) => verdict.Missing?
    case Failure(Other) => true
  }

  /** A cache hit yields the query that compiling afresh would have yielded, up to metadata. */
  lemma HitIsCurrent(rego: Rego, truth: Truth, cache: map<string, Query>, service: string, metric: string,
                     config: Config, full: bool)
    requires QueriesCurrent(rego, truth, cache, full) && DashFree(metric) && ValidService(service)
    requires Comparable(rego, truth, full) && truth.config(service, metric) == Success(config)
    requires QueryKey(rego.render, metric, service, config) in cache
    ensures var query := cache[QueryKey(rego.render, metric, service, config)];
            && query.metric == metric && Alike(query.config, config, full)
            && truth.code(metric) == Success(query.code) && rego.compiles(query)
  {
    hide QueryKey, AllowedOperator;
    var key := QueryKey(rego.render, metric, service, config);
    var s :| Current(rego, truth, key, cache[key], s, full);
    QueryKeyDeterminesParts(rego.render, metric, service, config, cache[key].metric, s, cache[key].config);
    if !full {
      assert AllowedConfig(rego, truth.config(service, metric).value);
      QueryKeyInjective(rego.render, metric, service, config, cache[key].metric, s, cache[key].config);
    }
  }

  /** A miss fetches and compiles, and caches only what it compiled. */
  lemma MissIsCurrent(rego: Rego, src: Source, truth: Truth, qs: Queries, service: string, metric: string,
                      config: Config, key: string, full: bool)
    requires Faithful(src, truth) && QueriesCurrent(rego, truth, qs.cache, full) && Comparable(rego, truth, full)
    requires DashFree(metric) && ValidService(service) && truth.config(service, metric) == Success(config)
    requires key == QueryKey(rego.render, metric, service, config) && key !in qs.cache
    ensures var got := Get(rego, src, qs, key, metric, config);
            && QueriesCurrent(rego, truth, got.queries.cache, full)
            && (got.result.Success? ==>
                  && truth.code(metric) == Success(got.result.value.code) && rego.compiles(got.result.value)
                  && got.result.value == Query(metric, config, got.result.value.code))
            && (got.result == Failure(NotFound) ==> truth.code(metric) == Failure(NotFound))
            && (got.result == Failure(Other) && Reliable(src, truth) ==>
                  truth.code(metric) == Failure(Other) ||
                  (truth.code(metric).Success? && !rego.compiles(Query(metric, config, truth.code(metric).value))))
  {
    hide QueryKey, AllowedOperator;
    var got := Get(rego, src, qs, key, metric, config);
    assert src.code(qs.calls, metric) == truth.code(metric) || src.code(qs.calls, metric) == Failure(Other);
    assert !full ==> AllowedConfig(rego, truth.config(service, metric).value);
    if got.result.Success? {
      assert Current(rego, truth, key, got.result.value, service, full);
    }
  }

  /** Running a query for a configuration alike gives the same verdict, up to metadata. */
  lemma RunAlike(rego: Rego, truth: Truth, query: Query, service: string, metric: string, config: Config,
                 resource: Value, full: bool)
    requires Comparable(rego, truth, full) && truth.config(service, metric) == Success(config)
    requires query.metric == metric && Alike(query.config, config, full)
    requires truth.code(metric) == Success(query.code) && rego.compiles(query)
    ensures Agrees(RunQuery(rego, metric, query, resource), Judge(rego, truth, service, resource, metric), full)
    ensures RunQuery(rego, metric, query, resource) == Failure(Other) ==>
      Judge(rego, truth, service, resource, metric).Erroneous?
  {
  }

  lemma EvalMapAgrees(rego: Rego, src: Source, truth: Truth, qs: Queries, service: string, metric: string,
                      resource: Value, full: bool)
    requires Faithful(src, truth) && QueriesCurrent(rego, truth, qs.cache, full) && Comparable(rego, truth, full)
    requires DashFree(metric) && ValidService(service)
    ensures var one := EvalMap(rego, src, qs, service, metric, resource);
            var verdict := Judge(rego, truth, service, resource, metric);
            && Agrees(one.result, verdict, full)
            && (one.result == Failure(Other) && Reliable(src, truth) ==> verdict.Erroneous?)
            && QueriesCurrent(rego, truth, one.queries.cache, full)
  {
    hide QueryKey, AllowedConfig, QueriesCurrent, Comparable, Get, RunQuery, Judge;
    var answer := src.config(qs.calls, service, metric);
    assert answer == truth.config(service, metric) || answer == Failure(Other);
    if answer.Success? {
      var config, after := answer.value, qs.(calls := qs.calls + 1);
      var got := GetIsCurrent(rego, src, truth, after, service, metric, config, full);
      if got.Success? {
        RunAlike(rego, truth, got.value, service, metric, config, resource, full);
      } else {
        NoCodeVerdict(rego, truth, service, metric, config, resource);
      }
    } else {
      NoConfigVerdict(rego, truth, service, metric, resource);
    }
  }

  /** Hit or miss, what Get returns is current. */
  lemma GetIsCurrent(rego: Rego, src: Source, truth: Truth, qs: Queries, service: string, metric: string,
                     config: Config, full: bool)
    returns (got: Result<Query, Error>)
    requires Faithful(src, truth) && QueriesCurrent(rego, truth, qs.cache, full) && Comparable(rego, truth, full)
    requires DashFree(metric) && ValidService(service) && truth.config(service, metric) == Success(config)
    ensures var g := Get(rego, src, qs, QueryKey(rego.render, metric, service, config), metric, config);
            got == g.result && QueriesCurrent(rego, truth, g.queries.cache, full)
    ensures got.Success? ==>
      && got.value.metric == metric && Alike(got.value.config, config, full)
      && truth.code(metric) == Success(got.value.code) && rego.compiles(got.value)
    ensures got == Failure(NotFound) ==> truth.code(metric) == Failure(NotFound)
    ensures got == Failure(Other) && Reliable(src, truth) ==>
      truth.code(metric) == Failure(Other) ||
      (truth.code(metric).Success? && !rego.compiles(Query(metric, config, truth.code(metric).value)))
  {
    hide QueryKey, AllowedConfig, QueriesCurrent, Comparable;
    var key := QueryKey(rego.render, metric, service, config);
    got := Get(rego, src, qs, key, metric, config).result;
    if key in qs.cache {
      HitIsCurrent(rego, truth, qs.cache, service, metric, config, full);
    } else {
      MissIsCurrent(rego, src, truth, qs, service, metric, config, key, full);
    }
  }

  lemma NoConfigVerdict(rego: Rego, truth: Truth, service: string, metric: string, resource: Value)
    ensures truth.config(service, metric) == Failure(NotFound) ==>
      Judge(rego, truth, service, resource, metric).Missing?
    ensures truth.config(service, metric) == Failure(Other) ==>
      Judge(rego, truth, service, resource, metric).Erroneous?
  {
  }

  lemma NoCodeVerdict(rego: Rego, truth: Truth, service: string, metric: string, config: Config, resource: Value)
    requires truth.config(service, metric) == Success(config)
    ensures truth.code(metric) == Failure(NotFound) ==> Judge(rego, truth, service, resource, metric).Missing?
    ensures truth.code(metric) == Failure(Other) ||
            (truth.code(metric).Success? && !rego.compiles(Query(metric, config, truth.code(metric).value))) ==>
      Judge(rego, truth, service, resource, metric).Erroneous?
  {
  }

  lemma ViewsOne(f: Finding, g: Finding, full: bool)
    requires View(f, full) == View(g, full)
    ensures Views([f], full) == Views([g], full)
  {
  }

  lemma ViewsAppend(a: seq<Finding>, b: seq<Finding>, full: bool)
    ensures Views(a + b, full) == Views(a, full) + Views(b, full)
  {
  }

  // ---------------------------------------------------------------- the two loops

  predicate AllDashFreeIds(metrics: seq<string>) {
    forall i :: 0 <= i < |metrics| ==> DashFree(metrics[i])
  }

  /** A finished scan holds the applicable metrics and the findings of plain evaluation. */
  ghost predicate ScanAgrees(rego: Rego, truth: Truth, service: string, resource: Value, metrics: seq<string>,
                             before: Scan, scan: Scan, full: bool)
  {
    && NoneErroneous(rego, truth, service, resource, metrics)
    && scan.names == before.names + Applicable(rego, truth, service, resource, metrics)
    && Views(scan.findings, full)
       == Views(before.findings, full) + Views(Findings(rego, truth, service, resource, metrics), full)
  }

  function Found(found: Option<Finding>): seq<Finding> {
    if found.None? then [] else [found.value]
  }

  /** One more metric in front of findings that agree. */
  lemma FindingsStep(rego: Rego, truth: Truth, service: string, resource: Value, metrics: seq<string>,
                     before: seq<Finding>, found: Option<Finding>, findings: seq<Finding>, full: bool)
    requires metrics != []
    requires var verdict := Judge(rego, truth, service, resource, metrics[0]);
             && verdict.Applies? == found.Some?
             && (found.Some? ==> View(found.value, full) == View(verdict.finding, full))
    requires Views(findings, full)
          == Views(before + Found(found), full) + Views(Findings(rego, truth, service, resource, metrics[1..]), full)
    ensures Views(findings, full)
         == Views(before, full) + Views(Findings(rego, truth, service, resource, metrics), full)
  {
    hide Judge, Views, View;
    var verdict := Judge(rego, truth, service, resource, metrics[0]);
    var rest := Findings(rego, truth, service, resource, metrics[1..]);
    if found.Some? {
      ViewsAppend(before, [found.value], full);
      ViewsAppend([verdict.finding], rest, full);
      ViewsOne(found.value, verdict.finding, full);
      var a, b, c := Views(before, full), Views([verdict.finding], full), Views(rest, full);
      assert a + b + c == a + (b + c);
    } else {
      assert Findings(rego, truth, service, resource, metrics) == rest;
      assert before + [] == before;
    }
  }

  lemma ApplicableStep(rego: Rego, truth: Truth, service: string, resource: Value, metrics: seq<string>)
    requires metrics != []
    ensures var rest := Applicable(rego, truth, service, resource, metrics[1..]);
            Applicable(rego, truth, service, resource, metrics)
            == if Judge(rego, truth, service, resource, metrics[0]).Applies? then [metrics[0]] + rest else rest
  {
    hide Judge;
  }

  lemma NamesStep(rego: Rego, truth: Truth, service: string, resource: Value, metrics: seq<string>, before: seq<string>)
    requires metrics != []
    ensures var rest := Applicable(rego, truth, service, resource, metrics[1..]);
            before + Applicable(rego, truth, service, resource, metrics)
            == (if Judge(rego, truth, service, resource, metrics[0]).Applies? then before + [metrics[0]] else before)
               + rest
  {
    hide Judge, Applicable;
    ApplicableStep(rego, truth, service, resource, metrics);
    var rest := Applicable(rego, truth, service, resource, metrics[1..]);
    assert before + ([metrics[0]] + rest) == before + [metrics[0]] + rest;
  }

  lemma NoneErroneousStep(rego: Rego, truth: Truth, service: string, resource: Value, metrics: seq<string>)
    requires metrics != [] && NoneErroneous(rego, truth, service, resource, metrics[1..])
    requires !Judge(rego, truth, service, resource, metrics[0]).Erroneous?
    ensures NoneErroneous(rego, truth, service, resource, metrics)
  {
  }

  /** One more metric in front of a scan that agrees. */
  lemma ScanStep(rego: Rego, truth: Truth, service: string, resource: Value, metrics: seq<string>, before: Scan,
                 result: Result<Option<Finding>, Error>, scan: Scan, full: bool)
    requires metrics != [] && result != Failure(Other)
    requires Agrees(result, Judge(rego, truth, service, resource, metrics[0]), full)
    requires var next := if result.Success? then Add(before, metrics[0], result.value) else before;
             ScanAgrees(rego, truth, service, resource, metrics[1..], next, scan, full)
    ensures ScanAgrees(rego, truth, service, resource, metrics, before, scan, full)
  {
    hide Judge, Views, View, Findings, Applicable, NoneErroneous;
    var found := if result.Success? then result.value else None;
    NoneErroneousStep(rego, truth, service, resource, metrics);
    NamesStep(rego, truth, service, resource, metrics, before.names);
    assert before.findings + [] == before.findings;
    FindingsStep(rego, truth, service, resource, metrics, before.findings, found, scan.findings, full);
  }

  lemma {:induction false} FillAgrees(rego: Rego, src: Source, truth: Truth, qs: Queries, service: string,
                                      resource: Value, metrics: seq<string>, scan: Scan, full: bool)
    requires Faithful(src, truth) && QueriesCurrent(rego, truth, qs.cache, full) && Comparable(rego, truth, full)
    requires AllDashFreeIds(metrics) && ValidService(service)
    ensures var filled := Fill(rego, src, qs, service, resource, metrics, scan);
            && QueriesCurrent(rego, truth, filled.queries.cache, full)
            && (filled.result.Success? ==>
                  ScanAgrees(rego, truth, service, resource, metrics, scan, filled.result.value, full))
            && (Reliable(src, truth) && NoneErroneous(rego, truth, service, resource, metrics) ==>
                  filled.result.Success?)
    decreases |metrics|
  {
    hide EvalMap, Judge, QueriesCurrent, Faithful, Reliable, Comparable, ScanAgrees;
    if metrics == [] {
      EmptyScanAgrees(rego, truth, service, resource, scan, full);
    } else {
      var one := EvalMap(rego, src, qs, service, metrics[0], resource);
      EvalMapAgrees(rego, src, truth, qs, service, metrics[0], resource, full);
      var next := if one.result.Success? then Add(scan, metrics[0], one.result.value) else scan;
      FillAgrees(rego, src, truth, one.queries, service, resource, metrics[1..], next, full);
      var filled := Fill(rego, src, qs, service, resource, metrics, scan);
      if filled.result.Success? {
        ScanStep(rego, truth, service, resource, metrics, scan, one.result, filled.result.value, full);
      }
    }
  }

  lemma EmptyScanAgrees(rego: Rego, truth: Truth, service: string, resource: Value, scan: Scan, full: bool)
    ensures ScanAgrees(rego, truth, service, resource, [], scan, scan, full)
  {
  }

  /** The verdicts with which serving from a cached list goes on. */
  predicate Servable(rego: Rego, truth: Truth, service: string, resource: Value, metrics: seq<string>) {
    forall i :: 0 <= i < |metrics| ==>
      var verdict := Judge(rego, truth, service, resource, metrics[i]);
      verdict.Applies? || verdict.Inapplicable?
  }

  /** The error of the first metric that is missing or in error. */
  function FirstFault(rego: Rego, truth: Truth, service: string, resource: Value, metrics: seq<string>): Option<Error> {
    if metrics == [] then None
    else
      var verdict := Judge(rego, truth, service, resource, metrics[0]);
      if verdict.Missing? then Some(NotFound)
      else if verdict.Erroneous? then Some(Other)
      else FirstFault(rego, truth, service, resource, metrics[1..])
  }

  lemma {:induction false} FaultExactly(rego: Rego, truth: Truth, service: string, resource: Value,
                                        metrics: seq<string>)
    ensures FirstFault(rego, truth, service, resource, metrics).None?
        <==> Servable(rego, truth, service, resource, metrics)
  {
    hide Judge;
    if metrics == [] {
    } else {
      FaultExactly(rego, truth, service, resource, metrics[1..]);
      assert forall i :: 0 < i < |metrics| ==> metrics[i] == metrics[1..][i - 1];
    }
  }

  /** The first fault of a list whose beginning has none. */
  lemma {:induction false} FaultAfter(rego: Rego, truth: Truth, service: string, resource: Value, done: seq<string>,
                                      todo: seq<string>)
    requires Servable(rego, truth, service, resource, done)
    ensures FirstFault(rego, truth, service, resource, done + todo) == FirstFault(rego, truth, service, resource, todo)
  {
    hide Judge;
    if done == [] {
      assert done + todo == todo;
    } else {
      assert (done + todo)[0] == done[0] && (done + todo)[1..] == done[1..] + todo;
      assert forall i :: 0 < i < |done| ==> done[i] == done[1..][i - 1];
      FaultAfter(rego, truth, service, resource, done[1..], todo);
    }
  }

  ghost predicate ServingAgrees(rego: Rego, truth: Truth, service: string, resource: Value, metrics: seq<string>,
                                before: seq<Finding>, findings: seq<Finding>, full: bool)
  {
    && Servable(rego, truth, service, resource, metrics)
    && Views(findings, full) == Views(before, full) + Views(Findings(rego, truth, service, resource, metrics), full)
  }

  lemma ServingStep(rego: Rego, truth: Truth, service: string, resource: Value, metrics: seq<string>,
                    before: seq<Finding>, found: Option<Finding>, findings: seq<Finding>, full: bool)
    requires metrics != [] && Agrees(Success(found), Judge(rego, truth, service, resource, metrics[0]), full)
    requires ServingAgrees(rego, truth, service, resource, metrics[1..],
                           if found.None? then before else before + [found.value], findings, full)
    ensures ServingAgrees(rego, truth, service, resource, metrics, before, findings, full)
  {
    hide Judge, Views, View, Findings;
    assert before + [] == before;
    FindingsStep(rego, truth, service, resource, metrics, before, found, findings, full);
    assert forall i :: 0 < i < |metrics| ==> metrics[i] == metrics[1..][i - 1];
  }

  lemma {:induction false} ServeAgrees(rego: Rego, src: Source, truth: Truth, qs: Queries, service: string,
                                       resource: Value, metrics: seq<string>, findings: seq<Finding>, full: bool)
    requires Faithful(src, truth) && QueriesCurrent(rego, truth, qs.cache, full) && Comparable(rego, truth, full)
    requires AllDashFreeIds(metrics) && ValidService(service)
    ensures var served := Serve(rego, src, qs, service, resource, metrics, findings);
            && QueriesCurrent(rego, truth, served.queries.cache, full)
            && (served.result.Success? ==>
                  ServingAgrees(rego, truth, service, resource, metrics, findings, served.result.value, full))
            && (Reliable(src, truth) && Servable(rego, truth, service, resource, metrics) ==> served.result.Success?)
    decreases |metrics|
  {
    hide EvalMap, Judge, QueriesCurrent, Faithful, Reliable, Comparable, ServingAgrees;
    if metrics == [] {
      EmptyServingAgrees(rego, truth, service, resource, findings, full);
    } else {
      var one := EvalMap(rego, src, qs, service, metrics[0], resource);
      EvalMapAgrees(rego, src, truth, qs, service, metrics[0], resource, full);
      if one.result.Success? {
        var next := if one.result.value.None? then findings else findings + [one.result.value.value];
        ServeAgrees(rego, src, truth, one.queries, service, resource, metrics[1..], next, full);
        var served := Serve(rego, src, qs, service, resource, metrics, findings);
        if served.result.Success? {
          ServingStep(rego, truth, service, resource, metrics, findings, one.result.value, served.result.value, full);
        }
      }
    }
  }

  lemma EmptyServingAgrees(rego: Rego, truth: Truth, service: string, resource: Value, findings: seq<Finding>,
                           full: bool)
    ensures ServingAgrees(rego, truth, service, resource, [], findings, findings, full)
  {
  }
}
