/**
What `Eval`, `evalMap` and `queryCache.Get` of policies/rego.go compute, as functions on the state
of the two caches. Rego itself is a parameter.
*/
module PolicyModel {
  import opened Wrappers
  import opened Base64Url
  import opened Values
  import opened CacheKeys

  /**
  `NotFound` is the gRPC status NotFound saying that the implementation or the configuration of a
  metric does not exist; every other error is `Other`.
  */
  datatype Error = NotFound | Other

  /**
  A `MetricsSource`, asked over the network: each answer may depend on the number of the call, so
  calls can fail for a while and the contents can change.
  */
  datatype Source = Source(
    metrics: nat -> Result<seq<string>, Error>,
    config: (nat, string, string) -> Result<Config, Error>,
    code: (nat, string) -> Result<string, Error>)

  /** A prepared query is determined by the metric, the configuration and the code it was made from. */
  datatype Query = Query(metric: string, config: Config, code: string)

  datatype Outcome = Crashed | Ran(applicable: bool, compliant: bool)

  /**
  How values print, which queries compile, what running one on a resource yields, and which values
  serve as target values of configurations.
  */
  datatype Rego = Rego(
    render: Rendering, compiles: Query -> bool, run: (Query, Value) -> Outcome, targets: Value -> bool)

  /** The `Result` of an applicable policy. */
  datatype Finding = Finding(compliant: bool, operator: seq<Byte>, target: Value, metric: string, config: Config)

  /** An evidence with its resource: types, and properties unless the resource cannot be converted. */
  datatype Evidence = Evidence(service: string, tool: string, types: seq<string>, resource: Option<Value>)

  function KeyOf(e: Evidence): string {
    ApplicabilityKey(e.types, e.tool)
  }

  /** The query cache, together with the number of source calls made so far. */
  datatype Queries = Queries(cache: map<string, Query>, calls: nat)

  /** `lists` is the metrics cache; a nil list is an entry that counts as not cached. */
  datatype Caches = Caches(queries: Queries, lists: map<string, Option<seq<string>>>)

  datatype With<+T> = With(result: Result<T, Error>, queries: Queries)

  /** `queryCache.Get` with the closure that fetches and compiles the implementation. */
  function Get(rego: Rego, src: Source, qs: Queries, key: string, metric: string, config: Config): With<Query> {
    if key in qs.cache then With(Success(qs.cache[key]), qs)
    else
      var after := qs.(calls := qs.calls + 1);
      match src.code(qs.calls, metric)
      case Failure(e) => With(Failure(e), after)
      case Success(code) =>
        var query := Query(metric, config, code);
        if rego.compiles(query) then With(Success(query), after.(cache := qs.cache[key := query]))
        else With(Failure(Other), after)
  }

  function FindingOf(metric: string, config: Config, compliant: bool): Finding {
    Finding(compliant, config.operator, config.target, metric, config)
  }

  /** The result of a query on a resource; nothing if the metric does not apply to it. */
  function RunQuery(rego: Rego, metric: string, query: Query, resource: Value): Result<Option<Finding>, Error> {
    match rego.run(query, resource)
    case Crashed => Failure(Other)
    case Ran(applicable, compliant) =>
      Success(if applicable then Some(FindingOf(metric, query.config, compliant)) else None)
  }

  /** `evalMap` */
  function EvalMap(rego: Rego, src: Source, qs: Queries, service: string, metric: string, resource: Value)
    : With<Option<Finding>>
  {
    var after := qs.(calls := qs.calls + 1);
    match src.config(qs.calls, service, metric)
    case Failure(e) => With(Failure(e), after)
    case Success(config) =>
      var got := Get(rego, src, after, QueryKey(rego.render, metric, service, config), metric, config);
      match got.result
      case Failure(e) => With(Failure(e), got.queries)
      case Success(query) => With(RunQuery(rego, metric, query, resource), got.queries)
  }

  /** Applicable metrics and their findings. */
  datatype Scan = Scan(names: seq<string>, findings: seq<Finding>)

  function Add(scan: Scan, metric: string, finding: Option<Finding>): Scan {
    if finding.None? then scan else Scan(scan.names + [metric], scan.findings + [finding.value])
  }

  /** The loop over all metrics: one that is not found is passed over, any other error stops the scan. */
  function Fill(rego: Rego, src: Source, qs: Queries, service: string, resource: Value, metrics: seq<string>,
                scan: Scan)
    : With<Scan>
    decreases |metrics|
  {
    if metrics == [] then With(Success(scan), qs)
    else
      var one := EvalMap(rego, src, qs, service, metrics[0], resource);
      match one.result
      case Success(finding) =>
        Fill(rego, src, one.queries, service, resource, metrics[1..], Add(scan, metrics[0], finding))
      case Failure(NotFound) => Fill(rego, src, one.queries, service, resource, metrics[1..], scan)
      case Failure(Other) => With(Failure(Other), one.queries)
  }

  /** The loop over a cached list: here every error stops it. */
  function Serve(rego: Rego, src: Source, qs: Queries, service: string, resource: Value, metrics: seq<string>,
                 findings: seq<Finding>)
    : With<seq<Finding>>
    decreases |metrics|
  {
    if metrics == [] then With(Success(findings), qs)
    else
      var one := EvalMap(rego, src, qs, service, metrics[0], resource);
      match one.result
      case Success(finding) =>
        Serve(rego, src, one.queries, service, resource, metrics[1..],
              if finding.None? then findings else findings + [finding.value])
      case Failure(e) => With(Failure(e), one.queries)
  }

  datatype Evaluation = Evaluation(result: Result<seq<Finding>, Error>, caches: Caches)

  predicate Cached(c: Caches, key: string) {
    key in c.lists && c.lists[key].Some?
  }

  /** `Eval` */
  function Eval(rego: Rego, src: Source, c: Caches, e: Evidence): Evaluation {
    if e.resource.None? then Evaluation(Failure(Other), c)
    else if Cached(c, KeyOf(e)) then
      var served := Serve(rego, src, c.queries, e.service, e.resource.value, c.lists[KeyOf(e)].value, []);
      Evaluation(served.result, c.(queries := served.queries))
    else
      var after := c.queries.(calls := c.queries.calls + 1);
      match src.metrics(c.queries.calls)
      case Failure(err) => Evaluation(Failure(err), c.(queries := after))
      case Success(metrics) =>
        var filled := Fill(rego, src, after, e.service, e.resource.value, metrics, Scan([], []));
        match filled.result
        case Failure(err) => Evaluation(Failure(err), Caches(filled.queries, c.lists[KeyOf(e) := None]))
        case Success(scan) =>
          Evaluation(Success(scan.findings), Caches(filled.queries, c.lists[KeyOf(e) := Some(scan.names)]))
  }

  /** `HandleMetricEvent`: of whatever type the event is, only the query cache is touched. */
  function Handle(c: Caches, metric: string): Caches {
    c.(queries := c.queries.(cache := Evicted(c.queries.cache, metric)))
  }

  const EMPTY: Caches := Caches(Queries(map[], 0), map[])
}
