/** The evaluator object of policies/rego.go, updating its two maps in place. */
module RegoEvaluator {
  import opened Wrappers
  import opened Values
  import opened CacheKeys
  import opened PolicyModel

  class RegoEval {
    const rego: Rego
    var queries: map<string, Query>
    var lists: map<string, Option<seq<string>>>
    /** Number of calls to metrics sources so far. */
    var calls: nat

    constructor (rego: Rego)
      ensures State() == EMPTY && this.rego == rego
    {
      this.rego := rego;
      queries, lists, calls := map[], map[], 0;
    }

    function State(): Caches
      reads this
    {
      Caches(Queries(queries, calls), lists)
    }

    function QueryState(): Queries
      reads this
    {
      Queries(queries, calls)
    }

    method Get(src: Source, key: string, metric: string, config: Config) returns (r: Result<Query, Error>)
      modifies this`queries, this`calls
      ensures With(r, QueryState()) == PolicyModel.Get(rego, src, old(QueryState()), key, metric, config)
    {
      if key in queries {
        return Success(queries[key]);
      }
      var code := src.code(calls, metric);
      calls := calls + 1;
      if code.Failure? {
        return Failure(code.error);
      }
      var query := Query(metric, config, code.value);
      if !rego.compiles(query) {
        return Failure(Other);
      }
      queries := queries[key := query];
      r := Success(query);
    }

    method EvalMap(src: Source, service: string, metric: string, resource: Value)
      returns (r: Result<Option<Finding>, Error>)
      modifies this`queries, this`calls
      ensures With(r, QueryState()) == PolicyModel.EvalMap(rego, src, old(QueryState()), service, metric, resource)
    {
      var config := src.config(calls, service, metric);
      calls := calls + 1;
      if config.Failure? {
        return Failure(config.error);
      }
      var query := Get(src, QueryKey(rego.render, metric, service, config.value), metric, config.value);
      if query.Failure? {
        return Failure(query.error);
      }
      r := RunQuery(rego, metric, query.value, resource);
    }

    /** Evaluates all metrics and remembers which apply; the list is only stored once it is complete. */
    method FillList(src: Source, service: string, resource: Value, metrics: seq<string>)
      returns (r: Result<Scan, Error>)
      modifies this`queries, this`calls
      ensures With(r, QueryState()) == Fill(rego, src, old(QueryState()), service, resource, metrics, Scan([], []))
    {
      var scan := Scan([], []);
      var i := 0;
      assert metrics[0..] == metrics;
      while i < |metrics|
        invariant 0 <= i <= |metrics|
        invariant Fill(rego, src, QueryState(), service, resource, metrics[i..], scan)
               == Fill(rego, src, old(QueryState()), service, resource, metrics, Scan([], []))
      {
        var found := EvalMap(src, service, metrics[i], resource);
        assert metrics[i..][0] == metrics[i] && metrics[i..][1..] == metrics[i + 1..];
        if found.Success? {
          scan := Add(scan, metrics[i], found.value);
        } else if found.error.Other? {
          return Failure(Other);
        }
        i := i + 1;
      }
      r := Success(scan);
    }

    method ServeList(src: Source, service: string, resource: Value, metrics: seq<string>)
      returns (r: Result<seq<Finding>, Error>)
      modifies this`queries, this`calls
      ensures With(r, QueryState()) == Serve(rego, src, old(QueryState()), service, resource, metrics, [])
    {
      var findings := [];
      var i := 0;
      assert metrics[0..] == metrics;
      while i < |metrics|
        invariant 0 <= i <= |metrics|
        invariant Serve(rego, src, QueryState(), service, resource, metrics[i..], findings)
               == Serve(rego, src, old(QueryState()), service, resource, metrics, [])
      {
        var found := EvalMap(src, service, metrics[i], resource);
        assert metrics[i..][0] == metrics[i] && metrics[i..][1..] == metrics[i + 1..];
        if found.Failure? {
          return Failure(found.error);
        }
        if found.value.Some? {
          findings := findings + [found.value.value];
        }
        i := i + 1;
      }
      r := Success(findings);
    }

    method Eval(src: Source, e: Evidence) returns (r: Result<seq<Finding>, Error>)
      modifies this
      ensures Evaluation(r, State()) == PolicyModel.Eval(rego, src, old(State()), e)
    {
      if e.resource.None? {
        return Failure(Other);
      }
      var key := KeyOf(e);
      if key in lists && lists[key].Some? {
        r := ServeList(src, e.service, e.resource.value, lists[key].value);
        return;
      }
      var metrics := src.metrics(calls);
      calls := calls + 1;
      if metrics.Failure? {
        return Failure(metrics.error);
      }
      var scan := FillList(src, e.service, e.resource.value, metrics.value);
      if scan.Failure? {
        lists := lists[key := None];
        return Failure(scan.error);
      }
      lists := lists[key := Some(scan.value.names)];
      r := Success(scan.value.findings);
    }

    /** Deletes while iterating: each key is visited once and dropped if it begins with the metric. */
    method Evict(metric: string)
      modifies this`queries
      ensures queries == Evicted(old(queries), metric)
    {
      var unvisited := queries.Keys;
      while unvisited != {}
        invariant unvisited <= old(queries).Keys
        invariant forall k :: k in queries <==> k in old(queries) && (k in unvisited || !(metric <= k))
        invariant forall k :: k in queries ==> queries[k] == old(queries)[k]
        decreases |unvisited|
      {
        var k :| k in unvisited;
        if metric <= k {
          queries := queries - {k};
        }
        unvisited := unvisited - {k};
      }
    }

    /** `queryCache.Empty` */
    method Empty()
      modifies this`queries
      ensures queries == map[]
    {
      var unvisited := queries.Keys;
      while unvisited != {}
        invariant queries.Keys == unvisited
        decreases |unvisited|
      {
        var k :| k in unvisited;
        queries := queries - {k};
        unvisited := unvisited - {k};
      }
    }

    method HandleMetricEvent(metric: string)
      modifies this`queries
      ensures State() == Handle(old(State()), metric)
    {
      Evict(metric);
    }
  }
}
