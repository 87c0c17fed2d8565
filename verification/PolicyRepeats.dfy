/** What is cached is used: evaluating again needs neither the list of metrics nor their implementations. */
module PolicyRepeats {
  import opened Wrappers
  import opened Values
  import opened CacheKeys
  import opened PolicyModel
  import opened PolicyAgreement
  import opened PolicyFindings

  type Configs = (string, string) -> Result<Config, Error>

  /** Every call for a configuration is answered by `configs`. */
  ghost predicate Answers(src: Source, configs: Configs) {
    forall t, service, m :: src.config(t, service, m) == configs(service, m)
  }

  /** What the cached queries alone say about the metrics of a list; nothing if one is not cached or fails. */
  function FromCache(rego: Rego, configs: Configs, cache: map<string, Query>, service: string, resource: Value,
                     list: seq<string>): Option<seq<Finding>>
  {
    if list == [] then Some([])
    else
      var one := OneFromCache(rego, configs, cache, service, resource, list[0]);
      var rest := FromCache(rego, configs, cache, service, resource, list[1..]);
      if one.None? || rest.None? then None else Some(Found(one.value) + rest.value)
  }

  function OneFromCache(rego: Rego, configs: Configs, cache: map<string, Query>, service: string, resource: Value,
                        m: string): Option<Option<Finding>>
  {
    if configs(service, m).Failure? then None
    else
      var key := QueryKey(rego.render, m, service, configs(service, m).value);
      if key !in cache then None
      else
        var result := RunQuery(rego, m, cache[key], resource);
        if result.Failure? then None else Some(result.value)
  }

  lemma {:induction false} FromCacheGrows(rego: Rego, configs: Configs, cache: map<string, Query>,
                                          cache': map<string, Query>, service: string, resource: Value,
                                          list: seq<string>)
    requires Grows(cache, cache') && FromCache(rego, configs, cache, service, resource, list).Some?
    ensures FromCache(rego, configs, cache', service, resource, list)
         == FromCache(rego, configs, cache, service, resource, list)
  {
    hide QueryKey, RunQuery;
    if list == [] {
    } else {
      FromCacheGrows(rego, configs, cache, cache', service, resource, list[1..]);
    }
  }

  lemma FromCacheCons(rego: Rego, configs: Configs, cache: map<string, Query>, service: string, resource: Value,
                      m: string, list: seq<string>)
    requires OneFromCache(rego, configs, cache, service, resource, m).Some?
    requires FromCache(rego, configs, cache, service, resource, list).Some?
    ensures FromCache(rego, configs, cache, service, resource, [m] + list)
         == Some(Found(OneFromCache(rego, configs, cache, service, resource, m).value)
                 + FromCache(rego, configs, cache, service, resource, list).value)
  {
    hide OneFromCache;
    assert ([m] + list)[1..] == list;
  }

  lemma GrowsSelf(a: map<string, Query>)
    ensures Grows(a, a)
  {
  }

  lemma GrowsTrans(a: map<string, Query>, b: map<string, Query>, c: map<string, Query>)
    requires Grows(a, b) && Grows(b, c)
    ensures Grows(a, c)
  {
  }

  /** A metric that was evaluated can be evaluated from the cache from then on. */
  lemma EvalMapCaches(rego: Rego, src: Source, configs: Configs, qs: Queries, service: string, m: string,
                      resource: Value)
    requires Answers(src, configs)
    ensures var one := EvalMap(rego, src, qs, service, m, resource);
            && Grows(qs.cache, one.queries.cache)
            && (one.result.Success? ==>
                  OneFromCache(rego, configs, one.queries.cache, service, resource, m) == Some(one.result.value))
  {
    hide QueryKey, RunQuery;
    var answer := src.config(qs.calls, service, m);
    assert answer == configs(service, m);
    if answer.Success? {
      var key := QueryKey(rego.render, m, service, answer.value);
      GetStores(rego, src, qs.(calls := qs.calls + 1), key, m, answer.value);
    }
  }

  lemma {:induction false} ServeCaches(rego: Rego, src: Source, configs: Configs, qs: Queries, service: string,
                                       resource: Value, list: seq<string>, findings: seq<Finding>)
    requires Answers(src, configs)
    ensures var served := Serve(rego, src, qs, service, resource, list, findings);
            && Grows(qs.cache, served.queries.cache)
            && (served.result.Success? ==>
                  var fs := FromCache(rego, configs, served.queries.cache, service, resource, list);
                  fs.Some? && served.result.value == findings + fs.value)
    decreases |list|
  {
    hide EvalMap, OneFromCache, Grows;
    if list == [] {
      assert findings + [] == findings;
      GrowsSelf(qs.cache);
    } else {
      hide FromCache;
      var one := EvalMap(rego, src, qs, service, list[0], resource);
      EvalMapCaches(rego, src, configs, qs, service, list[0], resource);
      if one.result.Success? {
        var next := findings + Found(one.result.value);
        assert one.result.value.None? ==> next == findings;
        ServeCaches(rego, src, configs, one.queries, service, resource, list[1..], next);
        var served := Serve(rego, src, one.queries, service, resource, list[1..], next);
        GrowsTrans(qs.cache, one.queries.cache, served.queries.cache);
        if served.result.Success? {
          OneStays(rego, configs, one.queries.cache, served.queries.cache, service, resource, list[0]);
          FromCacheCons(rego, configs, served.queries.cache, service, resource, list[0], list[1..]);
          assert list == [list[0]] + list[1..];
          var rest := FromCache(rego, configs, served.queries.cache, service, resource, list[1..]).value;
          assert next + rest == findings + (Found(one.result.value) + rest);
        }
      }
    }
  }

  lemma OneStays(rego: Rego, configs: Configs, cache: map<string, Query>, cache': map<string, Query>, service: string,
                 resource: Value, m: string)
    requires Grows(cache, cache') && OneFromCache(rego, configs, cache, service, resource, m).Some?
    ensures OneFromCache(rego, configs, cache', service, resource, m)
         == OneFromCache(rego, configs, cache, service, resource, m)
  {
    hide QueryKey, RunQuery;
  }

  lemma {:induction false} FillCaches(rego: Rego, src: Source, configs: Configs, qs: Queries, service: string,
                                      resource: Value, metrics: seq<string>, scan: Scan)
    returns (names: seq<string>)
    requires Answers(src, configs)
    ensures var filled := Fill(rego, src, qs, service, resource, metrics, scan);
            && Grows(qs.cache, filled.queries.cache)
            && (filled.result.Success? ==>
                  var fs := FromCache(rego, configs, filled.queries.cache, service, resource, names);
                  && filled.result.value.names == scan.names + names
                  && fs.Some? && filled.result.value.findings == scan.findings + fs.value)
    decreases |metrics|
  {
    hide EvalMap, OneFromCache, Grows;
    names := [];
    if metrics == [] {
      assert scan.findings + [] == scan.findings && scan.names + [] == scan.names;
      GrowsSelf(qs.cache);
    } else {
      hide FromCache;
      var one := EvalMap(rego, src, qs, service, metrics[0], resource);
      EvalMapCaches(rego, src, configs, qs, service, metrics[0], resource);
      if one.result != Failure(Other) {
        var found := if one.result.Success? then one.result.value else None;
        var next := Add(scan, metrics[0], found);
        var rest := FillCaches(rego, src, configs, one.queries, service, resource, metrics[1..], next);
        var filled := Fill(rego, src, one.queries, service, resource, metrics[1..], next);
        GrowsTrans(qs.cache, one.queries.cache, filled.queries.cache);
        names := if found.None? then rest else [metrics[0]] + rest;
        if filled.result.Success? && found.Some? {
          OneStays(rego, configs, one.queries.cache, filled.queries.cache, service, resource, metrics[0]);
          FromCacheCons(rego, configs, filled.queries.cache, service, resource, metrics[0], rest);
          var fs := FromCache(rego, configs, filled.queries.cache, service, resource, rest).value;
          assert next.findings + fs == scan.findings + ([found.value] + fs);
          assert next.names + rest == scan.names + names;
        }
      }
    }
  }

  /** Serving from the cache asks for one configuration per metric, and for nothing else. */
  lemma {:induction false} CacheServes(rego: Rego, src: Source, configs: Configs, qs: Queries, service: string,
                                       resource: Value, list: seq<string>, findings: seq<Finding>)
    requires Answers(src, configs) && FromCache(rego, configs, qs.cache, service, resource, list).Some?
    ensures Serve(rego, src, qs, service, resource, list, findings)
         == With(Success(findings + FromCache(rego, configs, qs.cache, service, resource, list).value),
                 Queries(qs.cache, qs.calls + |list|))
    decreases |list|
  {
    hide QueryKey, RunQuery;
    if list == [] {
      assert findings + [] == findings;
    } else {
      var one := OneFromCache(rego, configs, qs.cache, service, resource, list[0]);
      assert src.config(qs.calls, service, list[0]) == configs(service, list[0]);
      assert EvalMap(rego, src, qs, service, list[0], resource)
          == With(Success(one.value), Queries(qs.cache, qs.calls + 1));
      var next := findings + Found(one.value);
      assert one.value.None? ==> next == findings;
      CacheServes(rego, src, configs, Queries(qs.cache, qs.calls + 1), service, resource, list[1..], next);
      var rest := FromCache(rego, configs, qs.cache, service, resource, list[1..]).value;
      assert next + rest == findings + (Found(one.value) + rest);
    }
  }

  /**
  After a successful evaluation, evaluating the same evidence again gives the same findings, leaves
  the caches as they are and makes one call per listed metric, whatever else the source then answers:
  every call for metrics or implementations may fail, as long as the configurations are the same.
  */
  lemma RepeatNeedsNoCode(rego: Rego, src: Source, src': Source, configs: Configs, c: Caches, e: Evidence)
    requires Answers(src, configs) && Answers(src', configs) && Eval(rego, src, c, e).result.Success?
    ensures var first := Eval(rego, src, c, e);
            && Cached(first.caches, KeyOf(e))
            && var again := Eval(rego, src', first.caches, e);
            && again.result == first.result && again.caches.lists == first.caches.lists
            && again.caches.queries == Queries(first.caches.queries.cache,
                                               first.caches.queries.calls + |first.caches.lists[KeyOf(e)].value|)
  {
    hide Serve, Fill, ApplicabilityKey;
    var first := Eval(rego, src, c, e);
    if Cached(c, KeyOf(e)) {
      ServeCaches(rego, src, configs, c.queries, e.service, e.resource.value, c.lists[KeyOf(e)].value, []);
    } else {
      var after := c.queries.(calls := c.queries.calls + 1);
      var metrics := src.metrics(c.queries.calls).value;
      var names := FillCaches(rego, src, configs, after, e.service, e.resource.value, metrics, Scan([], []));
      assert [] + names == names;
    }
    var list := first.caches.lists[KeyOf(e)].value;
    CacheServes(rego, src', configs, first.caches.queries, e.service, e.resource.value, list, []);
  }

  // ---------------------------------------------------------------- events and errors

  /**
  An event about a metric leaves every cached list and every query whose key does not begin with
  the metric, and evaluations of cached lists go on from the same lists.
  */
  lemma EventKeepsTheRest(c: Caches, m: string, key: string)
    ensures Cached(Handle(c, m), key) <==> Cached(c, key)
    ensures Cached(c, key) ==> Handle(c, m).lists[key] == c.lists[key]
    ensures key in Handle(c, m).queries.cache <==> key in c.queries.cache && !(m <= key)
    ensures key in Handle(c, m).queries.cache ==> Handle(c, m).queries.cache[key] == c.queries.cache[key]
    ensures Handle(c, m).queries.calls == c.queries.calls
  {
  }

  lemma {:induction false} ServeFault(rego: Rego, src: Source, truth: Truth, qs: Queries, service: string,
                                      resource: Value, list: seq<string>, findings: seq<Finding>, full: bool)
    requires Reliable(src, truth) && QueriesCurrent(rego, truth, qs.cache, full) && Comparable(rego, truth, full)
    requires AllDashFreeIds(list) && ValidService(service)
    ensures var served := Serve(rego, src, qs, service, resource, list, findings);
            if served.result.Success? then FirstFault(rego, truth, service, resource, list).None?
            else FirstFault(rego, truth, service, resource, list) == Some(served.result.error)
    decreases |list|
  {
    hide EvalMap, Judge, QueriesCurrent, Comparable;
    assert Faithful(src, truth);
    if list == [] {
    } else {
      var one := EvalMap(rego, src, qs, service, list[0], resource);
      EvalMapAgrees(rego, src, truth, qs, service, list[0], resource, full);
      if one.result.Success? {
        var next := if one.result.value.None? then findings else findings + [one.result.value.value];
        ServeFault(rego, src, truth, one.queries, service, resource, list[1..], next, full);
      } else if one.result.error.NotFound? {
        assert one.result == Failure(NotFound);
      } else {
        assert one.result == Failure(Other);
      }
    }
  }

  lemma FillFault(rego: Rego, src: Source, qs: Queries, service: string, resource: Value, metrics: seq<string>,
                  scan: Scan)
    ensures var filled := Fill(rego, src, qs, service, resource, metrics, scan);
            filled.result.Failure? ==> filled.result.error == Other
    decreases |metrics|
  {
    hide EvalMap;
  }

  /**
  Which error is reported. Over a reliable source, an evaluation from a cached list reports NotFound
  if the first metric of the list that does not evaluate is missing, and the other error if it is in
  error; an evaluation that fills its list never reports NotFound about a metric.
  */
  lemma ErrorsExactly(rego: Rego, src: Source, truth: Truth, c: Caches, e: Evidence, full: bool)
    requires Reliable(src, truth) && QueriesCurrent(rego, truth, c.queries.cache, full) && Comparable(rego, truth, full)
    requires e.resource.Some? && ValidService(e.service) && Eval(rego, src, c, e).result.Failure?
    requires Cached(c, KeyOf(e)) ==> AllDashFreeIds(c.lists[KeyOf(e)].value)
    ensures var error := Eval(rego, src, c, e).result.error;
            if Cached(c, KeyOf(e))
            then FirstFault(rego, truth, e.service, e.resource.value, c.lists[KeyOf(e)].value) == Some(error)
            else error == Other
  {
    hide Serve, Fill, Judge, QueriesCurrent, Comparable, ApplicabilityKey;
    if Cached(c, KeyOf(e)) {
      ServeFault(rego, src, truth, c.queries, e.service, e.resource.value, c.lists[KeyOf(e)].value, [], full);
    } else {
      FillFault(rego, src, c.queries.(calls := c.queries.calls + 1), e.service, e.resource.value, truth.metrics,
                Scan([], []));
    }
  }
}
