/** What evaluation reports, field by field, and what the query cache saves. */
module PolicyFindings {
  import opened Wrappers
  import opened Values
  import opened CacheKeys
  import opened PolicyModel
  import opened PolicyAgreement

  // ---------------------------------------------------------------- verdicts

  /** `f` is what the policy of metric `m`, compiled with `config`, says about the resource. */
  ghost predicate Describes(rego: Rego, f: Finding, m: string, config: Config, code: string, resource: Value) {
    && rego.compiles(Query(m, config, code))
    && rego.run(Query(m, config, code), resource) == Ran(true, f.compliant)
    && f.metric == m && f.operator == config.operator && f.target == config.target && f.config == config
  }

  /** Each verdict, in terms of what the source holds and what running the policy yields. */
  lemma VerdictExactly(rego: Rego, truth: Truth, service: string, resource: Value, m: string)
    ensures var verdict := Judge(rego, truth, service, resource, m);
            var config, code := truth.config(service, m), truth.code(m);
            && (verdict.Missing? <==>
                  config == Failure(NotFound) || (config.Success? && code == Failure(NotFound)))
            && (verdict.Applies? ==>
                  && config.Success? && code.Success?
                  && Describes(rego, verdict.finding, m, config.value, code.value, resource))
            && (verdict.Inapplicable? <==>
                  && config.Success? && code.Success? && rego.compiles(Query(m, config.value, code.value))
                  && exists compliant ::
                       rego.run(Query(m, config.value, code.value), resource) == Ran(false, compliant))
            && (verdict.Erroneous? <==>
                  || config == Failure(Other) || (config.Success? && code == Failure(Other))
                  || (config.Success? && code.Success? &&
                      (!rego.compiles(Query(m, config.value, code.value))
                       || rego.run(Query(m, config.value, code.value), resource) == Crashed)))
  {
    var verdict, config, code := Judge(rego, truth, service, resource, m), truth.config(service, m), truth.code(m);
    if config.Success? && code.Success? && rego.compiles(Query(m, config.value, code.value)) {
      match rego.run(Query(m, config.value, code.value), resource)
      case Crashed =>
      case Ran(applicable, compliant) =>
    }
  }

  ghost predicate DescribedBy(rego: Rego, truth: Truth, service: string, resource: Value, m: string, f: Finding) {
    && truth.config(service, m).Success? && truth.code(m).Success?
    && Describes(rego, f, m, truth.config(service, m).value, truth.code(m).value, resource)
  }

  /** Plain findings: one for each metric that applies, in order, each as its policy says. */
  lemma {:induction false} FindingsExactly(rego: Rego, truth: Truth, service: string, resource: Value,
                                           metrics: seq<string>)
    ensures var names, fs := Applicable(rego, truth, service, resource, metrics),
                             Findings(rego, truth, service, resource, metrics);
            && |fs| == |names|
            && (forall i :: 0 <= i < |fs| ==> DescribedBy(rego, truth, service, resource, names[i], fs[i]))
            && (forall m :: m in names ==> m in metrics)
  {
    hide Judge, DescribedBy;
    if metrics == [] {
    } else {
      FindingsExactly(rego, truth, service, resource, metrics[1..]);
      AppliesIsDescribed(rego, truth, service, resource, metrics[0]);
    }
  }

  lemma AppliesIsDescribed(rego: Rego, truth: Truth, service: string, resource: Value, m: string)
    ensures var verdict := Judge(rego, truth, service, resource, m);
            verdict.Applies? ==> DescribedBy(rego, truth, service, resource, m, verdict.finding)
  {
    VerdictExactly(rego, truth, service, resource, m);
  }

  // ---------------------------------------------------------------- any source, any caches

  /** Nothing is removed or replaced. */
  predicate Grows(cache: map<string, Query>, cache': map<string, Query>) {
    forall key :: key in cache ==> key in cache' && cache'[key] == cache[key]
  }

  /**
  A successful Get leaves its query cached under the key, and every other entry as it was; a failed
  one leaves the cache as it was. A key that is cached is answered from the cache without any call.
  */
  lemma GetStores(rego: Rego, src: Source, qs: Queries, key: string, metric: string, config: Config)
    ensures var got := Get(rego, src, qs, key, metric, config);
            && (key in qs.cache ==> got.result == Success(qs.cache[key]) && got.queries == qs)
            && (key !in qs.cache ==> got.queries.calls == qs.calls + 1)
            && (got.result.Success? ==>
                  && key in got.queries.cache && got.queries.cache[key] == got.result.value
                  && got.queries.cache.Keys == qs.cache.Keys + {key})
            && (got.result.Failure? ==> got.queries.cache == qs.cache)
            && (got.result.Success? && key !in qs.cache ==>
                  && src.code(qs.calls, metric) == Success(got.result.value.code)
                  && got.result.value.metric == metric && got.result.value.config == config
                  && rego.compiles(got.result.value))
            && Grows(qs.cache, got.queries.cache)
  {
  }

  /** So asking again, of whatever source, gives the same query and makes no call. */
  lemma SecondGetIsFree(rego: Rego, src: Source, src': Source, qs: Queries, key: string, metric: string, config: Config,
                        metric': string, config': Config)
    requires Get(rego, src, qs, key, metric, config).result.Success?
    ensures var first := Get(rego, src, qs, key, metric, config);
            Get(rego, src', first.queries, key, metric', config') == first
  {
  }

  /** `f` comes from running the query cached for `f.metric` and the configuration `config`. */
  ghost predicate Reads(rego: Rego, cache: map<string, Query>, service: string, resource: Value, config: Config,
                        f: Finding)
  {
    var key := QueryKey(rego.render, f.metric, service, config);
    && key in cache
    && rego.run(cache[key], resource) == Ran(true, f.compliant)
    && f.config == cache[key].config && f.operator == f.config.operator && f.target == f.config.target
  }

  /** ... which the source answered in one of the calls from number `from` up to `to`. */
  ghost predicate Asked(src: Source, from: nat, to: nat, service: string, m: string, config: Config) {
    exists t: nat :: from <= t < to && src.config(t, service, m) == Success(config)
  }

  ghost predicate Fetched(rego: Rego, src: Source, before: Queries, after: Queries, service: string, resource: Value,
                          f: Finding)
  {
    exists config :: && Asked(src, before.calls, after.calls, service, f.metric, config)
                     && Reads(rego, after.cache, service, resource, config, f)
  }

  /** An entry that was not there before was made from an answered configuration and answered code. */
  ghost predicate EntryFetched(rego: Rego, src: Source, before: Queries, after: Queries, service: string, key: string)
    requires key in after.cache
  {
    var query := after.cache[key];
    && rego.compiles(query) && key == QueryKey(rego.render, query.metric, service, query.config)
    && Asked(src, before.calls, after.calls, service, query.metric, query.config)
    && exists t: nat :: before.calls <= t < after.calls && src.code(t, query.metric) == Success(query.code)
  }

  ghost predicate Extends(rego: Rego, src: Source, before: Queries, after: Queries, service: string) {
    && before.calls <= after.calls && Grows(before.cache, after.cache)
    && forall key :: key in after.cache && key !in before.cache ==> EntryFetched(rego, src, before, after, service, key)
  }

  lemma ExtendsTrans(rego: Rego, src: Source, a: Queries, b: Queries, c: Queries, service: string)
    requires Extends(rego, src, a, b, service) && Extends(rego, src, b, c, service)
    ensures Extends(rego, src, a, c, service)
  {
    hide QueryKey;
    forall key | key in c.cache && key !in a.cache
      ensures EntryFetched(rego, src, a, c, service, key)
    {
      if key in b.cache {
        assert EntryFetched(rego, src, a, b, service, key);
      } else {
        assert EntryFetched(rego, src, b, c, service, key);
      }
    }
  }

  lemma FetchedLater(rego: Rego, src: Source, a: Queries, b: Queries, c: Queries, d: Queries, service: string,
                     resource: Value, f: Finding)
    requires Fetched(rego, src, b, c, service, resource, f)
    requires a.calls <= b.calls && c.calls <= d.calls && Grows(c.cache, d.cache)
    ensures Fetched(rego, src, a, d, service, resource, f)
  {
    hide QueryKey;
    var config :| && Asked(src, b.calls, c.calls, service, f.metric, config)
                  && Reads(rego, c.cache, service, resource, config, f);
    assert Asked(src, a.calls, d.calls, service, f.metric, config);
    assert Reads(rego, d.cache, service, resource, config, f);
  }

  lemma EvalMapReads(rego: Rego, src: Source, qs: Queries, service: string, m: string, resource: Value)
    ensures var one := EvalMap(rego, src, qs, service, m, resource);
            && Extends(rego, src, qs, one.queries, service)
            && (one.result.Success? && one.result.value.Some? ==>
                  one.result.value.value.metric == m
                  && Fetched(rego, src, qs, one.queries, service, resource, one.result.value.value))
  {
    hide QueryKey;
    var one := EvalMap(rego, src, qs, service, m, resource);
    var answer := src.config(qs.calls, service, m);
    if answer.Success? {
      var config, after := answer.value, qs.(calls := qs.calls + 1);
      var key := QueryKey(rego.render, m, service, config);
      GetStores(rego, src, after, key, m, config);
      assert Asked(src, qs.calls, one.queries.calls, service, m, config);
      forall k | k in one.queries.cache && k !in qs.cache
        ensures EntryFetched(rego, src, qs, one.queries, service, k)
      {
        assert k == key && src.code(qs.calls + 1, m) == Success(one.queries.cache[k].code);
      }
      if one.result.Success? && one.result.value.Some? {
        assert Reads(rego, one.queries.cache, service, resource, config, one.result.value.value);
      }
    }
  }

  /** All findings of `fs` are of metrics in `metrics`, and read from queries as above. */
  ghost predicate AllFetched(rego: Rego, src: Source, before: Queries, after: Queries, service: string, resource: Value,
                             metrics: seq<string>, fs: seq<Finding>)
  {
    forall i :: 0 <= i < |fs| ==> fs[i].metric in metrics && Fetched(rego, src, before, after, service, resource, fs[i])
  }

  lemma OneMoreFetched(rego: Rego, src: Source, a: Queries, b: Queries, c: Queries, service: string, resource: Value,
                       metrics: seq<string>, found: Option<Finding>, rest: seq<Finding>)
    requires metrics != [] && Extends(rego, src, a, b, service) && Extends(rego, src, b, c, service)
    requires AllFetched(rego, src, b, c, service, resource, metrics[1..], rest)
    requires found.Some? ==>
               found.value.metric == metrics[0] && Fetched(rego, src, a, b, service, resource, found.value)
    ensures AllFetched(rego, src, a, c, service, resource, metrics, Found(found) + rest)
  {
    hide Fetched, EntryFetched;
    var fs := Found(found) + rest;
    forall i | 0 <= i < |fs|
      ensures fs[i].metric in metrics && Fetched(rego, src, a, c, service, resource, fs[i])
    {
      if found.Some? && i == 0 {
        FetchedLater(rego, src, a, a, b, c, service, resource, fs[i]);
      } else {
        assert fs[i] in rest;
        FetchedLater(rego, src, a, b, c, c, service, resource, fs[i]);
      }
    }
  }

  lemma {:induction false} FillReads(rego: Rego, src: Source, qs: Queries, service: string, resource: Value,
                                     metrics: seq<string>, scan: Scan)
    returns (fs: seq<Finding>)
    ensures var filled := Fill(rego, src, qs, service, resource, metrics, scan);
            && Extends(rego, src, qs, filled.queries, service)
            && (filled.result.Success? ==>
                  && filled.result.value.findings == scan.findings + fs
                  && AllFetched(rego, src, qs, filled.queries, service, resource, metrics, fs))
    decreases |metrics|
  {
    hide EvalMap, Fetched, EntryFetched;
    fs := [];
    if metrics == [] {
      assert scan.findings + [] == scan.findings;
    } else {
      var one := EvalMap(rego, src, qs, service, metrics[0], resource);
      EvalMapReads(rego, src, qs, service, metrics[0], resource);
      if one.result != Failure(Other) {
        var found := if one.result.Success? then one.result.value else None;
        var next := Add(scan, metrics[0], found);
        var rest := FillReads(rego, src, one.queries, service, resource, metrics[1..], next);
        var filled := Fill(rego, src, one.queries, service, resource, metrics[1..], next);
        ExtendsTrans(rego, src, qs, one.queries, filled.queries, service);
        fs := Found(found) + rest;
        if filled.result.Success? {
          OneMoreFetched(rego, src, qs, one.queries, filled.queries, service, resource, metrics, found, rest);
          assert next.findings + rest == scan.findings + fs;
        }
      }
    }
  }

  lemma {:induction false} ServeReads(rego: Rego, src: Source, qs: Queries, service: string, resource: Value,
                                      metrics: seq<string>, findings: seq<Finding>)
    returns (fs: seq<Finding>)
    ensures var served := Serve(rego, src, qs, service, resource, metrics, findings);
            && Extends(rego, src, qs, served.queries, service)
            && (served.result.Success? ==>
                  && served.result.value == findings + fs
                  && AllFetched(rego, src, qs, served.queries, service, resource, metrics, fs))
    decreases |metrics|
  {
    hide EvalMap, Fetched, EntryFetched;
    fs := [];
    if metrics == [] {
      assert findings + [] == findings;
    } else {
      var one := EvalMap(rego, src, qs, service, metrics[0], resource);
      EvalMapReads(rego, src, qs, service, metrics[0], resource);
      if one.result.Success? {
        var found := one.result.value;
        var next := findings + Found(found);
        assert found.None? ==> next == findings;
        var rest := ServeReads(rego, src, one.queries, service, resource, metrics[1..], next);
        var served := Serve(rego, src, one.queries, service, resource, metrics[1..], next);
        ExtendsTrans(rego, src, qs, one.queries, served.queries, service);
        fs := Found(found) + rest;
        if served.result.Success? {
          OneMoreFetched(rego, src, qs, one.queries, served.queries, service, resource, metrics, found, rest);
          assert next + rest == findings + fs;
        }
      }
    }
  }

  /**
  Over any source and any caches: every finding of a successful evaluation is of a metric that the
  source listed, or of the cached list, and says what running the query cached for that metric and
  an answered configuration yields; every new query was made from answered configuration and code;
  an evaluation without a usable resource, or without metrics, reports that error and changes nothing.
  */
  lemma EvalFindings(rego: Rego, src: Source, c: Caches, e: Evidence)
    ensures var ev := Eval(rego, src, c, e);
            && Extends(rego, src, c.queries, ev.caches.queries, e.service)
            && (e.resource.None? ==> ev == Evaluation(Failure(Other), c))
            && (e.resource.Some? && !Cached(c, KeyOf(e)) && src.metrics(c.queries.calls).Failure? ==>
                  && ev.result == Failure(src.metrics(c.queries.calls).error)
                  && ev.caches == c.(queries := Queries(c.queries.cache, c.queries.calls + 1)))
            && (ev.result.Success? ==>
                  && e.resource.Some? && (Cached(c, KeyOf(e)) || src.metrics(c.queries.calls).Success?)
                  && AllFetched(rego, src, c.queries, ev.caches.queries, e.service, e.resource.value,
                                if Cached(c, KeyOf(e)) then c.lists[KeyOf(e)].value
                                else src.metrics(c.queries.calls).value, ev.result.value))
  {
    hide Serve, Fill, Fetched, EntryFetched, ApplicabilityKey;
    if e.resource.Some? {
      if Cached(c, KeyOf(e)) {
        var fs := ServeReads(rego, src, c.queries, e.service, e.resource.value, c.lists[KeyOf(e)].value, []);
        assert [] + fs == fs;
      } else if src.metrics(c.queries.calls).Success? {
        var after := c.queries.(calls := c.queries.calls + 1);
        var metrics := src.metrics(c.queries.calls).value;
        var fs := FillReads(rego, src, after, e.service, e.resource.value, metrics, Scan([], []));
        assert [] + fs == fs;
        FillStarts(rego, src, c.queries, after, Eval(rego, src, c, e).caches.queries, e, metrics, fs);
      }
    }
  }

  /** The call for the metrics comes before. */
  lemma FillStarts(rego: Rego, src: Source, qs: Queries, after: Queries, last: Queries, e: Evidence,
                   metrics: seq<string>, fs: seq<Finding>)
    requires e.resource.Some? && after == qs.(calls := qs.calls + 1) && Extends(rego, src, after, last, e.service)
    ensures Extends(rego, src, qs, last, e.service)
    ensures AllFetched(rego, src, after, last, e.service, e.resource.value, metrics, fs) ==>
      AllFetched(rego, src, qs, last, e.service, e.resource.value, metrics, fs)
  {
    hide Fetched;
    assert Extends(rego, src, qs, after, e.service);
    ExtendsTrans(rego, src, qs, after, last, e.service);
    if AllFetched(rego, src, after, last, e.service, e.resource.value, metrics, fs) {
      forall i | 0 <= i < |fs|
        ensures Fetched(rego, src, qs, last, e.service, e.resource.value, fs[i])
      {
        FetchedLater(rego, src, qs, after, last, last, e.service, e.resource.value, fs[i]);
      }
    }
  }

  // ---------------------------------------------------------------- lists

  /** A list names the metrics of its findings, in order. */
  predicate Names(names: seq<string>, fs: seq<Finding>) {
    |names| == |fs| && forall i :: 0 <= i < |fs| ==> names[i] == fs[i].metric
  }

  lemma {:induction false} FillNames(rego: Rego, src: Source, qs: Queries, service: string, resource: Value,
                                     metrics: seq<string>, scan: Scan)
    requires Names(scan.names, scan.findings)
    ensures var filled := Fill(rego, src, qs, service, resource, metrics, scan);
            filled.result.Success? ==> Names(filled.result.value.names, filled.result.value.findings)
    decreases |metrics|
  {
    hide EvalMap, Fetched, Extends;
    if metrics == [] {
    } else {
      var one := EvalMap(rego, src, qs, service, metrics[0], resource);
      EvalMapReads(rego, src, qs, service, metrics[0], resource);
      if one.result != Failure(Other) {
        var found := if one.result.Success? then one.result.value else None;
        FillNames(rego, src, one.queries, service, resource, metrics[1..], Add(scan, metrics[0], found));
      }
    }
  }

  /**
  Which lists an evaluation leaves, over any source and caches. The list of another key is never
  touched, and one that is cached stays as it is, even if the evaluation fails on it. A fill that
  succeeds caches the metrics of exactly the findings it returned, in their order; one that fails
  once it has the metrics leaves the entry that counts as not cached.
  */
  lemma ListsAfterEval(rego: Rego, src: Source, c: Caches, e: Evidence)
    ensures var ev, key := Eval(rego, src, c, e), KeyOf(e);
            && (forall k :: k != key ==>
                  (k in ev.caches.lists <==> k in c.lists) && (k in c.lists ==> ev.caches.lists[k] == c.lists[k]))
            && (Cached(c, key) ==> ev.caches.lists == c.lists)
            && (!Cached(c, key) && ev.result.Success? ==>
                  Cached(ev.caches, key) && Names(ev.caches.lists[key].value, ev.result.value))
            && (!Cached(c, key) && ev.result.Failure? && e.resource.Some? && src.metrics(c.queries.calls).Success? ==>
                  key in ev.caches.lists && ev.caches.lists[key].None?)
  {
    hide Serve, Fill, ApplicabilityKey;
    if e.resource.Some? && src.metrics(c.queries.calls).Success? {
      FillNames(rego, src, c.queries.(calls := c.queries.calls + 1), e.service, e.resource.value,
                src.metrics(c.queries.calls).value, Scan([], []));
    }
  }
}
