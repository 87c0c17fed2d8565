/**
Runs in which the source changes: implementations and configurations are replaced, and the
evaluator hears of it through metric events.
*/
module PolicyChanges {
  import opened Wrappers
  import opened Values
  import opened CacheKeys
  import opened PolicyModel
  import opened PolicyAgreement

  /** `a` arises from `b` by leaving out elements. */
  predicate Subsequence<T(==)>(a: seq<T>, b: seq<T>)
    decreases |b|
  {
    || a == []
    || (b != [] && ((a[0] == b[0] && Subsequence(a[1..], b[1..])) || Subsequence(a, b[1..])))
  }

  lemma {:induction false} SubsequenceSelf<T>(a: seq<T>)
    ensures Subsequence(a, a)
  {
    if a == [] {
    } else {
      SubsequenceSelf(a[1..]);
    }
  }

  /** Keeping or dropping one element in front keeps a subsequence. */
  lemma SubsequenceFront<T>(a: seq<T>, b: seq<T>, x: T)
    requires Subsequence(a, b)
    ensures Subsequence([x] + a, [x] + b) && Subsequence(a, [x] + b)
  {
  }

  lemma {:induction false} ApplicableSubsequence(rego: Rego, truth: Truth, service: string, resource: Value,
                                                 metrics: seq<string>)
    ensures Subsequence(Applicable(rego, truth, service, resource, metrics), metrics)
  {
    hide Judge;
    if metrics == [] {
    } else {
      ApplicableSubsequence(rego, truth, service, resource, metrics[1..]);
      SubsequenceFront(Applicable(rego, truth, service, resource, metrics[1..]), metrics[1..], metrics[0]);
      assert metrics == [metrics[0]] + metrics[1..];
      var rest := Applicable(rego, truth, service, resource, metrics[1..]);
      assert [] + rest == rest;
    }
  }

  /** Fewer metrics give fewer findings, in the same order. */
  lemma {:induction false} FewerFindings(rego: Rego, truth: Truth, service: string, resource: Value,
                                         list: seq<string>, metrics: seq<string>)
    requires Subsequence(list, metrics)
    ensures Subsequence(Findings(rego, truth, service, resource, list),
                        Findings(rego, truth, service, resource, metrics))
    decreases |metrics|
  {
    hide Judge;
    if list == [] {
    } else {
      var verdict := Judge(rego, truth, service, resource, metrics[0]);
      var rest := Findings(rego, truth, service, resource, metrics[1..]);
      if list[0] == metrics[0] && Subsequence(list[1..], metrics[1..]) {
        var fewer := Findings(rego, truth, service, resource, list[1..]);
        FewerFindings(rego, truth, service, resource, list[1..], metrics[1..]);
        if verdict.Applies? {
          SubsequenceFront(fewer, rest, verdict.finding);
        } else {
          assert Findings(rego, truth, service, resource, list) == fewer;
          assert Findings(rego, truth, service, resource, metrics) == rest;
        }
      } else {
        var fewer := Findings(rego, truth, service, resource, list);
        FewerFindings(rego, truth, service, resource, list, metrics[1..]);
        if verdict.Applies? {
          SubsequenceFront(fewer, rest, verdict.finding);
        } else {
          assert Findings(rego, truth, service, resource, metrics) == rest;
        }
      }
    }
  }

  lemma {:induction false} ViewsSubsequence(a: seq<Finding>, b: seq<Finding>, full: bool)
    requires Subsequence(a, b)
    ensures Subsequence(Views(a, full), Views(b, full))
    decreases |b|
  {
    if a == [] {
    } else {
      var x, y := Views(a, full), Views(b, full);
      assert y[1..] == Views(b[1..], full) && x[1..] == Views(a[1..], full);
      if a[0] == b[0] && Subsequence(a[1..], b[1..]) {
        ViewsSubsequence(a[1..], b[1..], full);
      } else {
        ViewsSubsequence(a, b[1..], full);
      }
    }
  }

  lemma {:induction false} SubsequenceElement<T>(a: seq<T>, b: seq<T>, i: nat)
    requires Subsequence(a, b) && i < |a|
    ensures a[i] in b
    decreases |b|
  {
    if a[0] == b[0] && Subsequence(a[1..], b[1..]) {
      if i > 0 {
        SubsequenceElement(a[1..], b[1..], i - 1);
      }
    } else {
      SubsequenceElement(a, b[1..], i);
    }
  }

  /** Leaving out one more element keeps a subsequence. */
  lemma {:induction false} SubsequenceDrop<T>(a: seq<T>, x: T, b: seq<T>, c: seq<T>)
    requires Subsequence(a + [x] + b, c)
    ensures Subsequence(a + b, c)
    decreases |c|
  {
    var whole := a + [x] + b;
    if whole[0] == c[0] && Subsequence(whole[1..], c[1..]) {
      if a == [] {
        assert whole[1..] == b && a + b == b;
        assert Subsequence(b, c[1..]);
      } else {
        assert whole[1..] == a[1..] + [x] + b && (a + b)[1..] == a[1..] + b;
        SubsequenceDrop(a[1..], x, b, c[1..]);
      }
    } else {
      SubsequenceDrop(a, x, b, c[1..]);
    }
  }

  /** Cached lists hold metrics of the catalogue, in its order. */
  ghost predicate ListsOrdered(truth: Truth, lists: map<string, Option<seq<string>>>) {
    forall key :: key in lists && lists[key].Some? ==> Subsequence(lists[key].value, truth.metrics)
  }

  /**
  A successful fill means that plain evaluation succeeds with the same findings, up to metadata unless `full`. A
  success from a cached list gives some of the findings that apply now, in their order, even if plain
  evaluation fails on a metric that is not in the list.
  */
  ghost predicate Within(rego: Rego, truth: Truth, e: Evidence, result: Result<seq<Finding>, Error>, hit: bool,
                         full: bool)
  {
    result.Success? ==>
      && e.resource.Some?
      && var all := Findings(rego, truth, e.service, e.resource.value, truth.metrics);
      && if hit then Subsequence(Views(result.value, full), Views(all, full))
         else PlainEval(rego, truth, e) == Some(all) && Views(result.value, full) == Views(all, full)
  }

  lemma HitWithin(rego: Rego, src: Source, truth: Truth, c: Caches, e: Evidence, full: bool)
    requires Faithful(src, truth) && AllDashFreeIds(truth.metrics) && Comparable(rego, truth, full)
    requires QueriesCurrent(rego, truth, c.queries.cache, full) && ListsOrdered(truth, c.lists)
    requires e.resource.Some? && ValidService(e.service) && Cached(c, KeyOf(e))
    ensures var served := Serve(rego, src, c.queries, e.service, e.resource.value, c.lists[KeyOf(e)].value, []);
            && Within(rego, truth, e, served.result, true, full)
            && QueriesCurrent(rego, truth, served.queries.cache, full)
  {
    hide Serve, QueriesCurrent, Faithful, Comparable, Judge, Views, Subsequence;
    var list := c.lists[KeyOf(e)].value;
    forall i | 0 <= i < |list|
      ensures DashFree(list[i])
    {
      SubsequenceElement(list, truth.metrics, i);
    }
    ServeAgrees(rego, src, truth, c.queries, e.service, e.resource.value, list, [], full);
    var served := Serve(rego, src, c.queries, e.service, e.resource.value, list, []);
    if served.result.Success? {
      var fewer := Findings(rego, truth, e.service, e.resource.value, list);
      FewerFindings(rego, truth, e.service, e.resource.value, list, truth.metrics);
      ViewsSubsequence(fewer, Findings(rego, truth, e.service, e.resource.value, truth.metrics), full);
      NoViews(fewer, full);
    }
  }

  lemma NoViews(fs: seq<Finding>, full: bool)
    ensures Views([], full) + Views(fs, full) == Views(fs, full)
  {
  }

  lemma FillWithin(rego: Rego, src: Source, truth: Truth, qs: Queries, e: Evidence, full: bool)
    requires Faithful(src, truth) && AllDashFreeIds(truth.metrics) && Comparable(rego, truth, full)
    requires QueriesCurrent(rego, truth, qs.cache, full) && e.resource.Some? && ValidService(e.service)
    ensures var filled := Fill(rego, src, qs, e.service, e.resource.value, truth.metrics, Scan([], []));
            && QueriesCurrent(rego, truth, filled.queries.cache, full)
            && (filled.result.Success? ==>
                  && Within(rego, truth, e, Success(filled.result.value.findings), false, full)
                  && Subsequence(filled.result.value.names, truth.metrics))
  {
    hide Fill, QueriesCurrent, Faithful, Comparable, Judge, Views, Subsequence;
    FillAgrees(rego, src, truth, qs, e.service, e.resource.value, truth.metrics, Scan([], []), full);
    var filled := Fill(rego, src, qs, e.service, e.resource.value, truth.metrics, Scan([], []));
    if filled.result.Success? {
      NoViews(Findings(rego, truth, e.service, e.resource.value, truth.metrics), full);
      ApplicableSubsequence(rego, truth, e.service, e.resource.value, truth.metrics);
      var names := Applicable(rego, truth, e.service, e.resource.value, truth.metrics);
      assert [] + names == names;
    }
  }

  ghost predicate CachesSound(rego: Rego, truth: Truth, c: Caches, full: bool) {
    QueriesCurrent(rego, truth, c.queries.cache, full) && ListsOrdered(truth, c.lists)
  }

  /**
  One evaluation: within plain evaluation, the caches stay sound, and an evaluation that fails
  while filling leaves no list behind, not even a partial one.
  */
  lemma EvalWithin(rego: Rego, src: Source, truth: Truth, c: Caches, e: Evidence, full: bool)
    requires Faithful(src, truth) && AllDashFreeIds(truth.metrics) && Comparable(rego, truth, full)
    requires CachesSound(rego, truth, c, full) && ValidService(e.service)
    ensures var ev := Eval(rego, src, c, e);
            && Within(rego, truth, e, ev.result, Cached(c, KeyOf(e)), full)
            && CachesSound(rego, truth, ev.caches, full)
            && (ev.result.Failure? && !Cached(c, KeyOf(e)) ==> !Cached(ev.caches, KeyOf(e)))
  {
    hide Serve, Fill, QueriesCurrent, Judge, Subsequence, Views, Comparable;
    var ev := Eval(rego, src, c, e);
    if e.resource.Some? {
      if Cached(c, KeyOf(e)) {
        HitWithin(rego, src, truth, c, e, full);
      } else {
        assert src.metrics(c.queries.calls) == Success(truth.metrics) || src.metrics(c.queries.calls) == Failure(Other);
        FillWithin(rego, src, truth, c.queries.(calls := c.queries.calls + 1), e, full);
      }
    }
  }

  // ---------------------------------------------------------------- runs

  /** The source gets new contents, and the evaluator handles these events before it goes on. */
  datatype Action = Evaluate(src: Source, e: Evidence) | Publish(truth: Truth, events: seq<string>)

  function HandleAll(c: Caches, events: seq<string>): Caches
    decreases |events|
  {
    if events == [] then c else HandleAll(Handle(c, events[0]), events[1..])
  }

  function CachesAfter(rego: Rego, c: Caches, a: Action): Caches {
    match a
    case Evaluate(src, e) => Eval(rego, src, c, e).caches
    case Publish(_, events) => HandleAll(c, events)
  }

  function TruthAfter(truth: Truth, a: Action): Truth {
    if a.Publish? then a.truth else truth
  }

  /**
  The catalogue stays, and every change of an implementation is announced. With `full`, changes of
  configurations are announced too; otherwise the hash in the key takes care of them, up to metadata.
  */
  ghost predicate Announced(truth: Truth, truth': Truth, events: seq<string>, full: bool) {
    && truth'.metrics == truth.metrics
    && (forall m :: truth'.code(m) == truth.code(m) || m in events)
    && (full ==> forall service, m :: truth'.config(service, m) == truth.config(service, m) || m in events)
  }

  lemma {:induction false} HandleAllEvicts(c: Caches, events: seq<string>)
    ensures HandleAll(c, events).lists == c.lists
    ensures forall key :: key in HandleAll(c, events).queries.cache ==>
              && key in c.queries.cache && HandleAll(c, events).queries.cache[key] == c.queries.cache[key]
              && forall i :: 0 <= i < |events| ==> !(events[i] <= key)
    decreases |events|
  {
    if events == [] {
    } else {
      HandleAllEvicts(Handle(c, events[0]), events[1..]);
      assert forall i :: 0 < i < |events| ==> events[i] == events[1..][i - 1];
    }
  }

  lemma StillCurrent(rego: Rego, truth: Truth, truth': Truth, events: seq<string>, key: string, query: Query,
                     service: string, full: bool)
    requires Current(rego, truth, key, query, service, full) && Announced(truth, truth', events, full)
    requires forall i :: 0 <= i < |events| ==> !(events[i] <= key)
    ensures Current(rego, truth', key, query, service, full)
  {
  }

  /** After the announced evictions, what is left in the query cache is current again. */
  lemma PublishKeepsSound(rego: Rego, truth: Truth, c: Caches, truth': Truth, events: seq<string>, full: bool)
    requires CachesSound(rego, truth, c, full) && Announced(truth, truth', events, full)
    ensures CachesSound(rego, truth', HandleAll(c, events), full)
  {
    hide Current, Subsequence, HandleAll;
    HandleAllEvicts(c, events);
    var cache := HandleAll(c, events).queries.cache;
    forall key | key in cache
      ensures exists service :: Current(rego, truth', key, cache[key], service, full)
    {
      var service :| Current(rego, truth, key, c.queries.cache[key], service, full);
      StillCurrent(rego, truth, truth', events, key, cache[key], service, full);
    }
  }

  ghost predicate EveryEvalWithin(rego: Rego, truth: Truth, c: Caches, run: seq<Action>, full: bool)
    decreases |run|
  {
    run == [] || (
      && (run[0].Evaluate? ==>
            Within(rego, truth, run[0].e, Eval(rego, run[0].src, c, run[0].e).result, Cached(c, KeyOf(run[0].e)), full))
      && EveryEvalWithin(rego, TruthAfter(truth, run[0]), CachesAfter(rego, c, run[0]), run[1..], full))
  }

  ghost predicate AdmissibleRun(rego: Rego, truth: Truth, run: seq<Action>, full: bool)
    decreases |run|
  {
    run == [] || (
      && (match run[0]
          case Evaluate(src, e) => Faithful(src, truth) && ValidService(e.service)
          case Publish(truth', events) => Announced(truth, truth', events, full) && Comparable(rego, truth', full))
      && AdmissibleRun(rego, TruthAfter(truth, run[0]), run[1..], full))
  }

  lemma {:induction false} RunWithin(rego: Rego, truth: Truth, c: Caches, run: seq<Action>, full: bool)
    requires AllDashFreeIds(truth.metrics) && Comparable(rego, truth, full) && CachesSound(rego, truth, c, full)
    requires AdmissibleRun(rego, truth, run, full)
    ensures EveryEvalWithin(rego, truth, c, run, full)
    decreases |run|
  {
    hide Eval, QueriesCurrent, ListsOrdered, Faithful, Within, PlainEval, Comparable;
    if run == [] {
    } else {
      match run[0] {
        case Evaluate(src, e) => EvalWithin(rego, src, truth, c, e, full);
        case Publish(truth', events) => PublishKeepsSound(rego, truth, c, truth', events, full);
      }
      RunWithin(rego, TruthAfter(truth, run[0]), CachesAfter(rego, c, run[0]), run[1..], full);
    }
  }

  /**
  However implementations and configurations change, as long as events announce the changes of
  implementations: every evaluation that succeeds in filling its list gives exactly the findings of
  plain evaluation under the current source, which succeeds too, up to configuration metadata, and
  one that is served from a cached list gives a subsequence of the findings that apply. If events
  announce the changes of configurations too (`full`), the metadata is right as well, whatever
  policies read and however values print.
  */
  lemma CachedEvalStaysWithinPlain(rego: Rego, truth: Truth, run: seq<Action>, full: bool)
    requires AllDashFreeIds(truth.metrics) && Comparable(rego, truth, full) && AdmissibleRun(rego, truth, run, full)
    ensures EveryEvalWithin(rego, truth, EMPTY, run, full)
  {
    RunWithin(rego, truth, EMPTY, run, full);
  }
}
