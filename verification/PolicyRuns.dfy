/** Whole runs of the evaluator: evaluations, failed fills, metric events and changing sources. */
module PolicyRuns {
  import opened Wrappers
  import opened Values
  import opened CacheKeys
  import opened PolicyModel
  import opened PolicyAgreement

  // ---------------------------------------------------------------- a fixed source

  ghost predicate AppliesTo(rego: Rego, truth: Truth, e: Evidence, metric: string)
    requires e.resource.Some?
  {
    Judge(rego, truth, e.service, e.resource.value, metric).Applies?
  }

  /** Plain evaluation of `e` has no errors. */
  ghost predicate Evaluable(rego: Rego, truth: Truth, e: Evidence) {
    e.resource.Some? && NoneErroneous(rego, truth, e.service, e.resource.value, truth.metrics)
  }

  ghost predicate SameMetricsApply(rego: Rego, truth: Truth, e: Evidence, e': Evidence)
    requires e.resource.Some? && e'.resource.Some?
  {
    forall i :: 0 <= i < |truth.metrics| ==>
      AppliesTo(rego, truth, e, truth.metrics[i]) == AppliesTo(rego, truth, e', truth.metrics[i])
  }

  /**
  The list that `e0` fills is right for `e`: if plain evaluation of `e` has no errors, the same
  metrics apply; if it has one, serving the list meets an error or a missing metric too.
  */
  ghost predicate ListServes(rego: Rego, truth: Truth, e0: Evidence, e: Evidence)
    requires e0.resource.Some? && e.resource.Some?
  {
    if Evaluable(rego, truth, e) then SameMetricsApply(rego, truth, e, e0)
    else !Servable(rego, truth, e.service, e.resource.value,
                   Applicable(rego, truth, e0.service, e0.resource.value, truth.metrics))
  }

  /** Among the evidences in `pool`, the applicability key alone decides which list is right. */
  ghost predicate KeyDecides(rego: Rego, truth: Truth, pool: iset<Evidence>) {
    forall e0, e | e0 in pool && e in pool && KeyOf(e0) == KeyOf(e) ::
      Evaluable(rego, truth, e0) && e.resource.Some? ==> ListServes(rego, truth, e0, e)
  }

  /** `list` is what evaluating `e` found applicable. */
  ghost predicate FilledBy(rego: Rego, truth: Truth, list: seq<string>, e: Evidence) {
    Evaluable(rego, truth, e) && list == Applicable(rego, truth, e.service, e.resource.value, truth.metrics)
  }

  /** Every cached list is complete: some evidence with that key filled it in one go. */
  ghost predicate ListsFilled(rego: Rego, truth: Truth, pool: iset<Evidence>, lists: map<string, Option<seq<string>>>) {
    forall key :: key in lists && lists[key].Some? ==>
      exists e :: e in pool && KeyOf(e) == key && FilledBy(rego, truth, lists[key].value, e)
  }

  /** A list found for one evidence serves another one to which the same metrics apply. */
  lemma {:induction false} SharedList(rego: Rego, truth: Truth, e: Evidence, e0: Evidence, metrics: seq<string>)
    requires e.resource.Some? && e0.resource.Some? && AllDashFreeIds(metrics)
    requires forall i :: 0 <= i < |metrics| ==>
               AppliesTo(rego, truth, e, metrics[i]) == AppliesTo(rego, truth, e0, metrics[i])
    ensures var list := Applicable(rego, truth, e0.service, e0.resource.value, metrics);
            && AllDashFreeIds(list)
            && Servable(rego, truth, e.service, e.resource.value, list)
            && Findings(rego, truth, e.service, e.resource.value, list)
               == Findings(rego, truth, e.service, e.resource.value, metrics)
  {
    hide Judge;
    if metrics == [] {
    } else {
      assert AppliesTo(rego, truth, e, metrics[0]) == AppliesTo(rego, truth, e0, metrics[0]);
      SharedList(rego, truth, e, e0, metrics[1..]);
      var list := Applicable(rego, truth, e0.service, e0.resource.value, metrics);
      var rest := Applicable(rego, truth, e0.service, e0.resource.value, metrics[1..]);
      if AppliesTo(rego, truth, e0, metrics[0]) {
        assert list == [metrics[0]] + rest && list[1..] == rest;
      } else {
        assert list == rest;
      }
    }
  }

  ghost predicate CachesGood(rego: Rego, truth: Truth, pool: iset<Evidence>, c: Caches) {
    QueriesCurrent(rego, truth, c.queries.cache, true) && ListsFilled(rego, truth, pool, c.lists)
  }

  lemma FullViews(fs: seq<Finding>)
    ensures Views(fs, true) == fs
  {
  }

  /** What `Eval` may answer, given what plain evaluation answers. */
  ghost predicate Refines(result: Result<seq<Finding>, Error>, plain: Option<seq<Finding>>, reliable: bool) {
    && (result.Success? ==> plain == Some(result.value))
    && (reliable && plain.Some? ==> result.Success?)
  }

  lemma HitRefines(rego: Rego, src: Source, truth: Truth, pool: iset<Evidence>, c: Caches, e: Evidence)
    requires Faithful(src, truth) && AllDashFreeIds(truth.metrics) && CachesGood(rego, truth, pool, c)
    requires KeyDecides(rego, truth, pool) && e in pool && ValidService(e.service)
    requires e.resource.Some? && Cached(c, KeyOf(e))
    ensures var served := Serve(rego, src, c.queries, e.service, e.resource.value, c.lists[KeyOf(e)].value, []);
            && Refines(served.result, PlainEval(rego, truth, e), Reliable(src, truth))
            && QueriesCurrent(rego, truth, served.queries.cache, true)
  {
    hide Serve, QueriesCurrent, Faithful, Reliable, Judge;
    var list := c.lists[KeyOf(e)].value;
    var e0 :| e0 in pool && KeyOf(e0) == KeyOf(e) && FilledBy(rego, truth, list, e0);
    assert ListServes(rego, truth, e0, e);
    SharedList(rego, truth, e0, e0, truth.metrics);
    ServeAgrees(rego, src, truth, c.queries, e.service, e.resource.value, list, [], true);
    var served := Serve(rego, src, c.queries, e.service, e.resource.value, list, []);
    if Evaluable(rego, truth, e) {
      SharedList(rego, truth, e, e0, truth.metrics);
      if served.result.Success? {
        var findings := Findings(rego, truth, e.service, e.resource.value, list);
        FullViews(served.result.value);
        FullViews(findings);
        FullViews([]);
        assert [] + findings == findings;
      }
    }
  }

  lemma FillRefines(rego: Rego, src: Source, truth: Truth, qs: Queries, e: Evidence)
    requires Faithful(src, truth) && AllDashFreeIds(truth.metrics) && QueriesCurrent(rego, truth, qs.cache, true)
    requires e.resource.Some? && ValidService(e.service)
    ensures var filled := Fill(rego, src, qs, e.service, e.resource.value, truth.metrics, Scan([], []));
            && QueriesCurrent(rego, truth, filled.queries.cache, true)
            && (filled.result.Success? ==>
                  && PlainEval(rego, truth, e) == Some(filled.result.value.findings)
                  && FilledBy(rego, truth, filled.result.value.names, e))
            && (Reliable(src, truth) && Evaluable(rego, truth, e) ==> filled.result.Success?)
  {
    hide Fill, QueriesCurrent, Faithful, Reliable, Judge;
    FillAgrees(rego, src, truth, qs, e.service, e.resource.value, truth.metrics, Scan([], []), true);
    var filled := Fill(rego, src, qs, e.service, e.resource.value, truth.metrics, Scan([], []));
    if filled.result.Success? {
      FullViews(filled.result.value.findings);
      var findings := Findings(rego, truth, e.service, e.resource.value, truth.metrics);
      FullViews(findings);
      FullViews([]);
      assert [] + findings == findings;
    }
  }

  /** One evaluation in any good cache state refines plain evaluation and leaves a good state. */
  lemma EvalRefines(rego: Rego, src: Source, truth: Truth, pool: iset<Evidence>, c: Caches, e: Evidence)
    requires Faithful(src, truth) && AllDashFreeIds(truth.metrics) && CachesGood(rego, truth, pool, c)
    requires KeyDecides(rego, truth, pool) && e in pool && ValidService(e.service)
    ensures var ev := Eval(rego, src, c, e);
            && Refines(ev.result, PlainEval(rego, truth, e), Reliable(src, truth))
            && CachesGood(rego, truth, pool, ev.caches)
  {
    hide Serve, Fill, QueriesCurrent, Judge;
    var ev := Eval(rego, src, c, e);
    if e.resource.Some? {
      if Cached(c, KeyOf(e)) {
        HitRefines(rego, src, truth, pool, c, e);
      } else {
        assert src.metrics(c.queries.calls) == Success(truth.metrics) || src.metrics(c.queries.calls) == Failure(Other);
        FillRefines(rego, src, truth, c.queries.(calls := c.queries.calls + 1), e);
        assert forall key :: key in ev.caches.lists && key != KeyOf(e) ==>
                 key in c.lists && ev.caches.lists[key] == c.lists[key];
      }
    }
  }

  /** What happens to an evaluator; `Clear` is `queryCache.Empty`. */
  datatype Action = Evaluate(src: Source, e: Evidence) | Event(metric: string) | Clear

  function After(rego: Rego, c: Caches, a: Action): Caches {
    match a
    case Evaluate(src, e) => Eval(rego, src, c, e).caches
    case Event(metric) => Handle(c, metric)
    case Clear => c.(queries := c.queries.(cache := map[]))
  }

  /** Every evaluation of the run answers as plain evaluation does. */
  ghost predicate EveryEvalRefines(rego: Rego, truth: Truth, c: Caches, run: seq<Action>)
    decreases |run|
  {
    run == [] || (
      && (run[0].Evaluate? ==>
            Refines(Eval(rego, run[0].src, c, run[0].e).result, PlainEval(rego, truth, run[0].e),
                    Reliable(run[0].src, truth)))
      && EveryEvalRefines(rego, truth, After(rego, c, run[0]), run[1..]))
  }

  ghost predicate AdmissibleRun(truth: Truth, pool: iset<Evidence>, run: seq<Action>) {
    forall i :: 0 <= i < |run| && run[i].Evaluate? ==>
      Faithful(run[i].src, truth) && run[i].e in pool && ValidService(run[i].e.service)
  }

  lemma FewerQueriesCurrent(rego: Rego, truth: Truth, cache: map<string, Query>, metric: string, full: bool)
    requires QueriesCurrent(rego, truth, cache, full)
    ensures QueriesCurrent(rego, truth, Evicted(cache, metric), full)
    ensures QueriesCurrent(rego, truth, map[], full)
  {
    hide Current;
  }

  lemma {:induction false} RunRefines(rego: Rego, truth: Truth, pool: iset<Evidence>, c: Caches, run: seq<Action>)
    requires AllDashFreeIds(truth.metrics) && CachesGood(rego, truth, pool, c) && KeyDecides(rego, truth, pool)
    requires AdmissibleRun(truth, pool, run)
    ensures EveryEvalRefines(rego, truth, c, run)
    decreases |run|
  {
    hide Eval, KeyDecides, QueriesCurrent, ListsFilled, Faithful, Refines, PlainEval;
    if run == [] {
    } else {
      match run[0] {
        case Evaluate(src, e) => EvalRefines(rego, src, truth, pool, c, e);
        case Event(metric) => FewerQueriesCurrent(rego, truth, c.queries.cache, metric, true);
        case Clear => FewerQueriesCurrent(rego, truth, c.queries.cache, "", true);
      }
      RunRefines(rego, truth, pool, After(rego, c, run[0]), run[1..]);
    }
  }

  /**
  The caches are invisible: from a new evaluator, in any run of hits, fills, failed fills, events
  and clearings over an unchanging source with passing failures, every evaluation that succeeds
  gives exactly the findings of plain evaluation, which succeeds too, in the same order, and one
  that meets no failure of the source does succeed whenever plain evaluation does.
  */
  lemma CachedEvalRefinesPlain(rego: Rego, truth: Truth, pool: iset<Evidence>, run: seq<Action>)
    requires AllDashFreeIds(truth.metrics) && KeyDecides(rego, truth, pool) && AdmissibleRun(truth, pool, run)
    ensures EveryEvalRefines(rego, truth, EMPTY, run)
  {
    RunRefines(rego, truth, pool, EMPTY, run);
  }

  // ---------------------------------------------------------------- when the key does not decide

  /** A source that always answers with the truth. */
  function Steady(truth: Truth): Source {
    Source(_ => Success(truth.metrics), (_, service, metric) => truth.config(service, metric),
           (_, metric) => truth.code(metric))
  }

  lemma SteadyIsReliable(truth: Truth)
    ensures Reliable(Steady(truth), truth) && Faithful(Steady(truth), truth)
  {
  }

  /** A list found for one evidence never gives another one more findings, and fewer if a metric is not in it. */
  lemma {:induction false} ShorterFindings(rego: Rego, truth: Truth, e: Evidence, e0: Evidence, metrics: seq<string>)
    requires e.resource.Some? && e0.resource.Some?
    ensures var list := Applicable(rego, truth, e0.service, e0.resource.value, metrics);
            var with, all := |Findings(rego, truth, e.service, e.resource.value, list)|,
                             |Findings(rego, truth, e.service, e.resource.value, metrics)|;
            && with <= all
            && ((exists i :: 0 <= i < |metrics| && AppliesTo(rego, truth, e, metrics[i])
                             && !AppliesTo(rego, truth, e0, metrics[i])) ==> with < all)
  {
    hide Judge;
    if metrics == [] {
    } else {
      ShorterFindings(rego, truth, e, e0, metrics[1..]);
      ApplicableStep(rego, truth, e0.service, e0.resource.value, metrics);
      var rest := Applicable(rego, truth, e0.service, e0.resource.value, metrics[1..]);
      assert ([metrics[0]] + rest)[1..] == rest;
      assert forall i :: 0 < i < |metrics| ==> metrics[i] == metrics[1..][i - 1];
    }
  }

  /** The first evaluation of an evidence fills its list. */
  lemma FirstFills(rego: Rego, truth: Truth, e: Evidence)
    requires AllDashFreeIds(truth.metrics) && ValidService(e.service) && Evaluable(rego, truth, e)
    ensures var c := Eval(rego, Steady(truth), EMPTY, e).caches;
            && Cached(c, KeyOf(e)) && FilledBy(rego, truth, c.lists[KeyOf(e)].value, e)
            && QueriesCurrent(rego, truth, c.queries.cache, true)
  {
    hide Fill, QueriesCurrent, Judge, Reliable, Faithful;
    SteadyIsReliable(truth);
    NoQueriesCurrent(rego, truth);
    FillRefines(rego, Steady(truth), truth, Queries(map[], 1), e);
  }

  lemma NoQueriesCurrent(rego: Rego, truth: Truth)
    ensures QueriesCurrent(rego, truth, map[], true)
  {
  }

  /** If a metric applies to `e` and not to `e0`, the list filled by `e0` makes evaluating `e` go wrong. */
  lemma WrongListDiffers(rego: Rego, truth: Truth, e: Evidence, e0: Evidence, c: Caches, i: nat)
    requires AllDashFreeIds(truth.metrics) && ValidService(e.service) && ValidService(e0.service)
    requires Evaluable(rego, truth, e) && KeyOf(e) == KeyOf(e0)
    requires Cached(c, KeyOf(e)) && FilledBy(rego, truth, c.lists[KeyOf(e)].value, e0)
    requires QueriesCurrent(rego, truth, c.queries.cache, true)
    requires && i < |truth.metrics| && AppliesTo(rego, truth, e, truth.metrics[i])
             && !AppliesTo(rego, truth, e0, truth.metrics[i])
    ensures !Refines(Eval(rego, Steady(truth), c, e).result, PlainEval(rego, truth, e), true)
  {
    hide Serve, QueriesCurrent, Judge, Faithful, Reliable;
    var src, list := Steady(truth), c.lists[KeyOf(e)].value;
    SteadyIsReliable(truth);
    SharedList(rego, truth, e0, e0, truth.metrics);
    ServeAgrees(rego, src, truth, c.queries, e.service, e.resource.value, list, [], true);
    ShorterFindings(rego, truth, e, e0, truth.metrics);
    var served := Serve(rego, src, c.queries, e.service, e.resource.value, list, []);
    if served.result.Success? {
      assert |served.result.value| == |Findings(rego, truth, e.service, e.resource.value, list)|;
    }
  }

  /** If `e` is in error, but not on the metrics that apply to `e0`, the list filled by `e0` hides the error. */
  lemma ListHidesError(rego: Rego, truth: Truth, e: Evidence, e0: Evidence, c: Caches)
    requires AllDashFreeIds(truth.metrics) && ValidService(e.service) && e.resource.Some?
    requires !Evaluable(rego, truth, e) && KeyOf(e) == KeyOf(e0)
    requires Cached(c, KeyOf(e)) && FilledBy(rego, truth, c.lists[KeyOf(e)].value, e0)
    requires QueriesCurrent(rego, truth, c.queries.cache, true)
    requires Servable(rego, truth, e.service, e.resource.value, c.lists[KeyOf(e)].value)
    ensures Eval(rego, Steady(truth), c, e).result.Success? && PlainEval(rego, truth, e).None?
  {
    hide Eval, QueriesCurrent, Judge, Faithful, Reliable;
    SteadyIsReliable(truth);
    SharedList(rego, truth, e0, e0, truth.metrics);
    HitSucceedsExactly(rego, Steady(truth), truth, c, e, true);
  }

  /** Two evaluations are enough to show the difference. */
  lemma WrongKeyDeviates(rego: Rego, truth: Truth, e0: Evidence, e: Evidence)
    requires AllDashFreeIds(truth.metrics) && ValidService(e.service) && ValidService(e0.service)
    requires e.resource.Some? && Evaluable(rego, truth, e0) && KeyOf(e) == KeyOf(e0)
    requires Evaluable(rego, truth, e) ==>
               exists i :: && 0 <= i < |truth.metrics| && AppliesTo(rego, truth, e, truth.metrics[i])
                           && !AppliesTo(rego, truth, e0, truth.metrics[i])
    requires !Evaluable(rego, truth, e) ==> !ListServes(rego, truth, e0, e)
    ensures !EveryEvalRefines(rego, truth, EMPTY, [Evaluate(Steady(truth), e0), Evaluate(Steady(truth), e)])
  {
    hide Eval, PlainEval, QueriesCurrent, NoneErroneous, Judge, Servable, Reliable;
    var src := Steady(truth);
    var run := [Evaluate(src, e0), Evaluate(src, e)];
    assert run[1..] == [Evaluate(src, e)];
    SteadyIsReliable(truth);
    FirstFills(rego, truth, e0);
    var c := Eval(rego, src, EMPTY, e0).caches;
    if Evaluable(rego, truth, e) {
      var i :| && 0 <= i < |truth.metrics| && AppliesTo(rego, truth, e, truth.metrics[i])
               && !AppliesTo(rego, truth, e0, truth.metrics[i]);
      WrongListDiffers(rego, truth, e, e0, c, i);
    } else {
      ListHidesError(rego, truth, e, e0, c);
    }
  }

  ghost predicate EveryRunRefines(rego: Rego, truth: Truth, pool: iset<Evidence>) {
    forall run :: AdmissibleRun(truth, pool, run) ==> EveryEvalRefines(rego, truth, EMPTY, run)
  }

  /** The caches are invisible in every run over `pool` exactly when the key decides which list is right. */
  lemma CachesInvisibleExactly(rego: Rego, truth: Truth, pool: iset<Evidence>)
    requires AllDashFreeIds(truth.metrics) && forall e :: e in pool ==> ValidService(e.service)
    ensures EveryRunRefines(rego, truth, pool) <==> KeyDecides(rego, truth, pool)
  {
    if KeyDecides(rego, truth, pool) {
      forall run | AdmissibleRun(truth, pool, run)
        ensures EveryEvalRefines(rego, truth, EMPTY, run)
      {
        CachedEvalRefinesPlain(rego, truth, pool, run);
      }
    } else {
      UndecidedDeviates(rego, truth, pool);
    }
  }

  lemma UndecidedDeviates(rego: Rego, truth: Truth, pool: iset<Evidence>)
    requires AllDashFreeIds(truth.metrics) && forall e :: e in pool ==> ValidService(e.service)
    requires !KeyDecides(rego, truth, pool)
    ensures !EveryRunRefines(rego, truth, pool)
  {
    hide EveryEvalRefines, NoneErroneous, Judge, Faithful, Servable;
    var e0, e :| && e0 in pool && e in pool && KeyOf(e0) == KeyOf(e) && Evaluable(rego, truth, e0)
                 && e.resource.Some? && !ListServes(rego, truth, e0, e);
    var with, without := e, e0;
    if Evaluable(rego, truth, e) {
      var i :| && 0 <= i < |truth.metrics|
               && AppliesTo(rego, truth, e, truth.metrics[i]) != AppliesTo(rego, truth, e0, truth.metrics[i]);
      if AppliesTo(rego, truth, e0, truth.metrics[i]) {
        with, without := e0, e;
      }
    }
    var run := [Evaluate(Steady(truth), without), Evaluate(Steady(truth), with)];
    SteadyIsReliable(truth);
    WrongKeyDeviates(rego, truth, without, with);
    assert AdmissibleRun(truth, pool, run);
  }

  /**
  A hit over a reliable source succeeds exactly when no metric of the cached list is missing or in
  error for this evidence. Plain evaluation passes a missing metric over, so only metrics that are
  missing for one evidence and were found for another with the same key make the two differ.
  */
  lemma HitSucceedsExactly(rego: Rego, src: Source, truth: Truth, c: Caches, e: Evidence, full: bool)
    requires Reliable(src, truth) && Comparable(rego, truth, full) && QueriesCurrent(rego, truth, c.queries.cache, full)
    requires e.resource.Some? && ValidService(e.service)
    requires Cached(c, KeyOf(e)) && AllDashFreeIds(c.lists[KeyOf(e)].value)
    ensures Eval(rego, src, c, e).result.Success?
        <==> Servable(rego, truth, e.service, e.resource.value, c.lists[KeyOf(e)].value)
  {
    hide Serve, QueriesCurrent, Judge, Comparable;
    assert Faithful(src, truth);
    ServeAgrees(rego, src, truth, c.queries, e.service, e.resource.value, c.lists[KeyOf(e)].value, [], full);
  }

  const SERVICE_A: string := "11111111-1111-1111-1111-111111111111"
  const SERVICE_B: string := "22222222-2222-2222-2222-222222222222"
  const ANY_CONFIG: Config := Config([], Null, true, 0)

  /** One metric, configured for one service only, with a policy that always applies. */
  function ConfigOf(service: string, metric: string): Result<Config, Error> {
    if service == SERVICE_A then Success(ANY_CONFIG) else Failure(NotFound)
  }

  function CodeOf(metric: string): Result<string, Error> {
    Success("")
  }

  function AlwaysApplies(query: Query, resource: Value): Outcome {
    Ran(true, true)
  }

  function ExampleTruth(): Truth {
    Truth(["M"], ConfigOf, CodeOf)
  }

  function ExampleRego(): Rego {
    Rego(v => [], q => true, AlwaysApplies, v => true)
  }

  /**
  The applicability key does not name the service: once an evidence of one service has filled the
  list, the same kind of evidence of a service without that configuration fails, although plain
  evaluation of it succeeds without findings.
  */
  lemma ListOfAnotherServiceFails()
    ensures var rego, src, a, b := ExampleRego(), Steady(ExampleTruth()), Evidence(SERVICE_A, "tool", [], Some(Null)),
                                   Evidence(SERVICE_B, "tool", [], Some(Null));
            var first := Eval(rego, src, EMPTY, a);
            && first.result.Success? && |first.result.value| == 1
            && Eval(rego, src, first.caches, b).result == Failure(NotFound)
            && PlainEval(rego, ExampleTruth(), b) == Some([])
  {
    hide QueryKey, ApplicabilityKey, Fill, Serve;
    var rego, src := ExampleRego(), Steady(ExampleTruth());
    var a, b := Evidence(SERVICE_A, "tool", [], Some(Null)), Evidence(SERVICE_B, "tool", [], Some(Null));
    assert KeyOf(a) == KeyOf(b);
    ExampleFills();
    var first := Eval(rego, src, EMPTY, a);
    assert first.caches.lists[KeyOf(b)] == Some(["M"]);
    ExampleServes(first.caches.queries);
    assert Eval(rego, src, first.caches, b).result == Failure(NotFound);
    assert Judge(rego, ExampleTruth(), SERVICE_B, Null, "M").Missing?;
    assert Findings(rego, ExampleTruth(), SERVICE_B, Null, ["M"]) == [] by {
      assert ["M"][1..] == [] && ["M"][0] == "M";
    }
  }

  lemma ExampleFills()
    ensures var filled := Fill(ExampleRego(), Steady(ExampleTruth()), Queries(map[], 1), SERVICE_A, Null, ["M"],
                               Scan([], []));
            filled.result == Success(Scan(["M"], [FindingOf("M", ANY_CONFIG, true)]))
  {
    hide QueryKey;
    var rego, src := ExampleRego(), Steady(ExampleTruth());
    SteadyIsReliable(ExampleTruth());
    assert ConfigOf(SERVICE_A, "M") == Success(ANY_CONFIG) && CodeOf("M") == Success("");
    assert src.config(1, SERVICE_A, "M") == Success(ANY_CONFIG) && src.code(2, "M") == Success("");
    assert rego.run(Query("M", ANY_CONFIG, ""), Null) == Ran(true, true);
    var one := EvalMap(rego, src, Queries(map[], 1), SERVICE_A, "M", Null);
    assert one.result == Success(Some(FindingOf("M", ANY_CONFIG, true)));
    assert ["M"][1..] == [] && ["M"][0] == "M";
    assert Add(Scan([], []), "M", one.result.value) == Scan(["M"], [FindingOf("M", ANY_CONFIG, true)]) by {
      assert [] + ["M"] == ["M"];
    }
  }

  lemma ExampleServes(qs: Queries)
    ensures Serve(ExampleRego(), Steady(ExampleTruth()), qs, SERVICE_B, Null, ["M"], []).result == Failure(NotFound)
    ensures SERVICE_A != SERVICE_B
  {
    hide QueryKey;
    assert SERVICE_A[0] != SERVICE_B[0];
    SteadyIsReliable(ExampleTruth());
    assert ConfigOf(SERVICE_B, "M") == Failure(NotFound);
    assert Steady(ExampleTruth()).config(qs.calls, SERVICE_B, "M") == Failure(NotFound);
  }

  function AnyConfig(service: string, metric: string): Result<Config, Error> {
    Success(ANY_CONFIG)
  }

  /** Metric "M" always applies; "N" does not apply to a null resource and crashes on any other. */
  function CrashesOnN(query: Query, resource: Value): Outcome {
    if query.metric == "M" then Ran(true, true) else if resource.Null? then Ran(false, false) else Crashed
  }

  function HidingTruth(): Truth {
    Truth(["M", "N"], AnyConfig, CodeOf)
  }

  function HidingRego(): Rego {
    Rego(v => [], q => true, CrashesOnN, v => true)
  }

  lemma HidingVerdicts()
    ensures Judge(HidingRego(), HidingTruth(), SERVICE_A, Null, "M").Applies?
    ensures Judge(HidingRego(), HidingTruth(), SERVICE_A, Null, "N").Inapplicable?
    ensures Judge(HidingRego(), HidingTruth(), SERVICE_A, Bool(true), "M").Applies?
    ensures Judge(HidingRego(), HidingTruth(), SERVICE_A, Bool(true), "N").Erroneous?
  {
    assert "M"[0] != "N"[0];
    assert AnyConfig(SERVICE_A, "M") == AnyConfig(SERVICE_A, "N") == Success(ANY_CONFIG);
    assert CodeOf("M") == CodeOf("N") == Success("");
    var m, n := Query("M", ANY_CONFIG, ""), Query("N", ANY_CONFIG, "");
    assert HidingRego().compiles(m) && HidingRego().compiles(n);
    assert CrashesOnN(m, Null) == CrashesOnN(m, Bool(true)) == Ran(true, true);
    assert CrashesOnN(n, Null) == Ran(false, false) && CrashesOnN(n, Bool(true)) == Crashed;
  }

  /** Only "M" applies to the first evidence; the second is in error, but not on "M". */
  lemma HidingLists()
    ensures Applicable(HidingRego(), HidingTruth(), SERVICE_A, Null, ["M", "N"]) == ["M"]
    ensures NoneErroneous(HidingRego(), HidingTruth(), SERVICE_A, Null, ["M", "N"])
    ensures !NoneErroneous(HidingRego(), HidingTruth(), SERVICE_A, Bool(true), ["M", "N"])
    ensures Servable(HidingRego(), HidingTruth(), SERVICE_A, Bool(true), ["M"])
  {
    hide Judge, HidingRego, HidingTruth;
    HidingVerdicts();
    var names := ["M", "N"];
    assert names[0] == "M" && names[1] == "N" && names[1..] == ["N"] && ["N"][1..] == [];
    ApplicableStep(HidingRego(), HidingTruth(), SERVICE_A, Null, names);
    ApplicableStep(HidingRego(), HidingTruth(), SERVICE_A, Null, ["N"]);
    assert !Judge(HidingRego(), HidingTruth(), SERVICE_A, Null, names[0]).Erroneous?;
    assert Judge(HidingRego(), HidingTruth(), SERVICE_A, Bool(true), names[1]).Erroneous?;
  }

  /**
  An error that plain evaluation reports can disappear: a metric that crashes on the second evidence
  did not apply to the first one, so it is not on the list and is not run.
  */
  lemma CachedListHidesError()
    ensures var rego, truth := HidingRego(), HidingTruth();
            var a, b := Evidence(SERVICE_A, "tool", [], Some(Null)), Evidence(SERVICE_A, "tool", [], Some(Bool(true)));
            var src := Steady(truth);
            && PlainEval(rego, truth, b).None?
            && Eval(rego, src, Eval(rego, src, EMPTY, a).caches, b).result.Success?
  {
    hide Eval, QueriesCurrent, Judge, ApplicabilityKey, Applicable, NoneErroneous, Servable;
    var rego, truth := HidingRego(), HidingTruth();
    var a, b := Evidence(SERVICE_A, "tool", [], Some(Null)), Evidence(SERVICE_A, "tool", [], Some(Bool(true)));
    HidingLists();
    assert |SERVICE_A| == UUID_LENGTH && AllDashFreeIds(["M", "N"]);
    FirstFills(rego, truth, a);
    ListHidesError(rego, truth, b, a, Eval(rego, Steady(truth), EMPTY, a).caches);
  }
}
