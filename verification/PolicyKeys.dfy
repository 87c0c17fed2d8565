/** Under every interleaving, cached queries are of the form that makes their keys decisive. */
module PolicyKeys {
  import opened CacheKeys
  import opened PolicyModel
  import opened PolicyAgreement
  import opened PolicyConcurrency
  import opened PolicyOrder

  /** With `strict`, configurations are those that the schema admits, over the target values in use. */
  predicate Admitted(rego: Rego, config: Config, strict: bool) {
    strict ==> AllowedConfig(rego, config)
  }

  predicate ProperEntry(rego: Rego, key: string, query: Query, service: string, strict: bool) {
    && DashFree(query.metric) && ValidService(service) && Admitted(rego, query.config, strict)
    && rego.compiles(query) && key == QueryKey(rego.render, query.metric, service, query.config)
  }

  ghost predicate QueriesProper(rego: Rego, queries: map<string, Query>, strict: bool) {
    forall key :: key in queries ==> exists service :: ProperEntry(rego, key, queries[key], service, strict)
  }

  ghost predicate ConfigsProper(rego: Rego, configs: map<(string, string), Config>, strict: bool) {
    forall k :: k in configs ==> Admitted(rego, configs[k], strict)
  }

  predicate PhaseKeyed(rego: Rego, p: Phase, strict: bool) {
    && (!p.NeedEvict? && !p.Evicting? && !p.Done? ==> ValidService(p.job.service))
    && (p.NeedQuery? || p.Looking? || p.Fetched? ==> DashFree(p.metric) && Admitted(rego, p.config, strict))
  }

  ghost predicate Keyed(rego: Rego, s: State, strict: bool) {
    && (forall i :: 0 <= i < |s.threads| ==> PhaseKeyed(rego, s.threads[i], strict))
    && QueriesProper(rego, s.queries, strict) && ConfigsProper(rego, s.source.configs, strict)
  }

  lemma PhaseStaysKeyed(rego: Rego, s: State, p: Phase, fails: bool, strict: bool)
    requires AllDashFreeIds(s.source.catalogue) && PhaseProper(s.source.catalogue, p)
    requires PhaseKeyed(rego, p, strict) && ConfigsProper(rego, s.source.configs, strict)
    ensures PhaseKeyed(rego, PhaseAfter(rego, s, p, fails), strict)
  {
    hide QueryKey, RunQuery, LoopProper, Admitted, Extend;
    if p.Scanning? && p.loop.rest != [] {
      TakenUp(s.source.catalogue, p.loop);
    }
  }

  /** A query is cached under its own key. */
  lemma QueriesStayProper(rego: Rego, queries: map<string, Query>, p: Phase, strict: bool)
    requires QueriesProper(rego, queries, strict) && PhaseKeyed(rego, p, strict)
    ensures QueriesProper(rego, QueriesAfter(rego, queries, p), strict)
  {
    hide QueryKey, Admitted;
    var queries' := QueriesAfter(rego, queries, p);
    forall key | key in queries'
      ensures exists service :: ProperEntry(rego, key, queries'[key], service, strict)
    {
      if key in queries && queries'[key] == queries[key] {
        var service :| ProperEntry(rego, key, queries[key], service, strict);
        assert ProperEntry(rego, key, queries'[key], service, strict);
      } else {
        assert ProperEntry(rego, key, queries'[key], p.job.service, strict);
      }
    }
  }

  /** What is asked of events: service ids are UUIDs, and configurations are admitted. */
  predicate ProperEvent(rego: Rego, e: Event, strict: bool) {
    && (e.StartEval? ==> ValidService(e.job.service))
    && (e.ChangeConfig? ==> Admitted(rego, e.config, strict))
  }

  predicate ProperEvents(rego: Rego, events: seq<Event>, strict: bool) {
    forall k :: 0 <= k < |events| ==> ProperEvent(rego, events[k], strict)
  }

  lemma StepKeepsKeyed(rego: Rego, s: State, i: nat, fails: bool, strict: bool)
    requires AllDashFreeIds(s.source.catalogue) && Proper(s) && Keyed(rego, s, strict) && CanStep(s, i)
    ensures Keyed(rego, Step(rego, s, i, fails), strict)
  {
    hide PhaseAfter, LocksAfter, QueriesAfter, ListsAfter, PhaseKeyed, PhaseProper, QueriesProper, ConfigsProper;
    hide ListsProper;
    PhaseStaysKeyed(rego, s, s.threads[i], fails, strict);
    QueriesStayProper(rego, s.queries, s.threads[i], strict);
  }

  lemma NextKeepsKeyed(rego: Rego, s: State, e: Event, strict: bool)
    requires AllDashFreeIds(s.source.catalogue) && Proper(s) && Keyed(rego, s, strict)
    requires Possible(s, e) && ProperEvent(rego, e, strict)
    ensures Keyed(rego, Next(rego, s, e), strict)
  {
    hide Step, Proper, QueriesProper, Admitted;
    if e.Run? {
      StepKeepsKeyed(rego, s, e.i, e.fails, strict);
    }
  }

  lemma {:induction false} RunKeepsKeyed(rego: Rego, s: State, events: seq<Event>, strict: bool)
    requires AllDashFreeIds(s.source.catalogue) && Proper(s) && Keyed(rego, s, strict)
    requires Executes(rego, s, events) && ProperEvents(rego, events, strict)
    ensures Keyed(rego, After(rego, s, events), strict)
    decreases |events|
  {
    hide Proper, Keyed, Next, ProperEvent;
    if events == [] {
    } else {
      assert ProperEvent(rego, events[0], strict);
      NextKeepsKeyed(rego, s, events[0], strict);
      NextKeepsProper(rego, s, events[0]);
      RunKeepsKeyed(rego, Next(rego, s, events[0]), events[1..], strict);
    }
  }
}
