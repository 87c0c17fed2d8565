/**
When the configuration in a cached query, and with it the metadata in results, is the current one.
The configuration is fetched before the query lock is taken, so a handled event is no guarantee.
*/
module PolicyMetadata {
  import opened Wrappers
  import opened CacheKeys
  import opened PolicyModel
  import opened PolicyConcurrency
  import opened PolicyCoherence

  /** `config` is the current configuration, or an event about the metric is still to be handled. */
  predicate ConfigCurrent(s: State, service: string, m: string, config: Config) {
    m in s.pendingConfigs || ((service, m) in s.source.configs && s.source.configs[(service, m)] == config)
  }

  ghost predicate EntryFresh(rego: Rego, s: State, key: string, query: Query) {
    exists service :: KeyFits(rego, key, query, service) && ConfigCurrent(s, service, query.metric, query.config)
  }

  ghost predicate AllFresh(rego: Rego, s: State) {
    forall key :: key in s.queries ==> EntryFresh(rego, s, key, s.queries[key])
  }

  /** Metric and configuration leave only one service for a key. */
  lemma ServiceUnique(rego: Rego, key: string, query: Query, service: string, service': string)
    requires KeyFits(rego, key, query, service) && KeyFits(rego, key, query, service')
    ensures service == service'
  {
    hide Hash;
    var h, n := Hash(rego.render, query.config), |query.metric| + 1;
    assert key == query.metric + "-" + service + "-" + h == query.metric + "-" + service' + "-" + h;
    assert |service| == |service'|;
    assert service == key[n..n + |service|] == service';
  }

  /** If the step stores a query, its configuration is still the current one. */
  predicate StoresCurrent(rego: Rego, s: State, e: Event) {
    e.Run? && e.i < |s.threads| && s.threads[e.i].Fetched? ==>
      var Fetched(job, _, m, config, code) := s.threads[e.i];
      rego.compiles(Query(m, config, code)) ==> ConfigCurrent(s, job.service, m, config)
  }

  /** A step leaves the configurations alone, and an event about a metric goes away with its entries. */
  lemma StepEntryFresh(rego: Rego, s: State, i: nat, fails: bool, key: string)
    requires AllFresh(rego, s) && CanStep(s, i) && StoresCurrent(rego, s, Run(i, fails))
    requires key in Step(rego, s, i, fails).queries
    ensures var s' := Step(rego, s, i, fails); EntryFresh(rego, s', key, s'.queries[key])
  {
    hide QueryKey, PhaseAfter, LocksAfter, QueriesAfter, ListsAfter;
    var p, s' := s.threads[i], Step(rego, s, i, fails);
    var query := s'.queries[key];
    EntryOrigin(rego, s.queries, p, key);
    if key in s.queries && s.queries[key] == query && (p.Evicting? ==> !(p.metric <= key)) {
      var service :| KeyFits(rego, key, query, service) && ConfigCurrent(s, service, query.metric, query.config);
      KeyBeginsWithMetric(rego.render, query.metric, service, query.config);
      assert KeyFits(rego, key, query, service) && ConfigCurrent(s', service, query.metric, query.config);
    } else {
      assert KeyFits(rego, key, query, p.job.service) && ConfigCurrent(s', p.job.service, query.metric, query.config);
    }
  }

  /** A change of a configuration adds its event. */
  lemma ChangeEntryFresh(rego: Rego, s: State, e: Event, key: string)
    requires AllFresh(rego, s) && !e.Run? && key in s.queries
    ensures EntryFresh(rego, Next(rego, s, e), key, s.queries[key])
  {
    hide QueryKey;
    var s', query := Next(rego, s, e), s.queries[key];
    var service :| KeyFits(rego, key, query, service) && ConfigCurrent(s, service, query.metric, query.config);
    assert KeyFits(rego, key, query, service) && ConfigCurrent(s', service, query.metric, query.config);
  }

  lemma StoringOutdated(rego: Rego, s: State, e: Event)
    requires Possible(s, e) && !StoresCurrent(rego, s, e)
    ensures !AllFresh(rego, Next(rego, s, e))
  {
    hide QueryKey, PhaseAfter, LocksAfter, ListsAfter;
    var s' := Next(rego, s, e);
    var Fetched(job, _, m, config, code) := s.threads[e.i];
    var key, query := QueryKey(rego.render, m, job.service, config), Query(m, config, code);
    assert key in s'.queries && s'.queries[key] == query;
    forall service | KeyFits(rego, key, query, service)
      ensures !ConfigCurrent(s', service, m, config)
    {
      ServiceUnique(rego, key, query, service, job.service);
    }
    assert !EntryFresh(rego, s', key, query);
  }

  ghost predicate AlwaysFresh(rego: Rego, s: State, events: seq<Event>)
    requires Executes(rego, s, events)
    decreases |events|
  {
    AllFresh(rego, s) && (events == [] || AlwaysFresh(rego, Next(rego, s, events[0]), events[1..]))
  }

  predicate AlwaysStoresCurrent(rego: Rego, s: State, events: seq<Event>)
    requires Executes(rego, s, events)
    decreases |events|
  {
    events == []
    || (StoresCurrent(rego, s, events[0]) && AlwaysStoresCurrent(rego, Next(rego, s, events[0]), events[1..]))
  }

  lemma {:induction false} FreshFrom(rego: Rego, s: State, events: seq<Event>)
    requires AllFresh(rego, s) && Executes(rego, s, events)
    ensures AlwaysFresh(rego, s, events) <==> AlwaysStoresCurrent(rego, s, events)
    decreases |events|
  {
    hide AllFresh, StoresCurrent, Next;
    if events == [] {
    } else if StoresCurrent(rego, s, events[0]) {
      NextIsFresh(rego, s, events[0]);
      FreshFrom(rego, Next(rego, s, events[0]), events[1..]);
    } else {
      StoringOutdated(rego, s, events[0]);
    }
  }

  lemma NextIsFresh(rego: Rego, s: State, e: Event)
    requires AllFresh(rego, s) && Possible(s, e) && StoresCurrent(rego, s, e)
    ensures AllFresh(rego, Next(rego, s, e))
  {
    hide EntryFresh, Step, StoresCurrent;
    forall key | key in Next(rego, s, e).queries
      ensures EntryFresh(rego, Next(rego, s, e), key, Next(rego, s, e).queries[key])
    {
      if e.Run? {
        StepEntryFresh(rego, s, e.i, e.fails, key);
      } else {
        ChangeEntryFresh(rego, s, e, key);
      }
    }
  }

  /**
  In every state of a run, every cached query without a pending event about its metric has the
  current configuration, metadata included, exactly if the run never stores one that was changed,
  and the change handled, after the goroutine fetched it.
  */
  lemma FreshExactly(rego: Rego, source: Contents, events: seq<Event>)
    requires Executes(rego, Start(source), events)
    ensures AlwaysFresh(rego, Start(source), events) <==> AlwaysStoresCurrent(rego, Start(source), events)
  {
    FreshFrom(rego, Start(source), events);
  }

  // ---------------------------------------------------------------- a run that goes wrong

  /** An evaluation fills a list and has just fetched the configuration of its first metric. */
  lemma HasFetched(rego: Rego, source: Contents, job: Job, m: string) returns (s: State)
    requires source.catalogue == [m] && (job.service, m) in source.configs
    ensures Reachable(rego, source, s) && s.queries == map[] && s.source == source
    ensures s.pending == s.pendingConfigs == multiset{} && s.locks.query.None?
    ensures s.threads == [NeedQuery(job, Filling([], [], []), m, source.configs[(job.service, m)])]
  {
    hide Reachable;
    StartReachable(rego, source);
    s := Then(rego, source, Start(source), StartEval(job));
    s := Then(rego, source, s, Run(0, false));
    s := Then(rego, source, s, Run(0, false));
    assert s.threads == [Listing(job)] && s.locks == Locks({}, None, {}, None);
    s := Then(rego, source, s, Run(0, false));
    s := Then(rego, source, s, Run(0, false));
    assert s.threads == [AwaitWrite(job, [m])];
    s := Then(rego, source, s, Run(0, false));
    s := Then(rego, source, s, Run(0, false));
    assert [m][1..] == [];
  }

  /** Meanwhile the configuration changes, and the event is handled to the end. */
  lemma ChangeIsHandled(rego: Rego, source: Contents, s: State, service: string, m: string, config: Config)
    returns (s': State)
    requires Reachable(rego, source, s) && |s.threads| == 1 && s.locks.query.None?
    requires s.queries == map[] && s.pending == s.pendingConfigs == multiset{}
    ensures Reachable(rego, source, s') && s'.threads == s.threads + [Done(None)] && s'.locks == s.locks
    ensures s'.source == s.source.(configs := s.source.configs[(service, m) := config])
    ensures s'.queries == map[] && s'.pending == s'.pendingConfigs == multiset{}
  {
    hide Reachable;
    s' := Then(rego, source, s, ChangeConfig(service, m, config));
    s' := Then(rego, source, s', StartHandler(m));
    s' := Then(rego, source, s', Run(1, false));
    assert s'.threads == s.threads + [Evicting(m)];
    s' := Then(rego, source, s', Run(1, false));
    assert multiset{m} - multiset{m} == multiset{};
  }

  /**
  So with every event handled, an outdated configuration can still be in the cache: whatever metric,
  service and configurations, if the implementation compiles.
  */
  lemma HandledChangeIsMissed(rego: Rego, job: Job, m: string, code: string, before: Config, after: Config)
    requires rego.compiles(Query(m, before, code))
    ensures exists s ::
      && Reachable(rego, Contents([m], map[m := code], map[(job.service, m) := before]), s)
      && s.pending == s.pendingConfigs == multiset{} && s.source.configs == map[(job.service, m) := after]
      && QueryKey(rego.render, m, job.service, before) in s.queries
      && s.queries[QueryKey(rego.render, m, job.service, before)].config == before
  {
    hide Reachable, QueryKey, Step;
    var source := Contents([m], map[m := code], map[(job.service, m) := before]);
    var s := HasFetched(rego, source, job, m);
    s := ChangeIsHandled(rego, source, s, job.service, m, after);
    assert s.source.configs == map[(job.service, m) := after];
    s := StoresWhatItFetched(rego, source, s, 0);
  }

  /** Three steps of a goroutine that has fetched its configuration cache it, whatever the source says now. */
  lemma StoresWhatItFetched(rego: Rego, source: Contents, s: State, i: nat) returns (s': State)
    requires Reachable(rego, source, s) && CanStep(s, i) && s.threads[i].NeedQuery?
    requires var NeedQuery(job, _, m, config) := s.threads[i];
             && QueryKey(rego.render, m, job.service, config) !in s.queries && m in s.source.code
             && rego.compiles(Query(m, config, s.source.code[m]))
    ensures Reachable(rego, source, s')
    ensures var NeedQuery(job, _, m, config) := s.threads[i];
            var key := QueryKey(rego.render, m, job.service, config);
            && key in s'.queries && s'.queries[key].config == config
            && s'.source == s.source && s'.pending == s.pending && s'.pendingConfigs == s.pendingConfigs
  {
    hide QueryKey, Reachable;
    s' := Then(rego, source, s, Run(i, false));
    s' := Then(rego, source, s', Run(i, false));
    assert s'.threads[i].Fetched?;
    s' := Then(rego, source, s', Run(i, false));
  }
}
