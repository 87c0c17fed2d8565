/** What every interleaving of evaluators, event handlers and source changes keeps. */
module PolicyCoherence {
  import opened CacheKeys
  import opened PolicyModel
  import opened PolicyConcurrency

  /** `code` is the current implementation of the metric, or an event about it is still to be handled. */
  predicate UpToDate(s: State, metric: string, code: string) {
    metric in s.pending || (metric in s.source.code && s.source.code[metric] == code)
  }

  /** The key of an entry holds the entry's metric and the hash of its configuration. */
  predicate KeyFits(rego: Rego, key: string, query: Query, service: string) {
    key == QueryKey(rego.render, query.metric, service, query.config)
  }

  ghost predicate EntryCoherent(rego: Rego, s: State, key: string, query: Query) {
    UpToDate(s, query.metric, query.code) && exists service :: KeyFits(rego, key, query, service)
  }

  predicate PhaseCoherent(s: State, p: Phase) {
    p.Fetched? ==> UpToDate(s, p.metric, p.code)
  }

  /**
  Every cached query, and every implementation that a goroutine has fetched and is about to cache,
  is the current one unless an event about it is pending.
  */
  ghost predicate Coherent(rego: Rego, s: State) {
    && (forall key :: key in s.queries ==> EntryCoherent(rego, s, key, s.queries[key]))
    && (forall i :: 0 <= i < |s.threads| ==> PhaseCoherent(s, s.threads[i]))
  }

  /** Fetching under the query lock: what is fetched is current at that moment. */
  lemma OnlyLookingFetches(rego: Rego, s: State, p: Phase, fails: bool)
    ensures var p' := PhaseAfter(rego, s, p, fails);
            p'.Fetched? ==> p'.metric in s.source.code && p'.code == s.source.code[p'.metric]
  {
    hide QueryKey, RunQuery;
  }

  /** While a goroutine evicts, none can be about to store what the event outdated. */
  lemma EvictingExcludesFetched(s: State, i: nat, j: nat)
    requires LocksMatch(s) && i < |s.threads| && s.threads[i].Evicting? && j < |s.threads|
    ensures !s.threads[j].Fetched?
  {
    assert Owns(s.locks, i, s.threads[i]) && Owns(s.locks, j, s.threads[j]);
  }

  /** An entry that a step leaves or makes is coherent afterwards. */
  lemma EntryStays(rego: Rego, s: State, i: nat, fails: bool, key: string)
    requires Coherent(rego, s) && CanStep(s, i) && key in Step(rego, s, i, fails).queries
    ensures var s' := Step(rego, s, i, fails); EntryCoherent(rego, s', key, s'.queries[key])
  {
    hide QueryKey, PhaseAfter, LocksAfter, QueriesAfter, ListsAfter;
    var p, s' := s.threads[i], Step(rego, s, i, fails);
    var query := s'.queries[key];
    EntryOrigin(rego, s.queries, p, key);
    if key in s.queries && s.queries[key] == query && (p.Evicting? ==> !(p.metric <= key)) {
      assert EntryCoherent(rego, s, key, query);
      var service :| KeyFits(rego, key, query, service);
      KeyBeginsWithMetric(rego.render, query.metric, service, query.config);
      assert KeyFits(rego, key, query, service);
    } else {
      assert PhaseCoherent(s, p);
      assert KeyFits(rego, key, query, p.job.service);
    }
  }

  /** Every step of every goroutine keeps the query cache coherent. */
  lemma StepKeepsCoherence(rego: Rego, s: State, i: nat, fails: bool)
    requires Coherent(rego, s) && LocksMatch(s) && CanStep(s, i)
    ensures Coherent(rego, Step(rego, s, i, fails))
  {
    hide PhaseAfter, LocksAfter, QueriesAfter, ListsAfter, EntryCoherent, LocksMatch;
    var p, s' := s.threads[i], Step(rego, s, i, fails);
    OnlyLookingFetches(rego, s, p, fails);
    PhaseFollows(rego, s, p, fails);
    forall j: nat | j < |s'.threads|
      ensures PhaseCoherent(s', s'.threads[j])
    {
      assert PhaseCoherent(s, s.threads[j]);
      if p.Evicting? {
        EvictingExcludesFetched(s, i, j);
      }
    }
    forall key | key in s'.queries
      ensures EntryCoherent(rego, s', key, s'.queries[key])
    {
      EntryStays(rego, s, i, fails, key);
    }
  }

  lemma NextKeepsCoherence(rego: Rego, s: State, e: Event)
    requires Coherent(rego, s) && LocksMatch(s) && Possible(s, e)
    ensures Coherent(rego, Next(rego, s, e))
  {
    hide Step, QueryKey, LocksMatch;
    if e.Run? {
      StepKeepsCoherence(rego, s, e.i, e.fails);
    } else {
      var s' := Next(rego, s, e);
      forall key | key in s'.queries
        ensures EntryCoherent(rego, s', key, s'.queries[key])
      {
        assert EntryCoherent(rego, s, key, s.queries[key]);
      }
    }
  }

  lemma {:induction false} RunKeepsInvariants(rego: Rego, s: State, events: seq<Event>)
    requires Coherent(rego, s) && LocksMatch(s) && Executes(rego, s, events)
    ensures Coherent(rego, After(rego, s, events)) && LocksMatch(After(rego, s, events))
    decreases |events|
  {
    hide Coherent, LocksMatch, Next;
    if events == [] {
    } else {
      NextKeepsCoherence(rego, s, events[0]);
      NextKeepsLocks(rego, s, events[0]);
      RunKeepsInvariants(rego, Next(rego, s, events[0]), events[1..]);
    }
  }

  /**
  Whatever the interleaving, in every reachable state, also while a goroutine holds the query lock
  with a fetched implementation: a cached query of a metric without a pending event was compiled
  from the metric's current implementation, and from a configuration whose hash is in its key.
  */
  lemma QueryCacheIsCoherent(rego: Rego, source: Contents, events: seq<Event>, key: string)
    requires Executes(rego, Start(source), events) && key in After(rego, Start(source), events).queries
    ensures var s := After(rego, Start(source), events);
            var query := s.queries[key];
            && (query.metric !in s.pending ==>
                  query.metric in s.source.code && query.code == s.source.code[query.metric])
            && exists service :: key == QueryKey(rego.render, query.metric, service, query.config)
  {
    hide Executes, After, QueryKey;
    RunKeepsInvariants(rego, Start(source), events);
    var s := After(rego, Start(source), events);
    assert EntryCoherent(rego, s, key, s.queries[key]);
    var service :| KeyFits(rego, key, s.queries[key], service);
  }

  /** No interleaving deadlocks: while any goroutine is unfinished, some goroutine can step. */
  lemma NoDeadlock(rego: Rego, source: Contents, events: seq<Event>)
    requires Executes(rego, Start(source), events)
    ensures var s := After(rego, Start(source), events);
            (exists i :: 0 <= i < |s.threads| && !s.threads[i].Done?) ==> exists j :: CanStep(s, j)
  {
    hide Executes, After, CanStep;
    RunKeepsInvariants(rego, Start(source), events);
    var s := After(rego, Start(source), events);
    if i :| 0 <= i < |s.threads| && !s.threads[i].Done? {
      var j := SomeoneCanStep(s, i);
    }
  }

  lemma {:induction false} RunKeepsExclusive(rego: Rego, s: State, events: seq<Event>)
    requires Exclusive(s.locks) && Executes(rego, s, events)
    ensures Exclusive(After(rego, s, events).locks)
    decreases |events|
  {
    hide Exclusive, Next;
    if events == [] {
    } else {
      NextKeepsExclusive(rego, s, events[0]);
      RunKeepsExclusive(rego, Next(rego, s, events[0]), events[1..]);
    }
  }

  /**
  In every reachable state: while one goroutine fills a list no other one fills or reads any, only one
  is inside the query cache, and no reader gets in while a goroutine is waiting to fill.
  */
  lemma SectionsExclude(rego: Rego, source: Contents, events: seq<Event>, i: nat, j: nat)
    requires Executes(rego, Start(source), events)
    requires var n := |After(rego, Start(source), events).threads|; i < n && j < n && i != j
    ensures var s := After(rego, Start(source), events);
            var p, q := s.threads[i], s.threads[j];
            && (HoldsWrite(p) ==> !HoldsWrite(q) && !q.Reading?)
            && (HoldsQuery(p) ==> !HoldsQuery(q))
            && (p.AwaitWrite? && q.NeedRead? ==> !CanStep(s, j))
  {
    hide Executes, After;
    RunKeepsInvariants(rego, Start(source), events);
    RunKeepsExclusive(rego, Start(source), events);
    var s := After(rego, Start(source), events);
    assert Owns(s.locks, i, s.threads[i]) && Owns(s.locks, j, s.threads[j]);
  }

  // ---------------------------------------------------------------- changes

  /** `e` changes the implementation of `m`, or its configuration for `service`. */
  predicate Touches(e: Event, m: string, service: string) {
    (e.ChangeCode? && e.metric == m) || (e.ChangeConfig? && e.metric == m && e.service == service)
  }

  predicate Untouched(events: seq<Event>, m: string, service: string) {
    forall k :: 0 <= k < |events| ==> !Touches(events[k], m, service)
  }

  predicate SameFor(a: Contents, b: Contents, m: string, service: string) {
    && (m in a.code <==> m in b.code) && (m in a.code ==> a.code[m] == b.code[m])
    && ((service, m) in a.configs <==> (service, m) in b.configs)
    && ((service, m) in a.configs ==> a.configs[(service, m)] == b.configs[(service, m)])
  }

  lemma {:induction false} SourceRests(rego: Rego, s: State, events: seq<Event>, m: string, service: string)
    requires Executes(rego, s, events) && Untouched(events, m, service)
    ensures SameFor(s.source, After(rego, s, events).source, m, service)
    decreases |events|
  {
    hide Step;
    if events == [] {
    } else {
      SourceRests(rego, Next(rego, s, events[0]), events[1..], m, service);
      SourceStays(rego, s, events[0], m, service);
    }
  }

  lemma SourceStays(rego: Rego, s: State, e: Event, m: string, service: string)
    requires Possible(s, e) && !Touches(e, m, service)
    ensures SameFor(s.source, Next(rego, s, e).source, m, service)
  {
    hide PhaseAfter, LocksAfter, QueriesAfter, ListsAfter;
  }

  /**
  From any state, whatever runs after it: a change of an implementation or of a configuration is what
  the source holds until the next change of it, and it is announced by one more event about its metric.
  */
  lemma LatestChangeHolds(rego: Rego, s: State, e: Event, events: seq<Event>, m: string, service: string)
    requires (e.ChangeCode? && e.metric == m) || (e.ChangeConfig? && e.metric == m && e.service == service)
    requires Executes(rego, Next(rego, s, e), events) && Untouched(events, m, service)
    ensures var source := After(rego, Next(rego, s, e), events).source;
            && (e.ChangeCode? ==> m in source.code && source.code[m] == e.code)
            && (e.ChangeConfig? ==> (service, m) in source.configs && source.configs[(service, m)] == e.config)
    ensures var s' := Next(rego, s, e);
            if e.ChangeCode? then s'.pending[m] == s.pending[m] + 1 else s'.pendingConfigs[m] == s.pendingConfigs[m] + 1
  {
    hide Executes, After, Step;
    SourceRests(rego, Next(rego, s, e), events, m, service);
  }
}
