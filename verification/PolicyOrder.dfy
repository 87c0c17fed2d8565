/** Under every interleaving, cached lists hold metrics of the catalogue, in its order. */
module PolicyOrder {
  import opened Wrappers
  import opened CacheKeys
  import opened PolicyModel
  import opened PolicyChanges
  import opened PolicyConcurrency

  ghost predicate ListsProper(catalogue: seq<string>, lists: map<string, Option<seq<string>>>) {
    forall key :: key in lists && lists[key].Some? ==> Subsequence(lists[key].value, catalogue)
  }

  /** What a loop has put on its list and what it still has to do are metrics of the catalogue, in order. */
  predicate LoopProper(catalogue: seq<string>, loop: Loop, todo: seq<string>) {
    Subsequence(if loop.Filling? then loop.names + todo else todo, catalogue)
  }

  predicate PhaseProper(catalogue: seq<string>, p: Phase) {
    match p
    case NeedWrite(_, metrics) => metrics == catalogue
    case AwaitWrite(_, metrics) => metrics == catalogue
    case Scanning(_, loop) => LoopProper(catalogue, loop, loop.rest)
    case NeedQuery(_, loop, m, _) => LoopProper(catalogue, loop, [m] + loop.rest)
    case Looking(_, loop, m, _) => LoopProper(catalogue, loop, [m] + loop.rest)
    case Fetched(_, loop, m, _, _) => LoopProper(catalogue, loop, [m] + loop.rest)
    case Running(_, loop, m, _) => LoopProper(catalogue, loop, [m] + loop.rest)
    case _ => true
  }

  ghost predicate Proper(s: State) {
    && (forall i :: 0 <= i < |s.threads| ==> PhaseProper(s.source.catalogue, s.threads[i]))
    && ListsProper(s.source.catalogue, s.lists)
  }

  /** The metric at hand is one of the catalogue; done with it, put on the list or not, a loop is proper. */
  lemma OneLess(catalogue: seq<string>, loop: Loop, m: string)
    requires LoopProper(catalogue, loop, [m] + loop.rest)
    ensures m in catalogue
    ensures LoopProper(catalogue, loop, loop.rest)
    ensures forall finding :: LoopProper(catalogue, Extend(loop, m, finding), loop.rest)
  {
    hide Subsequence;
    var names := if loop.Filling? then loop.names else [];
    assert names + ([m] + loop.rest) == names + [m] + loop.rest;
    assert [] + ([m] + loop.rest) == [m] + loop.rest && [] + loop.rest == loop.rest;
    assert (names + [m] + loop.rest)[|names|] == m;
    SubsequenceElement(names + [m] + loop.rest, catalogue, |names|);
    SubsequenceDrop(names, m, loop.rest, catalogue);
  }

  /** Taking the next metric up. */
  lemma TakenUp(catalogue: seq<string>, loop: Loop)
    requires loop.rest != [] && LoopProper(catalogue, loop, loop.rest)
    ensures LoopProper(catalogue, Tail(loop), [loop.rest[0]] + Tail(loop).rest)
    ensures LoopProper(catalogue, Tail(loop), Tail(loop).rest) && loop.rest[0] in catalogue
  {
    hide Subsequence;
    assert [loop.rest[0]] + Tail(loop).rest == loop.rest;
    OneLess(catalogue, Tail(loop), loop.rest[0]);
  }

  lemma PhaseStaysProper(rego: Rego, s: State, p: Phase, fails: bool)
    requires PhaseProper(s.source.catalogue, p) && ListsProper(s.source.catalogue, s.lists)
    ensures PhaseProper(s.source.catalogue, PhaseAfter(rego, s, p, fails))
  {
    hide QueryKey, RunQuery, LoopProper;
    var catalogue := s.source.catalogue;
    match p
    case Reading(job) => ReadIsProper(s, job);
    case AwaitWrite(_, metrics) => WholeIsProper(catalogue);
    case Scanning(_, loop) =>
      if loop.rest != [] {
        TakenUp(catalogue, loop);
      }
    case Looking(_, loop, m, _) => OneLess(catalogue, loop, m);
    case Running(_, loop, m, _) => OneLess(catalogue, loop, m);
    case _ =>
  }

  lemma ReadIsProper(s: State, job: Job)
    requires ListsProper(s.source.catalogue, s.lists)
    ensures PhaseProper(s.source.catalogue, AfterReading(s, job))
  {
    hide Subsequence;
  }

  lemma WholeIsProper(catalogue: seq<string>)
    ensures LoopProper(catalogue, Filling(catalogue, [], []), catalogue)
  {
    SubsequenceSelf(catalogue);
    assert [] + catalogue == catalogue;
  }

  /** A list is stored when nothing is left to do. */
  lemma ListsStayProper(rego: Rego, s: State, p: Phase, fails: bool)
    requires PhaseProper(s.source.catalogue, p) && ListsProper(s.source.catalogue, s.lists)
    ensures ListsProper(s.source.catalogue, ListsAfter(s.lists, p, PhaseAfter(rego, s, p, fails)))
  {
    hide QueryKey, RunQuery, Subsequence;
    if HoldsWrite(p) {
      assert p.loop.names + [] == p.loop.names;
    }
  }

  lemma StepKeepsProper(rego: Rego, s: State, i: nat, fails: bool)
    requires Proper(s) && CanStep(s, i)
    ensures Proper(Step(rego, s, i, fails))
  {
    hide PhaseAfter, LocksAfter, QueriesAfter, ListsAfter, PhaseProper, ListsProper;
    PhaseStaysProper(rego, s, s.threads[i], fails);
    ListsStayProper(rego, s, s.threads[i], fails);
  }

  lemma NextKeepsProper(rego: Rego, s: State, e: Event)
    requires Proper(s) && Possible(s, e)
    ensures Proper(Next(rego, s, e)) && Next(rego, s, e).source.catalogue == s.source.catalogue
  {
    hide ListsProper, LoopProper, PhaseAfter, LocksAfter, QueriesAfter, ListsAfter;
    if e.Run? {
      StepKeepsProper(rego, s, e.i, e.fails);
    }
  }

  lemma {:induction false} RunKeepsProper(rego: Rego, s: State, events: seq<Event>)
    requires Proper(s) && Executes(rego, s, events)
    ensures Proper(After(rego, s, events)) && After(rego, s, events).source.catalogue == s.source.catalogue
    decreases |events|
  {
    hide Proper, Next;
    if events == [] {
    } else {
      NextKeepsProper(rego, s, events[0]);
      RunKeepsProper(rego, Next(rego, s, events[0]), events[1..]);
    }
  }

  /** However evaluators, handlers and changes interleave, every cached list is in the catalogue's order. */
  lemma ListsStayOrdered(rego: Rego, source: Contents, events: seq<Event>, key: string)
    requires Executes(rego, Start(source), events)
    ensures var lists := After(rego, Start(source), events).lists;
            key in lists && lists[key].Some? ==> Subsequence(lists[key].value, source.catalogue)
  {
    hide Executes, After, Subsequence;
    RunKeepsProper(rego, Start(source), events);
  }
}
