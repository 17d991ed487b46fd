/** Incremental indexing compared with rebuilding everything, and what queries
    over the call graph can tell of the difference (internal/app/indexing.go,
    internal/app/rebuild.go). */
module Rebuild {
  import opened Common
  import opened Formatting
  import opened IndexState
  import V = VectorStore
  import G = CallGraph
  import S = SymbolIndex
  import H = SimhashIndex
  import SplitGraph
  import T = TracePath

  /** No structure holds anything of files outside the listing. */
  ghost predicate NothingElse(s: State, listed: map<string, string>) {
    forall path :: path !in listed ==> Restrict(s, path) == EMPTY
  }

  /** A file without traces in one of two states that agree up to list order has
      none in the other. */
  lemma AbsentInBoth(a: State, b: State, path: string)
    requires SameUpToOrder(a, b) && Restrict(b, path) == EMPTY
    ensures Restrict(a, path) == EMPTY
  {
    NoneKept(G.SourceAt(b.graph.nodes, path), a.graph.edges, b.graph.edges);
    NoneKept(H.FromPath(path), a.simhash, b.simhash);
    NoSymbols(a, b, path);
    assert Restrict(a, path).store == Restrict(b, path).store;
    assert G.Restrict(a.graph, path).nodes == G.Restrict(b.graph, path).nodes;
  }

  lemma NoneKept<T>(keep: T -> bool, a: seq<T>, b: seq<T>)
    requires multiset(a) == multiset(b) && Filter(keep, b) == []
    ensures Filter(keep, a) == []
  {
    SameMembers(a, b);
    FilterMembers(keep, b);
    assert forall x :: x in b ==> x in Filter(keep, b) || !keep(x);
    FilterNone(keep, a);
  }

  lemma NoSymbols(a: State, b: State, path: string)
    requires forall key :: multiset(S.Locations(a.symbols, key)) == multiset(S.Locations(b.symbols, key))
    requires S.Restrict(b.symbols, path) == map[]
    ensures S.Restrict(a.symbols, path) == map[]
  {
    forall key
      ensures key !in S.Restrict(a.symbols, path)
    {
      var la, lb := S.Locations(a.symbols, key), S.Locations(b.symbols, key);
      assert multiset(la) == multiset(lb);
      SameMembers(la, lb);
      S.LocationsSelected(b.symbols, S.FromPath(path), key);
      FilterMembers(S.FromPath(path), la);
      FilterMembers(S.FromPath(path), lb);
      assert Filter(S.FromPath(path), lb) == [];
      assert forall l :: l in la ==> !S.FromPath(path)(l);
      FilterNone(S.FromPath(path), la);
    }
  }

  /** An incremental run and a rebuild from nothing, over the same files, agree
      (up to list order) exactly when nothing is left of files outside the
      listing, which a caller can look up before the run. */
  lemma IncrementalEqualsRebuild(t: Tools, step: Step, s: State, incremental: State, rebuilt: State)
    requires Trusted(t) && Coherent(t, s) && Complete(step)
    requires Takes(t, step, s, incremental) && Takes(t, step, EMPTY, rebuilt)
    ensures SameUpToOrder(incremental, rebuilt) <==> NothingElse(s, step.listed)
  {
    EmptyIsCoherent(t);
    forall path
      ensures Restrict(incremental, path)
        == (if path in step.listed then ScratchFile(t, path, step.listed[path]) else Restrict(s, path))
      ensures Restrict(rebuilt, path)
        == (if path in step.listed then ScratchFile(t, path, step.listed[path]) else EMPTY)
    {
      CompleteRunRefinesScratch(t, step, s, incremental, path);
      CompleteRunRefinesScratch(t, step, EMPTY, rebuilt, path);
      RestrictEmpty(path);
    }
    if NothingElse(s, step.listed) {
      forall path
        ensures Restrict(incremental, path) == Restrict(rebuilt, path)
      {
        assert path !in step.listed ==> Restrict(s, path) == EMPTY;
      }
      PartsDetermineWhole(t, incremental, rebuilt);
    }
    if SameUpToOrder(incremental, rebuilt) {
      forall path | path !in step.listed
        ensures Restrict(s, path) == EMPTY
      {
        AbsentInBoth(incremental, rebuilt, path);
      }
    }
  }

  /** States that agree up to list order answer every trace alike. */
  lemma SameTraces(a: State, b: State, from: string, to: string, scope: string, maxDepth: nat,
                   r: T.TraceResult, r': T.TraceResult)
    requires SameUpToOrder(a, b)
    requires T.Answers(a.graph, from, to, scope, maxDepth, r) && T.Answers(b.graph, from, to, scope, maxDepth, r')
    ensures r.found == r'.found && r.depth == r'.depth
  {
    SameMembers(a.graph.edges, b.graph.edges);
    assert SplitGraph.Equivalent(a.graph, b.graph);
    SplitGraph.EquivalentTraces(a.graph, b.graph, from, to, scope, maxDepth, r, r');
  }

  /** Rebuilding a project: deletion by prefix followed by a completed run. Every
      listed file ends as indexed from scratch, and every other file under the
      prefix that had a stored hash is gone. */
  lemma RebuildOutcome(t: Tools, prefix: string, index: Step, s: State, cleared: State, s': State, path: string)
    requires Trusted(t) && Coherent(t, s) && Complete(index)
    requires Takes(t, DeletePrefix(prefix), s, cleared) && Takes(t, index, cleared, s')
    ensures path in index.listed ==> Restrict(s', path) == ScratchFile(t, path, index.listed[path])
    ensures path !in index.listed && IsUnderPath(path, prefix) ==>
      (Restrict(s', path) == EMPTY <==> path in s.store.hashes || Restrict(s, path) == EMPTY)
    ensures path !in index.listed && !IsUnderPath(path, prefix) ==> Restrict(s', path) == Restrict(s, path)
  {
    StepKeepsCoherence(t, DeletePrefix(prefix), s, cleared);
    CompleteRunRefinesScratch(t, index, cleared, s', path);
    assert Restrict(cleared, path) == FileEffect(t, DeletePrefix(prefix), Restrict(s, path), path);
    if IsUnderPath(path, prefix) {
      DeletionIsComplete(t, DeletePrefix(prefix), s, cleared, path);
    }
  }
}
