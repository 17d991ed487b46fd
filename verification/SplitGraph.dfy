/** Splitting oversized chunks does not change what the call graph means
    (internal/chunker/split.go feeding internal/graph/graph.go). */
module SplitGraph {
  import opened Common
  import opened Chunks
  import opened Splitter
  import opened CallGraph
  import opened GraphOps
  import opened TracePath

  /** Two nodes that differ at most in their line ranges. */
  predicate SameDefinition(m: Node, n: Node) {
    m.id == n.id && m.path == n.path && m.symbol == n.symbol && m.kind == n.kind && m.language == n.language
  }

  /** Equal up to the line ranges of nodes and the multiplicity and order of edges. */
  ghost predicate Equivalent(g: GraphState, h: GraphState) {
    && g.nodes.Keys == h.nodes.Keys
    && (forall id :: id in g.nodes ==> SameDefinition(g.nodes[id], h.nodes[id]))
    && Elements(g.edges) == Elements(h.edges)
    && g.files == h.files
  }

  lemma ElementsConcat<T>(a: seq<T>, b: seq<T>)
    ensures Elements(a + b) == Elements(a) + Elements(b)
  {
  }

  lemma AddAlike(g: GraphState, h: GraphState, c: Chunk, x: Chunk)
    requires Equivalent(g, h) && SameSymbol(x, c)
    ensures Equivalent(Added(g, c), Added(h, x))
  {
    if Callable(c) {
      ElementsConcat(g.edges, CallEdges(NodeOf(c).id, c.calls));
      ElementsConcat(h.edges, CallEdges(NodeOf(c).id, c.calls));
    }
  }

  /** Adding a second piece of a chunk that is already there changes nothing. */
  lemma AddAgain(g: GraphState, h: GraphState, c: Chunk, x: Chunk)
    requires Equivalent(Added(g, c), h) && SameSymbol(x, c)
    ensures Equivalent(Added(g, c), Added(h, x))
  {
    if Callable(c) {
      var calls := CallEdges(NodeOf(c).id, c.calls);
      ElementsConcat(g.edges, calls);
      ElementsConcat(h.edges, calls);
      assert NodeOf(x).id == NodeOf(c).id;
    }
  }

  lemma {:induction false} AddPieces(g: GraphState, h: GraphState, c: Chunk, pieces: seq<Chunk>)
    requires Equivalent(g, h) && pieces != []
    requires forall i :: 0 <= i < |pieces| ==> SameSymbol(pieces[i], c)
    ensures Equivalent(Added(g, c), AddedAll(h, pieces))
  {
    var n := |pieces| - 1;
    if n == 0 {
      assert AddedAll(h, pieces[..0]) == h;
      AddAlike(g, h, c, pieces[0]);
    } else {
      AddPieces(g, h, c, pieces[..n]);
      AddAgain(g, AddedAll(h, pieces[..n]), c, pieces[n]);
    }
  }

  /** Feeding the split chunks gives the same node keys and the same set of
      edges as feeding the chunks whole. */
  lemma {:induction false} SplitKeepsGraph(d: Digests, g: GraphState, h: GraphState, chunks: seq<Chunk>)
    requires Equivalent(g, h)
    ensures Equivalent(AddedAll(g, chunks), AddedAll(h, SplitAll(d, chunks)))
  {
    if chunks != [] {
      var n := |chunks| - 1;
      var c := chunks[n];
      SplitKeepsGraph(d, g, h, chunks[..n]);
      PiecesProperties(d, c);
      AddPieces(AddedAll(g, chunks[..n]), AddedAll(h, SplitAll(d, chunks[..n])), c, SplitOne(d, c));
      AddedAllConcat(h, SplitAll(d, chunks[..n]), SplitOne(d, c));
    }
  }

  lemma EquivalentCalls(g: GraphState, h: GraphState, a: string, b: string)
    requires Equivalent(g, h)
    ensures Calls(g, a, b) <==> Calls(h, a, b)
  {
    assert forall e :: e in g.edges <==> e in Elements(g.edges);
    assert forall e :: e in h.edges <==> e in Elements(h.edges);
  }

  lemma EquivalentConnects(g: GraphState, h: GraphState, from: string, to: string, scope: string, p: seq<string>)
    requires Equivalent(g, h)
    ensures Connects(g, from, to, scope, p) <==> Connects(h, from, to, scope, p)
  {
    forall a, b { EquivalentCalls(g, h, a, b); }
  }

  /** Equivalent graphs give every trace the same outcome and depth. */
  lemma EquivalentTraces(g: GraphState, h: GraphState, from: string, to: string, scope: string, maxDepth: nat,
                         r: TraceResult, r': TraceResult)
    requires Equivalent(g, h)
    requires Answers(g, from, to, scope, maxDepth, r) && Answers(h, from, to, scope, maxDepth, r')
    ensures r.found == r'.found && r.depth == r'.depth
  {
    forall p { EquivalentConnects(g, h, from, to, scope, p); }
  }

  /** Tracing over split chunks finds a path exactly when tracing over the
      whole chunks does, and of the same length. */
  lemma SplitKeepsTraces(d: Digests, chunks: seq<Chunk>, from: string, to: string, scope: string, maxDepth: nat,
                         whole: TraceResult, split: TraceResult)
    requires Answers(AddedAll(EMPTY, chunks), from, to, scope, maxDepth, whole)
    requires Answers(AddedAll(EMPTY, SplitAll(d, chunks)), from, to, scope, maxDepth, split)
    ensures whole.found == split.found && whole.depth == split.depth
  {
    SplitKeepsGraph(d, EMPTY, EMPTY, chunks);
    EquivalentTraces(AddedAll(EMPTY, chunks), AddedAll(EMPTY, SplitAll(d, chunks)), from, to, scope, maxDepth, whole, split);
  }
}
