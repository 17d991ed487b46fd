/** The in-memory call graph and its persistence (internal/graph/graph.go,
    internal/graph/persist.go). */
module CallGraph {
  import opened Chunks
  import opened Common
  import opened Formatting

  datatype Node = Node(
    id: string,
    path: string,
    symbol: string,
    kind: string,
    language: string,
    startLine: int,
    endLine: int)

  /** A call: `from` is the caller's node, `to` the callee's bare name. */
  datatype Edge = Edge(from: string, to: string, line: int)

  datatype GraphState = GraphState(nodes: map<string, Node>, edges: seq<Edge>, files: set<string>)

  const EMPTY := GraphState(map[], [], {})

  // ------------------------------------------------------------ node keys

  function NodeID(path: string, symbol: string): string {
    path + ":" + symbol
  }

  /** The path a node key was built from: what precedes its last colon. */
  function OwnerOf(id: string): string {
    if id == [] then []
    else if id[|id| - 1] == ':' then id[..|id| - 1]
    else OwnerOf(id[..|id| - 1])
  }

  lemma {:induction false} OwnerOfNodeID(path: string, symbol: string)
    requires ':' !in symbol
    ensures OwnerOf(NodeID(path, symbol)) == path
  {
    var id := NodeID(path, symbol);
    if symbol != [] {
      OwnerOfNodeID(path, symbol[..|symbol| - 1]);
      assert id[..|id| - 1] == NodeID(path, symbol[..|symbol| - 1]);
      assert id[|id| - 1] == symbol[|symbol| - 1];
    } else {
      assert id[..|id| - 1] == path;
    }
  }

  /** Keys of colon-free symbols never clash, whatever the paths. */
  lemma NodeIDInjective(p: string, s: string, p': string, s': string)
    requires ':' !in s && ':' !in s'
    ensures NodeID(p, s) == NodeID(p', s') <==> p == p' && s == s'
  {
    OwnerOfNodeID(p, s);
    OwnerOfNodeID(p', s');
    if NodeID(p, s) == NodeID(p', s') {
      assert s == NodeID(p, s)[|p| + 1..] == s';
    }
  }

  /** Keys clash exactly when a colon inside a symbol could be the separator. */
  lemma NodeIDClashesExactly(p: string, s: string, p': string, s': string)
    ensures NodeID(p, s) == NodeID(p', s')
      <==> (p == p' && s == s') || SeparatorMoved(p, s, p', s', ':') || SeparatorMoved(p', s', p, s, ':')
  {
    JoinClashesExactly(p, s, p', s', ':');
  }

  /** With a colon in a symbol two different definitions share one key. */
  lemma NodeIDClash()
    ensures NodeID("a", "b:c") == NodeID("a:b", "c")
  {
  }

  // ----------------------------------------------------------- operations

  predicate Callable(c: Chunk) {
    c.kind != "" && c.kind != "file" && c.kind != "document"
  }

  function NodeOf(c: Chunk): Node {
    Node(NodeID(c.path, c.symbol), c.path, c.symbol, c.kind, c.language, c.startLine, c.endLine)
  }

  function CallEdges(id: string, calls: seq<CallRef>): (r: seq<Edge>) {
    if calls == [] then []
    else
      var n := |calls| - 1;
      CallEdges(id, calls[..n]) + [Edge(id, calls[n].name, calls[n].line)]
  }

  function Added(g: GraphState, c: Chunk): GraphState {
    if !Callable(c) then g
    else
      var n := NodeOf(c);
      GraphState(g.nodes[n.id := n], g.edges + CallEdges(n.id, c.calls), g.files + {c.path})
  }

  function AddedAll(g: GraphState, chunks: seq<Chunk>): GraphState {
    if chunks == [] then g
    else Added(AddedAll(g, chunks[..|chunks| - 1]), chunks[|chunks| - 1])
  }

  lemma {:induction false} AddedAllConcat(g: GraphState, a: seq<Chunk>, b: seq<Chunk>)
    ensures AddedAll(g, a + b) == AddedAll(AddedAll(g, a), b)
  {
    if b == [] {
      assert a + b == a;
    } else {
      var n := |b| - 1;
      AddedAllConcat(g, a, b[..n]);
      assert (a + b)[..|a + b| - 1] == a + b[..n];
    }
  }

  predicate HasPath(nodes: map<string, Node>, path: string) {
    exists id :: id in nodes && nodes[id].path == path
  }

  function KeptNodes(nodes: map<string, Node>, path: string): map<string, Node> {
    map id | id in nodes && nodes[id].path != path :: nodes[id]
  }

  function SourceElsewhere(nodes: map<string, Node>, path: string): Edge -> bool {
    (e: Edge) => !(e.from in nodes && nodes[e.from].path == path)
  }

  function Removed(g: GraphState, path: string): GraphState {
    GraphState(KeptNodes(g.nodes, path), Filter(SourceElsewhere(g.nodes, path), g.edges),
               if HasPath(g.nodes, path) then g.files - {path} else g.files)
  }

  // ------------------------------------------- what a list of chunks makes

  /** The chunk becomes the node of that key. */
  predicate Keyed(c: Chunk, id: string) {
    Callable(c) && c.path + ":" + c.symbol == id
  }

  predicate HasKey(chunks: seq<Chunk>, id: string) {
    exists i :: 0 <= i < |chunks| && Keyed(chunks[i], id)
  }

  /** Chunk i is the last one of that key. */
  ghost predicate LastOfKey(chunks: seq<Chunk>, i: nat, id: string) {
    i < |chunks| && Keyed(chunks[i], id) && forall j :: i < j < |chunks| ==> !Keyed(chunks[j], id)
  }

  predicate Describes(n: Node, c: Chunk) {
    && n.path == c.path && n.symbol == c.symbol && n.kind == c.kind && n.language == c.language
    && n.startLine == c.startLine && n.endLine == c.endLine
  }

  /** The edge is that of a call in the text of the chunk. */
  predicate IsCallIn(e: Edge, c: Chunk) {
    && Keyed(c, e.from)
    && exists k :: 0 <= k < |c.calls| && c.calls[k].name == e.to && c.calls[k].line == e.line
  }

  predicate IsCallInSome(e: Edge, chunks: seq<Chunk>) {
    exists i :: 0 <= i < |chunks| && IsCallIn(e, chunks[i])
  }

  predicate HasCallable(chunks: seq<Chunk>, path: string) {
    exists i :: 0 <= i < |chunks| && Callable(chunks[i]) && chunks[i].path == path
  }

  /** All calls in the texts of the callable chunks. */
  function CallCount(chunks: seq<Chunk>): nat {
    if chunks == [] then 0
    else
      var c := chunks[|chunks| - 1];
      CallCount(chunks[..|chunks| - 1]) + (if Callable(c) then |c.calls| else 0)
  }

  ghost predicate NodesFrom(chunks: seq<Chunk>, nodes: map<string, Node>) {
    && (forall id :: id in nodes <==> HasKey(chunks, id))
    && (forall i: nat, id :: LastOfKey(chunks, i, id) ==>
          id in nodes && nodes[id].id == id && Describes(nodes[id], chunks[i]))
  }

  ghost predicate EdgesFrom(chunks: seq<Chunk>, edges: seq<Edge>) {
    && (forall e :: e in edges <==> IsCallInSome(e, chunks))
    && |edges| == CallCount(chunks)
  }

  /** The graph that the chunks describe: a node for each key, with the data of
      the last chunk of that key; an edge for each call in the text of a callable
      chunk, to the name called; the files of the callable chunks. */
  ghost predicate BuiltFrom(g: GraphState, chunks: seq<Chunk>) {
    && NodesFrom(chunks, g.nodes)
    && EdgesFrom(chunks, g.edges)
    && (forall p :: p in g.files <==> HasCallable(chunks, p))
  }

  lemma HasKeySnoc(chunks: seq<Chunk>, c: Chunk, key: string)
    ensures HasKey(chunks + [c], key) <==> HasKey(chunks, key) || Keyed(c, key)
    ensures HasCallable(chunks + [c], key) <==> HasCallable(chunks, key) || (Callable(c) && c.path == key)
  {
    var all, n := chunks + [c], |chunks|;
    assert all[n] == c && forall i :: 0 <= i < n ==> all[i] == chunks[i];
  }

  lemma IsCallSnoc(chunks: seq<Chunk>, c: Chunk, e: Edge)
    ensures IsCallInSome(e, chunks + [c]) <==> IsCallInSome(e, chunks) || IsCallIn(e, c)
  {
    var all, n := chunks + [c], |chunks|;
    assert all[n] == c && forall i :: 0 <= i < n ==> all[i] == chunks[i];
  }

  lemma NodesFromSnoc(chunks: seq<Chunk>, c: Chunk, nodes: map<string, Node>)
    requires NodesFrom(chunks, nodes)
    ensures NodesFrom(chunks + [c], if Callable(c) then nodes[NodeOf(c).id := NodeOf(c)] else nodes)
  {
    var all, n := chunks + [c], |chunks|;
    assert all[n] == c && forall i :: 0 <= i < n ==> all[i] == chunks[i];
    assert forall id :: Keyed(c, id) <==> Callable(c) && id == NodeOf(c).id;
    forall i: nat, id | LastOfKey(all, i, id)
      ensures i < n ==> LastOfKey(chunks, i, id) && !Keyed(c, id)
    {
      if i < n { assert !Keyed(all[n], id); }
    }
    forall id { HasKeySnoc(chunks, c, id); }
  }

  lemma EdgesFromSnoc(chunks: seq<Chunk>, c: Chunk, edges: seq<Edge>)
    requires EdgesFrom(chunks, edges)
    ensures EdgesFrom(chunks + [c], if Callable(c) then edges + CallEdges(NodeOf(c).id, c.calls) else edges)
  {
    var calls := CallEdges(NodeOf(c).id, c.calls);
    CallEdgesAt(NodeOf(c).id, c.calls);
    assert (chunks + [c])[..|chunks|] == chunks;
    forall e
      ensures IsCallInSome(e, chunks + [c]) <==> IsCallInSome(e, chunks) || IsCallIn(e, c)
      ensures IsCallIn(e, c) <==> Callable(c) && e in calls
    {
      IsCallSnoc(chunks, c, e);
      if k :| 0 <= k < |c.calls| && c.calls[k].name == e.to && c.calls[k].line == e.line && IsCallIn(e, c) {
        assert calls[k] == e;
      }
    }
  }

  /** Feeding chunks to an empty graph builds what they describe. */
  lemma {:induction false} AddedAllBuilds(chunks: seq<Chunk>)
    ensures BuiltFrom(AddedAll(EMPTY, chunks), chunks)
  {
    if chunks != [] {
      var n := |chunks| - 1;
      var front := AddedAll(EMPTY, chunks[..n]);
      AddedAllBuilds(chunks[..n]);
      assert chunks[..n] + [chunks[n]] == chunks;
      NodesFromSnoc(chunks[..n], chunks[n], front.nodes);
      EdgesFromSnoc(chunks[..n], chunks[n], front.edges);
      forall p { HasKeySnoc(chunks[..n], chunks[n], p); }
    }
  }

  // ----------------------------------------------------------- invariants

  /** Holds after every run: nodes are filed under their own key, every edge
      starts at a node, and the file set covers every node. */
  ghost predicate Sound(g: GraphState) {
    && (forall id :: id in g.nodes ==>
          g.nodes[id].id == id && id == NodeID(g.nodes[id].path, g.nodes[id].symbol)
          && g.nodes[id].path in g.files)
    && (forall e :: e in g.edges ==> e.from in g.nodes)
  }

  /** HasFile answers exactly whether a node of that file exists. */
  ghost predicate FilesExact(g: GraphState) {
    forall p :: p in g.files <==> HasPath(g.nodes, p)
  }

  /** `own` reads off every node's key the path of the node. */
  ghost predicate KeysOwned(own: string -> string, g: GraphState) {
    forall id :: id in g.nodes ==> own(id) == g.nodes[id].path
  }

  /** `own` reads the path off the chunk's key, if the chunk becomes a node. */
  predicate KeyOwned(own: string -> string, c: Chunk) {
    Callable(c) ==> own(NodeID(c.path, c.symbol)) == c.path
  }

  /** Holds after every run over chunks whose keys determine their paths. */
  ghost predicate Strict(own: string -> string, g: GraphState) {
    Sound(g) && FilesExact(g) && KeysOwned(own, g)
  }

  /** One edge a call, in order, from the node to the callee's name. */
  lemma {:induction false} CallEdgesAt(id: string, calls: seq<CallRef>)
    ensures |CallEdges(id, calls)| == |calls|
    ensures forall k :: 0 <= k < |calls| ==>
      var e := CallEdges(id, calls)[k]; e.from == id && e.to == calls[k].name && e.line == calls[k].line
    ensures forall e :: e in CallEdges(id, calls) ==> e.from == id
  {
    if calls != [] {
      CallEdgesAt(id, calls[..|calls| - 1]);
    }
  }

  /** `after` continues `before` by one edge a call: from the key to the name
      called, at the line of the call. */
  predicate ContinuedBy(before: seq<Edge>, after: seq<Edge>, id: string, calls: seq<CallRef>) {
    && |after| == |before| + |calls| && before <= after
    && forall k :: |before| <= k < |after| ==>
         var call := calls[k - |before|];
         after[k].from == id && after[k].to == call.name && after[k].line == call.line
  }

  /** `h` is `g` with the chunk's node, its calls at the end of the edges, and its
      file marked. */
  ghost predicate Extends(g: GraphState, c: Chunk, h: GraphState) {
    var id := c.path + ":" + c.symbol;
    && h.nodes.Keys == g.nodes.Keys + {id} && h.nodes[id].id == id && Describes(h.nodes[id], c)
    && (forall other :: other in g.nodes && other != id ==> h.nodes[other] == g.nodes[other])
    && ContinuedBy(g.edges, h.edges, id, c.calls)
    && h.files == g.files + {c.path}
  }

  lemma AddedExtends(g: GraphState, c: Chunk)
    requires Callable(c)
    ensures Extends(g, c, Added(g, c))
  {
    hide CallEdges, ContinuedBy;
    CallEdgesAppended(NodeOf(c).id, c.calls, g.edges);
  }

  lemma CallEdgesAppended(id: string, calls: seq<CallRef>, edges: seq<Edge>)
    ensures ContinuedBy(edges, edges + CallEdges(id, calls), id, calls)
  {
    hide CallEdges;
    CallEdgesAt(id, calls);
  }

  lemma AddedIsSound(g: GraphState, c: Chunk)
    requires Sound(g)
    ensures Sound(Added(g, c))
  {
    CallEdgesAt(NodeOf(c).id, c.calls);
  }

  lemma {:induction false} AddedAllSound(chunks: seq<Chunk>)
    ensures Sound(AddedAll(EMPTY, chunks))
  {
    if chunks != [] {
      AddedAllSound(chunks[..|chunks| - 1]);
      AddedIsSound(AddedAll(EMPTY, chunks[..|chunks| - 1]), chunks[|chunks| - 1]);
    }
  }

  lemma RemovedIsSound(g: GraphState, path: string)
    requires Sound(g)
    ensures Sound(Removed(g, path))
  {
    FilterMembers(SourceElsewhere(g.nodes, path), g.edges);
  }

  /** Adding `c` takes its key away from the only node of another file. */
  ghost predicate Displaces(g: GraphState, c: Chunk) {
    var id := NodeOf(c).id;
    && Callable(c) && id in g.nodes && g.nodes[id].path != c.path
    && forall other :: other in g.nodes && g.nodes[other].path == g.nodes[id].path ==> other == id
  }

  /** HasFile stays exact unless the chunk displaces the last node of another
      file, and then it does not. */
  lemma AddedFilesExact(g: GraphState, c: Chunk)
    requires Sound(g) && FilesExact(g)
    ensures FilesExact(Added(g, c)) <==> !Displaces(g, c)
  {
    if Callable(c) {
      var h, n := Added(g, c), NodeOf(c);
      assert h.nodes[n.id].path == c.path;
      if Displaces(g, c) {
        assert g.nodes[n.id].path in h.files && !HasPath(h.nodes, g.nodes[n.id].path);
      } else {
        forall p | p in h.files
          ensures HasPath(h.nodes, p)
        {
          if p != c.path { StillHasPath(g, c, p); }
        }
      }
    }
  }

  lemma StillHasPath(g: GraphState, c: Chunk, p: string)
    requires Callable(c) && !Displaces(g, c) && p != c.path && HasPath(g.nodes, p)
    ensures HasPath(Added(g, c).nodes, p)
  {
    var n := NodeOf(c);
    var id :| id in g.nodes && g.nodes[id].path == p;
    if id == n.id {
      var other :| other in g.nodes && g.nodes[other].path == p && other != id;
      assert Added(g, c).nodes[other].path == p;
    } else {
      assert Added(g, c).nodes[id].path == p;
    }
  }

  /** Removal keeps HasFile exact, and the removed file is unknown afterwards. */
  lemma RemovedFilesExact(g: GraphState, path: string)
    requires FilesExact(g)
    ensures FilesExact(Removed(g, path)) && path !in Removed(g, path).files
  {
    var h := Removed(g, path);
    forall p
      ensures HasPath(h.nodes, p) <==> p != path && HasPath(g.nodes, p)
    {
      if p != path && HasPath(g.nodes, p) {
        var id :| id in g.nodes && g.nodes[id].path == p;
        assert h.nodes[id].path == p;
      }
    }
  }

  /** A chunk whose key determines its path displaces nothing. */
  lemma AddedIsStrict(own: string -> string, g: GraphState, c: Chunk)
    requires Strict(own, g) && KeyOwned(own, c)
    ensures Strict(own, Added(g, c))
  {
    AddedIsSound(g, c);
    AddedFilesExact(g, c);
  }

  lemma RemovedIsStrict(own: string -> string, g: GraphState, path: string)
    requires Strict(own, g)
    ensures Strict(own, Removed(g, path))
  {
    RemovedIsSound(g, path);
    RemovedFilesExact(g, path);
  }

  datatype GraphOp = Add(chunk: Chunk) | Remove(path: string)

  function Run(ops: seq<GraphOp>): GraphState {
    if ops == [] then EMPTY
    else
      var g := Run(ops[..|ops| - 1]);
      match ops[|ops| - 1]
      case Add(c) => Added(g, c)
      case Remove(p) => Removed(g, p)
  }

  /** Step k adds a chunk that displaces the last node of another file. */
  ghost predicate DisplacesAt(ops: seq<GraphOp>, k: nat)
    requires k < |ops|
  {
    ops[k].Add? && Displaces(Run(ops[..k]), ops[k].chunk)
  }

  lemma RunStep(ops: seq<GraphOp>, k: nat)
    requires k < |ops| && Sound(Run(ops[..k]))
    ensures Sound(Run(ops[..k + 1]))
    ensures FilesExact(Run(ops[..k])) ==> (FilesExact(Run(ops[..k + 1])) <==> !DisplacesAt(ops, k))
  {
    assert ops[..k + 1][..k] == ops[..k];
    var g := Run(ops[..k]);
    match ops[k] {
      case Add(c) =>
        AddedIsSound(g, c);
        if FilesExact(g) { AddedFilesExact(g, c); }
      case Remove(p) =>
        RemovedIsSound(g, p);
        if FilesExact(g) { RemovedFilesExact(g, p); }
    }
  }

  ghost predicate ExactAt(ops: seq<GraphOp>, k: nat)
    requires k <= |ops|
  {
    FilesExact(Run(ops[..k]))
  }

  ghost predicate ExactThroughout(ops: seq<GraphOp>, n: nat)
    requires n <= |ops|
  {
    forall k :: 0 <= k <= n ==> ExactAt(ops, k)
  }

  ghost predicate DisplacesNever(ops: seq<GraphOp>, n: nat)
    requires n <= |ops|
  {
    forall k :: 0 <= k < n ==> !DisplacesAt(ops, k)
  }

  /** Over any run nodes sit under their keys and every edge starts at a node;
      and HasFile is exact all along exactly when no step displaces the last
      node of another file. */
  lemma {:induction false} RunInvariant(ops: seq<GraphOp>, n: nat)
    requires n <= |ops|
    ensures Sound(Run(ops[..n]))
    ensures ExactThroughout(ops, n) <==> DisplacesNever(ops, n)
  {
    hide Run, Sound, ExactAt, DisplacesAt;
    if n == 0 {
      StartIsExact(ops);
    } else {
      RunInvariant(ops, n - 1);
      StepIsExact(ops, n - 1);
    }
  }

  lemma StartIsExact(ops: seq<GraphOp>)
    ensures Sound(Run(ops[..0])) && ExactAt(ops, 0)
  {
    assert Run(ops[..0]) == EMPTY;
  }

  lemma StepIsExact(ops: seq<GraphOp>, k: nat)
    requires k < |ops| && Sound(Run(ops[..k]))
    ensures Sound(Run(ops[..k + 1]))
    ensures ExactAt(ops, k) ==> (ExactAt(ops, k + 1) <==> !DisplacesAt(ops, k))
  {
    RunStep(ops, k);
  }

  /** Over any run whose chunks' keys determine their paths, as they do when
      callable symbols hold no colon, HasFile is exact. */
  lemma {:induction false} RunIsStrict(own: string -> string, ops: seq<GraphOp>)
    requires forall k :: 0 <= k < |ops| && ops[k].Add? ==> KeyOwned(own, ops[k].chunk)
    ensures Strict(own, Run(ops))
  {
    if ops != [] {
      var n := |ops| - 1;
      RunIsStrict(own, ops[..n]);
      match ops[n] {
        case Add(c) => AddedIsStrict(own, Run(ops[..n]), c);
        case Remove(p) => RemovedIsStrict(own, Run(ops[..n]), p);
      }
    }
  }

  lemma ColonFreeKeyOwned(c: Chunk)
    requires Callable(c) ==> ':' !in c.symbol
    ensures KeyOwned(OwnerOf, c)
  {
    if Callable(c) { OwnerOfNodeID(c.path, c.symbol); }
  }

  /** It happens: after a clash HasFile outlives the last node of a file. */
  lemma StaleFileAfterClash(c1: Chunk, c2: Chunk)
    requires c1.path == "a" && c1.symbol == "b:c" && c1.kind == "function"
    requires c2.path == "a:b" && c2.symbol == "c" && c2.kind == "function"
    ensures "a" in Run([Add(c1), Add(c2)]).files
    ensures !HasPath(Run([Add(c1), Add(c2)]).nodes, "a")
  {
    NodeIDClash();
    var ops := [Add(c1), Add(c2)];
    assert ops[..1] == [Add(c1)] && [Add(c1)][..0] == [];
    assert Run(ops[..1]) == Added(EMPTY, c1);
    assert Run(ops) == Added(Added(EMPTY, c1), c2);
    assert NodeOf(c1).id == NodeOf(c2).id;
  }

  // --------------------------------------------------- per-file projection

  function SourceAt(nodes: map<string, Node>, path: string): Edge -> bool {
    (e: Edge) => e.from in nodes && nodes[e.from].path == path
  }

  function NodesAt(nodes: map<string, Node>, path: string): map<string, Node> {
    map id | id in nodes && nodes[id].path == path :: nodes[id]
  }

  /** The part of the graph that comes from one file. */
  function Restrict(g: GraphState, path: string): GraphState {
    GraphState(NodesAt(g.nodes, path), Filter(SourceAt(g.nodes, path), g.edges), g.files * {path})
  }

  lemma RestrictRemovedEdges(g: GraphState, path: string, other: string)
    ensures Filter(SourceAt(KeptNodes(g.nodes, path), other), Filter(SourceElsewhere(g.nodes, path), g.edges))
      == if other == path then [] else Filter(SourceAt(g.nodes, other), g.edges)
  {
    var keep, kept := SourceElsewhere(g.nodes, path), KeptNodes(g.nodes, path);
    FilterMembers(keep, g.edges);
    if other == path {
      FilterNone(SourceAt(kept, path), Filter(keep, g.edges));
    } else {
      FilterAbsorb(SourceAt(g.nodes, other), keep, g.edges);
      FilterCongruent(SourceAt(kept, other), SourceAt(g.nodes, other), Filter(keep, g.edges));
    }
  }

  lemma RestrictRemoved(g: GraphState, path: string, other: string)
    requires FilesExact(g)
    ensures Restrict(Removed(g, path), other) == if other == path then EMPTY else Restrict(g, other)
  {
    hide Filter, NodesAt, KeptNodes, FilesExact, HasPath;
    RestrictRemovedNodes(g.nodes, path, other);
    RestrictRemovedEdges(g, path, other);
    RemovedFilesExact(g, path);
    assert Removed(g, path).files * {other} == if other == path then {} else g.files * {other};
  }

  lemma RestrictRemovedNodes(nodes: map<string, Node>, path: string, other: string)
    ensures NodesAt(KeptNodes(nodes, path), other) == if other == path then map[] else NodesAt(nodes, other)
  {
  }

  /** The chunk's key is free or held by a node of the same file. */
  predicate KeyFits(g: GraphState, c: Chunk) {
    Callable(c) && NodeOf(c).id in g.nodes ==> g.nodes[NodeOf(c).id].path == c.path
  }

  lemma RestrictAddedEdges(g: GraphState, c: Chunk, path: string)
    requires Sound(g) && Callable(c) && KeyFits(g, c)
    ensures Filter(SourceAt(g.nodes[NodeOf(c).id := NodeOf(c)], path), g.edges + CallEdges(NodeOf(c).id, c.calls))
      == Filter(SourceAt(g.nodes, path), g.edges) + (if c.path == path then CallEdges(NodeOf(c).id, c.calls) else [])
  {
    var n, calls := NodeOf(c), CallEdges(NodeOf(c).id, c.calls);
    var source := SourceAt(g.nodes[n.id := n], path);
    CallEdgesAt(n.id, c.calls);
    FilterConcat(source, g.edges, calls);
    FilterCongruent(source, SourceAt(g.nodes, path), g.edges);
    if c.path == path {
      FilterAll(source, calls);
    } else {
      FilterNone(source, calls);
    }
  }

  lemma RestrictAddedNodes(g: GraphState, c: Chunk, path: string)
    requires Callable(c) && KeyFits(g, c)
    ensures NodesAt(g.nodes[NodeOf(c).id := NodeOf(c)], path)
      == if c.path == path then NodesAt(g.nodes, path)[NodeOf(c).id := NodeOf(c)] else NodesAt(g.nodes, path)
  {
  }

  lemma RestrictAdded(g: GraphState, c: Chunk, path: string)
    requires Sound(g) && KeyFits(g, c)
    ensures Restrict(Added(g, c), path)
      == if c.path == path then Added(Restrict(g, path), c) else Restrict(g, path)
  {
    if Callable(c) {
      RestrictAddedNodes(g, c, path);
      RestrictAddedEdges(g, c, path);
      assert (g.files + {c.path}) * {path} == if c.path == path then g.files * {path} + {c.path} else g.files * {path};
    }
  }

  /** Adding one file's chunks touches that file's part only, and acts on it as
      it would on a graph of that file alone. */
  lemma {:induction false} RestrictAddedAll(own: string -> string, g: GraphState, chunks: seq<Chunk>, from: string, path: string)
    requires Strict(own, g)
    requires forall c :: c in chunks ==> KeyOwned(own, c) && c.path == from
    ensures Strict(own, AddedAll(g, chunks))
    ensures Restrict(AddedAll(g, chunks), path)
      == if from == path then AddedAll(Restrict(g, path), chunks) else Restrict(g, path)
  {
    if chunks != [] {
      var n := |chunks| - 1;
      RestrictAddedAll(own, g, chunks[..n], from, path);
      AddedIsStrict(own, AddedAll(g, chunks[..n]), chunks[n]);
      RestrictAdded(AddedAll(g, chunks[..n]), chunks[n], path);
    }
  }

  lemma PartsWithin(a: GraphState, b: GraphState)
    requires forall path :: Restrict(a, path) == Restrict(b, path)
    ensures forall id :: id in a.nodes ==> id in b.nodes && b.nodes[id] == a.nodes[id]
    ensures a.files <= b.files
  {
    forall id | id in a.nodes
      ensures id in b.nodes && b.nodes[id] == a.nodes[id]
    {
      assert id in Restrict(a, a.nodes[id].path).nodes;
    }
    forall p | p in a.files
      ensures p in b.files
    {
      assert p in Restrict(a, p).files;
    }
  }

  lemma PartsDetermineEdges(a: GraphState, b: GraphState)
    requires Sound(a) && Sound(b) && a.nodes == b.nodes
    requires forall path :: Restrict(a, path) == Restrict(b, path)
    ensures multiset(a.edges) == multiset(b.edges)
  {
    forall e
      ensures multiset(a.edges)[e] == multiset(b.edges)[e]
    {
      if e.from in a.nodes {
        var p := a.nodes[e.from].path;
        assert Restrict(a, p) == Restrict(b, p);
        FilterCount(SourceAt(a.nodes, p), a.edges, e);
        FilterCount(SourceAt(a.nodes, p), b.edges, e);
      } else {
        assert e !in a.edges && e !in b.edges;
      }
    }
  }

  /** Graphs that agree file by file agree up to the order of edges. */
  lemma PartsDetermineGraph(a: GraphState, b: GraphState)
    requires Sound(a) && Sound(b)
    requires forall path :: Restrict(a, path) == Restrict(b, path)
    ensures a.nodes == b.nodes && a.files == b.files && multiset(a.edges) == multiset(b.edges)
  {
    PartsWithin(a, b);
    PartsWithin(b, a);
    assert a.nodes == b.nodes;
    PartsDetermineEdges(a, b);
  }

  /** No chunk takes the key of a node that is already there. */
  predicate KeysFree(g: GraphState, chunks: seq<Chunk>) {
    forall i :: 0 <= i < |chunks| && Callable(chunks[i]) ==> NodeOf(chunks[i]).id !in g.nodes
  }

  /** What one file's chunks add: edges that start at its nodes. */
  lemma {:induction false} AddedAllApart(g: GraphState, chunks: seq<Chunk>, path: string) returns (more: seq<Edge>)
    requires forall i :: 0 <= i < |chunks| ==> chunks[i].path == path
    requires KeysFree(g, chunks)
    ensures var h := AddedAll(g, chunks);
      && h.edges == g.edges + more
      && (forall e :: e in more ==> SourceAt(h.nodes, path)(e))
      && (forall id :: id in g.nodes ==> id in h.nodes && h.nodes[id] == g.nodes[id])
      && (forall id :: id in h.nodes ==> id in g.nodes || h.nodes[id].path == path)
      && (h.files == g.files || (h.files == g.files + {path} && HasPath(h.nodes, path)))
  {
    more := [];
    if chunks != [] {
      var n := |chunks| - 1;
      var c, front := chunks[n], AddedAll(g, chunks[..n]);
      more := AddedAllApart(g, chunks[..n], path);
      if Callable(c) {
        var calls := CallEdges(NodeOf(c).id, c.calls);
        CallEdgesAt(NodeOf(c).id, c.calls);
        more := more + calls;
        assert Added(front, c).nodes[NodeOf(c).id].path == path;
      }
    }
  }

  lemma {:induction false} TakenKey(g: GraphState, chunks: seq<Chunk>, i: nat, path: string)
    requires forall j :: 0 <= j < |chunks| ==> chunks[j].path == path
    requires i < |chunks| && Callable(chunks[i])
    ensures var h := AddedAll(g, chunks); NodeOf(chunks[i]).id in h.nodes && h.nodes[NodeOf(chunks[i]).id].path == path
  {
    if i < |chunks| - 1 {
      TakenKey(g, chunks[..|chunks| - 1], i, path);
    }
  }

  lemma RemovedApart(g: GraphState, chunks: seq<Chunk>, path: string)
    requires Sound(g) && path !in g.files && KeysFree(g, chunks)
    requires forall i :: 0 <= i < |chunks| ==> chunks[i].path == path
    ensures Removed(AddedAll(g, chunks), path) == g
  {
    var h := AddedAll(g, chunks);
    var more := AddedAllApart(g, chunks, path);
    var keep := SourceElsewhere(h.nodes, path);
    FilterConcat(keep, g.edges, more);
    FilterAll(keep, g.edges);
    FilterNone(keep, more);
    assert g.edges + [] == g.edges;
    assert KeptNodes(h.nodes, path) == g.nodes;
  }

  /** Removing a file undoes adding its chunks, edge order included, exactly when
      no chunk takes the key of another file's node. */
  lemma RemoveUndoesAdd(g: GraphState, chunks: seq<Chunk>, path: string)
    requires Sound(g) && path !in g.files
    requires forall i :: 0 <= i < |chunks| ==> chunks[i].path == path
    ensures Removed(AddedAll(g, chunks), path) == g <==> KeysFree(g, chunks)
  {
    if KeysFree(g, chunks) {
      RemovedApart(g, chunks, path);
    } else {
      var i :| 0 <= i < |chunks| && Callable(chunks[i]) && NodeOf(chunks[i]).id in g.nodes;
      TakenKey(g, chunks, i, path);
      assert NodeOf(chunks[i]).id !in Removed(AddedAll(g, chunks), path).nodes;
    }
  }

  // ---------------------------------------------------------- persistence

  /** The rows of graph_nodes and graph_edges; graph_nodes is keyed by id. */
  datatype Tables = Tables(nodeRows: multiset<Node>, edgeRows: multiset<Edge>)

  ghost predicate KeyedById(rows: multiset<Node>) {
    forall a, b :: a in rows && b in rows && a.id == b.id ==> a == b
  }

  function SavedTables(g: GraphState): Tables {
    Tables(multiset(g.nodes.Values), multiset(g.edges))
  }

  predicate HasRow(rows: multiset<Node>, path: string) {
    exists r :: r in rows && r.path == path
  }

  /** The node map read back from `rows`. */
  ghost predicate NodesRead(rows: multiset<Node>, nodes: map<string, Node>) {
    && (forall r :: r in rows ==> r.id in nodes && nodes[r.id] == r)
    && (forall id :: id in nodes ==> nodes[id] in rows && nodes[id].id == id)
  }

  /** All of `rows` but `todo` have been read. */
  ghost predicate RowsRead(rows: multiset<Node>, todo: multiset<Node>, nodes: map<string, Node>, files: set<string>) {
    && (forall r :: r in rows ==> r in todo || (r.id in nodes && nodes[r.id] == r && r.path in files))
    && (forall id :: id in nodes ==> nodes[id] in rows && nodes[id].id == id)
    && (forall p :: p in files ==> HasRow(rows, p))
  }

  lemma RowsReadStep(rows: multiset<Node>, todo: multiset<Node>, nodes: map<string, Node>, files: set<string>, n: Node)
    requires KeyedById(rows) && RowsRead(rows, todo, nodes, files) && n in todo && todo <= rows
    ensures RowsRead(rows, todo - multiset{n}, nodes[n.id := n], files + {n.path})
  {
    assert n in rows && HasRow(rows, n.path);
    var nodes' := nodes[n.id := n];
    forall r | r in rows && r !in todo - multiset{n}
      ensures r.id in nodes' && nodes'[r.id] == r && r.path in files + {n.path}
    {
      if r != n {
        assert r !in todo && r.id != n.id;
      }
    }
    forall id | id in nodes'
      ensures nodes'[id] in rows && nodes'[id].id == id
    {
    }
  }

  /** What loading `t` into `before` may leave: rows arrive in any order. */
  ghost predicate LoadedFrom(t: Tables, before: GraphState, after: GraphState) {
    && NodesRead(t.nodeRows, after.nodes)
    && (forall p :: p in after.files <==> HasRow(t.nodeRows, p))
    && multiset(after.edges) == multiset(before.edges) + t.edgeRows
  }

  lemma SavedRow(g: GraphState, r: Node)
    requires Sound(g)
    ensures r in SavedTables(g).nodeRows <==> r.id in g.nodes && g.nodes[r.id] == r
  {
    assert r in SavedTables(g).nodeRows <==> r in g.nodes.Values;
    if r.id in g.nodes && g.nodes[r.id] == r {
      assert r in g.nodes.Values;
    }
  }

  /** The saved rows obey the primary key, so a load accepts them. */
  lemma SavedIsKeyed(g: GraphState)
    requires Sound(g)
    ensures KeyedById(SavedTables(g).nodeRows)
  {
    forall r { SavedRow(g, r); }
  }

  lemma SavedNodesRead(g: GraphState, nodes: map<string, Node>)
    requires Sound(g) && NodesRead(SavedTables(g).nodeRows, nodes)
    ensures nodes == g.nodes
  {
    forall id | id in g.nodes
      ensures id in nodes && nodes[id] == g.nodes[id]
    {
      SavedRow(g, g.nodes[id]);
    }
    forall id | id in nodes
      ensures id in g.nodes
    {
      SavedRow(g, nodes[id]);
    }
  }

  lemma SavedHasRow(g: GraphState, p: string)
    requires Sound(g)
    ensures HasRow(SavedTables(g).nodeRows, p) <==> HasPath(g.nodes, p)
  {
    if HasRow(SavedTables(g).nodeRows, p) {
      var r :| r in SavedTables(g).nodeRows && r.path == p;
      SavedRow(g, r);
    }
    if HasPath(g.nodes, p) {
      var id :| id in g.nodes && g.nodes[id].path == p;
      SavedRow(g, g.nodes[id]);
    }
  }

  /** Saving a graph and loading it into a new one restores the nodes and the
      edge multiset, and the file set exactly when every tracked file has a
      node. */
  lemma SaveLoadRoundTrip(g: GraphState, after: GraphState)
    requires Sound(g) && LoadedFrom(SavedTables(g), EMPTY, after)
    ensures after.nodes == g.nodes
    ensures multiset(after.edges) == multiset(g.edges)
    ensures after.files == g.files <==> FilesExact(g)
  {
    SavedNodesRead(g, after.nodes);
    forall p { SavedHasRow(g, p); }
    assert after.files <= g.files;
    assert multiset(EMPTY.edges) == multiset{};
  }

  class Database {
    var nodeRows: multiset<Node>
    var edgeRows: multiset<Edge>

    constructor ()
      ensures nodeRows == multiset{} && edgeRows == multiset{}
    {
      nodeRows := multiset{};
      edgeRows := multiset{};
    }

    ghost function View(): Tables
      reads this
    {
      Tables(nodeRows, edgeRows)
    }
  }

  // ------------------------------------------------------------- the class

  class Graph {
    var nodes: map<string, Node>
    var edges: seq<Edge>
    var files: set<string>

    ghost function View(): GraphState
      reads this
    {
      GraphState(nodes, edges, files)
    }

    constructor ()
      ensures View() == EMPTY
    {
      nodes := map[];
      edges := [];
      files := {};
    }

    method AddChunk(c: Chunk)
      modifies this
      ensures View() == Added(old(View()), c)
      ensures if c.kind == "" || c.kind == "file" || c.kind == "document" then View() == old(View())
        else Extends(old(View()), c, View())
    {
      if c.kind == "" || c.kind == "file" || c.kind == "document" {
        return;
      }
      hide Extends;
      var id := NodeID(c.path, c.symbol);
      files := files + {c.path};
      nodes := nodes[id := Node(id, c.path, c.symbol, c.kind, c.language, c.startLine, c.endLine)];
      ghost var before := edges;
      for i := 0 to |c.calls|
        invariant edges == before + CallEdges(id, c.calls[..i])
        invariant nodes == old(nodes)[id := NodeOf(c)] && files == old(files) + {c.path}
      {
        assert c.calls[..i + 1][..i] == c.calls[..i];
        edges := edges + [Edge(id, c.calls[i].name, c.calls[i].line)];
      }
      assert c.calls[..|c.calls|] == c.calls;
      AddedExtends(old(View()), c);
    }

    /** Visits the nodes in any order, then compacts the edge list. */
    method RemoveByPath(path: string)
      modifies this
      ensures View() == Removed(old(View()), path)
      ensures forall id :: id in nodes <==> id in old(nodes) && old(nodes)[id].path != path
      ensures forall id :: id in nodes ==> nodes[id] == old(nodes)[id]
      ensures forall e :: e in edges <==> e in old(edges) && !(e.from in old(nodes) && old(nodes)[e.from].path == path)
      ensures files == if exists id :: id in old(nodes) && old(nodes)[id].path == path then old(files) - {path} else old(files)
    {
      ghost var before := nodes;
      var toRemove: set<string> := {};
      var found := false;
      var todo := nodes.Keys;
      while todo != {}
        invariant todo <= before.Keys
        invariant toRemove == set id | id in before.Keys - todo && before[id].path == path
        invariant nodes == map id | id in before && id !in toRemove :: before[id]
        invariant found <==> toRemove != {}
        invariant edges == old(edges) && files == old(files)
        decreases todo
      {
        var id :| id in todo;
        todo := todo - {id};
        if nodes[id].path == path {
          nodes := nodes - {id};
          toRemove := toRemove + {id};
          found := true;
        }
      }
      assert found <==> HasPath(before, path) by {
        if found { var id :| id in toRemove; assert before[id].path == path; }
      }
      assert nodes == KeptNodes(before, path);
      if found {
        files := files - {path};
      }
      FilterMembers(SourceElsewhere(before, path), edges);
      edges := FilterSlice(edges, toRemove, before, path);
    }

    /** The compaction loop of RemoveByPath. */
    static method FilterSlice(edges: seq<Edge>, toRemove: set<string>, ghost before: map<string, Node>, ghost path: string)
      returns (filtered: seq<Edge>)
      requires toRemove == set id | id in before && before[id].path == path
      ensures filtered == Filter(SourceElsewhere(before, path), edges)
    {
      filtered := [];
      for i := 0 to |edges|
        invariant filtered == Filter(SourceElsewhere(before, path), edges[..i])
      {
        FilterStep(SourceElsewhere(before, path), edges, i);
        if edges[i].from !in toRemove {
          filtered := filtered + [edges[i]];
        }
      }
      assert edges[..|edges|] == edges;
    }

    /** Whether the file is marked: while HasFile is exact, whether it has a node. */
    method HasFile(path: string) returns (r: bool)
      ensures r <==> path in files
      ensures FilesExact(View()) ==> (r <==> HasPath(nodes, path))
    {
      r := path in files;
    }

    method Save(db: Database)
      requires Sound(View())
      modifies db
      ensures db.View() == SavedTables(View())
    {
      db.nodeRows := InsertNodes(nodes);
      db.edgeRows := multiset{};
      for i := 0 to |edges|
        invariant db.nodeRows == SavedTables(View()).nodeRows
        invariant db.edgeRows == multiset(edges[..i])
      {
        assert edges[..i + 1] == edges[..i] + [edges[i]];
        db.edgeRows := db.edgeRows + multiset{edges[i]};
      }
      assert edges[..|edges|] == edges;
    }

    /** Inserts the nodes one by one, in any order. */
    static method InsertNodes(nodes: map<string, Node>) returns (rows: multiset<Node>)
      requires forall id :: id in nodes ==> nodes[id].id == id
      ensures rows == multiset(nodes.Values)
    {
      rows := multiset{};
      var todo := nodes.Keys;
      ghost var seen: set<Node> := {};
      while todo != {}
        invariant todo <= nodes.Keys
        invariant forall n :: n in seen <==> n.id in nodes.Keys - todo && nodes[n.id] == n
        invariant rows == multiset(seen)
        decreases todo
      {
        var id :| id in todo;
        todo := todo - {id};
        assert nodes[id] !in seen;
        rows := rows + multiset{nodes[id]};
        seen := seen + {nodes[id]};
      }
      assert seen == nodes.Values;
    }

    /** Replaces nodes and files, and appends the stored edges to those present. */
    method Load(db: Database)
      requires KeyedById(db.nodeRows)
      modifies this
      ensures LoadedFrom(db.View(), old(View()), View())
    {
      nodes, files := ReadNodes(db.nodeRows);
      edges := ReadEdges(db.edgeRows, edges);
    }

    /** Reads the rows back, in any order. */
    static method ReadNodes(nodeRows: multiset<Node>) returns (nodes: map<string, Node>, files: set<string>)
      requires KeyedById(nodeRows)
      ensures NodesRead(nodeRows, nodes)
      ensures forall p :: p in files <==> HasRow(nodeRows, p)
    {
      nodes := map[];
      files := {};
      var rows := nodeRows;
      while rows != multiset{}
        invariant rows <= nodeRows
        invariant RowsRead(nodeRows, rows, nodes, files)
        decreases |rows|
      {
        var n :| n in rows;
        RowsReadStep(nodeRows, rows, nodes, files, n);
        rows := rows - multiset{n};
        nodes := nodes[n.id := n];
        files := files + {n.path};
      }
    }

    static method ReadEdges(edgeRows: multiset<Edge>, present: seq<Edge>) returns (edges: seq<Edge>)
      ensures multiset(edges) == multiset(present) + edgeRows
    {
      edges := present;
      var rows := edgeRows;
      while rows != multiset{}
        invariant multiset(edges) + rows == multiset(present) + edgeRows
        decreases |rows|
      {
        var e :| e in rows;
        rows := rows - multiset{e};
        edges := edges + [e];
      }
    }
  }

  /** A restart of the graph: saved to the tables and loaded into a new one. */
  method SaveAndReload(g: Graph, db: Database) returns (h: Graph)
    requires Sound(g.View())
    modifies db
    ensures fresh(h)
    ensures h.nodes == g.nodes && multiset(h.edges) == multiset(g.edges)
    ensures h.files == g.files <==> FilesExact(g.View())
    ensures g.View() == old(g.View()) && db.View() == SavedTables(g.View())
  {
    g.Save(db);
    SavedIsKeyed(g.View());
    h := new Graph();
    h.Load(db);
    SaveLoadRoundTrip(g.View(), h.View());
  }
}
