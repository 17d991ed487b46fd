/** Selection of the nodes and edges shown in the graph view, and the cache of
    such selections (internal/app/graph_layout.go). Coordinates are not part of
    this model. */
module GraphLayout {
  import opened Common
  import opened Formatting
  import opened CallGraph
  import opened GraphOps
  import opened Projects
  import opened TracePath

  const DEFAULT_MAX_NODES := 800
  const DEFAULT_MAX_EDGES := 4000

  datatype LayoutNode = LayoutNode(node: Node, degree: nat)

  datatype LayoutResult = LayoutResult(
    nodes: seq<LayoutNode>,
    edges: seq<ResolvedEdge>,
    totalNodes: nat,
    totalEdges: nat,
    subsampled: bool,
    isolatedCount: nat)

  // ---------------------------------------------------------- vocabulary

  /** The edge ends at a node; a self-call has two. */
  function Ends(edges: seq<ResolvedEdge>, id: string): nat {
    CountFrom(edges, id) + CountTo(edges, id)
  }

  function Linked(edges: seq<ResolvedEdge>): Node -> bool {
    (n: Node) => Ends(edges, n.id) > 0
  }

  function Within(ids: set<string>): ResolvedEdge -> bool {
    (e: ResolvedEdge) => e.from in ids && e.to in ids
  }

  function Pool(nodes: seq<Node>, edges: seq<ResolvedEdge>, connectedOnly: bool): seq<Node> {
    if connectedOnly then Filter(Linked(edges), nodes) else nodes
  }

  /** `sampled` keeps at most maxNodes of `pool`, by degree. */
  ghost predicate Sampled(pool: seq<Node>, edges: seq<ResolvedEdge>, maxNodes: nat, sampled: seq<Node>) {
    && multiset(sampled) <= multiset(pool)
    && |sampled| == Min(|pool|, maxNodes)
    && (forall x, y :: x in multiset(pool) - multiset(sampled) && y in sampled ==> Ends(edges, x.id) <= Ends(edges, y.id))
  }

  /** `shown` keeps at most 4000 of the candidates, by the degrees
      of their ends. */
  ghost predicate Capped(edges: seq<ResolvedEdge>, candidates: seq<ResolvedEdge>, shown: seq<ResolvedEdge>) {
    && multiset(shown) <= multiset(candidates)
    && |shown| == Min(|candidates|, 4000)
    && (forall x, y :: x in multiset(candidates) - multiset(shown) && y in shown ==>
          Ends(edges, x.from) + Ends(edges, x.to) <= Ends(edges, y.from) + Ends(edges, y.to))
  }

  function WithDegrees(nodes: seq<Node>, edges: seq<ResolvedEdge>): (r: seq<LayoutNode>)
    ensures |r| == |nodes|
    ensures forall i :: 0 <= i < |nodes| ==> r[i] == LayoutNode(nodes[i], Ends(edges, nodes[i].id))
  {
    if nodes == [] then []
    else
      var k := |nodes| - 1;
      WithDegrees(nodes[..k], edges) + [LayoutNode(nodes[k], Ends(edges, nodes[k].id))]
  }

  /** What the pipeline shows of `nodes` and the resolved edges among them. */
  ghost predicate Shows(nodes: seq<Node>, edges: seq<ResolvedEdge>, connectedOnly: bool, maxNodes: nat,
                        sampled: seq<Node>, r: LayoutResult) {
    var pool := Pool(nodes, edges, connectedOnly);
    var kept := if connectedOnly then Filter(Linked(r.edges), sampled) else sampled;
    && Sampled(pool, edges, maxNodes, sampled)
    && Capped(edges, Filter(Within(IdSet(sampled)), edges), r.edges)
    && r.nodes == WithDegrees(kept, if connectedOnly then r.edges else edges)
    && r.totalNodes == |nodes|
    && r.totalEdges == |edges|
    && r.subsampled == (|pool| > maxNodes)
    && r.isolatedCount == (|nodes| - |pool|) + (|sampled| - |kept|)
  }

  // -------------------------------------------------- what a viewer relies on

  ghost predicate Displayed(ns: seq<LayoutNode>, id: string) {
    exists i :: 0 <= i < |ns| && ns[i].node.id == id
  }

  ghost predicate EndpointsShown(r: LayoutResult) {
    forall e :: e in r.edges ==> Displayed(r.nodes, e.from) && Displayed(r.nodes, e.to)
  }

  ghost predicate Accounted(r: LayoutResult, maxNodes: nat) {
    && |r.nodes| <= maxNodes
    && |r.edges| <= 4000
    && r.totalNodes >= |r.nodes| + r.isolatedCount
    && (r.totalNodes == |r.nodes| + r.isolatedCount <==> !r.subsampled)
    && r.totalEdges >= |r.edges|
  }

  ghost predicate UniqueNodes(r: LayoutResult) {
    forall i, j :: 0 <= i < j < |r.nodes| ==> r.nodes[i].node.id != r.nodes[j].node.id
  }

  /** Every degree is positive and counts the edge ends actually shown. */
  ghost predicate ExactDegrees(r: LayoutResult) {
    forall i :: 0 <= i < |r.nodes| ==>
      r.nodes[i].degree > 0 && r.nodes[i].degree == Ends(r.edges, r.nodes[i].node.id)
  }

  /** Properties of a result alone, whatever graph it was computed from. */
  ghost predicate WellFormed(r: LayoutResult, connectedOnly: bool, maxNodes: nat) {
    && Accounted(r, maxNodes)
    && EndpointsShown(r)
    && UniqueNodes(r)
    && (connectedOnly ==> ExactDegrees(r))
  }

  ghost function OutOf(edges: seq<ResolvedEdge>, id: string): set<int> {
    set i | 0 <= i < |edges| && edges[i].from == id
  }

  ghost function Into(edges: seq<ResolvedEdge>, id: string): set<int> {
    set i | 0 <= i < |edges| && edges[i].to == id
  }

  lemma {:induction false} OutOfCount(edges: seq<ResolvedEdge>, id: string)
    ensures CountFrom(edges, id) == |OutOf(edges, id)|
  {
    if edges != [] {
      var k := |edges| - 1;
      OutOfCount(edges[..k], id);
      assert OutOf(edges, id) == OutOf(edges[..k], id) + (if edges[k].from == id then {k} else {});
    }
  }

  lemma {:induction false} IntoCount(edges: seq<ResolvedEdge>, id: string)
    ensures CountTo(edges, id) == |Into(edges, id)|
  {
    if edges != [] {
      var k := |edges| - 1;
      IntoCount(edges[..k], id);
      assert Into(edges, id) == Into(edges[..k], id) + (if edges[k].to == id then {k} else {});
    }
  }

  /** The degree of a node counts the edges out of it and the edges into it. */
  lemma EndsMeaning(edges: seq<ResolvedEdge>, id: string)
    ensures Ends(edges, id) == |OutOf(edges, id)| + |Into(edges, id)|
  {
    OutOfCount(edges, id);
    IntoCount(edges, id);
  }

  lemma {:induction false} EndsPositive(edges: seq<ResolvedEdge>, id: string)
    ensures Ends(edges, id) > 0 <==> exists e :: e in edges && (e.from == id || e.to == id)
  {
    if edges != [] {
      var k := |edges| - 1;
      EndsPositive(edges[..k], id);
      assert edges == edges[..k] + [edges[k]];
    }
  }

  /** Distinct keys survive taking part of a list in another order. */
  lemma PartDistinct(whole: seq<Node>, part: seq<Node>)
    requires forall i, j :: 0 <= i < j < |whole| ==> whole[i].id != whole[j].id
    requires multiset(part) <= multiset(whole)
    ensures forall i, j :: 0 <= i < j < |part| ==> part[i].id != part[j].id
  {
    DistinctOnce(whole);
    forall i, j | 0 <= i < j < |part|
      ensures part[i].id != part[j].id
    {
      if part[i] == part[j] {
        Repeated(part, i, j);
      }
      assert part[i] in multiset(part) && part[j] in multiset(part);
      assert part[i] in whole && part[j] in whole;
    }
  }

  lemma Repeated<T>(s: seq<T>, i: nat, j: nat)
    requires i < j < |s| && s[i] == s[j]
    ensures multiset(s)[s[i]] >= 2
  {
    assert s == s[..j] + [s[j]] + s[j + 1..];
    assert s[..j][i] in multiset(s[..j]);
  }

  lemma {:induction false} DistinctOnce(ns: seq<Node>)
    requires forall i, j :: 0 <= i < j < |ns| ==> ns[i].id != ns[j].id
    ensures forall x :: multiset(ns)[x] <= 1
  {
    if ns != [] {
      var k := |ns| - 1;
      DistinctOnce(ns[..k]);
      assert ns == ns[..k] + [ns[k]];
      assert ns[k] !in ns[..k];
    }
  }

  lemma {:induction false} FilterIsPart<T>(keep: T -> bool, s: seq<T>)
    ensures multiset(Filter(keep, s)) <= multiset(s)
  {
    if s != [] {
      FilterIsPart(keep, s[..|s| - 1]);
      assert s == s[..|s| - 1] + [s[|s| - 1]];
    }
  }

  lemma ShownEndpoint(sampled: seq<Node>, edges: seq<ResolvedEdge>, shown: seq<ResolvedEdge>, e: ResolvedEdge, id: string)
    requires multiset(shown) <= multiset(Filter(Within(IdSet(sampled)), edges))
    requires e in shown && (id == e.from || id == e.to)
    ensures exists i :: 0 <= i < |sampled| && sampled[i].id == id
    ensures exists n :: n in Filter(Linked(shown), sampled) && n.id == id
  {
    FilterMembers(Within(IdSet(sampled)), edges);
    assert e in multiset(shown);
    assert e in multiset(Filter(Within(IdSet(sampled)), edges));
    assert Within(IdSet(sampled))(e);
    var i :| 0 <= i < |sampled| && sampled[i].id == id;
    EndsPositive(shown, id);
    FilterMembers(Linked(shown), sampled);
    assert sampled[i] in sampled && Linked(shown)(sampled[i]);
  }

  /** Every edge end is a node of the list finally kept. */
  lemma ShownAt(sampled: seq<Node>, edges: seq<ResolvedEdge>, shown: seq<ResolvedEdge>, kept: seq<Node>,
                e: ResolvedEdge, id: string, connectedOnly: bool)
    requires multiset(shown) <= multiset(Filter(Within(IdSet(sampled)), edges))
    requires e in shown && (id == e.from || id == e.to)
    requires kept == if connectedOnly then Filter(Linked(shown), sampled) else sampled
    ensures exists i :: 0 <= i < |kept| && kept[i].id == id
  {
    ShownEndpoint(sampled, edges, shown, e, id);
    if connectedOnly {
      var n :| n in kept && n.id == id;
      var i :| 0 <= i < |kept| && kept[i] == n;
    }
  }

  lemma ShowsEnd(edges: seq<ResolvedEdge>, connectedOnly: bool, sampled: seq<Node>, kept: seq<Node>,
                 counted: seq<ResolvedEdge>, shown: seq<ResolvedEdge>, e: ResolvedEdge, id: string)
    requires multiset(shown) <= multiset(Filter(Within(IdSet(sampled)), edges))
    requires kept == if connectedOnly then Filter(Linked(shown), sampled) else sampled
    requires e in shown && (id == e.from || id == e.to)
    ensures Displayed(WithDegrees(kept, counted), id)
  {
    ShownAt(sampled, edges, shown, kept, e, id, connectedOnly);
    var i :| 0 <= i < |kept| && kept[i].id == id;
    assert WithDegrees(kept, counted)[i].node.id == id;
  }

  lemma FilterSize<T>(keep: T -> bool, s: seq<T>)
    ensures multiset(Filter(keep, s)) <= multiset(s)
    ensures |Filter(keep, s)| <= |s|
    ensures forall i :: 0 <= i < |Filter(keep, s)| ==> keep(Filter(keep, s)[i])
  {
    FilterIsPart(keep, s);
    FilterMembers(keep, s);
    forall i | 0 <= i < |Filter(keep, s)|
      ensures keep(Filter(keep, s)[i])
    {
      assert Filter(keep, s)[i] in Filter(keep, s);
    }
  }

  lemma ShowsAccounted(nodes: seq<Node>, edges: seq<ResolvedEdge>, connectedOnly: bool, maxNodes: nat,
                       sampled: seq<Node>, r: LayoutResult)
    requires Shows(nodes, edges, connectedOnly, maxNodes, sampled, r)
    ensures Accounted(r, maxNodes)
  {
    FilterSize(Linked(edges), nodes);
    FilterSize(Linked(r.edges), sampled);
    FilterSize(Within(IdSet(sampled)), edges);
  }

  lemma ShowsUnique(nodes: seq<Node>, edges: seq<ResolvedEdge>, connectedOnly: bool, maxNodes: nat,
                    sampled: seq<Node>, r: LayoutResult)
    requires Shows(nodes, edges, connectedOnly, maxNodes, sampled, r)
    requires forall i, j :: 0 <= i < j < |nodes| ==> nodes[i].id != nodes[j].id
    ensures UniqueNodes(r)
  {
    var kept := if connectedOnly then Filter(Linked(r.edges), sampled) else sampled;
    FilterIsPart(Linked(edges), nodes);
    FilterIsPart(Linked(r.edges), sampled);
    PartDistinct(nodes, kept);
  }

  /** The filters, the subsampling, the cap and the final pass together: bounded,
      closed, with exact degrees, and every project node accounted for. */
  lemma ShowsWellFormed(nodes: seq<Node>, edges: seq<ResolvedEdge>, connectedOnly: bool, maxNodes: nat,
                        sampled: seq<Node>, r: LayoutResult)
    requires Shows(nodes, edges, connectedOnly, maxNodes, sampled, r)
    requires forall i, j :: 0 <= i < j < |nodes| ==> nodes[i].id != nodes[j].id
    ensures WellFormed(r, connectedOnly, maxNodes)
    ensures r.totalNodes == |r.nodes| + r.isolatedCount + (|Pool(nodes, edges, connectedOnly)| - |sampled|)
  {
    var kept := if connectedOnly then Filter(Linked(r.edges), sampled) else sampled;
    var counted := if connectedOnly then r.edges else edges;
    ShowsAccounted(nodes, edges, connectedOnly, maxNodes, sampled, r);
    ShowsUnique(nodes, edges, connectedOnly, maxNodes, sampled, r);
    FilterSize(Linked(r.edges), sampled);
    forall e | e in r.edges
      ensures Displayed(r.nodes, e.from) && Displayed(r.nodes, e.to)
    {
      ShowsEnd(edges, connectedOnly, sampled, kept, counted, r.edges, e, e.from);
      ShowsEnd(edges, connectedOnly, sampled, kept, counted, r.edges, e, e.to);
    }
  }

  lemma SameSize<T>(part: seq<T>, whole: seq<T>)
    requires multiset(part) <= multiset(whole) && |part| == |whole|
    ensures multiset(part) == multiset(whole)
  {
    assert multiset(whole) == multiset(part) + (multiset(whole) - multiset(part));
    assert |multiset(whole)| == |part| + |multiset(whole) - multiset(part)|;
  }

  /** Within the limits nothing is left out: the pool is kept, and every edge. */
  lemma NothingDropped(nodes: seq<Node>, edges: seq<ResolvedEdge>, connectedOnly: bool, maxNodes: nat,
                       sampled: seq<Node>, r: LayoutResult)
    requires Shows(nodes, edges, connectedOnly, maxNodes, sampled, r)
    requires |nodes| <= maxNodes && |edges| <= 4000 && Filter(Within(IdSet(nodes)), edges) == edges
    ensures multiset(sampled) == multiset(Pool(nodes, edges, connectedOnly)) && multiset(r.edges) == multiset(edges)
  {
    var pool := Pool(nodes, edges, connectedOnly);
    SameSize(sampled, pool);
    SameMembers(sampled, pool);
    if connectedOnly { LinkedKeepsEdges(nodes, edges); }
    SameIds(sampled, pool);
    SameSize(r.edges, edges);
  }

  lemma SameIds(a: seq<Node>, b: seq<Node>)
    requires forall n :: n in a <==> n in b
    ensures IdSet(a) == IdSet(b)
  {
    forall id | id in IdSet(a)
      ensures id in IdSet(b)
    {
      var i :| 0 <= i < |a| && a[i].id == id;
      assert a[i] in b;
    }
    forall id | id in IdSet(b)
      ensures id in IdSet(a)
    {
      var i :| 0 <= i < |b| && b[i].id == id;
      assert b[i] in a;
    }
  }

  predicate OnGraph(edges: seq<ResolvedEdge>, n: Node) {
    exists e :: e in edges && (e.from == n.id || e.to == n.id)
  }

  /** The nodes finally kept when nothing was dropped for want of room. */
  lemma KeptWhole(nodes: seq<Node>, edges: seq<ResolvedEdge>, connectedOnly: bool, sampled: seq<Node>, shown: seq<ResolvedEdge>, n: Node)
    requires multiset(sampled) == multiset(Pool(nodes, edges, connectedOnly)) && multiset(shown) == multiset(edges)
    ensures n in (if connectedOnly then Filter(Linked(shown), sampled) else sampled)
      <==> n in nodes && (connectedOnly ==> OnGraph(edges, n))
  {
    SameMembers(shown, edges);
    SameMembers(sampled, Pool(nodes, edges, connectedOnly));
    FilterMembers(Linked(edges), nodes);
    FilterMembers(Linked(shown), sampled);
    EndsPositive(edges, n.id);
    EndsPositive(shown, n.id);
  }

  predicate DisplaysNode(ns: seq<LayoutNode>, n: Node) {
    exists i :: 0 <= i < |ns| && ns[i].node == n
  }

  lemma DisplayedNodes(kept: seq<Node>, counted: seq<ResolvedEdge>, n: Node)
    ensures DisplaysNode(WithDegrees(kept, counted), n) <==> n in kept
  {
    if n in kept {
      var i :| 0 <= i < |kept| && kept[i] == n;
      assert WithDegrees(kept, counted)[i].node == n;
    }
  }

  /** A graph within the limits is shown whole: every edge, and exactly the nodes,
      with connectedOnly exactly those that some edge touches. */
  lemma SmallGraphShownWhole(nodes: seq<Node>, edges: seq<ResolvedEdge>, connectedOnly: bool, maxNodes: nat,
                             sampled: seq<Node>, r: LayoutResult, n: Node)
    requires Shows(nodes, edges, connectedOnly, maxNodes, sampled, r)
    requires |nodes| <= maxNodes && |edges| <= 4000 && Filter(Within(IdSet(nodes)), edges) == edges
    ensures multiset(r.edges) == multiset(edges)
    ensures DisplaysNode(r.nodes, n) <==> n in nodes && (connectedOnly ==> OnGraph(edges, n))
  {
    NothingDropped(nodes, edges, connectedOnly, maxNodes, sampled, r);
    KeptWhole(nodes, edges, connectedOnly, sampled, r.edges, n);
    DisplayedNodes(if connectedOnly then Filter(Linked(r.edges), sampled) else sampled, if connectedOnly then r.edges else edges, n);
  }

  // ------------------------------------------------------------ the stages

  method FilterEdgesByIDs(edges: seq<ResolvedEdge>, ids: set<string>) returns (out: seq<ResolvedEdge>)
    ensures out == Filter(Within(ids), edges)
  {
    out := [];
    for i := 0 to |edges|
      invariant out == Filter(Within(ids), edges[..i])
    {
      FilterStep(Within(ids), edges, i);
      if edges[i].from in ids && edges[i].to in ids {
        out := out + [edges[i]];
      }
    }
    assert edges[..|edges|] == edges;
  }

  lemma EndsStep(edges: seq<ResolvedEdge>, i: nat, id: string)
    requires i < |edges|
    ensures Ends(edges[..i + 1], id) == Ends(edges[..i], id)
      + (if edges[i].from == id then 1 else 0) + (if edges[i].to == id then 1 else 0)
  {
    assert edges[..i + 1][..i] == edges[..i];
  }

  method CountEnds(edges: seq<ResolvedEdge>) returns (degree: map<string, nat>)
    ensures forall id :: Tally(degree, id) == Ends(edges, id)
  {
    degree := map[];
    for i := 0 to |edges|
      invariant forall id :: Tally(degree, id) == Ends(edges[..i], id)
    {
      var e := edges[i];
      ghost var before := degree;
      degree := degree[e.from := Tally(degree, e.from) + 1];
      degree := degree[e.to := Tally(degree, e.to) + 1];
      forall id
        ensures Tally(degree, id) == Ends(edges[..i + 1], id)
      {
        EndsStep(edges, i, id);
        assert Tally(before, id) == Ends(edges[..i], id);
      }
    }
    assert edges[..|edges|] == edges;
  }

  function Counted(degree: map<string, nat>): Node -> bool {
    (n: Node) => Tally(degree, n.id) > 0
  }

  method KeepLinked(nodes: seq<Node>, degree: map<string, nat>, ghost edges: seq<ResolvedEdge>) returns (out: seq<Node>)
    requires forall id :: Tally(degree, id) == Ends(edges, id)
    ensures out == Filter(Linked(edges), nodes)
  {
    out := [];
    for i := 0 to |nodes|
      invariant out == Filter(Counted(degree), nodes[..i])
    {
      FilterStep(Counted(degree), nodes, i);
      if Tally(degree, nodes[i].id) > 0 {
        out := out + [nodes[i]];
      }
    }
    assert nodes[..|nodes|] == nodes;
    FilterCongruent(Counted(degree), Linked(edges), nodes);
  }

  function ByDegree(degree: map<string, nat>): (Node, Node) -> bool {
    (a: Node, b: Node) => Tally(degree, a.id) > Tally(degree, b.id)
  }

  function ByLoad(degree: map<string, nat>): (ResolvedEdge, ResolvedEdge) -> bool {
    (a: ResolvedEdge, b: ResolvedEdge) =>
      Tally(degree, a.from) + Tally(degree, a.to) > Tally(degree, b.from) + Tally(degree, b.to)
  }

  method Subsample(pool: seq<Node>, degree: map<string, nat>, maxNodes: nat, ghost edges: seq<ResolvedEdge>)
    returns (sampled: seq<Node>)
    requires forall id :: Tally(degree, id) == Ends(edges, id)
    ensures Sampled(pool, edges, maxNodes, sampled)
    ensures |pool| <= maxNodes ==> sampled == pool
  {
    sampled := pool;
    if |pool| > maxNodes {
      var sorted := SortSlice(pool, ByDegree(degree));
      sampled := sorted[..maxNodes];
      TopOfSorted(pool, sorted, maxNodes, ByDegree(degree));
      assert sampled == Take(sorted, maxNodes);
      forall x, y | x in multiset(pool) - multiset(sampled) && y in sampled
        ensures Ends(edges, x.id) <= Ends(edges, y.id)
      {
        assert !ByDegree(degree)(x, y);
      }
    }
  }

  method CapEdges(candidates: seq<ResolvedEdge>, degree: map<string, nat>, ghost edges: seq<ResolvedEdge>)
    returns (shown: seq<ResolvedEdge>)
    requires forall id :: Tally(degree, id) == Ends(edges, id)
    ensures Capped(edges, candidates, shown)
  {
    shown := candidates;
    if |candidates| > DEFAULT_MAX_EDGES {
      var sorted := SortSlice(candidates, ByLoad(degree));
      shown := sorted[..DEFAULT_MAX_EDGES];
      TopOfSorted(candidates, sorted, DEFAULT_MAX_EDGES, ByLoad(degree));
      assert shown == Take(sorted, DEFAULT_MAX_EDGES);
      forall x, y | x in multiset(candidates) - multiset(shown) && y in shown
        ensures Ends(edges, x.from) + Ends(edges, x.to) <= Ends(edges, y.from) + Ends(edges, y.to)
      {
        assert !ByLoad(degree)(x, y);
      }
    }
  }

  lemma {:induction false} FilterFull<T>(keep: T -> bool, s: seq<T>)
    requires |Filter(keep, s)| == |s|
    ensures Filter(keep, s) == s
  {
    if s != [] {
      FilterFull(keep, s[..|s| - 1]);
    }
  }

  /** Dropping isolated nodes loses no edge. */
  lemma LinkedKeepsEdges(nodes: seq<Node>, edges: seq<ResolvedEdge>)
    requires Filter(Within(IdSet(nodes)), edges) == edges
    ensures Filter(Within(IdSet(Filter(Linked(edges), nodes))), edges) == edges
  {
    var kept := Filter(Linked(edges), nodes);
    FilterMembers(Within(IdSet(nodes)), edges);
    assert multiset(edges) <= multiset(edges);
    forall e | e in edges
      ensures Within(IdSet(kept))(e)
    {
      ShownAt(nodes, edges, edges, kept, e, e.from, true);
      ShownAt(nodes, edges, edges, kept, e, e.to, true);
    }
    FilterAll(Within(IdSet(kept)), edges);
  }

  /** The final pass only drops nodes: one run of it is already a fixpoint. */
  lemma FinalPassKeepsEdges(sampled: seq<Node>, edges: seq<ResolvedEdge>, shown: seq<ResolvedEdge>)
    requires multiset(shown) <= multiset(Filter(Within(IdSet(sampled)), edges))
    ensures Filter(Within(IdSet(Filter(Linked(shown), sampled))), shown) == shown
    ensures Filter(Linked(shown), Filter(Linked(shown), sampled)) == Filter(Linked(shown), sampled)
  {
    var kept := Filter(Linked(shown), sampled);
    forall e | e in shown
      ensures Within(IdSet(kept))(e)
    {
      ShownAt(sampled, edges, shown, kept, e, e.from, true);
      ShownAt(sampled, edges, shown, kept, e, e.to, true);
    }
    FilterAll(Within(IdSet(kept)), shown);
    FilterMembers(Linked(shown), sampled);
    FilterAll(Linked(shown), kept);
  }

  method AttachDegrees(nodes: seq<Node>, degree: map<string, nat>, ghost edges: seq<ResolvedEdge>)
    returns (layoutNodes: seq<LayoutNode>)
    requires forall id :: Tally(degree, id) == Ends(edges, id)
    ensures layoutNodes == WithDegrees(nodes, edges)
  {
    layoutNodes := [];
    for i := 0 to |nodes|
      invariant |layoutNodes| == i
      invariant forall j :: 0 <= j < i ==> layoutNodes[j] == LayoutNode(nodes[j], Ends(edges, nodes[j].id))
    {
      layoutNodes := layoutNodes + [LayoutNode(nodes[i], Tally(degree, nodes[i].id))];
    }
  }

  /** The pipeline from the project's nodes and the resolved edges to the result. */
  method Arrange(nodes: seq<Node>, resolvedEdges: seq<ResolvedEdge>, connectedOnly: bool, maxNodes: nat)
    returns (r: LayoutResult)
    ensures exists sampled :: Shows(nodes, Filter(Within(IdSet(nodes)), resolvedEdges), connectedOnly, maxNodes, sampled, r)
  {
    var workingEdges := FilterEdgesByIDs(resolvedEdges, IdSet(nodes));
    ghost var edges := workingEdges;
    FilterAbsorb(Within(IdSet(nodes)), Within(IdSet(nodes)), resolvedEdges);
    var totalEdges := |workingEdges|;
    var degree := CountEnds(workingEdges);
    var isolatedCount := 0;
    var workingNodes := nodes;
    if connectedOnly {
      workingNodes := KeepLinked(nodes, degree, edges);
      isolatedCount := |nodes| - |workingNodes|;
      workingEdges := FilterEdgesByIDs(workingEdges, IdSet(workingNodes));
      LinkedKeepsEdges(nodes, edges);
    }
    assert workingNodes == Pool(nodes, edges, connectedOnly);
    assert workingEdges == edges == Filter(Within(IdSet(workingNodes)), edges);
    ghost var pool := workingNodes;
    var subsampled := |workingNodes| > maxNodes;
    workingNodes := Subsample(workingNodes, degree, maxNodes, edges);
    ghost var sampled := workingNodes;
    if subsampled {
      workingEdges := FilterEdgesByIDs(workingEdges, IdSet(workingNodes));
    }
    assert workingEdges == Filter(Within(IdSet(sampled)), edges);
    workingEdges := CapEdges(workingEdges, degree, edges);
    ghost var shown := workingEdges;
    ghost var counted := edges;
    if connectedOnly {
      var finalDegree := CountEnds(workingEdges);
      counted := shown;
      var stillConnected := KeepLinked(workingNodes, finalDegree, shown);
      FilterSize(Linked(shown), sampled);
      if |stillConnected| < |workingNodes| {
        isolatedCount := isolatedCount + (|workingNodes| - |stillConnected|);
        workingNodes := stillConnected;
        workingEdges := FilterEdgesByIDs(workingEdges, IdSet(workingNodes));
        FinalPassKeepsEdges(sampled, edges, shown);
      } else {
        FilterFull(Linked(shown), sampled);
      }
      degree := finalDegree;
    }
    var layoutNodes := AttachDegrees(workingNodes, degree, counted);
    r := LayoutResult(layoutNodes, workingEdges, |nodes|, totalEdges, subsampled, isolatedCount);
    assert Shows(nodes, edges, connectedOnly, maxNodes, sampled, r);
  }

  // ------------------------------------------------------- project filter

  function FromProject(nodes: seq<Node>, projectPath: string): ResolvedEdge -> bool {
    (e: ResolvedEdge) => exists i :: 0 <= i < |nodes| && nodes[i].id == e.from && HasPrefix(nodes[i].path, projectPath)
  }

  method FilterEdgesByProject(edges: seq<ResolvedEdge>, nodes: seq<Node>, projectPath: string)
    returns (out: seq<ResolvedEdge>)
    requires forall i, j :: 0 <= i < j < |nodes| ==> nodes[i].id != nodes[j].id
    ensures out == Filter(FromProject(nodes, projectPath), edges)
  {
    var nodePaths: map<string, string> := map[];
    for i := 0 to |nodes|
      invariant forall id :: id in nodePaths <==> exists j :: 0 <= j < i && nodes[j].id == id
      invariant forall j :: 0 <= j < i ==> nodes[j].id in nodePaths && nodePaths[nodes[j].id] == nodes[j].path
    {
      nodePaths := nodePaths[nodes[i].id := nodes[i].path];
    }
    out := [];
    for i := 0 to |edges|
      invariant out == Filter(FromProject(nodes, projectPath), edges[..i])
    {
      FilterStep(FromProject(nodes, projectPath), edges, i);
      if edges[i].from in nodePaths && HasPrefix(nodePaths[edges[i].from], projectPath) {
        out := out + [edges[i]];
      }
    }
    assert edges[..|edges|] == edges;
  }

  /** Among nodes that all lie in the project, filtering by project is implied
      by filtering by node. */
  lemma ProjectFilterAbsorbed(nodes: seq<Node>, projectPath: string, edges: seq<ResolvedEdge>)
    requires forall i :: 0 <= i < |nodes| ==> HasPrefix(nodes[i].path, projectPath)
    ensures Filter(Within(IdSet(nodes)), Filter(FromProject(nodes, projectPath), edges))
      == Filter(Within(IdSet(nodes)), edges)
  {
    FilterAbsorb(Within(IdSet(nodes)), FromProject(nodes, projectPath), edges);
  }

  // ----------------------------------------------------------------- cache

  function BoolText(b: bool): string {
    if b then "true" else "false"
  }

  function CacheKey(projectName: string, connectedOnly: bool, maxNodes: nat): string {
    (projectName + "|" + BoolText(connectedOnly)) + "|" + Itoa(maxNodes)
  }

  /** Different requests have different cache keys, whatever the project is called. */
  lemma CacheKeyInjective(p: string, c: bool, m: nat, p': string, c': bool, m': nat)
    requires CacheKey(p, c, m) == CacheKey(p', c', m')
    ensures p == p' && c == c' && m == m'
  {
    LastSeparator(p + "|" + BoolText(c), Itoa(m), p' + "|" + BoolText(c'), Itoa(m'), '|');
    LastSeparator(p, BoolText(c), p', BoolText(c'), '|');
    ItoaInjective(m, m');
  }

  /** Invalidation goes by key prefix. Besides the keys of the named project it
      reaches those of projects whose names continue it after a separator, and
      half of those of a project that it continues by "|true" or "|false". */
  lemma PrefixSelectsProject(name: string, p: string, c: bool, m: nat)
    ensures HasPrefix(CacheKey(p, c, m), name + "|")
      <==> p == name || HasPrefix(p, name + "|") || name == p + "|" + (if c then "true" else "false")
  {
    var key, text, digits, n := CacheKey(p, c, m), BoolText(c), Itoa(m), |name|;
    assert key == p + "|" + text + "|" + digits;
    if name == p + "|" + text {
      assert key[..n + 1] == name + "|";
    }
    if n < |p| {
      assert key[..n + 1] == p[..n + 1];
    } else if n == |p| {
      assert key[..n + 1] == p + "|";
      assert (name + "|")[..n] == name && (p + "|")[..n] == p;
    } else if HasPrefix(key, name + "|") {
      assert key[n] == (name + "|")[n];
      SeparatorAt(p, text, digits, n);
      assert key[..n] == p + "|" + text && (name + "|")[..n] == name;
    }
  }

  /** Past the project name a key has one more separator. */
  lemma SeparatorAt(p: string, text: string, digits: string, n: nat)
    requires '|' !in text && '|' !in digits
    requires |p| < n < |p + "|" + text + "|" + digits|
    ensures (p + "|" + text + "|" + digits)[n] == '|' <==> n == |p| + 1 + |text|
  {
    var key := p + "|" + text + "|" + digits;
    if n < |p| + 1 + |text| {
      assert key[n] == text[n - |p| - 1];
    } else if n > |p| + 1 + |text| {
      assert key[n] == digits[n - |p| - |text| - 2];
    }
  }

  function EffectiveMax(maxNodes: int): nat {
    if maxNodes <= 0 then DEFAULT_MAX_NODES else maxNodes
  }

  /** A result computed from the graph as it is, for some order in which the
      node map was visited and ties were sorted. */
  ghost predicate FreshLayout(g: GraphState, projectPath: string, connectedOnly: bool, maxNodes: nat, r: LayoutResult) {
    exists nodes, resolved, sampled ::
      && Selection(g.nodes, UnderPath(projectPath), nodes)
      && Resolution(g, resolved)
      && Shows(nodes, Filter(Within(IdSet(nodes)), resolved), connectedOnly, maxNodes, sampled, r)
  }

  class LayoutCache {
    var entries: map<string, LayoutResult>

    constructor ()
      ensures Valid() && entries == map[]
    {
      entries := map[];
    }

    /** Every cached result is well-formed for the request it is filed under. */
    ghost predicate Valid()
      reads this
    {
      forall p, c, m :: CacheKey(p, c, m) in entries ==> WellFormed(entries[CacheKey(p, c, m)], c, m)
    }

    method Store(projectName: string, connectedOnly: bool, maxNodes: nat, result: LayoutResult)
      requires Valid() && WellFormed(result, connectedOnly, maxNodes)
      modifies this
      ensures Valid() && entries == old(entries)[CacheKey(projectName, connectedOnly, maxNodes) := result]
    {
      var key := CacheKey(projectName, connectedOnly, maxNodes);
      entries := entries[key := result];
      forall p, c, m | CacheKey(p, c, m) in entries
        ensures WellFormed(entries[CacheKey(p, c, m)], c, m)
      {
        if CacheKey(p, c, m) == key {
          CacheKeyInjective(p, c, m, projectName, connectedOnly, maxNodes);
        }
      }
    }

    method GraphLayout(g: Graph, projects: seq<Project>, projectName: string, connectedOnly: bool, maxNodes: int)
      returns (r: Result<LayoutResult>)
      requires Valid() && Sound(g.View())
      modifies this
      ensures Valid()
      ensures r.Ok? ==> WellFormed(r.value, connectedOnly, if maxNodes <= 0 then 800 else maxNodes)
      ensures var limit := if maxNodes <= 0 then 800 else maxNodes;
        var key := CacheKey(projectName, connectedOnly, limit);
        if key in old(entries) then r == Ok(old(entries)[key]) && entries == old(entries)
        else if ScopeOf(projects, projectName).Err? then r.Err? && entries == old(entries)
        else
          && r.Ok?
          && entries == old(entries)[key := r.value]
          && FreshLayout(g.View(), ScopeOf(projects, projectName).value, connectedOnly, limit, r.value)
    {
      var limit := EffectiveMax(maxNodes);
      var key := CacheKey(projectName, connectedOnly, limit);
      if key in entries {
        return Ok(entries[key]);
      }
      var scope := ScopeOf(projects, projectName);
      if scope.Err? {
        return Err(scope.error);
      }
      var result := Compute(g, projectName, scope.value, connectedOnly, limit);
      Store(projectName, connectedOnly, limit, result);
      return Ok(result);
    }

    static method Compute(g: Graph, projectName: string, projectPath: string, connectedOnly: bool, maxNodes: nat)
      returns (result: LayoutResult)
      requires Sound(g.View()) && (projectName == "" ==> projectPath == "")
      ensures FreshLayout(g.View(), projectPath, connectedOnly, maxNodes, result)
      ensures WellFormed(result, connectedOnly, maxNodes)
    {
      var nodes := NodesByProject(g, projectPath);
      var resolvedEdges := ResolveEdges(g);
      ghost var allEdges := resolvedEdges;
      if projectName != "" {
        resolvedEdges := FilterEdgesByProject(resolvedEdges, nodes, projectPath);
        ProjectFilterAbsorbed(nodes, projectPath, allEdges);
      }
      result := Arrange(nodes, resolvedEdges, connectedOnly, maxNodes);
      ghost var among := Filter(Within(IdSet(nodes)), allEdges);
      ghost var sampled :| Shows(nodes, among, connectedOnly, maxNodes, sampled, result);
      ShowsWellFormed(nodes, among, connectedOnly, maxNodes, sampled, result);
    }

    method InvalidateLayoutCache(projectName: string)
      requires Valid()
      modifies this
      ensures Valid()
      ensures entries == map k | k in old(entries) && !HasPrefix(k, projectName + "|") :: old(entries)[k]
    {
      ghost var before := entries;
      var todo := entries.Keys;
      while todo != {}
        invariant todo <= before.Keys
        invariant entries == map k | k in before && (k in todo || !HasPrefix(k, projectName + "|")) :: before[k]
        decreases todo
      {
        var k :| k in todo;
        todo := todo - {k};
        if HasPrefix(k, projectName + "|") {
          entries := entries - {k};
        }
      }
    }
  }
}
