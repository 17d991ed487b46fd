/** Queries over the call graph: name resolution, degrees, adjacency and node
    selection (internal/graph/ops.go). */
module GraphOps {
  import opened Common
  import opened CallGraph
  import opened Chunks

  datatype ResolvedEdge = ResolvedEdge(from: string, to: string, toSymbol: string, toPath: string, line: int)

  // ------------------------------------------------- reference definitions

  /** Node `a` calls node `b`: some edge from `a` carries the symbol of `b`. */
  ghost predicate Calls(g: GraphState, a: string, b: string) {
    b in g.nodes && exists e :: e in g.edges && e.from == a && e.to == g.nodes[b].symbol
  }

  ghost function NodesNamed(g: GraphState, symbol: string): set<string> {
    set id | id in g.nodes && g.nodes[id].symbol == symbol
  }

  /** How many edges carry the given callee name. */
  ghost function CallSites(edges: seq<Edge>, name: string): nat {
    if edges == [] then 0
    else CallSites(edges[..|edges| - 1], name) + (if edges[|edges| - 1].to == name then 1 else 0)
  }

  ghost function InDegreeOf(g: GraphState, id: string): nat {
    if id in g.nodes then CallSites(g.edges, g.nodes[id].symbol) else 0
  }

  ghost function FanOut(g: GraphState, edges: seq<Edge>, id: string): nat {
    if edges == [] then 0
    else
      var e := edges[|edges| - 1];
      FanOut(g, edges[..|edges| - 1], id) + (if e.from == id then |NodesNamed(g, e.to)| else 0)
  }

  /** Every call site counts once for each node its name may denote. */
  ghost function OutDegreeOf(g: GraphState, id: string): nat {
    FanOut(g, g.edges, id)
  }

  // ------------------------------------------------------ name resolution

  function Resolve(e: Edge, n: Node): ResolvedEdge {
    ResolvedEdge(e.from, n.id, n.symbol, n.path, e.line)
  }

  /** `table` lists the nodes under their symbols, each exactly once. */
  ghost predicate Listing(nodes: map<string, Node>, table: map<string, seq<Node>>) {
    && (forall s, i :: s in table && 0 <= i < |table[s]| ==>
          table[s][i].id in nodes && nodes[table[s][i].id] == table[s][i] && table[s][i].symbol == s)
    && (forall s, i, j :: s in table && 0 <= i < j < |table[s]| ==> table[s][i].id != table[s][j].id)
    && (forall id :: id in nodes ==> nodes[id].id == id && nodes[id].symbol in table && nodes[id] in table[nodes[id].symbol])
  }

  function ResolveAll(e: Edge, targets: seq<Node>): (r: seq<ResolvedEdge>) {
    if targets == [] then []
    else ResolveAll(e, targets[..|targets| - 1]) + [Resolve(e, targets[|targets| - 1])]
  }

  function Targets(table: map<string, seq<Node>>, name: string): seq<Node> {
    if name in table then table[name] else []
  }

  function Expand(edges: seq<Edge>, table: map<string, seq<Node>>): (r: seq<ResolvedEdge>) {
    if edges == [] then []
    else
      var e := edges[|edges| - 1];
      Expand(edges[..|edges| - 1], table) + ResolveAll(e, Targets(table, e.to))
  }

  /** The resolved edges of `g`, in edge order; the targets of one edge come in
      the order in which the node map happened to be visited. */
  ghost predicate Resolution(g: GraphState, out: seq<ResolvedEdge>) {
    exists table :: Listing(g.nodes, table) && out == Expand(g.edges, table)
  }

  lemma ListingStep(nodes: map<string, Node>, table: map<string, seq<Node>>, n: Node)
    requires Listing(nodes, table) && n.id !in nodes
    ensures Listing(nodes[n.id := n], table[n.symbol := Targets(table, n.symbol) + [n]])
  {
    var nodes' := nodes[n.id := n];
    var listed := Targets(table, n.symbol);
    var table': map<string, seq<Node>> := table[n.symbol := listed + [n]];
    forall s, i | s in table' && 0 <= i < |table'[s]|
      ensures table'[s][i].id in nodes' && nodes'[table'[s][i].id] == table'[s][i] && table'[s][i].symbol == s
    {
      assert s == n.symbol || table'[s] == table[s];
    }
    assert table'[n.symbol][|listed|] == n;
    forall id | id in nodes
      ensures nodes[id] in table'[nodes[id].symbol]
    {
      var i :| 0 <= i < |table[nodes[id].symbol]| && table[nodes[id].symbol][i] == nodes[id];
      assert table'[nodes[id].symbol][i] == nodes[id];
    }
  }

  method ListBySymbol(nodes: map<string, Node>) returns (table: map<string, seq<Node>>)
    requires forall id :: id in nodes ==> nodes[id].id == id
    ensures Listing(nodes, table)
  {
    table := map[];
    var todo := nodes.Keys;
    ghost var seen: map<string, Node> := map[];
    while todo != {}
      invariant todo <= nodes.Keys
      invariant seen == map id | id in nodes && id !in todo :: nodes[id]
      invariant Listing(seen, table)
      decreases todo
    {
      var id :| id in todo;
      todo := todo - {id};
      var n := nodes[id];
      ListingStep(seen, table, n);
      table := table[n.symbol := Targets(table, n.symbol) + [n]];
      seen := seen[id := n];
    }
    assert seen == nodes;
  }

  method ResolveTargets(e: Edge, targets: seq<Node>) returns (out: seq<ResolvedEdge>)
    ensures out == ResolveAll(e, targets)
  {
    out := [];
    for j := 0 to |targets|
      invariant out == ResolveAll(e, targets[..j])
    {
      assert targets[..j + 1][..j] == targets[..j];
      out := out + [Resolve(e, targets[j])];
    }
    assert targets[..|targets|] == targets;
  }

  /** A resolved edge names a node, and some edge calls that name at that line. */
  ghost predicate Resolves(g: GraphState, r: ResolvedEdge) {
    && r.to in g.nodes && r.toSymbol == g.nodes[r.to].symbol && r.toPath == g.nodes[r.to].path
    && exists e :: e in g.edges && e.from == r.from && e.to == r.toSymbol && e.line == r.line
  }

  lemma {:induction false} ExpandResolves(g: GraphState, edges: seq<Edge>, table: map<string, seq<Node>>, r: ResolvedEdge)
    requires Listing(g.nodes, table) && Elements(edges) <= Elements(g.edges) && r in Expand(edges, table)
    ensures Resolves(g, r)
  {
    var k := |edges| - 1;
    var e := edges[k];
    assert e in Elements(edges);
    assert forall x :: x in edges[..k] ==> x in Elements(edges);
    if r in Expand(edges[..k], table) {
      ExpandResolves(g, edges[..k], table, r);
    } else {
      ResolveAllMembers(e, Targets(table, e.to));
      assert e in g.edges;
    }
  }

  method ResolveEdges(g: Graph) returns (out: seq<ResolvedEdge>)
    requires Sound(g.View())
    ensures Resolution(g.View(), out)
    ensures forall r :: r in out ==> Resolves(g.View(), r)
  {
    var bySymbol := ListBySymbol(g.nodes);
    var edges := g.edges;
    out := [];
    for i := 0 to |edges|
      invariant out == Expand(edges[..i], bySymbol)
    {
      var e := edges[i];
      assert edges[..i + 1][..i] == edges[..i];
      if e.to in bySymbol {
        var resolved := ResolveTargets(e, bySymbol[e.to]);
        out := out + resolved;
      }
    }
    assert edges[..|edges|] == edges;
    forall r | r in out
      ensures Resolves(g.View(), r)
    {
      ExpandResolves(g.View(), g.edges, bySymbol, r);
    }
  }

  // ------------------------------------------- what resolution amounts to

  lemma {:induction false} ResolveAllMembers(e: Edge, targets: seq<Node>)
    ensures forall r :: r in ResolveAll(e, targets) <==> exists n :: n in targets && r == Resolve(e, n)
  {
    if targets != [] {
      var k := |targets| - 1;
      ResolveAllMembers(e, targets[..k]);
      assert targets == targets[..k] + [targets[k]];
    }
  }

  predicate Joins(rs: seq<ResolvedEdge>, a: string, b: string) {
    exists r :: r in rs && r.from == a && r.to == b
  }

  lemma JoinsConcat(rs: seq<ResolvedEdge>, more: seq<ResolvedEdge>, a: string, b: string)
    ensures Joins(rs + more, a, b) <==> Joins(rs, a, b) || Joins(more, a, b)
  {
    if Joins(rs, a, b) {
      var r :| r in rs && r.from == a && r.to == b;
      assert r in rs + more;
    }
    if Joins(more, a, b) {
      var r :| r in more && r.from == a && r.to == b;
      assert r in rs + more;
    }
  }

  lemma {:induction false} ExpandMembers(g: GraphState, edges: seq<Edge>, table: map<string, seq<Node>>, a: string, b: string)
    requires Listing(g.nodes, table)
    ensures Joins(Expand(edges, table), a, b)
      <==> b in g.nodes && exists e :: e in edges && e.from == a && e.to == g.nodes[b].symbol
  {
    if edges != [] {
      var k := |edges| - 1;
      var e := edges[k];
      ExpandMembers(g, edges[..k], table, a, b);
      ResolveAllMembers(e, Targets(table, e.to));
      assert edges == edges[..k] + [e];
      var here := ResolveAll(e, Targets(table, e.to));
      JoinsConcat(Expand(edges[..k], table), here, a, b);
      if b in g.nodes && e.from == a && e.to == g.nodes[b].symbol {
        assert Resolve(e, g.nodes[b]) in here;
      }
    }
  }

  /** Resolved edges join exactly the pairs of the call relation. */
  lemma ResolvedPairs(g: GraphState, out: seq<ResolvedEdge>, a: string, b: string)
    requires Resolution(g, out)
    ensures Joins(out, a, b) <==> Calls(g, a, b)
  {
    var table :| Listing(g.nodes, table) && out == Expand(g.edges, table);
    ExpandMembers(g, g.edges, table, a, b);
  }

  function CountTo(rs: seq<ResolvedEdge>, id: string): nat {
    if rs == [] then 0 else CountTo(rs[..|rs| - 1], id) + (if rs[|rs| - 1].to == id then 1 else 0)
  }

  function CountFrom(rs: seq<ResolvedEdge>, id: string): nat {
    if rs == [] then 0 else CountFrom(rs[..|rs| - 1], id) + (if rs[|rs| - 1].from == id then 1 else 0)
  }

  /** One more edge, one more count. */
  lemma CountStep(rs: seq<ResolvedEdge>, i: nat, id: string)
    requires i < |rs|
    ensures CountTo(rs[..i + 1], id) == CountTo(rs[..i], id) + (if rs[i].to == id then 1 else 0)
    ensures CountFrom(rs[..i + 1], id) == CountFrom(rs[..i], id) + (if rs[i].from == id then 1 else 0)
  {
    assert rs[..i + 1][..i] == rs[..i];
  }

  lemma {:induction false} CountConcat(a: seq<ResolvedEdge>, b: seq<ResolvedEdge>, id: string)
    ensures CountTo(a + b, id) == CountTo(a, id) + CountTo(b, id)
    ensures CountFrom(a + b, id) == CountFrom(a, id) + CountFrom(b, id)
  {
    if b == [] {
      assert a + b == a;
    } else {
      var n := |b| - 1;
      assert (a + b)[..|a| + n] == a + b[..n];
      CountConcat(a, b[..n], id);
    }
  }

  ghost predicate HasId(targets: seq<Node>, id: string) {
    exists i :: 0 <= i < |targets| && targets[i].id == id
  }

  lemma HasIdSnoc(targets: seq<Node>, n: Node, id: string)
    ensures HasId(targets + [n], id) <==> HasId(targets, id) || n.id == id
  {
    var longer := targets + [n];
    assert longer[|targets|] == n;
    if HasId(targets, id) {
      var i :| 0 <= i < |targets| && targets[i].id == id;
      assert longer[i].id == id;
    }
  }

  lemma {:induction false} CountResolved(e: Edge, targets: seq<Node>, id: string)
    requires forall i, j :: 0 <= i < j < |targets| ==> targets[i].id != targets[j].id
    ensures CountTo(ResolveAll(e, targets), id) == if HasId(targets, id) then 1 else 0
    ensures CountFrom(ResolveAll(e, targets), id) == if e.from == id then |targets| else 0
  {
    if targets != [] {
      var k := |targets| - 1;
      CountResolved(e, targets[..k], id);
      CountOne(ResolveAll(e, targets[..k]), Resolve(e, targets[k]), id);
      HasIdSnoc(targets[..k], targets[k], id);
      assert targets == targets[..k] + [targets[k]];
      assert HasId(targets[..k], targets[k].id) ==> false;
    }
  }

  lemma CountOne(rs: seq<ResolvedEdge>, r: ResolvedEdge, id: string)
    ensures CountTo(rs + [r], id) == CountTo(rs, id) + (if r.to == id then 1 else 0)
    ensures CountFrom(rs + [r], id) == CountFrom(rs, id) + (if r.from == id then 1 else 0)
  {
    assert (rs + [r])[..|rs|] == rs;
  }

  lemma {:induction false} DistinctIdCount(targets: seq<Node>)
    requires forall i, j :: 0 <= i < j < |targets| ==> targets[i].id != targets[j].id
    ensures |set i | 0 <= i < |targets| :: targets[i].id| == |targets|
  {
    if targets != [] {
      var k := |targets| - 1;
      DistinctIdCount(targets[..k]);
      var front := set i | 0 <= i < k :: targets[..k][i].id;
      assert (set i | 0 <= i < |targets| :: targets[i].id) == front + {targets[k].id};
    }
  }

  lemma ListedTargets(g: GraphState, table: map<string, seq<Node>>, name: string)
    requires Listing(g.nodes, table)
    ensures |Targets(table, name)| == |NodesNamed(g, name)|
    ensures forall id :: id in NodesNamed(g, name) <==> HasId(Targets(table, name), id)
  {
    var targets := Targets(table, name);
    DistinctIdCount(targets);
    forall id | id in NodesNamed(g, name)
      ensures HasId(targets, id)
    {
      var i :| 0 <= i < |targets| && targets[i] == g.nodes[id];
    }
    assert NodesNamed(g, name) == set i | 0 <= i < |targets| :: targets[i].id;
  }

  lemma EdgeDegrees(g: GraphState, e: Edge, table: map<string, seq<Node>>, id: string)
    requires Listing(g.nodes, table)
    ensures CountTo(ResolveAll(e, Targets(table, e.to)), id)
      == if id in g.nodes && g.nodes[id].symbol == e.to then 1 else 0
    ensures CountFrom(ResolveAll(e, Targets(table, e.to)), id)
      == if e.from == id then |NodesNamed(g, e.to)| else 0
  {
    ListedTargets(g, table, e.to);
    CountResolved(e, Targets(table, e.to), id);
    assert id in NodesNamed(g, e.to) <==> id in g.nodes && g.nodes[id].symbol == e.to;
  }

  lemma {:induction false} ExpandDegrees(g: GraphState, edges: seq<Edge>, table: map<string, seq<Node>>, id: string)
    requires Listing(g.nodes, table)
    ensures CountTo(Expand(edges, table), id) == if id in g.nodes then CallSites(edges, g.nodes[id].symbol) else 0
    ensures CountFrom(Expand(edges, table), id) == FanOut(g, edges, id)
  {
    if edges != [] {
      var k := |edges| - 1;
      ExpandDegrees(g, edges[..k], table, id);
      EdgeDegrees(g, edges[k], table, id);
      CountConcat(Expand(edges[..k], table), ResolveAll(edges[k], Targets(table, edges[k].to)), id);
    }
  }

  /** Counting resolved edges gives the reference degrees, in every order of
      resolution. */
  lemma ResolvedDegrees(g: GraphState, out: seq<ResolvedEdge>, id: string)
    requires Resolution(g, out)
    ensures CountTo(out, id) == InDegreeOf(g, id)
    ensures CountFrom(out, id) == OutDegreeOf(g, id)
  {
    var table :| Listing(g.nodes, table) && out == Expand(g.edges, table);
    ExpandDegrees(g, g.edges, table, id);
  }

  lemma {:induction false} CallSitePositive(edges: seq<Edge>, name: string)
    ensures CallSites(edges, name) > 0 <==> exists e :: e in edges && e.to == name
  {
    if edges != [] {
      var k := |edges| - 1;
      CallSitePositive(edges[..k], name);
      assert edges == edges[..k] + [edges[k]];
    }
  }

  /** Nodes that share a symbol share their in-degree, which is positive exactly
      when somebody calls them. */
  lemma InDegreeByName(g: GraphState, a: string, b: string)
    requires a in g.nodes && b in g.nodes && g.nodes[a].symbol == g.nodes[b].symbol
    ensures InDegreeOf(g, a) == InDegreeOf(g, b)
    ensures InDegreeOf(g, a) > 0 <==> exists c :: Calls(g, c, b)
  {
    CallSitePositive(g.edges, g.nodes[b].symbol);
    if e :| e in g.edges && e.to == g.nodes[b].symbol {
      assert Calls(g, e.from, b);
    }
  }

  // --------------------------------------------------------------- degrees

  method InDegree(g: Graph, nodeID: string) returns (count: nat)
    requires Sound(g.View())
    ensures count == InDegreeOf(g.View(), nodeID)
  {
    var resolved := ResolveEdges(g);
    count := 0;
    for i := 0 to |resolved|
      invariant count == CountTo(resolved[..i], nodeID)
    {
      CountStep(resolved, i, nodeID);
      if resolved[i].to == nodeID {
        count := count + 1;
      }
    }
    assert resolved[..|resolved|] == resolved;
    ResolvedDegrees(g.View(), resolved, nodeID);
  }

  method OutDegree(g: Graph, nodeID: string) returns (count: nat)
    requires Sound(g.View())
    ensures count == OutDegreeOf(g.View(), nodeID)
  {
    var resolved := ResolveEdges(g);
    count := 0;
    for i := 0 to |resolved|
      invariant count == CountFrom(resolved[..i], nodeID)
    {
      CountStep(resolved, i, nodeID);
      if resolved[i].from == nodeID {
        count := count + 1;
      }
    }
    assert resolved[..|resolved|] == resolved;
    ResolvedDegrees(g.View(), resolved, nodeID);
  }

  /** Reading a counter map: missing keys count zero. */
  function Tally(m: map<string, nat>, id: string): nat {
    if id in m then m[id] else 0
  }

  /** One pass over the resolved edges agrees everywhere with InDegree and
      OutDegree. */
  method DegreeMaps(g: Graph) returns (inDegree: map<string, nat>, outDegree: map<string, nat>)
    requires Sound(g.View())
    ensures forall id :: Tally(inDegree, id) == InDegreeOf(g.View(), id)
    ensures forall id :: Tally(outDegree, id) == OutDegreeOf(g.View(), id)
  {
    var resolved := ResolveEdges(g);
    inDegree := map[];
    outDegree := map[];
    for i := 0 to |resolved|
      invariant forall id :: Tally(inDegree, id) == CountTo(resolved[..i], id)
      invariant forall id :: Tally(outDegree, id) == CountFrom(resolved[..i], id)
    {
      var e := resolved[i];
      ghost var inBefore, outBefore := inDegree, outDegree;
      outDegree := outDegree[e.from := Tally(outDegree, e.from) + 1];
      inDegree := inDegree[e.to := Tally(inDegree, e.to) + 1];
      forall id
        ensures Tally(inDegree, id) == CountTo(resolved[..i + 1], id)
        ensures Tally(outDegree, id) == CountFrom(resolved[..i + 1], id)
      {
        CountStep(resolved, i, id);
        assert Tally(inDegree, id) == Tally(inBefore, id) + if e.to == id then 1 else 0;
        assert Tally(outDegree, id) == Tally(outBefore, id) + if e.from == id then 1 else 0;
      }
    }
    assert resolved[..|resolved|] == resolved;
    forall id
      ensures Tally(inDegree, id) == InDegreeOf(g.View(), id) && Tally(outDegree, id) == OutDegreeOf(g.View(), id)
    {
      ResolvedDegrees(g.View(), resolved, id);
    }
  }

  // ------------------------------------------------------------- adjacency

  function Adjacent(m: map<string, seq<string>>, id: string): seq<string> {
    if id in m then m[id] else []
  }

  /** `out` groups the resolved edges by caller. */
  ghost predicate Callees(out: map<string, seq<string>>, rs: seq<ResolvedEdge>) {
    forall a, b :: b in Adjacent(out, a) <==> Joins(rs, a, b)
  }

  /** `out` groups the resolved edges by callee. */
  ghost predicate Callers(out: map<string, seq<string>>, rs: seq<ResolvedEdge>) {
    forall a, b :: a in Adjacent(out, b) <==> Joins(rs, a, b)
  }

  lemma JoinsOne(e: ResolvedEdge, a: string, b: string)
    ensures Joins([e], a, b) <==> e.from == a && e.to == b
  {
    assert [e][0] == e;
  }

  lemma CalleesStep(out: map<string, seq<string>>, rs: seq<ResolvedEdge>, e: ResolvedEdge)
    requires Callees(out, rs)
    ensures Callees(out[e.from := Adjacent(out, e.from) + [e.to]], rs + [e])
  {
    forall a, b
      ensures Joins(rs + [e], a, b) <==> Joins(rs, a, b) || (e.from == a && e.to == b)
    {
      JoinsConcat(rs, [e], a, b);
      JoinsOne(e, a, b);
    }
  }

  lemma CallersStep(out: map<string, seq<string>>, rs: seq<ResolvedEdge>, e: ResolvedEdge)
    requires Callers(out, rs)
    ensures Callers(out[e.to := Adjacent(out, e.to) + [e.from]], rs + [e])
  {
    forall a, b
      ensures Joins(rs + [e], a, b) <==> Joins(rs, a, b) || (e.from == a && e.to == b)
    {
      JoinsConcat(rs, [e], a, b);
      JoinsOne(e, a, b);
    }
  }

  lemma NoCallees()
    ensures Callees(map[], [])
  {
  }

  lemma NoCallers()
    ensures Callers(map[], [])
  {
  }

  lemma CalleesOfCalls(g: GraphState, rs: seq<ResolvedEdge>, out: map<string, seq<string>>)
    requires Resolution(g, rs) && Callees(out, rs)
    ensures forall a, b :: b in Adjacent(out, a) <==> Calls(g, a, b)
  {
    forall a, b { ResolvedPairs(g, rs, a, b); }
  }

  lemma CallersOfCalls(g: GraphState, rs: seq<ResolvedEdge>, out: map<string, seq<string>>)
    requires Resolution(g, rs) && Callers(out, rs)
    ensures forall a, b :: a in Adjacent(out, b) <==> Calls(g, a, b)
  {
    forall a, b { ResolvedPairs(g, rs, a, b); }
  }

  method AdjacencyList(g: Graph) returns (out: map<string, seq<string>>)
    requires Sound(g.View())
    ensures forall a, b :: b in Adjacent(out, a) <==> Calls(g.View(), a, b)
  {
    hide Sound, Resolution, Callees, Joins, Calls;
    var resolved := ResolveEdges(g);
    out := map[];
    NoCallees();
    assert resolved[..0] == [];
    for i := 0 to |resolved|
      invariant Callees(out, resolved[..i])
    {
      var e := resolved[i];
      assert resolved[..i + 1] == resolved[..i] + [e];
      CalleesStep(out, resolved[..i], e);
      out := out[e.from := Adjacent(out, e.from) + [e.to]];
    }
    assert resolved[..|resolved|] == resolved;
    CalleesOfCalls(g.View(), resolved, out);
  }

  method ReverseAdjacencyList(g: Graph) returns (out: map<string, seq<string>>)
    requires Sound(g.View())
    ensures forall a, b :: a in Adjacent(out, b) <==> Calls(g.View(), a, b)
  {
    hide Sound, Resolution, Callers, Joins, Calls;
    var resolved := ResolveEdges(g);
    out := map[];
    NoCallers();
    assert resolved[..0] == [];
    for i := 0 to |resolved|
      invariant Callers(out, resolved[..i])
    {
      var e := resolved[i];
      assert resolved[..i + 1] == resolved[..i] + [e];
      CallersStep(out, resolved[..i], e);
      out := out[e.to := Adjacent(out, e.to) + [e.from]];
    }
    assert resolved[..|resolved|] == resolved;
    CallersOfCalls(g.View(), resolved, out);
  }

  method CalleesOf(g: Graph, nodeID: string) returns (callees: seq<string>)
    requires Sound(g.View())
    ensures forall b :: b in callees <==> Calls(g.View(), nodeID, b)
  {
    var adj := AdjacencyList(g);
    callees := Adjacent(adj, nodeID);
  }

  method CallersOf(g: Graph, nodeID: string) returns (callers: seq<string>)
    requires Sound(g.View())
    ensures forall a :: a in callers <==> Calls(g.View(), a, nodeID)
  {
    var rev := ReverseAdjacencyList(g);
    callers := Adjacent(rev, nodeID);
  }

  // --------------------------------------------------------- node selection

  predicate InProject(n: Node, projectPath: string) {
    projectPath == "" || HasPrefix(n.path, projectPath)
  }

  /** `out` lists, each once and in any order, the nodes that satisfy `want`. */
  ghost predicate Selection(nodes: map<string, Node>, want: Node -> bool, out: seq<Node>) {
    && (forall i :: 0 <= i < |out| ==> out[i].id in nodes && nodes[out[i].id] == out[i] && want(out[i]))
    && (forall i, j :: 0 <= i < j < |out| ==> out[i].id != out[j].id)
    && (forall id :: id in nodes && want(nodes[id]) ==> nodes[id] in out)
  }

  lemma SelectionStep(nodes: map<string, Node>, want: Node -> bool, out: seq<Node>, n: Node)
    requires Selection(nodes, want, out) && n.id !in nodes
    ensures Selection(nodes[n.id := n], want, if want(n) then out + [n] else out)
  {
    var out' := if want(n) then out + [n] else out;
    forall id | id in nodes && want(nodes[id])
      ensures nodes[id] in out'
    {
      var i :| 0 <= i < |out| && out[i] == nodes[id];
      assert out'[i] == nodes[id];
    }
    if want(n) { assert out'[|out|] == n; }
  }

  method SelectNodes(nodes: map<string, Node>, want: Node -> bool) returns (out: seq<Node>)
    requires forall id :: id in nodes ==> nodes[id].id == id
    ensures Selection(nodes, want, out)
  {
    out := [];
    var todo := nodes.Keys;
    ghost var seen: map<string, Node> := map[];
    while todo != {}
      invariant todo <= nodes.Keys
      invariant seen == map id | id in nodes && id !in todo :: nodes[id]
      invariant Selection(seen, want, out)
      decreases todo
    {
      var id :| id in todo;
      todo := todo - {id};
      SelectionStep(seen, want, out, nodes[id]);
      if want(nodes[id]) {
        out := out + [nodes[id]];
      }
      seen := seen[id := nodes[id]];
    }
    assert seen == nodes;
  }

  lemma {:induction false} SelectionCount(nodes: map<string, Node>, want: Node -> bool, out: seq<Node>)
    requires Selection(nodes, want, out) && forall id :: id in nodes ==> nodes[id].id == id
    ensures |out| == |set id | id in nodes && want(nodes[id])|
  {
    DistinctIdCount(out);
    var ids := set i | 0 <= i < |out| :: out[i].id;
    forall id | id in nodes && want(nodes[id])
      ensures id in ids
    {
      var i :| 0 <= i < |out| && out[i] == nodes[id];
    }
    assert ids == set id | id in nodes && want(nodes[id]);
  }

  lemma SelectionMembers(g: GraphState, want: Node -> bool, out: seq<Node>)
    requires Sound(g) && Selection(g.nodes, want, out)
    ensures forall n :: n in out <==> n in g.nodes.Values && want(n)
  {
    forall n
      ensures n in out <==> n in g.nodes.Values && want(n)
    {
      if n in out { var i :| 0 <= i < |out| && out[i] == n; }
      if n in g.nodes.Values { assert g.nodes[n.id] == n; }
    }
  }

  function NamedIn(symbol: string, projectPath: string): Node -> bool {
    (n: Node) => n.symbol == symbol && InProject(n, projectPath)
  }

  function UnderPath(projectPath: string): Node -> bool {
    (n: Node) => InProject(n, projectPath)
  }

  method ResolveSymbol(g: Graph, symbol: string, projectPath: string) returns (out: seq<Node>)
    requires Sound(g.View())
    ensures Selection(g.nodes, NamedIn(symbol, projectPath), out)
    ensures forall n :: n in out <==>
      n in g.nodes.Values && n.symbol == symbol && (projectPath == "" || projectPath <= n.path)
  {
    out := SelectNodes(g.nodes, NamedIn(symbol, projectPath));
    SelectionMembers(g.View(), NamedIn(symbol, projectPath), out);
  }

  method NodesByProject(g: Graph, projectPath: string) returns (out: seq<Node>)
    requires Sound(g.View())
    ensures Selection(g.nodes, UnderPath(projectPath), out)
    ensures forall n :: n in out <==> n in g.nodes.Values && (projectPath == "" || projectPath <= n.path)
  {
    out := SelectNodes(g.nodes, UnderPath(projectPath));
    SelectionMembers(g.View(), UnderPath(projectPath), out);
  }

  /** Symbols expected to have no callers. `startsUpper` tells whether
      the first rune of a non-empty text is an upper-case letter. */
  predicate IsEntryPoint(startsUpper: string -> bool, n: Node) {
    || n.symbol == "main"
    || n.symbol == "init"
    || (HasSuffix(n.path, "_test.go")
        && (HasPrefix(n.symbol, "Test") || HasPrefix(n.symbol, "Benchmark")
            || HasPrefix(n.symbol, "Example") || HasPrefix(n.symbol, "Fuzz")))
    || (n.language == "go" && n.symbol != "" && startsUpper(n.symbol))
  }

  predicate TestMark(mark: string) {
    mark == "Test" || mark == "Benchmark" || mark == "Example" || mark == "Fuzz"
  }

  /** Entry points are main and init, the symbols of a Go test file that begin with
      a test mark, and the exported Go symbols; no others. */
  lemma EntryPointMeaning(startsUpper: string -> bool, n: Node)
    ensures IsEntryPoint(startsUpper, n) <==>
      || n.symbol == "main" || n.symbol == "init"
      || ((exists stem :: n.path == stem + "_test.go") && exists mark, rest :: TestMark(mark) && n.symbol == mark + rest)
      || (n.language == "go" && n.symbol != "" && startsUpper(n.symbol))
  {
    if HasSuffix(n.path, "_test.go") {
      assert n.path == n.path[..|n.path| - 8] + "_test.go";
    }
    forall mark | TestMark(mark)
      ensures HasPrefix(n.symbol, mark) <==> exists rest :: n.symbol == mark + rest
    {
      if HasPrefix(n.symbol, mark) { assert n.symbol == mark + n.symbol[|mark|..]; }
    }
    assert TestMark("Test") && TestMark("Benchmark") && TestMark("Example") && TestMark("Fuzz");
  }

  /** In a graph built from chunks a node calls exactly the nodes that a call in
      the text of a chunk of its own key names. */
  lemma CallsOfChunks(chunks: seq<Chunk>, a: string, b: string)
    ensures var g := AddedAll(EMPTY, chunks);
      Calls(g, a, b) <==>
        b in g.nodes && exists i, k ::
          0 <= i < |chunks| && Keyed(chunks[i], a) && 0 <= k < |chunks[i].calls|
          && chunks[i].calls[k].name == g.nodes[b].symbol
  {
    var g := AddedAll(EMPTY, chunks);
    AddedAllBuilds(chunks);
    if Calls(g, a, b) {
      var e :| e in g.edges && e.from == a && e.to == g.nodes[b].symbol;
      var i :| 0 <= i < |chunks| && IsCallIn(e, chunks[i]);
      var k :| 0 <= k < |chunks[i].calls| && chunks[i].calls[k].name == e.to;
    }
    if b in g.nodes {
      forall i, k | 0 <= i < |chunks| && Keyed(chunks[i], a) && 0 <= k < |chunks[i].calls|
          && chunks[i].calls[k].name == g.nodes[b].symbol
        ensures Calls(g, a, b)
      {
        var e := Edge(a, chunks[i].calls[k].name, chunks[i].calls[k].line);
        assert IsCallIn(e, chunks[i]);
        assert e in g.edges;
      }
    }
  }
}
