/** Bounded breadth-first search for a call path (internal/app/graph_queries.go). */
module TracePath {
  import opened Common
  import opened CallGraph
  import opened GraphOps
  import opened Projects

  datatype TraceHop = TraceHop(symbol: string, path: string, startLine: int, endLine: int, kind: string)

  datatype TraceResult = TraceResult(found: bool, hops: seq<TraceHop>, depth: nat)

  // -------------------------------------------------------- what is asked

  ghost predicate IsCallPath(g: GraphState, p: seq<string>) {
    && |p| >= 1
    && (forall i :: 0 <= i < |p| ==> p[i] in g.nodes)
    && (forall i, j :: 0 <= i < |p| - 1 && j == i + 1 ==> Calls(g, p[i], p[j]))
  }

  ghost predicate Denotes(g: GraphState, id: string, symbol: string, projectPath: string) {
    id in g.nodes && g.nodes[id].symbol == symbol && (projectPath == "" || projectPath <= g.nodes[id].path)
  }

  /** A call path between nodes of the two names, both inside the project; the
      nodes in between may lie anywhere. */
  ghost predicate Connects(g: GraphState, from: string, to: string, projectPath: string, p: seq<string>) {
    && IsCallPath(g, p)
    && Denotes(g, p[0], from, projectPath)
    && Denotes(g, p[|p| - 1], to, projectPath)
  }

  function NodeToHop(n: Node): TraceHop {
    TraceHop(n.symbol, n.path, n.startLine, n.endLine, n.kind)
  }

  function NodesToHops(ns: seq<Node>): (r: seq<TraceHop>)
    ensures |r| == |ns|
    ensures forall i :: 0 <= i < |ns| ==> r[i] == NodeToHop(ns[i])
  {
    if ns == [] then [] else NodesToHops(ns[..|ns| - 1]) + [NodeToHop(ns[|ns| - 1])]
  }

  predicate HopOf(n: Node, hop: TraceHop) {
    && hop.symbol == n.symbol && hop.path == n.path && hop.kind == n.kind
    && hop.startLine == n.startLine && hop.endLine == n.endLine
  }

  ghost predicate HopsAlong(g: GraphState, p: seq<string>, hops: seq<TraceHop>) {
    |hops| == |p| && forall i :: 0 <= i < |p| ==> p[i] in g.nodes && HopOf(g.nodes[p[i]], hops[i])
  }

  ghost predicate Shortest(g: GraphState, from: string, to: string, projectPath: string, depth: nat) {
    forall q :: Connects(g, from, to, projectPath, q) ==> depth <= |q| - 1
  }

  /** A correct answer: a path is reported exactly when one of at most
      `maxDepth` calls exists, the hops are such a path, and none is shorter. */
  ghost predicate Answers(g: GraphState, from: string, to: string, projectPath: string, maxDepth: nat, r: TraceResult) {
    && (r.found <==> exists p :: Connects(g, from, to, projectPath, p) && |p| - 1 <= maxDepth)
    && (r.found ==>
          && r.depth <= maxDepth
          && (exists p :: Connects(g, from, to, projectPath, p) && |p| - 1 == r.depth && HopsAlong(g, p, r.hops))
          && Shortest(g, from, to, projectPath, r.depth))
    && (!r.found ==> r.hops == [] && r.depth == 0)
  }

  function ClampDepth(maxDepth: int): nat {
    var d := if maxDepth <= 0 then 10 else maxDepth;
    if d > 25 then 25 else d
  }

  // -------------------------------------------------------- search state

  datatype QueueItem = QueueItem(nodeID: string, path: seq<Node>)

  function Ids(ns: seq<Node>): (r: seq<string>)
    ensures |r| == |ns|
    ensures forall i :: 0 <= i < |ns| ==> r[i] == ns[i].id
  {
    if ns == [] then [] else Ids(ns[..|ns| - 1]) + [ns[|ns| - 1].id]
  }

  /** `ns` is a call path from a source to `id`. */
  ghost predicate Leads(g: GraphState, sources: set<string>, id: string, ns: seq<Node>) {
    && |ns| >= 1
    && (forall i :: 0 <= i < |ns| ==> ns[i].id in g.nodes && g.nodes[ns[i].id] == ns[i])
    && (forall i, j :: 0 <= i < |ns| - 1 && j == i + 1 ==> Calls(g, ns[i].id, ns[j].id))
    && ns[0].id in sources
    && ns[|ns| - 1].id == id
  }

  ghost predicate QueueValid(g: GraphState, sources: set<string>, maxDepth: nat, queue: seq<QueueItem>, dist: map<string, nat>) {
    forall i :: 0 <= i < |queue| ==>
      && Leads(g, sources, queue[i].nodeID, queue[i].path)
      && |queue[i].path| <= maxDepth
      && queue[i].nodeID in dist
      && dist[queue[i].nodeID] == |queue[i].path| - 1
  }

  /** Path lengths never decrease along the queue and span at most two layers. */
  ghost predicate Layered(queue: seq<QueueItem>, low: nat) {
    && (forall i :: 0 <= i < |queue| ==> low <= |queue[i].path| <= low + 1)
    && (forall i, j :: 0 <= i < j < |queue| ==> |queue[i].path| <= |queue[j].path|)
  }

  ghost predicate OnQueue(queue: seq<QueueItem>, id: string) {
    exists i :: 0 <= i < |queue| && queue[i].nodeID == id
  }

  ghost predicate OncePerNode(queue: seq<QueueItem>, done: set<string>) {
    && (forall i, j :: 0 <= i < j < |queue| ==> queue[i].nodeID != queue[j].nodeID)
    && (forall i :: 0 <= i < |queue| ==> queue[i].nodeID !in done)
  }

  /** All callees of processed nodes are accounted for: none is a target, and
      within the depth limit each has been reached no later than one layer on. */
  ghost predicate Closed(g: GraphState, targets: set<string>, maxDepth: nat, done: set<string>, dist: map<string, nat>) {
    forall a, b :: a in done && Calls(g, a, b) ==> a in dist && Handled(targets, maxDepth, dist, dist[a] + 1, b)
  }

  ghost predicate Handled(targets: set<string>, maxDepth: nat, dist: map<string, nat>, depth: nat, b: string) {
    b !in targets && (depth < maxDepth ==> b in dist && dist[b] <= depth)
  }

  ghost predicate Reached(dist: map<string, nat>, limit: nat) {
    forall id :: id in dist ==> dist[id] <= limit
  }

  // ------------------------------------------------------- no shorter path

  lemma {:induction false} EarlyNodesDone(g: GraphState, sources: set<string>, targets: set<string>, maxDepth: nat,
                                          done: set<string>, dist: map<string, nat>, bound: nat, p: seq<string>, i: nat)
    requires IsCallPath(g, p) && p[0] in sources && i < |p| && i < bound <= maxDepth
    requires forall id :: id in sources ==> id in dist && dist[id] == 0
    requires Closed(g, targets, maxDepth, done, dist)
    requires forall id :: id in dist && dist[id] < bound ==> id in done
    ensures p[i] in dist && dist[p[i]] <= i && p[i] in done
  {
    if i > 0 {
      EarlyNodesDone(g, sources, targets, maxDepth, done, dist, bound, p, i - 1);
      assert Calls(g, p[i - 1], p[i]);
    }
  }

  /** Once every node nearer than `bound` is processed, no path of 1 to `bound`
      calls ends in a target. */
  lemma NoPathWithin(g: GraphState, sources: set<string>, targets: set<string>, maxDepth: nat,
                     done: set<string>, dist: map<string, nat>, bound: nat, p: seq<string>)
    requires IsCallPath(g, p) && p[0] in sources && p[|p| - 1] in targets
    requires sources !! targets
    requires bound <= maxDepth
    requires forall id :: id in sources ==> id in dist && dist[id] == 0
    requires Closed(g, targets, maxDepth, done, dist)
    requires forall id :: id in dist && dist[id] < bound ==> id in done
    ensures |p| - 1 > bound
  {
    var m := |p| - 1;
    if 0 < m <= bound {
      EarlyNodesDone(g, sources, targets, maxDepth, done, dist, bound, p, m - 1);
    }
  }

  lemma ExtendLeads(g: GraphState, sources: set<string>, id: string, ns: seq<Node>, callee: string)
    requires Leads(g, sources, id, ns) && Calls(g, id, callee) && g.nodes[callee].id == callee
    ensures Leads(g, sources, callee, ns + [g.nodes[callee]])
  {
  }

  // ------------------------------------------------------------ the search

  /** What the search guarantees for sets of source and target nodes. */
  ghost predicate SetAnswers(g: GraphState, sources: set<string>, targets: set<string>, maxDepth: nat, r: TraceResult, trail: seq<string>) {
    && (r.found ==>
          && IsCallPath(g, trail) && trail[0] in sources && trail[|trail| - 1] in targets
          && |trail| - 1 == r.depth <= maxDepth && HopsAlong(g, trail, r.hops)
          && (forall q :: IsCallPath(g, q) && q[0] in sources && q[|q| - 1] in targets ==> r.depth <= |q| - 1))
    && (!r.found ==>
          && r.hops == [] && r.depth == 0
          && (forall q :: IsCallPath(g, q) && q[0] in sources && q[|q| - 1] in targets ==> |q| - 1 > maxDepth))
  }

  ghost predicate NodesOfGraph(g: GraphState, ns: seq<Node>) {
    && (forall i :: 0 <= i < |ns| ==> ns[i].id in g.nodes && g.nodes[ns[i].id] == ns[i])
    && (forall i, j :: 0 <= i < j < |ns| ==> ns[i].id != ns[j].id)
  }

  function IdSet(ns: seq<Node>): set<string> {
    set i | 0 <= i < |ns| :: ns[i].id
  }

  method StartQueue(g: Graph, fromNodes: seq<Node>, maxDepth: nat)
    returns (queue: seq<QueueItem>, visited: set<string>, ghost dist: map<string, nat>)
    requires maxDepth >= 1
    requires NodesOfGraph(g.View(), fromNodes)
    ensures visited == dist.Keys == IdSet(fromNodes)
    ensures forall id :: id in dist ==> dist[id] == 0 && OnQueue(queue, id)
    ensures QueueValid(g.View(), visited, maxDepth, queue, dist) && Layered(queue, 1) && OncePerNode(queue, {})
  {
    visited := set i | 0 <= i < |fromNodes| :: fromNodes[i].id;
    dist := map id | id in visited :: 0;
    queue := [];
    for k := 0 to |fromNodes|
      invariant |queue| == k
      invariant forall i :: 0 <= i < k ==> queue[i] == QueueItem(fromNodes[i].id, [fromNodes[i]])
    {
      queue := queue + [QueueItem(fromNodes[k].id, [fromNodes[k]])];
    }
    StartedQueue(g.View(), fromNodes, maxDepth, queue, dist);
  }

  lemma StartedQueue(g: GraphState, fromNodes: seq<Node>, maxDepth: nat, queue: seq<QueueItem>, dist: map<string, nat>)
    requires maxDepth >= 1 && NodesOfGraph(g, fromNodes)
    requires dist.Keys == IdSet(fromNodes) && forall id :: id in dist ==> dist[id] == 0
    requires |queue| == |fromNodes|
    requires forall i :: 0 <= i < |queue| ==> queue[i] == QueueItem(fromNodes[i].id, [fromNodes[i]])
    ensures forall id :: id in dist ==> OnQueue(queue, id)
    ensures QueueValid(g, dist.Keys, maxDepth, queue, dist) && Layered(queue, 1) && OncePerNode(queue, {})
  {
    forall id | id in dist
      ensures OnQueue(queue, id)
    {
      var i :| 0 <= i < |fromNodes| && fromNodes[i].id == id;
      assert queue[i].nodeID == id;
    }
    forall i | 0 <= i < |queue|
      ensures Leads(g, dist.Keys, queue[i].nodeID, queue[i].path) && dist[queue[i].nodeID] == |queue[i].path| - 1
    {
      assert fromNodes[i].id in dist.Keys;
    }
  }

  /** The state while the callees of the item just taken are examined. */
  ghost predicate Examining(g: GraphState, sources: set<string>, targets: set<string>, maxDepth: nat, item: QueueItem,
                            queue: seq<QueueItem>, done: set<string>, dist: map<string, nat>) {
    && Leads(g, sources, item.nodeID, item.path) && |item.path| <= maxDepth
    && item.nodeID in dist && dist[item.nodeID] == |item.path| - 1
    && QueueValid(g, sources, maxDepth, queue, dist)
    && Layered(queue, |item.path|)
    && OncePerNode(queue, done + {item.nodeID})
    && item.nodeID !in done
    && Closed(g, targets, maxDepth, done, dist)
    && Reached(dist, |item.path|)
    && (forall id :: id in sources ==> id in dist && dist[id] == 0)
    && (forall id :: id in dist ==> id in done || id == item.nodeID || OnQueue(queue, id))
    && done <= dist.Keys <= g.nodes.Keys
  }

  /** The state between two items. */
  ghost predicate Searching(g: GraphState, sources: set<string>, targets: set<string>, maxDepth: nat,
                            queue: seq<QueueItem>, done: set<string>, dist: map<string, nat>) {
    && QueueValid(g, sources, maxDepth, queue, dist)
    && (queue != [] ==> Layered(queue, |queue[0].path|) && Reached(dist, |queue[0].path|))
    && OncePerNode(queue, done)
    && Closed(g, targets, maxDepth, done, dist)
    && (forall id :: id in sources ==> id in dist && dist[id] == 0)
    && (forall id :: id in dist ==> id in done || OnQueue(queue, id))
    && done <= dist.Keys <= g.nodes.Keys
  }

  lemma OnQueueSplit(a: seq<QueueItem>, b: seq<QueueItem>, id: string)
    ensures OnQueue(a + b, id) <==> OnQueue(a, id) || OnQueue(b, id)
  {
    if OnQueue(a, id) {
      var i :| 0 <= i < |a| && a[i].nodeID == id;
      assert (a + b)[i].nodeID == id;
    }
    if OnQueue(b, id) {
      var i :| 0 <= i < |b| && b[i].nodeID == id;
      assert (a + b)[|a| + i].nodeID == id;
    }
  }

  lemma QueueRest(g: GraphState, sources: set<string>, maxDepth: nat, item: QueueItem, rest: seq<QueueItem>,
                  done: set<string>, dist: map<string, nat>)
    requires QueueValid(g, sources, maxDepth, [item] + rest, dist)
    requires Layered([item] + rest, |item.path|) && OncePerNode([item] + rest, done)
    ensures QueueValid(g, sources, maxDepth, rest, dist)
    ensures Layered(rest, |item.path|) && OncePerNode(rest, done + {item.nodeID})
    ensures item.nodeID !in done
  {
    var queue := [item] + rest;
    assert queue[0] == item;
    assert forall i :: 0 <= i < |rest| ==> rest[i] == queue[i + 1];
  }

  lemma TakeItem(g: GraphState, sources: set<string>, targets: set<string>, maxDepth: nat,
                 queue: seq<QueueItem>, done: set<string>, dist: map<string, nat>)
    requires queue != [] && Searching(g, sources, targets, maxDepth, queue, done, dist)
    ensures Examining(g, sources, targets, maxDepth, queue[0], queue[1..], done, dist)
  {
    var item, rest := queue[0], queue[1..];
    assert queue == [item] + rest;
    QueueRest(g, sources, maxDepth, item, rest, done, dist);
    forall id | id in dist
      ensures id in done || id == item.nodeID || OnQueue(rest, id)
    {
      OnQueueSplit([item], rest, id);
    }
  }

  lemma QueueSnoc(g: GraphState, sources: set<string>, maxDepth: nat, queue: seq<QueueItem>, added: QueueItem,
                  done: set<string>, dist: map<string, nat>, low: nat)
    requires QueueValid(g, sources, maxDepth, queue, dist) && Layered(queue, low) && OncePerNode(queue, done)
    requires Leads(g, sources, added.nodeID, added.path) && |added.path| == low + 1 <= maxDepth
    requires added.nodeID !in dist && added.nodeID !in done
    ensures QueueValid(g, sources, maxDepth, queue + [added], dist[added.nodeID := low])
    ensures Layered(queue + [added], low) && OncePerNode(queue + [added], done)
  {
  }

  lemma Enqueue(g: GraphState, sources: set<string>, targets: set<string>, maxDepth: nat, item: QueueItem,
                queue: seq<QueueItem>, done: set<string>, dist: map<string, nat>, callee: string)
    requires Examining(g, sources, targets, maxDepth, item, queue, done, dist)
    requires Calls(g, item.nodeID, callee) && g.nodes[callee].id == callee
    requires callee !in dist && |item.path| < maxDepth
    ensures Examining(g, sources, targets, maxDepth, item,
      queue + [QueueItem(callee, item.path + [g.nodes[callee]])], done, dist[callee := |item.path|])
  {
    var added := QueueItem(callee, item.path + [g.nodes[callee]]);
    var dist' := dist[callee := |item.path|];
    ExtendLeads(g, sources, item.nodeID, item.path, callee);
    QueueSnoc(g, sources, maxDepth, queue, added, done + {item.nodeID}, dist, |item.path|);
    forall id | id in dist'
      ensures id in done || id == item.nodeID || OnQueue(queue + [added], id)
    {
      OnQueueSplit(queue, [added], id);
      assert [added][0].nodeID == callee;
    }
    ClosedGrows(g, targets, maxDepth, done, dist, callee, |item.path|);
  }

  lemma ClosedGrows(g: GraphState, targets: set<string>, maxDepth: nat, done: set<string>, dist: map<string, nat>,
                    id: string, depth: nat)
    requires Closed(g, targets, maxDepth, done, dist) && id !in dist
    ensures Closed(g, targets, maxDepth, done, dist[id := depth])
  {
    var dist' := dist[id := depth];
    forall a, b | a in done && Calls(g, a, b)
      ensures a in dist' && Handled(targets, maxDepth, dist', dist'[a] + 1, b)
    {
      assert Handled(targets, maxDepth, dist, dist[a] + 1, b);
    }
  }

  lemma FinishItem(g: GraphState, sources: set<string>, targets: set<string>, maxDepth: nat, item: QueueItem,
                   queue: seq<QueueItem>, done: set<string>, dist: map<string, nat>)
    requires Examining(g, sources, targets, maxDepth, item, queue, done, dist)
    requires forall b :: Calls(g, item.nodeID, b) ==> Handled(targets, maxDepth, dist, |item.path|, b)
    ensures Searching(g, sources, targets, maxDepth, queue, done + {item.nodeID}, dist)
  {
  }

  lemma FoundIsShortest(g: GraphState, sources: set<string>, targets: set<string>, maxDepth: nat, item: QueueItem,
                        queue: seq<QueueItem>, done: set<string>, dist: map<string, nat>, callee: string) returns (r: TraceResult)
    requires Examining(g, sources, targets, maxDepth, item, queue, done, dist)
    requires sources !! targets && callee in targets
    requires Calls(g, item.nodeID, callee) && g.nodes[callee].id == callee
    ensures r == TraceResult(true, NodesToHops(item.path + [g.nodes[callee]]), |item.path|)
    ensures SetAnswers(g, sources, targets, maxDepth, r, Ids(item.path + [g.nodes[callee]]))
  {
    ExtendLeads(g, sources, item.nodeID, item.path, callee);
    var full := item.path + [g.nodes[callee]];
    r := TraceResult(true, NodesToHops(full), |item.path|);
    var near := |item.path| - 1;
    forall id | id in dist && dist[id] < near
      ensures id in done
    {
      assert forall i :: 0 <= i < |queue| && queue[i].nodeID == id ==> |queue[i].path| >= |item.path|;
    }
    forall q | IsCallPath(g, q) && q[0] in sources && q[|q| - 1] in targets
      ensures r.depth <= |q| - 1
    {
      NoPathWithin(g, sources, targets, maxDepth, done, dist, near, q);
    }
  }

  lemma ExhaustedMeansNone(g: GraphState, sources: set<string>, targets: set<string>, maxDepth: nat,
                           done: set<string>, dist: map<string, nat>)
    requires Searching(g, sources, targets, maxDepth, [], done, dist)
    requires sources !! targets
    ensures SetAnswers(g, sources, targets, maxDepth, TraceResult(false, [], 0), [])
  {
    forall q | IsCallPath(g, q) && q[0] in sources && q[|q| - 1] in targets
      ensures |q| - 1 > maxDepth
    {
      NoPathWithin(g, sources, targets, maxDepth, done, dist, maxDepth, q);
    }
  }

  /** Goes through the callees of one item: either a target is among them, or
      the new ones within the depth limit join the queue. */
  method Examine(g: Graph, callees: seq<string>, item: QueueItem, targetSet: set<string>, maxDepth: nat,
                 queue0: seq<QueueItem>, visited0: set<string>,
                 ghost sources: set<string>, ghost done: set<string>, ghost dist0: map<string, nat>)
    returns (hit: Option<Node>, queue: seq<QueueItem>, visited: set<string>, ghost dist: map<string, nat>)
    requires Sound(g.View())
    requires Examining(g.View(), sources, targetSet, maxDepth, item, queue0, done, dist0) && visited0 == dist0.Keys
    requires forall b :: b in callees <==> Calls(g.View(), item.nodeID, b)
    ensures Examining(g.View(), sources, targetSet, maxDepth, item, queue, done, dist) && visited == dist.Keys
    ensures hit.Some? ==>
      (hit.value.id in targetSet && Calls(g.View(), item.nodeID, hit.value.id) && g.nodes[hit.value.id] == hit.value)
    ensures hit.None? ==> forall b :: Calls(g.View(), item.nodeID, b) ==> Handled(targetSet, maxDepth, dist, |item.path|, b)
  {
    ghost var s := g.View();
    queue, visited, dist, hit := queue0, visited0, dist0, None;
    var depth := |item.path|;
    for k := 0 to |callees|
      invariant Examining(s, sources, targetSet, maxDepth, item, queue, done, dist)
      invariant visited == dist.Keys
      invariant forall j :: 0 <= j < k ==> Handled(targetSet, maxDepth, dist, depth, callees[j])
    {
      var calleeID := callees[k];
      assert Calls(s, item.nodeID, calleeID);
      if calleeID in targetSet {
        hit := Some(g.nodes[calleeID]);
        return;
      }
      if calleeID !in visited && depth < maxDepth {
        Enqueue(s, sources, targetSet, maxDepth, item, queue, done, dist, calleeID);
        visited := visited + {calleeID};
        queue := queue + [QueueItem(calleeID, item.path + [g.nodes[calleeID]])];
        dist := dist[calleeID := depth];
      }
      assert Reached(dist, depth);
    }
    forall b | Calls(s, item.nodeID, b)
      ensures Handled(targetSet, maxDepth, dist, depth, b)
    {
      assert b in callees;
    }
  }

  method Search(g: Graph, fromNodes: seq<Node>, targetSet: set<string>, maxDepth: nat)
    returns (r: TraceResult)
    requires Sound(g.View()) && maxDepth >= 1
    requires NodesOfGraph(g.View(), fromNodes) && IdSet(fromNodes) !! targetSet
    ensures exists trail :: SetAnswers(g.View(), IdSet(fromNodes), targetSet, maxDepth, r, trail)
  {
    hide SetAnswers, QueueValid, OncePerNode, Handled;
    ghost var s, sources := g.View(), IdSet(fromNodes);
    ghost var done: set<string> := {};
    var queue, visited;
    ghost var dist;
    queue, visited, dist := StartQueue(g, fromNodes, maxDepth);
    while queue != []
      invariant Searching(s, sources, targetSet, maxDepth, queue, done, dist)
      invariant visited == dist.Keys
      decreases s.nodes.Keys - done
    {
      TakeItem(s, sources, targetSet, maxDepth, queue, done, dist);
      var item := queue[0];
      queue := queue[1..];
      if |item.path| > maxDepth {
        break;
      }
      var callees := CalleesOf(g, item.nodeID);
      var hit;
      hit, queue, visited, dist := Examine(g, callees, item, targetSet, maxDepth, queue, visited, sources, done, dist);
      if hit.Some? {
        var fullPath := item.path + [hit.value];
        ghost var best := FoundIsShortest(s, sources, targetSet, maxDepth, item, queue, done, dist, hit.value.id);
        r := TraceResult(true, NodesToHops(fullPath), |fullPath| - 1);
        assert r == best && SetAnswers(s, sources, targetSet, maxDepth, r, Ids(fullPath));
        return;
      }
      FinishItem(s, sources, targetSet, maxDepth, item, queue, done, dist);
      done := done + {item.nodeID};
    }
    r := TraceResult(false, [], 0);
    ExhaustedMeansNone(s, sources, targetSet, maxDepth, done, dist);
    assert g.View() == s && SetAnswers(s, sources, targetSet, maxDepth, r, []);
  }

  /** The directory a project name restricts the search to. */
  function ScopeOf(projects: seq<Project>, projectName: string): Result<string> {
    if projectName == "" then Ok("") else ProjectPath(projects, projectName)
  }

  /** Without a name the whole graph; otherwise the path of a project of that name,
      or an error exactly if there is none. */
  lemma ScopeMeaning(projects: seq<Project>, projectName: string)
    ensures var scope := ScopeOf(projects, projectName);
      && (scope.Err? <==> projectName != "" && !Taken(projects, projectName))
      && (scope.Ok? && projectName == "" ==> scope.value == "")
      && (scope.Ok? && projectName != "" ==> Project(projectName, scope.value) in projects)
  {
  }

  ghost predicate Known(g: GraphState, symbol: string, projectPath: string) {
    exists id :: Denotes(g, id, symbol, projectPath)
  }

  /** Set-level answers are answers about the two names. */
  lemma NamedAnswers(g: GraphState, from: string, to: string, projectPath: string, maxDepth: nat,
                     sources: set<string>, targets: set<string>, r: TraceResult, trail: seq<string>)
    requires forall id :: id in sources <==> Denotes(g, id, from, projectPath)
    requires forall id :: id in targets <==> Denotes(g, id, to, projectPath)
    requires SetAnswers(g, sources, targets, maxDepth, r, trail)
    ensures Answers(g, from, to, projectPath, maxDepth, r)
  {
    if r.found {
      assert Connects(g, from, to, projectPath, trail);
    }
    forall q | Connects(g, from, to, projectPath, q)
      ensures r.found ==> r.depth <= |q| - 1
      ensures !r.found ==> |q| - 1 > maxDepth
    {
      assert IsCallPath(g, q) && q[0] in sources && q[|q| - 1] in targets;
    }
  }

  lemma SelectedIds(g: GraphState, symbol: string, projectPath: string, ns: seq<Node>)
    requires Sound(g) && Selection(g.nodes, NamedIn(symbol, projectPath), ns)
    ensures NodesOfGraph(g, ns)
    ensures forall id :: id in IdSet(ns) <==> Denotes(g, id, symbol, projectPath)
    ensures ns != [] <==> Known(g, symbol, projectPath)
  {
    forall id | Denotes(g, id, symbol, projectPath)
      ensures id in IdSet(ns)
    {
      var i :| 0 <= i < |ns| && ns[i] == g.nodes[id];
    }
    if ns != [] {
      assert Denotes(g, ns[0].id, symbol, projectPath);
    }
    if id :| Denotes(g, id, symbol, projectPath) {
      assert id in IdSet(ns);
    }
  }

  /** Asking for a path from a name to itself is answered by a node of that name. */
  lemma TrivialAnswer(g: GraphState, symbol: string, projectPath: string, maxDepth: nat, n: Node)
    requires Sound(g) && Denotes(g, n.id, symbol, projectPath) && g.nodes[n.id] == n
    ensures Answers(g, symbol, symbol, projectPath, maxDepth, TraceResult(true, [NodeToHop(n)], 0))
  {
    assert Connects(g, symbol, symbol, projectPath, [n.id]);
    assert HopsAlong(g, [n.id], [NodeToHop(n)]);
  }

  method Trace(g: Graph, projects: seq<Project>, from: string, to: string, projectName: string, maxDepth: int)
    returns (r: Result<TraceResult>)
    requires Sound(g.View())
    ensures r.Ok? <==>
      && from != "" && to != ""
      && ScopeOf(projects, projectName).Ok?
      && Known(g.View(), from, ScopeOf(projects, projectName).value)
      && Known(g.View(), to, ScopeOf(projects, projectName).value)
    ensures r.Ok? ==>
      var scope := ScopeOf(projects, projectName).value;
      && (maxDepth <= 0 ==> Answers(g.View(), from, to, scope, 10, r.value))
      && (1 <= maxDepth <= 25 ==> Answers(g.View(), from, to, scope, maxDepth, r.value))
      && (maxDepth > 25 ==> Answers(g.View(), from, to, scope, 25, r.value))
  {
    hide Answers;
    if from == "" || to == "" {
      return Err("from and to are required");
    }
    var depth := ClampDepth(maxDepth);
    var scope := ScopeOf(projects, projectName);
    if scope.Err? {
      return Err(scope.error);
    }
    var projectPath := scope.value;
    ghost var s := g.View();
    var fromNodes := ResolveSymbol(g, from, projectPath);
    SelectedIds(s, from, projectPath, fromNodes);
    if |fromNodes| == 0 {
      return Err("symbol not found in call graph");
    }
    var toNodes := ResolveSymbol(g, to, projectPath);
    SelectedIds(s, to, projectPath, toNodes);
    if |toNodes| == 0 {
      return Err("symbol not found in call graph");
    }
    var targetSet := set i | 0 <= i < |toNodes| :: toNodes[i].id;
    if from == to {
      TrivialAnswer(s, from, projectPath, depth, fromNodes[0]);
      return Ok(TraceResult(true, [NodeToHop(fromNodes[0])], 0));
    }
    var found := Search(g, fromNodes, targetSet, depth);
    ghost var trail :| SetAnswers(s, IdSet(fromNodes), targetSet, depth, found, trail);
    NamedAnswers(s, from, to, projectPath, depth, IdSet(fromNodes), targetSet, found, trail);
    return Ok(found);
  }
}
