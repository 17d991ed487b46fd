/** Listing of symbols without callers (internal/app/graph_queries.go). */
module DeadCode {
  import opened Common
  import opened CallGraph
  import opened Chunks
  import opened GraphOps
  import opened Projects
  import opened TracePath

  datatype DeadCodeCandidate = DeadCodeCandidate(symbol: string, path: string, kind: string, startLine: int, endLine: int)

  function CandidateOf(n: Node): DeadCodeCandidate {
    DeadCodeCandidate(n.symbol, n.path, n.kind, n.startLine, n.endLine)
  }

  predicate KindWanted(kind: string, nodeKind: string) {
    if kind != "" then nodeKind == kind else nodeKind == "function" || nodeKind == "method"
  }

  /** A node worth reporting, apart from its callers. */
  predicate Suspect(startsUpper: string -> bool, kind: string, n: Node) {
    KindWanted(kind, n.kind) && !IsEntryPoint(startsUpper, n)
  }

  /** In words: a node of the project and of the kind asked for (functions and
      methods if none is), neither main nor init, nor a test in a Go test file, nor
      an exported Go symbol, whose symbol no edge names. */
  ghost predicate Dead(g: GraphState, startsUpper: string -> bool, projectPath: string, kind: string, n: Node) {
    && (projectPath == "" || projectPath <= n.path)
    && (if kind != "" then n.kind == kind else n.kind == "function" || n.kind == "method")
    && n.symbol != "main" && n.symbol != "init"
    && !((exists stem :: n.path == stem + "_test.go") && (exists mark, rest :: TestMark(mark) && n.symbol == mark + rest))
    && !(n.language == "go" && n.symbol != "" && startsUpper(n.symbol))
    && (forall e :: e in g.edges ==> e.to != n.symbol)
  }

  ghost function DeadIn(g: GraphState, startsUpper: string -> bool, projectPath: string, kind: string): Node -> bool {
    (n: Node) => Dead(g, startsUpper, projectPath, kind, n)
  }

  /** What the filters test amounts to that. */
  lemma DeadMeaning(g: GraphState, startsUpper: string -> bool, projectPath: string, kind: string, n: Node)
    requires n.id in g.nodes && g.nodes[n.id] == n
    ensures Dead(g, startsUpper, projectPath, kind, n)
      <==> InProject(n, projectPath) && Suspect(startsUpper, kind, n) && InDegreeOf(g, n.id) == 0
  {
    EntryPointMeaning(startsUpper, n);
    CallSitePositive(g.edges, n.symbol);
  }

  predicate ReportOf(n: Node, c: DeadCodeCandidate) {
    && c.symbol == n.symbol && c.path == n.path && c.kind == n.kind
    && c.startLine == n.startLine && c.endLine == n.endLine
  }

  ghost function DeadIds(g: GraphState, startsUpper: string -> bool, projectPath: string, kind: string): set<string> {
    set id | id in g.nodes && DeadIn(g, startsUpper, projectPath, kind)(g.nodes[id])
  }

  function ByPath(): (DeadCodeCandidate, DeadCodeCandidate) -> bool {
    (a: DeadCodeCandidate, b: DeadCodeCandidate) => LexLess(a.path, b.path)
  }

  lemma ByPathIsWeakOrder()
    ensures WeakOrder(ByPath())
  {
    forall a: DeadCodeCandidate, b: DeadCodeCandidate { LexTotal(a.path, b.path); }
    forall a: DeadCodeCandidate, b: DeadCodeCandidate, c: DeadCodeCandidate | !ByPath()(b, a) && !ByPath()(c, b)
      ensures !ByPath()(c, a)
    {
      LexTransitive(a.path, b.path, c.path);
    }
  }

  /** The report: distinct dead nodes of the project, ordered by path, as many
      as fit, and none left out that sorts before one listed. */
  ghost predicate Reports(g: GraphState, startsUpper: string -> bool, projectPath: string, kind: string, topK: nat,
                          listed: seq<DeadCodeCandidate>) {
    var dead := DeadIds(g, startsUpper, projectPath, kind);
    && (forall c :: c in listed ==> exists id :: id in dead && ReportOf(g.nodes[id], c))
    && Distinct(listed)
    && SortedBy(listed, ByPath())
    && |listed| == Min(|dead|, topK)
    && (forall id, c, x :: id in dead && ReportOf(g.nodes[id], x) && x !in listed && c in listed ==>
          !LexLess(x.path, c.path))
  }

  function TopOrDefault(topK: int): nat {
    if topK <= 0 then 50 else topK
  }

  /** `dead` are the nodes of `nodes` that are suspect and without callers, and
      `candidates` describes them. */
  ghost predicate Collected(g: GraphState, startsUpper: string -> bool, kind: string, nodes: seq<Node>, dead: seq<Node>,
                            candidates: seq<DeadCodeCandidate>) {
    && |candidates| == |dead|
    && (forall j :: 0 <= j < |dead| ==> candidates[j] == CandidateOf(dead[j]))
    && (forall j :: 0 <= j < |dead| ==> dead[j] in nodes && Suspect(startsUpper, kind, dead[j]) && InDegreeOf(g, dead[j].id) == 0)
    && (forall j, k :: 0 <= j < k < |dead| ==> dead[j].id != dead[k].id)
    && (forall n :: n in nodes && Suspect(startsUpper, kind, n) && InDegreeOf(g, n.id) == 0 ==> n in dead)
  }

  lemma CollectedStep(g: GraphState, startsUpper: string -> bool, kind: string, nodes: seq<Node>, dead: seq<Node>,
                      candidates: seq<DeadCodeCandidate>, n: Node)
    requires Collected(g, startsUpper, kind, nodes, dead, candidates)
    requires forall i :: 0 <= i < |nodes| ==> nodes[i].id != n.id
    ensures if Suspect(startsUpper, kind, n) && InDegreeOf(g, n.id) == 0
      then Collected(g, startsUpper, kind, nodes + [n], dead + [n], candidates + [CandidateOf(n)])
      else Collected(g, startsUpper, kind, nodes + [n], dead, candidates)
  {
  }

  method Collect(startsUpper: string -> bool, kind: string, nodes: seq<Node>, inDegree: map<string, nat>, ghost g: GraphState)
    returns (candidates: seq<DeadCodeCandidate>)
    requires forall id :: Tally(inDegree, id) == InDegreeOf(g, id)
    requires forall i, j :: 0 <= i < j < |nodes| ==> nodes[i].id != nodes[j].id
    ensures exists dead :: Collected(g, startsUpper, kind, nodes, dead, candidates)
  {
    candidates := [];
    ghost var dead: seq<Node> := [];
    for i := 0 to |nodes|
      invariant Collected(g, startsUpper, kind, nodes[..i], dead, candidates)
    {
      var n := nodes[i];
      assert nodes[..i + 1] == nodes[..i] + [n];
      CollectedStep(g, startsUpper, kind, nodes[..i], dead, candidates, n);
      if KindWanted(kind, n.kind) && !IsEntryPoint(startsUpper, n) && Tally(inDegree, n.id) == 0 {
        candidates := candidates + [CandidateOf(n)];
        dead := dead + [n];
      }
    }
    assert nodes[..|nodes|] == nodes;
  }

  lemma CollectedIsSelection(g: GraphState, startsUpper: string -> bool, projectPath: string, kind: string,
                             nodes: seq<Node>, dead: seq<Node>, candidates: seq<DeadCodeCandidate>)
    requires Sound(g) && Selection(g.nodes, UnderPath(projectPath), nodes)
    requires Collected(g, startsUpper, kind, nodes, dead, candidates)
    ensures Selection(g.nodes, DeadIn(g, startsUpper, projectPath, kind), dead)
  {
    hide Dead, Suspect, InDegreeOf, InProject;
    forall id | id in g.nodes { DeadMeaning(g, startsUpper, projectPath, kind, g.nodes[id]); }
    forall id | id in g.nodes && DeadIn(g, startsUpper, projectPath, kind)(g.nodes[id])
      ensures g.nodes[id] in dead
    {
      assert g.nodes[id] in nodes;
    }
  }

  method ListDeadCode(g: Graph, projects: seq<Project>, startsUpper: string -> bool, projectName: string, kind: string, topK: int)
    returns (r: Result<seq<DeadCodeCandidate>>)
    requires Sound(g.View())
    ensures r.Ok? <==> ProjectPath(projects, projectName).Ok?
    ensures r.Ok? ==>
      Reports(g.View(), startsUpper, ProjectPath(projects, projectName).value, kind, if topK <= 0 then 50 else topK, r.value)
  {
    var found := ProjectPath(projects, projectName);
    if found.Err? {
      return Err(found.error);
    }
    var projectPath := found.value;
    ghost var s := g.View();
    var nodes := NodesByProject(g, projectPath);
    var inDegree, _ := DegreeMaps(g);
    var candidates := Collect(startsUpper, kind, nodes, inDegree, s);
    ghost var dead :| Collected(s, startsUpper, kind, nodes, dead, candidates);
    CollectedIsSelection(s, startsUpper, projectPath, kind, nodes, dead, candidates);
    ByPathIsWeakOrder();
    var sorted := SortSlice(candidates, ByPath());
    var listed := if |sorted| > TopOrDefault(topK) then sorted[..TopOrDefault(topK)] else sorted;
    ListedReports(s, startsUpper, projectPath, kind, TopOrDefault(topK), dead, candidates, sorted);
    return Ok(listed);
  }

  lemma DistinctCandidates(g: GraphState, dead: seq<Node>, candidates: seq<DeadCodeCandidate>)
    requires Sound(g) && NodesOfGraph(g, dead) && |candidates| == |dead|
    requires forall j :: 0 <= j < |dead| ==> candidates[j] == CandidateOf(dead[j])
    ensures Distinct(candidates)
  {
    forall i, j | 0 <= i < j < |dead|
      ensures candidates[i] != candidates[j]
    {
      assert dead[i].id == NodeID(dead[i].path, dead[i].symbol);
      assert dead[j].id == NodeID(dead[j].path, dead[j].symbol);
    }
  }

  lemma {:induction false} DistinctMultiset<T>(s: seq<T>)
    requires Distinct(s)
    ensures forall x :: multiset(s)[x] <= 1
  {
    if s != [] {
      var n := |s| - 1;
      DistinctMultiset(s[..n]);
      assert s == s[..n] + [s[n]];
      assert s[n] !in s[..n];
    }
  }

  lemma {:induction false} SingleMultiset<T>(s: seq<T>)
    requires forall x :: multiset(s)[x] <= 1
    ensures Distinct(s)
  {
    forall i, j | 0 <= i < j < |s|
      ensures s[i] != s[j]
    {
      assert s == s[..j] + [s[j]] + s[j + 1..];
      assert multiset(s) == multiset(s[..j]) + multiset{s[j]} + multiset(s[j + 1..]);
      assert s[..j][i] in multiset(s[..j]);
      assert multiset(s)[s[j]] <= 1;
    }
  }

  lemma ListedReports(g: GraphState, startsUpper: string -> bool, projectPath: string, kind: string, topK: nat,
                      dead: seq<Node>, candidates: seq<DeadCodeCandidate>, sorted: seq<DeadCodeCandidate>)
    requires Sound(g) && Selection(g.nodes, DeadIn(g, startsUpper, projectPath, kind), dead)
    requires |candidates| == |dead| && forall j :: 0 <= j < |dead| ==> candidates[j] == CandidateOf(dead[j])
    requires multiset(sorted) == multiset(candidates) && SortedBy(sorted, ByPath())
    ensures Reports(g, startsUpper, projectPath, kind, topK, Take(sorted, topK))
  {
    var listed := Take(sorted, topK);
    TopOfSorted(candidates, sorted, topK, ByPath());
    SelectionCount(g.nodes, DeadIn(g, startsUpper, projectPath, kind), dead);
    DistinctCandidates(g, dead, candidates);
    DistinctMultiset(candidates);
    SingleMultiset(listed);
    var ids := DeadIds(g, startsUpper, projectPath, kind);
    forall c | c in listed
      ensures exists id :: id in ids && ReportOf(g.nodes[id], c)
    {
      assert c in multiset(listed);
      assert c in multiset(candidates);
      var j :| 0 <= j < |candidates| && candidates[j] == c;
      assert dead[j].id in ids;
    }
    forall id, c, x | id in ids && ReportOf(g.nodes[id], x) && x !in listed && c in listed
      ensures !LexLess(x.path, c.path)
    {
      var j :| 0 <= j < |dead| && dead[j] == g.nodes[id];
      assert x == candidates[j];
      assert x in multiset(candidates);
      assert x in multiset(candidates) - multiset(listed);
      assert !ByPath()(x, c);
    }
  }

  lemma LastCall(g: GraphState, p: seq<string>, last: string)
    requires IsCallPath(g, p) && last == p[|p| - 1]
    ensures |p| >= 2 ==> exists c :: Calls(g, c, last)
  {
    if |p| >= 2 {
      assert Calls(g, p[|p| - 2], p[|p| - 1]);
    }
  }

  /** No symbol the report lists can be reached from a different symbol: every
      correct trace to it, in any project and to any depth, finds nothing. */
  lemma DeadIsUnreachable(g: GraphState, startsUpper: string -> bool, projectPath: string, kind: string, topK: nat,
                          listed: seq<DeadCodeCandidate>, c: DeadCodeCandidate,
                          from: string, scope: string, maxDepth: nat, trace: TraceResult)
    requires Reports(g, startsUpper, projectPath, kind, topK, listed) && c in listed
    requires from != c.symbol && Answers(g, from, c.symbol, scope, maxDepth, trace)
    requires Sound(g)
    ensures !trace.found
  {
    var id :| id in DeadIds(g, startsUpper, projectPath, kind) && ReportOf(g.nodes[id], c);
    forall p
      ensures !Connects(g, from, c.symbol, scope, p)
    {
      if Connects(g, from, c.symbol, scope, p) {
        LastCall(g, p, p[|p| - 1]);
      }
    }
  }

  /** In a graph built from chunks: every listed symbol is that of a callable chunk,
      and no call in the text of any callable chunk names it. */
  lemma ListedIsUncalled(chunks: seq<Chunk>, startsUpper: string -> bool, projectPath: string, kind: string, topK: nat,
                         listed: seq<DeadCodeCandidate>, c: DeadCodeCandidate)
    requires Reports(AddedAll(EMPTY, chunks), startsUpper, projectPath, kind, topK, listed) && c in listed
    ensures exists i :: 0 <= i < |chunks| && Keyed(chunks[i], c.path + ":" + c.symbol)
    ensures forall i, k :: 0 <= i < |chunks| && Callable(chunks[i]) && 0 <= k < |chunks[i].calls| ==>
      chunks[i].calls[k].name != c.symbol
  {
    var g := AddedAll(EMPTY, chunks);
    AddedAllBuilds(chunks);
    AddedAllSound(chunks);
    var id :| id in DeadIds(g, startsUpper, projectPath, kind) && ReportOf(g.nodes[id], c);
    assert HasKey(chunks, id);
    forall i, k | 0 <= i < |chunks| && Callable(chunks[i]) && 0 <= k < |chunks[i].calls|
      ensures chunks[i].calls[k].name != c.symbol
    {
      var call := chunks[i].calls[k];
      var e := Edge(NodeID(chunks[i].path, chunks[i].symbol), call.name, call.line);
      assert IsCallIn(e, chunks[i]);
      assert e in g.edges;
    }
  }
}
