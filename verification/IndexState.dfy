/** The four derived structures of the indexer as one value, what each step does
    to the part belonging to one file, and the invariant every step keeps
    (internal/app/indexing.go, internal/app/rebuild.go, internal/app/app_cleanup.go). */
module IndexState {
  import opened Common
  import opened Chunks
  import opened Formatting
  import V = VectorStore
  import G = CallGraph
  import S = SymbolIndex
  import H = SimhashIndex

  /** The parts of the program treated as fixed functions: the content digest,
      the chunker (of path, content and stored hash), lower-casing and the
      embedding provider. `tracked` are the paths that runs are about; on these,
      `owner` and `textOf` read path and text off a chunk identifier and
      `keyOwner` the path off a node key. */
  datatype Tools = Tools(
    hash: string -> string,
    chunkFile: (string, string, string) -> seq<Chunk>,
    lower: string -> string,
    embed: string -> V.Vec,
    tracked: string -> bool,
    owner: string -> string,
    textOf: string -> string,
    keyOwner: string -> string)

  /** Identifier and node key tell path and text. */
  predicate Identified(t: Tools, c: Chunk) {
    t.owner(c.id) == c.path && t.textOf(c.id) == c.content && G.KeyOwned(t.keyOwner, c)
  }

  /** Digests are injective and never empty; the chunker labels its chunks with
      path and hash and yields at least one; the chunks of tracked paths are
      identified. Module Identity derives the last part from the digest. */
  ghost predicate Trusted(t: Tools) {
    && (forall c :: t.hash(c) != "")
    && (forall c, d :: t.hash(c) == t.hash(d) ==> c == d)
    && (forall p, c, h :: t.chunkFile(p, c, h) != [])
    && (forall p, c, h, ch :: ch in t.chunkFile(p, c, h) ==>
          ch.path == p && ch.fileHash == h && (t.tracked(p) ==> Identified(t, ch)))
  }

  datatype State = State(store: V.StoreState, symbols: S.Table, graph: G.GraphState, simhash: seq<H.IndexEntry>)

  const EMPTY := State(V.EMPTY, map[], G.EMPTY, [])

  /** The part of every structure that belongs to one file. */
  function Restrict(s: State, path: string): State {
    State(V.Restrict(s.store, path), S.Restrict(s.symbols, path), G.Restrict(s.graph, path), H.Restrict(s.simhash, path))
  }

  ghost predicate Sound(t: Tools, s: State) {
    V.Owned(t.owner, s.store.docs) && G.Strict(t.keyOwner, s.graph)
  }

  /** What indexing a file into empty structures gives. */
  function Scratch(t: Tools, path: string, content: string, hash: string): State {
    var chunks := t.chunkFile(path, content, hash);
    State(V.AddedAll(t.embed, V.EMPTY, chunks), S.AddedAll(t.lower, map[], chunks),
          G.AddedAll(G.EMPTY, chunks), H.EntriesOf(chunks))
  }

  function ScratchFile(t: Tools, path: string, content: string): State {
    Scratch(t, path, content, t.hash(content))
  }

  // ------------------------------------------------------- effect per file

  datatype Outcome = Gone | ReadFailed | EmbedFailed(content: string) | Done(content: string)

  datatype Step =
    | IndexListed(listed: map<string, string>, stored: set<string>)
    | ReindexFile(path: string, outcome: Outcome)
    | DeletePrefix(prefix: string)
    | CleanupDeleted(missing: set<string>)

  /** What a directory run does to a listed file; `stored` says whether its
      batch got as far as the vector store. */
  function AfterIndexing(t: Tools, r: State, path: string, content: string, stored: bool): State {
    var full := ScratchFile(t, path, content);
    if V.HashAt(r.store, path) == t.hash(content) then
      if path in r.graph.files then r else full.(store := r.store)
    else
      full.(store := if stored then full.store else V.EMPTY)
  }

  function AfterReindex(t: Tools, r: State, path: string, outcome: Outcome): State {
    match outcome
    case Gone => r.(store := V.EMPTY, symbols := map[])
    case ReadFailed => EMPTY
    case EmbedFailed(content) => Scratch(t, path, content, "").(store := V.EMPTY)
    case Done(content) => Scratch(t, path, content, "")
  }

  function FileEffect(t: Tools, step: Step, r: State, path: string): State {
    match step
    case IndexListed(listed, stored) =>
      if path in listed then AfterIndexing(t, r, path, listed[path], path in stored) else r
    case ReindexFile(p, outcome) => if p == path then AfterReindex(t, r, path, outcome) else r
    case DeletePrefix(prefix) => if path in r.store.hashes && IsUnderPath(path, prefix) then EMPTY else r
    case CleanupDeleted(missing) => if path in r.store.hashes && path in missing then EMPTY else r
  }

  /** `s'` is a result of `step` from `s`, for some completion order. */
  ghost predicate Takes(t: Tools, step: Step, s: State, s': State) {
    Sound(t, s') && forall path :: Restrict(s', path) == FileEffect(t, step, Restrict(s, path), path)
  }

  // -------------------------------------------------------------- coherence

  /** A stored hash vouches for the file: the store holds exactly the chunks of
      the content it digests, and if the graph has the file, so do all four. */
  ghost predicate FileCoherent(t: Tools, r: State, path: string) {
    path in r.store.hashes ==>
      exists content ::
        && r.store.hashes[path] == t.hash(content)
        && r.store == ScratchFile(t, path, content).store
        && (path in r.graph.files ==> r == ScratchFile(t, path, content))
  }

  ghost predicate Coherent(t: Tools, s: State) {
    Sound(t, s) && forall path {:trigger FileCoherent(t, Restrict(s, path), path)} :: FileCoherent(t, Restrict(s, path), path)
  }

  lemma {:induction false} ScratchHashes(t: Tools, chunks: seq<Chunk>, path: string, hash: string)
    requires forall c :: c in chunks ==> c.path == path && c.fileHash == hash
    ensures V.AddedAll(t.embed, V.EMPTY, chunks).hashes
      == if chunks == [] || hash == "" then map[] else map[path := hash]
  {
    if chunks != [] {
      var n := |chunks| - 1;
      ScratchHashes(t, chunks[..n], path, hash);
      assert chunks[n].path == path && chunks[n].fileHash == hash;
    }
  }

  lemma ScratchTracked(t: Tools, path: string, content: string, hash: string)
    requires Trusted(t)
    ensures Scratch(t, path, content, hash).store.hashes == if hash == "" then map[] else map[path := hash]
  {
    var chunks := t.chunkFile(path, content, hash);
    ScratchHashes(t, chunks, path, hash);
  }

  /** From a coherent file state, a completed directory run leaves exactly what
      indexing the file from scratch would. */
  lemma IndexingRefinesScratch(t: Tools, r: State, path: string, content: string)
    requires Trusted(t) && FileCoherent(t, r, path)
    ensures AfterIndexing(t, r, path, content, true) == ScratchFile(t, path, content)
  {
    assert t.hash(content) != "";
    if V.HashAt(r.store, path) == t.hash(content) {
      var c :| r.store.hashes[path] == t.hash(c) && r.store == ScratchFile(t, path, c).store
        && (path in r.graph.files ==> r == ScratchFile(t, path, c));
      assert c == content;
    }
  }

  lemma IndexingCoherent(t: Tools, r: State, path: string, content: string, stored: bool)
    requires Trusted(t) && FileCoherent(t, r, path)
    ensures FileCoherent(t, AfterIndexing(t, r, path, content, stored), path)
  {
    ScratchTracked(t, path, content, t.hash(content));
    IndexingRefinesScratch(t, r, path, content);
    if stored || V.HashAt(r.store, path) == t.hash(content) {
      assert AfterIndexing(t, r, path, content, stored) == ScratchFile(t, path, content);
      assert ScratchFile(t, path, content).store.hashes[path] == t.hash(content);
    }
  }

  lemma ReindexCoherent(t: Tools, r: State, path: string, outcome: Outcome)
    requires Trusted(t)
    ensures FileCoherent(t, AfterReindex(t, r, path, outcome), path)
  {
    if outcome.Done? {
      ScratchTracked(t, path, outcome.content, "");
    }
  }

  /** Every step keeps coherence, wherever it was interrupted. */
  lemma StepKeepsCoherence(t: Tools, step: Step, s: State, s': State)
    requires Trusted(t) && Coherent(t, s) && Takes(t, step, s, s')
    ensures Coherent(t, s')
  {
    forall path
      ensures FileCoherent(t, Restrict(s', path), path)
    {
      var r := Restrict(s, path);
      assert FileCoherent(t, r, path);
      match step {
        case IndexListed(listed, stored) =>
          if path in listed { IndexingCoherent(t, r, path, listed[path], path in stored); }
        case ReindexFile(p, outcome) =>
          if p == path { ReindexCoherent(t, r, path, outcome); }
        case DeletePrefix(_) =>
        case CleanupDeleted(_) =>
      }
    }
  }

  lemma RestrictEmpty(path: string)
    ensures Restrict(EMPTY, path) == EMPTY
  {
    assert Restrict(EMPTY, path).symbols == map[];
    assert Restrict(EMPTY, path).store == V.EMPTY;
  }

  lemma EmptyIsCoherent(t: Tools)
    ensures Coherent(t, EMPTY)
  {
    forall path { RestrictEmpty(path); }
  }

  /** A run: states[i] becomes states[i + 1] by steps[i]. */
  ghost predicate Run(t: Tools, states: seq<State>, steps: seq<Step>) {
    && |states| == |steps| + 1
    && states[0] == EMPTY
    && forall i, j :: 0 <= i < |steps| && j == i + 1 ==> Takes(t, steps[i], states[i], states[j])
  }

  /** Files may change arbitrarily between steps and steps may fail: every state
      of every run is coherent. */
  lemma {:induction false} RunsAreCoherent(t: Tools, states: seq<State>, steps: seq<Step>, i: nat)
    requires Trusted(t) && Run(t, states, steps) && i < |states|
    ensures Coherent(t, states[i])
  {
    if i == 0 {
      EmptyIsCoherent(t);
    } else {
      RunsAreCoherent(t, states, steps, i - 1);
      StepKeepsCoherence(t, steps[i - 1], states[i - 1], states[i]);
    }
  }

  // ------------------------------------------------------------- refinement

  ghost predicate Complete(step: Step) {
    step.IndexListed? && step.listed.Keys <= step.stored
  }

  /** A completed directory run refines indexing from scratch: every listed file
      ends with the current hash and entries, every other file is untouched. */
  lemma CompleteRunRefinesScratch(t: Tools, step: Step, s: State, s': State, path: string)
    requires Trusted(t) && Coherent(t, s) && Complete(step) && Takes(t, step, s, s')
    ensures Restrict(s', path) == if path in step.listed then ScratchFile(t, path, step.listed[path]) else Restrict(s, path)
  {
    assert Restrict(s', path) == FileEffect(t, step, Restrict(s, path), path);
    if path in step.listed {
      assert FileCoherent(t, Restrict(s, path), path);
      IndexingRefinesScratch(t, Restrict(s, path), path, step.listed[path]);
    }
  }

  /** Failed attempts, each over the same files and stopped anywhere. */
  ghost predicate FailedAttempts(t: Tools, listed: map<string, string>, states: seq<State>, steps: seq<Step>) {
    && |states| == |steps| + 1
    && forall i, j :: 0 <= i < |steps| && j == i + 1 ==>
         steps[i].IndexListed? && steps[i].listed == listed && Takes(t, steps[i], states[i], states[j])
  }

  lemma {:induction false} AttemptsKeepRest(t: Tools, listed: map<string, string>, states: seq<State>, steps: seq<Step>, i: nat)
    requires Trusted(t) && FailedAttempts(t, listed, states, steps) && i < |states| && Coherent(t, states[0])
    ensures Coherent(t, states[i])
    ensures forall path :: path !in listed ==> Restrict(states[i], path) == Restrict(states[0], path)
  {
    if i > 0 {
      AttemptsKeepRest(t, listed, states, steps, i - 1);
      StepKeepsCoherence(t, steps[i - 1], states[i - 1], states[i]);
      forall path | path !in listed
        ensures Restrict(states[i], path) == Restrict(states[0], path)
      {
        assert Restrict(states[i], path) == FileEffect(t, steps[i - 1], Restrict(states[i - 1], path), path);
      }
    }
  }

  /** Retry converges: failures followed by a success end where one successful
      attempt from the start would. */
  lemma RetryConverges(t: Tools, listed: map<string, string>, states: seq<State>, steps: seq<Step>,
                       last: Step, final: State, direct: State)
    requires Trusted(t) && FailedAttempts(t, listed, states, steps) && Coherent(t, states[0])
    requires Complete(last) && last.listed == listed
    requires Takes(t, last, states[|steps|], final) && Takes(t, last, states[0], direct)
    ensures forall path :: Restrict(final, path) == Restrict(direct, path)
    ensures SameUpToOrder(final, direct)
  {
    AttemptsKeepRest(t, listed, states, steps, |steps|);
    forall path
      ensures Restrict(final, path) == Restrict(direct, path)
    {
      CompleteRunRefinesScratch(t, last, states[|steps|], final, path);
      CompleteRunRefinesScratch(t, last, states[0], direct, path);
    }
    PartsDetermineWhole(t, final, direct);
  }

  // -------------------------------------------------------------- order

  /** Equal as maps and multisets. */
  ghost predicate SameUpToOrder(a: State, b: State) {
    && a.store == b.store
    && a.graph.nodes == b.graph.nodes && a.graph.files == b.graph.files
    && multiset(a.graph.edges) == multiset(b.graph.edges)
    && multiset(a.simhash) == multiset(b.simhash)
    && (forall key :: multiset(S.Locations(a.symbols, key)) == multiset(S.Locations(b.symbols, key)))
  }

  /** States that agree file by file agree as a whole, up to list order. In
      particular the completion order of the workers does not matter. */
  lemma PartsDetermineWhole(t: Tools, a: State, b: State)
    requires Sound(t, a) && Sound(t, b)
    requires forall path :: Restrict(a, path) == Restrict(b, path)
    ensures SameUpToOrder(a, b)
  {
    forall path
      ensures V.Restrict(a.store, path) == V.Restrict(b.store, path)
      ensures S.Restrict(a.symbols, path) == S.Restrict(b.symbols, path)
      ensures G.Restrict(a.graph, path) == G.Restrict(b.graph, path)
      ensures H.Restrict(a.simhash, path) == H.Restrict(b.simhash, path)
    {
      assert Restrict(a, path) == Restrict(b, path);
    }
    V.PartsDetermineStore(a.store, b.store);
    G.PartsDetermineGraph(a.graph, b.graph);
    H.PartsDetermineEntries(a.simhash, b.simhash);
    forall key { S.PartsDetermineLocations(a.symbols, b.symbols, key); }
  }

  /** Two results of one step differ in list order at most. */
  lemma StepIsDeterministic(t: Tools, step: Step, s: State, a: State, b: State)
    requires Takes(t, step, s, a) && Takes(t, step, s, b)
    ensures SameUpToOrder(a, b)
  {
    forall path
      ensures Restrict(a, path) == Restrict(b, path)
    {
      assert Restrict(a, path) == FileEffect(t, step, Restrict(s, path), path);
    }
    PartsDetermineWhole(t, a, b);
  }

  // ----------------------------------------------- what deletion leaves over

  /** Deletion by prefix and cleanup work through the stored hashes: a file's
      traces all go exactly when it has a hash or had no traces. */
  lemma DeletionIsComplete(t: Tools, step: Step, s: State, s': State, path: string)
    requires Takes(t, step, s, s')
    requires (step.DeletePrefix? && IsUnderPath(path, step.prefix)) || (step.CleanupDeleted? && path in step.missing)
    ensures Restrict(s', path) == EMPTY <==> path in s.store.hashes || Restrict(s, path) == EMPTY
  {
    assert Restrict(s', path) == FileEffect(t, step, Restrict(s, path), path);
    assert path in Restrict(s, path).store.hashes <==> path in s.store.hashes;
  }

  /** When the watcher sees a file vanish, its call graph and simhash entries
      stay, and neither cleanup nor deletion by prefix removes them later. */
  lemma VanishedFileLeavesEntries(t: Tools, path: string, s: State, s1: State, step: Step, s2: State)
    requires Takes(t, ReindexFile(path, Gone), s, s1)
    requires (step.DeletePrefix? || step.CleanupDeleted?) && Takes(t, step, s1, s2)
    ensures Restrict(s2, path).graph == Restrict(s, path).graph
    ensures Restrict(s2, path).simhash == Restrict(s, path).simhash
    ensures Restrict(s2, path).store == V.EMPTY && Restrict(s2, path).symbols == map[]
  {
    assert Restrict(s1, path) == FileEffect(t, ReindexFile(path, Gone), Restrict(s, path), path);
    assert Restrict(s2, path) == FileEffect(t, step, Restrict(s1, path), path);
  }
}
