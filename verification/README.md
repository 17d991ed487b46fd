# Gnostis verification model

Gnostis keeps four structures derived from the files of a project: a vector
store with file hashes, a symbol index, a call graph and a simhash index. A
directory run, the file watcher, a rebuild and a cleanup all edit them in place;
one worker takes such jobs from a queue; and queries (call paths, dead code, the
graph view, similar code) read the results. This project models that machinery
in Dafny and proves what it promises.

## How it is organised

Each source file has a module of the same concern. Where the source updates
fields, so does a class here (`Store`, `Graph`, `Queue`, `Watcher`, `Indexer`,
...), and every method is proved against a function of the old state; the
lemmas are about those functions. Where goroutines interleave, a state machine
has one action for each locked section, and the lemmas are about all its runs.

* `Splitter`, `SplitGraph`: cutting oversized chunks, and why that leaves call
  paths alone.
* `CallGraph`, `GraphOps`, `TracePath`, `DeadCode`, `GraphLayout`: the call
  graph, its persistence and its queries.
* `VectorStore`, `SymbolIndex`, `SimhashIndex`, `Simhash`, `Embedding`: the other
  structures and the way into them.
* `Compaction`: the loop with which the three `RemoveByPath` methods of the source
  compact a slice into itself, on one array. The classes here hold sequences.
* `Identity`: when identifiers and keys tell what they identify.
* `IndexState`, `Indexing`, `IndexHistory`, `Rebuild`: the four structures
  together. The part of each structure that belongs to one file (`Restrict`) makes
  the statements precise: a step is described by what it does to each file's part,
  which leaves the order of lists, and so the order in which goroutines finish,
  open. `FileContents` says what each structure holds of a file, chunk by chunk.
* `JobQueue`, `JobRuns`, `WaitRuns`, `Watcher`: the queue and the watcher.
* `Projects`: the project list and its table.
* `Common`, `Formatting`, `Chunks`: shared vocabulary.

## What is taken as given

* Strings are byte sequences, one `char` a byte.
* Content and chunk digests are injective, and the content digest is never the
  empty string. `ChunkFile` is a fixed function of path, content and hash; it does
  not fail, yields at least one chunk, and labels its chunks with path and hash.
* The indexing results are about a set of tracked paths, of which none continues
  another after a newline: on these a chunk identifier, the digest of path,
  newline and text, determines path and text. They further need that a node key
  determines its path. `Identity.ChunkerIsTrusted` derives both from the digest
  if callable symbols contain no colon, or, for languages in which a method may be
  named by a string, if no tracked path continues another after a colon. Headings
  and file names may contain colons: they never become nodes.
* The embedding provider is a fixed function of the text or fails; which requests
  fail, and in which order requests complete, is arbitrary. Vector entries are
  reals; nothing depends on their values, only on the vectors' lengths.
* Calls into the vector collection and SQL statements succeed, except where a
  parameter says otherwise (`saveFails`, `deleteFails`, `cleanupFails`).
* `sort.Slice` yields some ordered permutation: ties may come out in any order.
  Map iteration visits keys in any order.
* `Chunk` has no project identifier: states are compared up to it.
* File contents, directory walks, the token list of a text and the token hash are
  parameters.

## What turned out not to hold without a condition

* **A finished job can be reported as not found.** `prune` keeps the earliest
  finished entries, each time a job ends. For any look of `Wait` in any run,
  `WaitRuns.WaitOverRun` says exactly when it answers true and when not found:
  at every end of a job since, fewer jobs than the history limit must have been
  active or finished and listed before it. In the runs of
  `WaitRuns.FinishedJobCanBeMissed` and `WaitRuns.FinishedJobMissedLater` there
  were more, at once and later.
* **Debouncing can fail.** The flush of a fired timer forgets the timer that an
  event has set before the flush took the lock. From then on two timers can be
  live, and a change can be flushed before its quiet period is over
  (`Watcher.TwoTimersLive`). At most one is live exactly as long as no flush is
  overtaken in this way (`Watcher.DebouncedExactly`).
* **A failing job can leave work waiting.** The queue stalls exactly when a job
  fails with work waiting and no wake-up on its way
  (`JobRuns.OnlyFailureStalls`, reached by the run of `JobRuns.StallIsReached`); the next submission ends it. A queue that has
  not stalled always drains (`JobRuns.QueueDrains`).
* **Deletion by prefix and cleanup follow the stored hashes only.** They remove a
  file's traces exactly when it has a stored hash or had no traces
  (`IndexState.DeletionIsComplete`). A file the watcher saw vanish keeps its call
  graph and simhash entries through all of them
  (`IndexState.VanishedFileLeavesEntries`, and the run of
  `IndexHistory.VanishedFileIsStranded`). Which files of a run have traces but no
  hash is decided by the last step that touched them
  (`IndexHistory.LastTouchDecides`): among others, every file the watcher has
  reindexed.
* **An incremental run equals a rebuild from nothing exactly when nothing is held
  of files outside the listing** (`Rebuild.IncrementalEqualsRebuild`).
* **Node keys clash exactly when a colon inside a symbol can be read as the
  separator** (`CallGraph.NodeIDClashesExactly`), and chunk identifiers when a
  newline can (`Identity.ChunkIdClashesExactly`).
* **`HasFile` can outlive the last node of a file**: it stays exact exactly until a
  chunk takes the key of the only node of another file
  (`CallGraph.AddedFilesExact`, over runs `CallGraph.RunInvariant`, an instance
  `CallGraph.StaleFileAfterClash`).
* **Removing a file undoes adding it exactly when no chunk takes the key of another
  file's node** (`CallGraph.RemoveUndoesAdd`).
* **Removing a project whose row deletion fails leaves the row behind**: list and
  table agree afterwards exactly when the deletion succeeded
  (`Projects.ProjectList.RemoveProject`).
* **Invalidating one project's layouts can reach other projects' keys**: exactly
  those whose names continue the given name after a `|`, and one kind of key of a
  project which the given name continues (`GraphLayout.PrefixSelectsProject`).
* `reindexFileUnder` sets no hash, so a file it has just indexed has no stored
  hash and the next directory run indexes it again.

## Model

| member | source | states |
|---|---|---|
| `Splitter.SplitChunk` | internal/chunker/split.go:29-60 | The packing loop over text buffer, length counter and line index yields exactly the sub-chunks of the greedy packing |
| `Splitter.SplitLargeChunks` | internal/chunker/split.go:16-26 | Chunk by chunk, in order: one of up to 100 000 bytes passes unchanged, any other is replaced by pieces that lose nothing, follow one another and keep to the limit |
| `Splitter.SplitAllDivides` | internal/chunker/split.go:16-60 | The output falls into one group for each chunk: the chunk itself within the limit, its lossless, consecutive and bounded pieces otherwise |
| `Splitter.SplitIsLosslessAndOptimal` | internal/chunker/split.go:29-79 | For every chunk: pieces joined by newlines give back the content; line ranges are consecutive, cover the original range and have as many lines as the piece's text; each piece is shorter than the limit or one line; digests match path and text; no division into single lines or runs within the limit has fewer pieces |
| `Splitter.GreedyIsOptimal` | internal/chunker/split.go:39-52 | No admissible division of the lines has fewer pieces than the greedy one |
| `Splitter.GreedyStaysAhead` | internal/chunker/split.go:39-52 | Greedy packing of any tail of a text needs no more pieces than any admissible division of the whole text |
| `Splitter.GreedyTakesPiece` | internal/chunker/split.go:39-52 | A whole admissible piece at the front goes into the first greedy piece |
| `Splitter.SplitAllSettles` | internal/chunker/split.go:16-60 | Every chunk in the output of splitting is left as it is by splitting |
| `Splitter.SplitIsIdempotent` | internal/chunker/split.go:16-60 | Splitting twice is splitting once |
| `Splitter.JoinSplit` | internal/chunker/split.go:30-56 | Splitting the joined lines at newlines gives back the lines, if none contains one |
| `SplitGraph.SplitKeepsGraph` | internal/graph/graph.go:115-142 | Feeding the pieces of split chunks instead of the chunks gives the same node keys, the same nodes up to line ranges, the same files and the same set of edges |
| `SplitGraph.EquivalentTraces` | internal/app/graph_queries.go:53-106 | Graphs that agree up to line ranges and edge multiplicity answer every trace with the same outcome and depth |
| `SplitGraph.SplitKeepsTraces` | internal/app/graph_queries.go:53-106 | Tracing over split chunks finds a path exactly when tracing over whole chunks does, of the same length |
| `CallGraph.NodeIDInjective` | internal/graph/graph.go:44-46 | Keys of colon-free symbols are equal only for equal path and symbol, whatever the paths |
| `CallGraph.NodeIDClashesExactly` | internal/graph/graph.go:44-46 | For all paths and symbols: keys are equal exactly when path and symbol are, or a colon inside one symbol could be the separator |
| `CallGraph.RunInvariant` | internal/graph/graph.go:115-170 | Over any run of AddChunk and RemoveByPath nodes are filed under their own key and every edge starts at a node; HasFile is exact throughout exactly when no step displaces the only node of another file |
| `CallGraph.AddedFilesExact` | internal/graph/graph.go:115-142 | AddChunk keeps HasFile exact exactly unless the chunk takes the key of the only node of another file |
| `CallGraph.RemovedFilesExact` | internal/graph/graph.go:145-170 | RemoveByPath keeps HasFile exact, and the removed file is unknown afterwards |
| `CallGraph.RunIsStrict` | internal/graph/graph.go:115-170 | Over any run whose node keys determine their paths HasFile is exact |
| `CallGraph.StaleFileAfterClash` | internal/graph/graph.go:115-142 | With clashing keys HasFile answers true for a file without nodes |
| `CallGraph.AddedAllBuilds` | internal/graph/graph.go:115-142 | Chunks fed to an empty graph build what they describe: a node for each key with the data of the last chunk of that key, one edge for each call in the text of a callable chunk to the name called at its line, the files of the callable chunks |
| `CallGraph.RestrictAddedAll` | internal/graph/graph.go:115-142 | Adding one file's chunks touches that file's part only and acts on it as on a graph of that file alone |
| `CallGraph.RestrictRemoved` | internal/graph/graph.go:145-170 | Removal empties that file's part and leaves all other parts, edge order included |
| `CallGraph.RemoveUndoesAdd` | internal/graph/graph.go:115-170 | Removing a file undoes adding its chunks to a graph without it, edge order included, exactly when no chunk takes the key of a node that was there |
| `CallGraph.SaveLoadRoundTrip` | internal/graph/persist.go:10-91 | Save then Load into a new graph restores the nodes and the edge multiset, and the file set exactly when HasFile was exact |
| `CallGraph.Graph.AddChunk` | internal/graph/graph.go:115-142 | One node with the data of the chunk under path, colon and symbol, all others as before; one edge a call appended, from that node to the name called at its line; the file marked; file, document and kindless chunks are ignored |
| `CallGraph.Graph.RemoveByPath` | internal/graph/graph.go:145-170 | Whatever order the nodes are visited in: drops the file's nodes and exactly the edges starting at them, in order, and forgets the file if it had a node |
| `CallGraph.Graph.HasFile` | internal/graph/graph.go:208-212 | Whether the file is marked, and while HasFile is exact, whether the graph has a node of it |
| `CallGraph.Graph.Save` | internal/graph/persist.go:10-51 | The tables hold exactly the nodes and edges of the graph |
| `CallGraph.Graph.Load` | internal/graph/persist.go:54-91 | Nodes and files come from the rows, in any order; stored edges are appended to those present |
| `CallGraph.SaveAndReload` | internal/graph/persist.go:10-91 | Saving a graph and loading a new one gives a graph with the same nodes and edges, and the same files exactly when HasFile was exact; the saved rows obey the primary key |
| `CallGraph.Graph.FilterSlice` | internal/graph/graph.go:162-169 | The edge compaction keeps, in order, the edges not starting at a removed node |
| `Compaction.CompactInPlace` | internal/graph/graph.go:162-169 | Reading and writing one array, the compaction leaves the kept elements in order in front and nothing beyond them disturbed |
| `GraphOps.ResolveEdges` | internal/graph/ops.go:92-118 | One resolved edge for each edge and each node its callee name may denote, in edge order; each names the symbol and the path of its node and the line of a call to it |
| `GraphOps.ResolvedPairs` | internal/graph/ops.go:92-118 | Resolved edges join exactly the pairs of which an edge of the first names the symbol of the second |
| `GraphOps.CallsOfChunks` | internal/graph/ops.go:92-118 | In a graph built from chunks a node calls exactly the nodes whose symbol some call in the text of a chunk of its key names |
| `GraphOps.ResolvedDegrees` | internal/graph/ops.go:28-49 | Counting resolved edges at a node gives the number of call sites of its symbol, and the number of nodes its calls may denote, in every order of resolution |
| `GraphOps.InDegree` | internal/graph/ops.go:28-37 | The number of call sites that carry the node's symbol |
| `GraphOps.OutDegree` | internal/graph/ops.go:40-49 | Each call of the node counts once for each node of that name |
| `GraphOps.DegreeMaps` | internal/graph/ops.go:164-173 | Agrees with InDegree and OutDegree at every node |
| `GraphOps.InDegreeByName` | internal/graph/ops.go:28-37 | Nodes of one symbol have one in-degree, positive exactly when somebody calls them |
| `GraphOps.AdjacencyList` | internal/graph/ops.go:130-137 | The list of a node contains exactly the nodes it calls |
| `GraphOps.ReverseAdjacencyList` | internal/graph/ops.go:140-147 | The list of a node contains exactly its callers |
| `GraphOps.CalleesOf` | internal/graph/ops.go:150-153 | Exactly the nodes called |
| `GraphOps.CallersOf` | internal/graph/ops.go:156-159 | Exactly the callers |
| `GraphOps.ResolveSymbol` | internal/graph/ops.go:10-25 | The nodes of that symbol under the project path, each once |
| `GraphOps.NodesByProject` | internal/graph/ops.go:76-87 | The nodes under the project path, each once |
| `GraphOps.EntryPointMeaning` | internal/graph/ops.go:52-73 | Entry points are main and init, symbols that begin with a test mark in files ending in _test.go, and exported Go symbols; no others |
| `TracePath.Trace` | internal/app/graph_queries.go:12-107 | Errors exactly for an empty or unknown name or project; otherwise, within 10 calls if no depth is asked for, the depth asked for up to 25, and 25 beyond, found exactly when a call path of at most that many calls joins the two names, the hops are such a path, and the depth is the minimum |
| `TracePath.Search` | internal/app/graph_queries.go:58-106 | The search terminates, reports a shortest path from a source to a target if one is within the limit, and otherwise none exists within it |
| `TracePath.Examine` | internal/app/graph_queries.go:77-103 | After the callees of one item every target has been noticed and every other callee within the limit enqueued, each node at most once |
| `TracePath.StartQueue` | internal/app/graph_queries.go:58-66 | One item for each source node, each at distance zero |
| `TracePath.NoPathWithin` | internal/app/graph_queries.go:68-104 | Once all nodes nearer than a bound are processed, no path of up to that many calls ends in a target |
| `TracePath.TrivialAnswer` | internal/app/graph_queries.go:48-51 | A trace from a name to itself is answered by one node and depth zero |
| `TracePath.ScopeMeaning` | internal/app/graph_queries.go:24-31 | Without a project name the whole graph is searched; otherwise the path of a project of that name, an error exactly if there is none |
| `DeadCode.ListDeadCode` | internal/app/graph_queries.go:110-161 | Errors exactly for an unknown project; otherwise lists distinct nodes of the project, of the kind asked for or functions and methods, neither main, init, a Go test nor an exported Go symbol, whose symbol no edge names; ordered by path, at most topK or 50, and none left out sorts before one listed |
| `DeadCode.DeadIsUnreachable` | internal/app/graph_queries.go:110-161 | No trace, in any project and to any depth, reaches a listed symbol from a different symbol |
| `DeadCode.ListedIsUncalled` | internal/app/graph_queries.go:110-161 | In a graph built from chunks every listed symbol is that of a callable chunk, and no call in the text of any callable chunk names it |
| `Common.LexLessMeaning` | internal/app/graph_queries.go:152-154 | A path precedes another if it is a proper prefix of it or has the smaller byte where they first differ |
| `GraphLayout.ShowsWellFormed` | internal/app/graph_layout.go:46-175 | The selection has at most maxNodes nodes and 4000 edges, every edge end is shown, nodes are distinct, the total is the nodes shown, the isolated ones and those subsampled away, and with connectedOnly each degree is positive and counts the edge ends shown |
| `GraphLayout.SmallGraphShownWhole` | internal/app/graph_layout.go:46-175 | A graph within the limits is shown whole: every edge, and exactly the nodes, with connectedOnly exactly those that some edge touches |
| `GraphLayout.EndsMeaning` | internal/app/graph_layout.go:74-79 | The degree of a node counts the edges out of it and the edges into it |
| `GraphLayout.Arrange` | internal/app/graph_layout.go:46-148 | Filtering, subsampling, capping and the final pass: kept nodes have at least the degree of any dropped, kept edges at least the load of any dropped, and all counters are as described |
| `GraphLayout.FinalPassKeepsEdges` | internal/app/graph_layout.go:124-148 | The final pass drops no edge, and running it again drops no node |
| `GraphLayout.FilterEdgesByIDs` | internal/app/graph_layout.go:228-236 | Keeps, in order, the edges with both ends in the set |
| `GraphLayout.FilterEdgesByProject` | internal/app/graph_layout.go:210-226 | Keeps, in order, the edges whose source is a listed node under the project path |
| `GraphLayout.CacheKeyInjective` | internal/app/graph_layout.go:30 | Different requests have different cache keys, whatever the project is called |
| `GraphLayout.PrefixSelectsProject` | internal/app/graph_layout.go:189-199 | Exactly which keys invalidation by prefix reaches, for all names |
| `GraphLayout.LayoutCache.GraphLayout` | internal/app/graph_layout.go:25-186 | Every answer, cached or new, is well-formed for its request, with at most maxNodes nodes, 800 if none is given; a miss computes from the current graph and is filed; an unknown project errs and changes nothing |
| `GraphLayout.LayoutCache.InvalidateLayoutCache` | internal/app/graph_layout.go:189-199 | Removes exactly the keys with that prefix and keeps the cache valid |
| `Simhash.Hamming` | internal/simhash/simhash.go:45-53 | The bit-clearing loop counts the positions in which the words differ |
| `Simhash.ClearLowest` | internal/simhash/simhash.go:48-51 | x and x-1 have one set bit less in common than x has |
| `Simhash.DistanceIsMetric` | internal/simhash/simhash.go:45-53 | Symmetric, zero only on equal words, triangle inequality, at most 64 |
| `Simhash.Fingerprint` | internal/simhash/simhash.go:12-42 | Bit i is set exactly when more than half of the tokens have it; a text without tokens is hashed whole |
| `Simhash.CastVotes` | internal/simhash/simhash.go:26-32 | One token adds or subtracts one at each of the 64 counters |
| `Simhash.MajorityUnique` | internal/simhash/simhash.go:12-42 | The majority rule determines the word |
| `Simhash.FingerprintPermuted` | internal/simhash/simhash.go:12-42 | The order of tokens does not matter |
| `Simhash.FingerprintRepeated` | internal/simhash/simhash.go:12-42 | Repeating the whole token list does not matter |
| `SimhashIndex.Similarity` | internal/simhash/simhash.go:56-58 | The fraction of the 64 positions at which the words agree: 1 exactly on equal words, 0 exactly on opposite ones |
| `SimhashIndex.CloserIsMoreSimilar` | internal/simhash/simhash.go:56-58 | Ranking by similarity is ranking by Hamming distance |
| `SimhashIndex.Index.FindSimilar` | internal/simhash/index.go:88-118 | Every match is an entry outside the excluded path at or above the threshold with its similarity, most similar first, at most topK or 5; what is left out is left out of a full list and no more similar than anything on it |
| `SimhashIndex.IndexedIsFound` | internal/app/simhash.go:14-24 | A search from another path with the fingerprint of an indexed chunk lists that chunk with similarity 1, unless the list is full of chunks with the very same fingerprint |
| `SimhashIndex.Index.Add` | internal/simhash/index.go:62-66 | Appends one entry |
| `SimhashIndex.Index.AddChunks` | internal/app/simhash.go:14-24 | Appends one entry a chunk, in order, with its fingerprint, path, symbol and lines |
| `SimhashIndex.Index.RemoveByPath` | internal/simhash/index.go:69-84 | Keeps, in order, the entries of other paths |
| `SimhashIndex.RestrictAdded` | internal/app/simhash.go:14-24 | Adding one file's chunks appends to that file's entries and leaves all others |
| `SimhashIndex.RestrictRemoved` | internal/simhash/index.go:69-84 | Removal empties that file's part and leaves all others |
| `SymbolIndex.Index.AddChunks` | internal/symbol/symbol.go:59-78 | Files every named chunk under its lower-cased symbol, appended in order, and keeps every location under its own name |
| `SymbolIndex.AddedAllFiles` | internal/symbol/symbol.go:59-78 | Fed to an empty index, the chunks of each name are filed under it, one by one, in order and with their data, and nothing else is |
| `SymbolIndex.Index.RemoveByPath` | internal/symbol/symbol.go:81-102 | Whatever order keys are visited in: drops exactly that path's locations and the keys left empty |
| `SymbolIndex.Index.Compact` | internal/symbol/symbol.go:85-90 | Keeps, in order, the locations of other paths |
| `SymbolIndex.Index.Lookup` | internal/symbol/symbol.go:105-109 | Exactly the locations whose symbol equals the name up to letter case |
| `SymbolIndex.AddedAllIsFiled` | internal/symbol/symbol.go:59-78 | Every location stays under its own lower-cased non-empty symbol and no key is empty |
| `SymbolIndex.RemovedIsFiled` | internal/symbol/symbol.go:81-102 | The same after removal, and exactly the locations of other paths remain |
| `SymbolIndex.RestrictAddedAll` | internal/symbol/symbol.go:59-78 | Adding one file's chunks acts on that file's part as on an empty index and leaves all others |
| `SymbolIndex.RestrictRemoved` | internal/symbol/symbol.go:81-102 | Removal empties that file's part and leaves all others |
| `VectorStore.Store.AddChunks` | internal/store/store.go:87-141 | Succeeds exactly for no chunks, or for as many non-empty vectors of one length that fits what is stored; then each chunk is held with its own vector, the last one given for its identifier, each path has its last hash, and all else is as before; otherwise nothing changes; all stored vectors keep one length |
| `VectorStore.StoresExactly` | internal/store/store.go:112-128 | Only one store holds exactly the batch and what was there of other identifiers and paths: the one that adding chunk by chunk gives |
| `VectorStore.Store.ValidateEmbeddings` | internal/store/store.go:144-158 | The common length exactly when there is one and it is positive |
| `VectorStore.Store.DeleteByPaths` | internal/store/store.go:166-184 | Removes exactly those paths' chunks and hashes |
| `VectorStore.Store.GetFileHash` | internal/store/store.go:268-272 | The stored hash or the empty string |
| `VectorStore.Store.Paths` | internal/store/store.go:286-294 | The paths with a stored hash, each once |
| `VectorStore.Store.Query` | internal/store/store.go:187-220 | Errs exactly when something of another length is stored; otherwise asks for at most as many results as there are chunks |
| `VectorStore.AddedVectors` | internal/store/store.go:87-141 | Adding vectors of the stored length keeps all of that length |
| `VectorStore.RestrictAddedAll` | internal/store/store.go:87-141 | Adding a batch from several files acts on each file's part as adding that file's chunks alone |
| `VectorStore.RestrictDeleted` | internal/store/store.go:166-184 | Deletion empties the parts of those paths and leaves all others |
| `Embedding.EmbedChunks` | internal/app/embed.go:30-103 | Succeeds exactly when every failing request lies beyond those needed, one for each batch of the positions without a cached vector; then position i holds the embedding of chunk i, as many are reported as positions had no cached vector, and all chunks are cached; whatever fails and in whatever order batches complete, the cache stays right, loses nothing and gains only chunks of the call |
| `Embedding.RunBatches` | internal/app/embed.go:59-100 | Batches complete in any order: each writes only right values, together they cover every miss once |
| `Embedding.RunBatch` | internal/app/embed.go:70-91 | One request writes the right vectors at its positions and into the cache |
| `Embedding.Lookup` | internal/app/embed.go:35-47 | Cached positions are filled and exactly the others are missing |
| `Embedding.CutBatches` | internal/app/embed.go:62-68 | The cut points of the batch loop |
| `Embedding.BoundsCover` | internal/app/embed.go:62-68 | The batches follow one another and cover every missing position, for every batch size |
| `Embedding.BoundsAt` | internal/app/embed.go:62-68 | Request b is made exactly if b full batches do not cover the misses, and asks for the next batch or the rest |
| `IndexState.StepKeepsCoherence` | internal/app/indexing.go:195-304 | Every step (a directory run stopped at any batch, every branch of reindexing a file, deletion by prefix, cleanup) keeps: a stored hash vouches that the store holds exactly the chunks of that content and, if the graph has the file, so do all four structures |
| `IndexState.RunsAreCoherent` | internal/app/indexing.go:64-165 | Over any run of such steps, with files changing arbitrarily in between, every state is coherent |
| `IndexState.IndexingRefinesScratch` | internal/app/indexing.go:195-304 | From a coherent state, skipping, backfilling or re-embedding a file ends where indexing it from nothing would |
| `IndexState.CompleteRunRefinesScratch` | internal/app/indexing.go:64-165 | A completed run leaves every listed file as indexed from nothing and every other file untouched |
| `IndexState.RetryConverges` | internal/app/indexing.go:40-62 | Any attempts that fail anywhere, followed by a successful one, end where one successful attempt would |
| `IndexState.StepIsDeterministic` | internal/app/indexing.go:195-304 | Two results of one step, for whatever goroutine completion orders, differ in list order at most |
| `IndexState.PartsDetermineWhole` | internal/app/indexing.go:195-304 | States that agree file by file agree as a whole, up to list order |
| `IndexState.DeletionIsComplete` | internal/app/rebuild.go:210-225 | Deletion by prefix and cleanup remove all traces of a selected file exactly when it has a stored hash or had none |
| `IndexState.VanishedFileLeavesEntries` | internal/app/indexing.go:339-349 | A file seen to vanish keeps its graph and simhash entries through later cleanups and deletions by prefix |
| `FileContents.ScratchHolds` | internal/app/indexing.go:195-304 | Indexing from nothing: the symbol index, the call graph and the simhash index hold exactly what the chunks describe, the store exactly the chunks, each with the embedding of its text, and the hash |
| `FileContents.EveryRunLeaves` | internal/app/indexing.go:64-304 | A directory run, stopped anywhere: the in-memory indexes hold exactly the chunks of every listed file, the store too if its batch was stored or its hash was up to date, and nothing of it otherwise; other files are untouched |
| `FileContents.ReindexLeaves` | internal/app/indexing.go:326-392 | By outcome of reindexing a file: held exactly but without a hash; in memory only; not at all; or gone from store and symbols, with graph and simhash entries kept; other files are untouched |
| `FileContents.DeletionLeaves` | internal/app/rebuild.go:210-238 | Files with a stored hash that are the root, continue it after a separator, or are missing lose everything; every other file keeps everything |
| `IndexHistory.HistoryTells` | internal/app/indexing.go:64-392 | In every state of every run the steps alone tell which files have a stored hash, and of what content, and which have entries in memory |
| `IndexHistory.RunHolds` | internal/app/indexing.go:64-392 | In every state of every run a file with a stored hash is held by all four structures exactly as the content that its history tells |
| `IndexHistory.StrandedExactly` | internal/app/indexing.go:326-392 | A file has traces that deletion by prefix, cleanup, rebuilding and removing a project pass by exactly when its history has entries and no stored content |
| `IndexHistory.LastTouchDecides` | internal/app/indexing.go:326-392 | The last step that touched a file decides: a run that failed before storing it, reindexing by the watcher, and vanishing with entries strand it, nothing else does |
| `IndexHistory.VanishedFileIsStranded` | internal/app/indexing.go:339-349 | For any file a run that indexes it, sees it vanish and cleans up, with its graph and simhash entries all still there |
| `IndexHistory.SomeToolsAreTrusted` | internal/chunker/chunker.go:260-263 | What is taken as given can be met by a chunker that yields nodes |
| `Identity.ChunkIdClashesExactly` | internal/chunker/chunker.go:260-263 | Chunks share an identifier exactly when they share path and text, or a newline inside one part can be read as the one between them |
| `Identity.StampRead` | internal/chunker/chunker.go:260-263 | On paths of which none continues another after a newline, path and text can be read off the identifier |
| `Identity.ChunkerIsTrusted` | internal/chunker/chunker.go:105-192 | A chunker that labels its chunks and digests path and text meets the hypothesis of the indexing results, if callable symbols contain no colon or no path continues another after a colon |
| `Formatting.UnderPathMeaning` | internal/app/rebuild.go:227-238 | A path is under a root if it is the root or continues it after a separator; under the empty root if it is not empty |
| `Indexing.Indexer.IndexDirectory` | internal/app/indexing.go:64-165 | Whatever fails: the result is that of a run stopped after some batch and coherent; on success every listed file is held exactly, as indexed from nothing, and all others are untouched; without failures and with vectors of one length it succeeds |
| `Indexing.Indexer.IndexDirectoryWithRetry` | internal/app/indexing.go:40-62 | Attempts end at the first success, a missing directory, cancellation, or after the third, and for no other reason; on success the last listing is held exactly, as indexed from nothing; files no attempt listed are untouched; with vectors of one length it succeeds whenever an attempt that is reached has no failure |
| `Indexing.Indexer.AttemptOnce` | internal/app/indexing.go:64-72 | One attempt with its walk: a failed walk changes nothing |
| `Indexing.Indexer.ChunkFilesParallel` | internal/app/indexing.go:195-304 | Before embedding: stale files are erased from the store and rebuilt in the indexes, files missing from the graph are backfilled, all others untouched; exactly the stale files are returned, chunked |
| `Indexing.Indexer.Classify` | internal/app/indexing.go:214-250 | Exactly the files whose stored hash differs are stale, exactly those with equal hash and missing from the graph are backfilled |
| `Indexing.Indexer.ChunkConcurrently` | internal/app/indexing.go:230-270 | In every completion order: each task's file is listed once with its chunks, and nothing else |
| `Indexing.Indexer.ReplaceAll` | internal/app/indexing.go:279-301 | The three indexes hold exactly the new chunks of every listed file |
| `Indexing.Indexer.StoreAll` | internal/app/indexing.go:121-153 | Batches of 100 files are stored until one fails; then the files of the batches before it are complete and no others, and that batch had a failing request; if none fails, no batch whose first request was to fail had a chunk neither cached before nor in an earlier batch |
| `Indexing.Indexer.EmbedAndStore` | internal/app/indexing.go:137-151 | All chunks of a batch are stored, or none |
| `Indexing.Indexer.ReindexFileUnder` | internal/app/indexing.go:326-392 | Every branch: a vanished, excluded or directory path loses store and symbol entries; an unreadable one everything; a read one is rebuilt without a hash, and left out of the store if embedding fails; coherence is kept |
| `Indexing.Indexer.DeleteTracked` | internal/app/rebuild.go:210-225 | Exactly the selected files with a stored hash lose all traces |
| `Indexing.Indexer.DeleteChunksByPrefix` | internal/app/rebuild.go:210-225 | Exactly the files with a stored hash under the prefix lose all traces; coherence is kept |
| `Indexing.Indexer.CleanupDeletedFiles` | internal/app/app_cleanup.go:9-21 | Exactly the files with a stored hash that no longer exist lose all traces; coherence is kept |
| `Indexing.EmbedInto` | internal/app/embed.go:30-103 | Embedding and storing a batch equals adding the chunks with the fixed embedding, or changes nothing |
| `Indexing.ChunkPhaseEffect` | internal/app/indexing.go:195-304 | The loops of the chunking phase together act on each file as one classification does |
| `Indexing.BatchEffect` | internal/app/indexing.go:121-153 | Storing one batch completes its files and touches no other |
| `Indexing.AllStored` | internal/app/indexing.go:121-153 | Once all changed files are stored, all listed files are complete |
| `Rebuild.IncrementalEqualsRebuild` | internal/app/indexing.go:64-165 | An incremental run and a rebuild from nothing over the same files agree up to list order exactly when nothing is held of other files |
| `Rebuild.SameTraces` | internal/app/graph_queries.go:53-106 | States that agree up to list order answer every trace alike |
| `Rebuild.RebuildOutcome` | internal/app/rebuild.go:14-45 | Deletion by prefix and a completed run: listed files are as indexed from nothing; another file under the prefix is gone exactly when it had a stored hash or no traces; all others are untouched |
| `JobQueue.Queue.Append` | internal/jobs/queue.go:64-74 | Appends one pending job with that id and work |
| `JobQueue.Queue.PickNext` | internal/jobs/queue.go:137-155 | The first pending job starts running, or there is none and nothing changes |
| `JobQueue.Queue.FinishJob` | internal/jobs/queue.go:159-171 | The job at the saved index ends as Done or Failed and without its work, then the list is pruned |
| `JobQueue.Queue.Prune` | internal/jobs/queue.go:180-199 | A finished job goes only when the list is full; active jobs stay, in order, and of the finished ones the earliest, as many as bring the list to the limit |
| `JobQueue.Queue.WaitOnce` | internal/jobs/queue.go:104-123 | One look of Wait: the first job of that id decides between true and waiting on; false if there is none |
| `JobQueue.Queue.RunningJobID` | internal/jobs/queue.go:91-100 | The id of a running job, empty if none runs |
| `JobRuns.StepKeepsInv` | internal/jobs/queue.go:64-176 | Every step of a submitter or the worker keeps: submitted work is started work followed by waiting work, and only the job at the worker's saved index runs |
| `JobRuns.QueueHistory` | internal/jobs/queue.go:64-199 | In every interleaving jobs start in submission order, each at most once, none lost, at most one at a time |
| `JobRuns.WaitingPruned` | internal/jobs/queue.go:180-199 | Pruning drops no waiting work and reorders none |
| `JobRuns.RetentionBound` | internal/jobs/queue.go:180-199 | After a completion all jobs are still listed, or exactly as many as the larger of the history limit and the number of active jobs: a finished job is dropped only from a full list |
| `WaitRuns.WaitOverRun` | internal/jobs/queue.go:104-199 | At any moment of any run, identifiers repeated or not: Wait answers true exactly when a job of that id has ended and is still listed with no active one of that id before it, and not found exactly when all that ended have been pruned away and no active one is listed |
| `WaitRuns.ListedWhileSpared` | internal/jobs/queue.go:180-199 | A job that has ended is listed exactly as long as, each time a job ended since, fewer than the history limit were active or finished and listed before it |
| `WaitRuns.PlaceHolds` | internal/jobs/queue.go:137-199 | As long as a job that has ended is listed, it is listed with its id and its outcome |
| `WaitRuns.ListedHasEnded` | internal/jobs/queue.go:137-199 | Every finished job listed is one that some step of the run ended, moved to where it is by the prunings since |
| `WaitRuns.WaitForEnded` | internal/jobs/queue.go:104-199 | For an ended job that alone bears its id in the list, Wait answers true while the job has been spared and false afterwards |
| `WaitRuns.FinishedJobCanBeMissed` | internal/jobs/queue.go:180-199 | A run with history limit one after which Wait reports the job that has just ended as not found |
| `WaitRuns.FinishedJobMissedLater` | internal/jobs/queue.go:180-199 | A run with history limit two in which Wait would find a job right after its end, and no longer after the end of another |
| `JobRuns.OnlyFailureStalls` | internal/jobs/queue.go:173-175 | A step leaves work waiting with no wake-up on its way exactly when a job fails in that situation |
| `JobRuns.StallIsReached` | internal/jobs/queue.go:64-206 | A run of seven steps from the start that ends stalled, for every history limit |
| `JobRuns.NoLostWakeup` | internal/jobs/queue.go:125-176 | In every interleaving without failures the idle worker has a token, or a submitter about to send one, while work waits |
| `JobRuns.StallEndsBySubmit` | internal/jobs/queue.go:201-206 | Out of a stall lead only the next submission, which will signal, and cancellation |
| `JobRuns.QueueDrains` | internal/jobs/queue.go:125-206 | Left alone, from any state of a run that is neither stalled nor stopped, only a bounded number of worker and signalling steps can follow, and when none is left every submitted job has been started and has ended |
| `JobRuns.QuietMeansDone` | internal/jobs/queue.go:125-206 | A queue neither stalled nor stopped in which nobody can go on has run all that was submitted |
| `Watcher.Watcher.HandleEvent` | internal/watcher/watcher.go:139-165 | Records a watched change and restarts the timer; ignores others and everything after cancellation |
| `Watcher.Watcher.Flush` | internal/watcher/watcher.go:167-181 | Takes all pending paths and forgets the timer |
| `Watcher.Watcher.Clear` | internal/watcher/watcher.go:92-98 | Stops the timer and drops what is pending |
| `Watcher.RunInvariant` | internal/watcher/watcher.go:44-181 | In every interleaving pending paths have a live timer or a flush on its way |
| `Watcher.PendingCanBeFlushed` | internal/watcher/watcher.go:167-181 | Whatever is pending can be flushed |
| `Watcher.NoEventLost` | internal/watcher/watcher.go:139-181 | In every interleaving of events, timers, flushes, Stop and Start a recorded path is pending, in the hands of a later flush, delivered by one, or discarded by a later Stop or Start |
| `Watcher.WatcherSettles` | internal/watcher/watcher.go:139-181 | Left alone, only a bounded number of timer, flush and delivery steps can follow a state of a run |
| `Watcher.SettledMeansDelivered` | internal/watcher/watcher.go:139-181 | When nothing is left to fire, flush or deliver, every recorded event was delivered after it was recorded or discarded by a later Stop or Start |
| `Watcher.DebouncedExactly` | internal/watcher/watcher.go:139-181 | At most one timer is live, the one an event would restart, exactly as long as no flush forgets a timer set between the firing of the old one and its locked section |
| `Watcher.TwoTimersLive` | internal/watcher/watcher.go:139-181 | A run of six steps after which two timers are live and the watcher can stop only one |
| `Watcher.DeliveredWasRecorded` | internal/watcher/watcher.go:139-181 | Every path delivered is one that an event recorded before |
| `Watcher.CancelledRecordsNothing` | internal/watcher/watcher.go:80-151 | From a cancellation until the next Start nothing is recorded and no timer is set |
| `Projects.UniqueProjectName` | internal/app/projects.go:171-185 | The name itself if no project bears it, otherwise the first free one among name-1, name-2, ..., found within as many tries as there are projects |
| `Projects.CandidatesFill` | internal/app/projects.go:171-185 | n different candidates in use need n used names |
| `Projects.CandidateInjective` | internal/app/projects.go:179-180 | Different suffixes give different names |
| `Projects.ProjectPath` | internal/app/app_status.go:97-108 | The path of a project of that name, an error exactly if there is none |
| `Projects.ProjectPathIsFirst` | internal/app/app_status.go:97-108 | The first project of a name decides its path |
| `Formatting.ItoaMeaning` | internal/app/projects.go:179-180 | Suffixes are written in decimal without leading zeros |
| `Projects.ProjectList.AddProject` | internal/app/projects.go:37-89 | Exactly when it succeeds, and then: an unused name, both lists extended alike, one row added that replaces none; otherwise nothing changes; lists stay aligned, distinct and equal to the table |
| `Projects.ProjectList.EditProject` | internal/app/projects.go:92-128 | Exactly when it succeeds, and then only that directory and its row change |
| `Projects.ProjectList.RemoveProject` | internal/app/projects.go:131-169 | Both lists lose that project once the cleanup succeeded; the table agrees with them exactly if the row deletion succeeds, too |
| `Projects.ProjectList.SaveProjectFile` | internal/config/projects.go:42-67 | An upsert by name that refuses the empty name |
| `Projects.RowRemoved` | internal/config/projects.go:71-77 | Without the row's deletion the table disagrees with the shorter list |

## Left out

- GraphLayout.LayoutCache.GraphLayout: node coordinates, which do not feed back into the selection, and the error their computation may return are not part of this model.
- VectorStore.Store.Query: how many results are asked for and the dimension check only; which chunks the collection returns is not part of this model.
- Projects.ProjectList.RemoveProject: the deletion of the project's chunks is `Indexing.Indexer.DeleteChunksByPrefix`; here it appears as succeeding or failing.
- Indexing.Indexer.ReindexFileUnder: a file outside its directory (an error of filepath.Rel) and a failing chunker are not modelled.
- Interruptions other than failing provider requests: `AddChunks` records hashes before the collection call, so coherence is proved for collection and SQL calls that succeed.
- Restart of the process: row deletions are immediate while additions wait for `Save`, so nothing is claimed across restarts; `resumeInterruptedJob` and its progress record are not modelled.
- Goroutine interleaving inside one chunking task or one embedding batch: tasks and batches are atomic and complete in any order.
- In-place list updates of the indexes are modelled by sequences that the methods reassign; `Compaction.CompactInPlace` shows, on one array, that compacting a slice into itself gives the same result.
- Decoding of runes: whether a symbol starts with an upper-case letter is a parameter.
- Parsing: tree-sitter grammars, markdown sections, `ShouldIndex` with its globs and ignore files, language detection.
- HTTP calls to embedding providers, retries within them, chromem and vector similarity.
- SQL as an engine: foreign keys, transactions and row order; tables are multisets or maps of rows.
- Persistence of the symbol and simhash indexes and of the vector store's hashes and dimension.
- Freshness of the layout and change caches: watcher reindexing and `RemoveProject` do not invalidate them.
- Loading the project list from the table at start, and the scheduling around edits (initial indexing, watcher restarts, tool reloads).
- Tokenisation of text, the FNV hash and floating-point rounding.
- `SearchFuzzy`, `EdgesByProject`, counters, snapshots and similar read-outs.
- Grouping of similar chunks by file in `App.FindSimilar`.
- MCP tools, web dashboard, transport, file lock, logging, configuration from the environment, progress bars and statistics.
