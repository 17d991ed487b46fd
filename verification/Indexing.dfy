/** Incremental indexing of a directory and of single files, and deletion, over
    the four structures (internal/app/indexing.go, internal/app/rebuild.go,
    internal/app/app_cleanup.go). */
module Indexing {
  import opened Common
  import opened Formatting
  import opened Chunks
  import opened IndexState
  import opened FileContents
  import V = VectorStore
  import G = CallGraph
  import S = SymbolIndex
  import H = SimhashIndex
  import E = Embedding

  const MAX_INDEX_RETRIES := 3
  const EMBED_BATCH_FILES := 100

  datatype FileInfo = FileInfo(path: string, content: string, hash: string)

  datatype FileChunks = FileChunks(file: FileInfo, chunks: seq<Chunk>)

  // ------------------------------------------------ whole-state operations

  function Unindexed(s: State, path: string): State {
    s.(symbols := S.Removed(s.symbols, path), graph := G.Removed(s.graph, path), simhash := H.Removed(s.simhash, path))
  }

  function Indexed(t: Tools, s: State, chunks: seq<Chunk>): State {
    s.(symbols := S.AddedAll(t.lower, s.symbols, chunks), graph := G.AddedAll(s.graph, chunks),
       simhash := s.simhash + H.EntriesOf(chunks))
  }

  function Unstored(s: State, paths: set<string>): State {
    s.(store := V.Deleted(s.store, paths))
  }

  function Stored(t: Tools, s: State, chunks: seq<Chunk>): State {
    s.(store := V.AddedAll(t.embed, s.store, chunks))
  }

  /** The three in-memory indexes of one file built from `chunks`. */
  function Parts(t: Tools, store: V.StoreState, chunks: seq<Chunk>): State {
    State(store, S.AddedAll(t.lower, map[], chunks), G.AddedAll(G.EMPTY, chunks), H.EntriesOf(chunks))
  }

  ghost predicate ChunksFrom(t: Tools, path: string, chunks: seq<Chunk>) {
    forall c :: c in chunks ==> c.path == path && Identified(t, c)
  }

  lemma ChunkFileFrom(t: Tools, path: string, content: string, hash: string)
    requires Trusted(t) && t.tracked(path)
    ensures ChunksFrom(t, path, t.chunkFile(path, content, hash))
  {
  }

  lemma RestrictUnindexed(t: Tools, s: State, path: string, q: string)
    requires Sound(t, s)
    ensures Sound(t, Unindexed(s, path))
    ensures Restrict(Unindexed(s, path), q)
      == if q == path then State(Restrict(s, q).store, map[], G.EMPTY, []) else Restrict(s, q)
  {
    G.RemovedIsStrict(t.keyOwner, s.graph, path);
    G.RestrictRemoved(s.graph, path, q);
    S.RestrictRemoved(s.symbols, path, q);
    H.RestrictRemoved(s.simhash, path, q);
  }

  lemma RestrictIndexed(t: Tools, s: State, path: string, chunks: seq<Chunk>, q: string)
    requires Sound(t, s) && ChunksFrom(t, path, chunks)
    ensures Sound(t, Indexed(t, s, chunks))
    ensures Restrict(Indexed(t, s, chunks), q) == if q == path then Indexed(t, Restrict(s, q), chunks) else Restrict(s, q)
  {
    G.RestrictAddedAll(t.keyOwner, s.graph, chunks, path, q);
    S.RestrictAddedAll(t.lower, s.symbols, chunks, path, q);
    H.RestrictAdded(s.simhash, chunks, path, q);
  }

  /** Removing a file from the three indexes and adding its chunks again. */
  lemma RestrictReindexed(t: Tools, s: State, path: string, chunks: seq<Chunk>, q: string)
    requires Sound(t, s) && ChunksFrom(t, path, chunks)
    ensures Sound(t, Indexed(t, Unindexed(s, path), chunks))
    ensures Restrict(Indexed(t, Unindexed(s, path), chunks), q)
      == if q == path then Parts(t, Restrict(s, q).store, chunks) else Restrict(s, q)
  {
    RestrictUnindexed(t, s, path, q);
    RestrictIndexed(t, Unindexed(s, path), path, chunks, q);
    assert [] + H.EntriesOf(chunks) == H.EntriesOf(chunks);
  }

  lemma RestrictUnstored(t: Tools, s: State, paths: set<string>, q: string)
    requires Sound(t, s)
    ensures Sound(t, Unstored(s, paths))
    ensures Restrict(Unstored(s, paths), q)
      == if q in paths then Restrict(s, q).(store := V.EMPTY) else Restrict(s, q)
  {
    V.RestrictDeleted(s.store, paths, q);
  }

  ghost predicate OwnedChunks(t: Tools, chunks: seq<Chunk>) {
    forall c :: c in chunks ==> t.owner(c.id) == c.path && t.textOf(c.id) == c.content
  }

  lemma RestrictStored(t: Tools, s: State, chunks: seq<Chunk>, q: string)
    requires Sound(t, s) && OwnedChunks(t, chunks)
    ensures Sound(t, Stored(t, s, chunks))
    ensures Restrict(Stored(t, s, chunks), q) == Stored(t, Restrict(s, q), Filter(V.InFile(q), chunks))
  {
    V.RestrictAddedAll(t.owner, t.embed, s.store, chunks, q);
  }

  // ------------------------------------------------------------ file lists

  /** A walk's result: tracked paths, each once, with the digests of their contents. */
  ghost predicate Listing(t: Tools, files: seq<FileInfo>) {
    && (forall i :: 0 <= i < |files| ==> t.tracked(files[i].path) && files[i].hash == t.hash(files[i].content))
    && (forall i, j :: 0 <= i < j < |files| ==> files[i].path != files[j].path)
  }

  ghost function Listed(files: seq<FileInfo>): map<string, string> {
    if files == [] then map[]
    else
      var f := files[|files| - 1];
      Listed(files[..|files| - 1])[f.path := f.content]
  }

  lemma {:induction false} ListedMembers(t: Tools, files: seq<FileInfo>)
    requires Listing(t, files)
    ensures forall f :: f in files ==> f.path in Listed(files) && Listed(files)[f.path] == f.content
    ensures forall p :: p in Listed(files) ==> FileInfo(p, Listed(files)[p], t.hash(Listed(files)[p])) in files
  {
    if files != [] {
      var n := |files| - 1;
      ListedMembers(t, files[..n]);
      assert files == files[..n] + [files[n]];
      assert forall f :: f in files[..n] ==> f.path != files[n].path;
    }
  }

  ghost function ChunksByPath(list: seq<FileChunks>): map<string, seq<Chunk>> {
    if list == [] then map[]
    else
      var fc := list[|list| - 1];
      ChunksByPath(list[..|list| - 1])[fc.file.path := fc.chunks]
  }

  function AllChunks(list: seq<FileChunks>): seq<Chunk> {
    if list == [] then [] else AllChunks(list[..|list| - 1]) + list[|list| - 1].chunks
  }

  ghost predicate Lists(list: seq<FileChunks>, f: FileInfo) {
    exists i :: 0 <= i < |list| && list[i].file == f
  }

  lemma ListsSnoc(list: seq<FileChunks>, fc: FileChunks)
    ensures forall f :: Lists(list + [fc], f) <==> Lists(list, f) || f == fc.file
  {
    var longer := list + [fc];
    assert longer[|list|] == fc;
    forall f | Lists(list, f)
      ensures Lists(longer, f)
    {
      var i :| 0 <= i < |list| && list[i].file == f;
      assert longer[i].file == f;
    }
  }

  ghost predicate Chunked(t: Tools, list: seq<FileChunks>) {
    && (forall i :: 0 <= i < |list| ==>
          t.tracked(list[i].file.path) && list[i].chunks == t.chunkFile(list[i].file.path, list[i].file.content, list[i].file.hash))
    && (forall i, j :: 0 <= i < j < |list| ==> list[i].file.path != list[j].file.path)
  }

  /** The list holds the files of `done`, each once and chunked. */
  ghost predicate ChunkedFrom(t: Tools, list: seq<FileChunks>, done: set<FileInfo>) {
    && Chunked(t, list)
    && (forall i :: 0 <= i < |list| ==> list[i].file in done)
    && (forall f :: f in done ==> Lists(list, f))
  }

  lemma NoneChunked(t: Tools)
    ensures ChunkedFrom(t, [], {})
  {
  }

  lemma ChunkOneMore(t: Tools, list: seq<FileChunks>, done: set<FileInfo>, f: FileInfo)
    requires Trusted(t) && ChunkedFrom(t, list, done) && t.tracked(f.path)
    requires forall g :: g in done ==> g.path != f.path
    ensures var chunks := t.chunkFile(f.path, f.content, f.hash);
      chunks != [] && ChunkedFrom(t, list + [FileChunks(f, chunks)], done + {f})
  {
    ListsSnoc(list, FileChunks(f, t.chunkFile(f.path, f.content, f.hash)));
  }

  lemma {:induction false} ChunksByPathMembers(list: seq<FileChunks>)
    requires forall i, j :: 0 <= i < j < |list| ==> list[i].file.path != list[j].file.path
    ensures forall i :: 0 <= i < |list| ==> list[i].file.path in ChunksByPath(list) && ChunksByPath(list)[list[i].file.path] == list[i].chunks
    ensures forall p :: p in ChunksByPath(list) ==> exists i :: 0 <= i < |list| && list[i].file.path == p
  {
    if list != [] {
      ChunksByPathMembers(list[..|list| - 1]);
    }
  }

  lemma OneFile(t: Tools, path: string, chunks: seq<Chunk>, q: string)
    requires ChunksFrom(t, path, chunks)
    ensures OwnedChunks(t, chunks)
    ensures Filter(V.InFile(q), chunks) == if q == path then chunks else []
  {
    if q == path {
      FilterAll(V.InFile(q), chunks);
    } else {
      FilterNone(V.InFile(q), chunks);
    }
  }

  /** The chunks of one file within the concatenated batch. */
  lemma {:induction false} BatchChunks(t: Tools, list: seq<FileChunks>, q: string)
    requires Trusted(t) && Chunked(t, list)
    ensures OwnedChunks(t, AllChunks(list))
    ensures Filter(V.InFile(q), AllChunks(list)) == if q in ChunksByPath(list) then ChunksByPath(list)[q] else []
  {
    if list != [] {
      var n := |list| - 1;
      var fc := list[n];
      BatchChunks(t, list[..n], q);
      ChunkFileFrom(t, fc.file.path, fc.file.content, fc.file.hash);
      OneFile(t, fc.file.path, fc.chunks, q);
      FilterConcat(V.InFile(q), AllChunks(list[..n]), fc.chunks);
      LastIsNew(list);
    }
  }

  lemma LastIsNew(list: seq<FileChunks>)
    requires list != [] && forall i, j :: 0 <= i < j < |list| ==> list[i].file.path != list[j].file.path
    ensures list[|list| - 1].file.path !in ChunksByPath(list[..|list| - 1])
  {
    ChunksByPathMembers(list[..|list| - 1]);
  }

  /** The requests of batch b that fail: none beyond the end of the list. */
  function FailingIn(failing: seq<set<nat>>, b: nat): set<nat> {
    if b < |failing| then failing[b] else {}
  }

  predicate NoneFails(failing: seq<set<nat>>) {
    forall b :: 0 <= b < |failing| ==> failing[b] == {}
  }

  /** A file after a completed run: as if indexed from scratch if listed. */
  ghost function FromScratch(t: Tools, listed: map<string, string>, r: State, q: string): State {
    if q in listed then ScratchFile(t, q, listed[q]) else r
  }

  /** embedChunks followed by AddChunks. */
  method EmbedInto(t: Tools, st: V.Store, cache: E.EmbeddingCache, batchSize: int, chunks: seq<Chunk>, failing: set<nat>,
                   ghost width: nat)
    returns (ok: bool)
    requires st.Valid() && E.Coherent(t.embed, t.textOf, cache.entries) && OwnedChunks(t, chunks)
    modifies st, cache
    ensures st.Valid() && E.Coherent(t.embed, t.textOf, cache.entries)
    ensures st.View() == if ok then V.AddedAll(t.embed, old(st.View()), chunks) else old(st.View())
    ensures E.GrowsBy(chunks, old(cache.entries), cache.entries)
    ensures ok && 0 in failing ==> AllCached(chunks, old(cache.entries))
    ensures old(FitsWidth(t, st, width)) ==> FitsWidth(t, st, width) && (failing == {} ==> ok)
  {
    var vectors, _ := E.EmbedChunks(t.embed, batchSize, failing, chunks, cache, t.textOf);
    if vectors.Err? {
      return false;
    }
    V.AddedEmbedded(t.embed, st.View(), chunks, vectors.value);
    ok := st.AddChunks(chunks, vectors.value);
  }

  /** If the first request of batch b fails, nothing in the batch needs it: every
      chunk was in the cache before or is in an earlier batch. */
  ghost predicate Excused(failing: seq<set<nat>>, changed: seq<FileChunks>, b: nat, entries: map<string, V.Vec>) {
    0 in FailingAt(failing, b) && 100 * b < |changed| ==>
      var batch := AllChunks(changed[100 * b..Min(100 * b + 100, |changed|)]);
      forall i :: 0 <= i < |batch| ==> batch[i].id in entries || V.HasId(AllChunks(changed[..100 * b]), batch[i].id)
  }

  /** The failing requests of batch b, as given. */
  ghost function FailingAt(failing: seq<set<nat>>, b: nat): set<nat> {
    set r | b < |failing| && r in failing[b]
  }

  lemma AllChunksSnoc(list: seq<FileChunks>, fc: FileChunks)
    ensures AllChunks(list + [fc]) == AllChunks(list) + fc.chunks
  {
    assert (list + [fc])[..|list|] == list;
  }

  lemma {:induction false} AllChunksConcat(a: seq<FileChunks>, b: seq<FileChunks>)
    ensures AllChunks(a + b) == AllChunks(a) + AllChunks(b)
  {
    if b == [] {
      assert a + b == a;
    } else {
      var front, last := b[..|b| - 1], b[|b| - 1];
      assert a + b == (a + front) + [last] && b == front + [last];
      AllChunksSnoc(a + front, last);
      AllChunksSnoc(front, last);
      AllChunksConcat(a, front);
    }
  }

  /** What the first `n` batches, up to file i, have done to the cache. */
  ghost predicate SentSoFar(failing: seq<set<nat>>, changed: seq<FileChunks>, n: nat, i: nat,
                            before: map<string, V.Vec>, after: map<string, V.Vec>) {
    && i <= |changed| && E.GrowsBy(AllChunks(changed[..i]), before, after)
    && forall b: nat :: b < n ==> Excused(failing, changed, b, before)
  }

  lemma NothingToSend(chunks: seq<Chunk>, entries: map<string, V.Vec>)
    requires chunks == []
    ensures E.GrowsBy(chunks, entries, entries) && AllCached(chunks, entries)
  {
  }

  lemma BatchSent(failing: seq<set<nat>>, changed: seq<FileChunks>, b: nat, i: nat, end: nat,
                  e0: map<string, V.Vec>, e1: map<string, V.Vec>, e2: map<string, V.Vec>)
    requires i == 100 * b < |changed| && end == Min(i + 100, |changed|)
    requires SentSoFar(failing, changed, b, i, e0, e1) && E.GrowsBy(AllChunks(changed[i..end]), e1, e2)
    requires 0 in FailingIn(failing, b) ==> AllCached(AllChunks(changed[i..end]), e1)
    ensures SentSoFar(failing, changed, b + 1, end, e0, e2)
  {
    var front, batch := AllChunks(changed[..i]), AllChunks(changed[i..end]);
    assert changed[..end] == changed[..i] + changed[i..end];
    AllChunksConcat(changed[..i], changed[i..end]);
    forall id
      ensures V.HasId(front + batch, id) <==> V.HasId(front, id) || V.HasId(batch, id)
    {
      HasIdConcat(front, batch, id);
    }
    assert Excused(failing, changed, b, e0);
  }

  lemma HasIdConcat(a: seq<Chunk>, b: seq<Chunk>, id: string)
    ensures V.HasId(a + b, id) <==> V.HasId(a, id) || V.HasId(b, id)
  {
    var all := a + b;
    assert forall i :: 0 <= i < |a| ==> all[i] == a[i];
    assert forall i :: 0 <= i < |b| ==> all[|a| + i] == b[i];
    assert forall i :: |a| <= i < |all| ==> all[i] == b[i - |a|];
  }

  predicate AllCached(chunks: seq<Chunk>, entries: map<string, V.Vec>) {
    forall i :: 0 <= i < |chunks| ==> chunks[i].id in entries
  }

  /** The provider's vectors have `width` entries, and so have those stored. */
  ghost predicate FitsWidth(t: Tools, st: V.Store, width: nat)
    reads st
  {
    width > 0 && VectorsOf(t, width) && (st.docs == map[] || st.dim == width)
  }

  ghost predicate VectorsOf(t: Tools, width: nat) {
    forall text :: |t.embed(text)| == width
  }

  // ------------------------------------------------------------- the class

  class Indexer {
    const t: Tools
    const batchSize: int
    const st: V.Store
    const sym: S.Index
    const cg: G.Graph
    const si: H.Index
    const cache: E.EmbeddingCache

    constructor (t: Tools, batchSize: int)
      requires Trusted(t)
      ensures Valid() && View() == EMPTY
      ensures fresh(st) && fresh(sym) && fresh(cg) && fresh(si) && fresh(cache)
    {
      this.t := t;
      this.batchSize := batchSize;
      st := new V.Store();
      sym := new S.Index(t.lower);
      cg := new G.Graph();
      si := new H.Index();
      cache := new E.EmbeddingCache();
      new;
      EmptyIsCoherent(t);
    }

    ghost function View(): State
      reads st, sym, cg, si
    {
      State(st.View(), sym.data, cg.View(), si.entries)
    }

    /** What holds even in the middle of a step. */
    ghost predicate Ready()
      reads st, sym, cg, si, cache
    {
      && Trusted(t)
      && sym.lower == t.lower
      && st.Valid()
      && Sound(t, View())
      && E.Coherent(t.embed, t.textOf, cache.entries)
    }

    ghost predicate Valid()
      reads st, sym, cg, si, cache
    {
      Ready() && Coherent(t, View())
    }

    method RemoveFromIndexes(path: string)
      requires Ready()
      modifies sym, cg, si
      ensures Ready() && View() == Unindexed(old(View()), path)
    {
      RestrictUnindexed(t, View(), path, path);
      sym.RemoveByPath(path);
      cg.RemoveByPath(path);
      si.RemoveByPath(path);
    }

    method AddToIndexes(path: string, chunks: seq<Chunk>)
      requires Ready() && ChunksFrom(t, path, chunks)
      modifies sym, cg, si
      ensures Ready() && View() == Indexed(t, old(View()), chunks)
    {
      RestrictIndexed(t, View(), path, chunks, path);
      sym.AddChunks(chunks);
      for i := 0 to |chunks|
        invariant cg.View() == G.AddedAll(old(cg.View()), chunks[..i])
        invariant sym.data == S.AddedAll(t.lower, old(sym.data), chunks) && si.entries == old(si.entries)
      {
        assert chunks[..i + 1][..i] == chunks[..i];
        cg.AddChunk(chunks[i]);
      }
      assert chunks[..|chunks|] == chunks;
      si.AddChunks(chunks);
    }

    /** Rebuilds the three indexes of every file of the list. */
    method ReplaceAll(list: seq<FileChunks>)
      requires Ready() && Chunked(t, list)
      modifies sym, cg, si
      ensures Ready()
      ensures forall q :: Restrict(View(), q) == Replaced(t, ChunksByPath(list), Restrict(old(View()), q), q)
    {
      for i := 0 to |list|
        invariant Ready()
        invariant forall q :: Restrict(View(), q) == Replaced(t, ChunksByPath(list[..i]), Restrict(old(View()), q), q)
      {
        var fc := list[i];
        ghost var before := View();
        ChunkFileFrom(t, fc.file.path, fc.file.content, fc.file.hash);
        RemoveFromIndexes(fc.file.path);
        AddToIndexes(fc.file.path, fc.chunks);
        forall q
          ensures Restrict(View(), q) == Replaced(t, ChunksByPath(list[..i + 1]), Restrict(old(View()), q), q)
        {
          RestrictReindexed(t, before, fc.file.path, fc.chunks, q);
          assert list[..i + 1][..i] == list[..i];
        }
      }
      assert list[..|list|] == list;
    }

    /** Sorts the listing into files to index and files whose graph entries are
        to be filled in; the rest are up to date. */
    method Classify(files: seq<FileInfo>) returns (stale: set<FileInfo>, graphOnly: set<FileInfo>)
      ensures forall f :: f in stale <==> f in files && V.HashAt(st.View(), f.path) != f.hash
      ensures forall f :: f in graphOnly <==> f in files && V.HashAt(st.View(), f.path) == f.hash && f.path !in cg.files
    {
      stale, graphOnly := {}, {};
      for i := 0 to |files|
        invariant forall f :: f in stale <==> f in files[..i] && V.HashAt(st.View(), f.path) != f.hash
        invariant forall f :: f in graphOnly <==>
          f in files[..i] && V.HashAt(st.View(), f.path) == f.hash && f.path !in cg.files
      {
        assert files[..i + 1] == files[..i] + [files[i]];
        var storedHash := st.GetFileHash(files[i].path);
        if storedHash == files[i].hash {
          var known := cg.HasFile(files[i].path);
          if known {
            continue;
          }
          graphOnly := graphOnly + {files[i]};
        } else {
          stale := stale + {files[i]};
        }
      }
      assert files[..|files|] == files;
    }

    /** The workers: files are chunked concurrently and finish in any order. */
    method ChunkConcurrently(tasks: set<FileInfo>) returns (list: seq<FileChunks>)
      requires Trusted(t)
      requires forall f :: f in tasks ==> t.tracked(f.path)
      requires forall f, g :: f in tasks && g in tasks && f.path == g.path ==> f == g
      ensures Chunked(t, list)
      ensures forall i :: 0 <= i < |list| ==> list[i].file in tasks
      ensures forall f :: f in tasks ==> Lists(list, f)
    {
      hide Chunked, Lists;
      list := [];
      NoneChunked(t);
      var running := tasks;
      while running != {}
        invariant running <= tasks
        invariant ChunkedFrom(t, list, tasks - running)
        decreases running
      {
        var f :| f in running;
        assert tasks - (running - {f}) == (tasks - running) + {f};
        ChunkOneMore(t, list, tasks - running, f);
        running := running - {f};
        var chunks := t.chunkFile(f.path, f.content, f.hash);
        if |chunks| > 0 {
          list := list + [FileChunks(f, chunks)];
        }
      }
      assert tasks - running == tasks;
    }

    /** chunkFilesParallel: everything a directory run does before embedding. */
    method ChunkFilesParallel(files: seq<FileInfo>) returns (changed: seq<FileChunks>)
      requires Valid() && Listing(t, files)
      modifies st, sym, cg, si
      ensures Ready() && Chunked(t, changed) && st.dim == old(st.dim)
      ensures old(st.docs) == map[] ==> st.docs == map[]
      ensures ChangedFiles(t, old(View()), files, changed)
      ensures Takes(t, IndexListed(Listed(files), {}), old(View()), View())
    {
      ghost var s0 := View();
      var stale, graphOnly := Classify(files);
      assert forall f, g :: f in files && g in files && f.path == g.path ==> f == g;
      changed := ChunkConcurrently(stale);
      var backfill := ChunkConcurrently(graphOnly);
      var paths := PathsOf(changed);
      st.DeleteByPaths(paths);
      ghost var s1 := View();
      assert s1 == Unstored(s0, Elements(paths));
      RestrictUnstored(t, s0, Elements(paths), "");
      ReplaceAll(changed);
      ReplaceAll(backfill);
      forall q
        ensures Restrict(View(), q) == FileEffect(t, IndexListed(Listed(files), {}), Restrict(s0, q), q)
      {
        RestrictUnstored(t, s0, Elements(paths), q);
        ChunkPhaseEffect(t, s0, files, stale, graphOnly, changed, backfill, paths, q);
      }
    }

    ghost predicate Fits(width: nat)
      reads st
    {
      FitsWidth(t, st, width)
    }

    /** Embeds the chunks and stores them: everything or nothing. */
    method EmbedAndStore(chunks: seq<Chunk>, failing: set<nat>, ghost width: nat) returns (ok: bool)
      requires Ready() && OwnedChunks(t, chunks)
      modifies st, cache
      ensures Ready()
      ensures View() == if ok then Stored(t, old(View()), chunks) else old(View())
      ensures E.GrowsBy(chunks, old(cache.entries), cache.entries)
      ensures ok && 0 in failing ==> AllCached(chunks, old(cache.entries))
      ensures old(Fits(width)) ==> Fits(width) && (failing == {} ==> ok)
    {
      RestrictStored(t, View(), chunks, "");
      ok := EmbedInto(t, st, cache, batchSize, chunks, failing, width);
    }

    static method Concatenate(batch: seq<FileChunks>) returns (batchChunks: seq<Chunk>)
      ensures batchChunks == AllChunks(batch)
    {
      batchChunks := [];
      for i := 0 to |batch|
        invariant batchChunks == AllChunks(batch[..i])
      {
        assert batch[..i + 1][..i] == batch[..i];
        batchChunks := batchChunks + batch[i].chunks;
      }
      assert batch[..|batch|] == batch;
    }

    /** One batch of the loop below: its chunks are embedded and stored, if any. */
    method StoreBatch(batch: seq<FileChunks>, failing: set<nat>, ghost width: nat) returns (ok: bool)
      requires Ready() && Chunked(t, batch)
      modifies st, cache
      ensures Ready()
      ensures View() == if ok then Stored(t, old(View()), AllChunks(batch)) else old(View())
      ensures !ok ==> failing != {} || !old(Fits(width))
      ensures E.GrowsBy(AllChunks(batch), old(cache.entries), cache.entries)
      ensures ok && 0 in failing ==> AllCached(AllChunks(batch), old(cache.entries))
      ensures old(Fits(width)) ==> Fits(width)
    {
      hide E.GrowsBy, AllCached, Trusted, Coherent;
      var batchChunks := Concatenate(batch);
      BatchChunks(t, batch, "");
      ok := true;
      if |batchChunks| > 0 {
        ok := EmbedAndStore(batchChunks, failing, width);
      } else {
        NothingStored(t, View());
        NothingToSend(batchChunks, cache.entries);
      }
    }

    /** Stores the changed files batch by batch until one fails. */
    method StoreAll(changed: seq<FileChunks>, failing: seq<set<nat>>, ghost files: seq<FileInfo>, ghost s0: State, ghost width: nat)
      returns (ok: bool, ghost stored: set<string>, ghost batchNo: nat)
      requires Ready() && Listing(t, files) && Chunked(t, changed) && ChangedFiles(t, s0, files, changed)
      requires Takes(t, IndexListed(Listed(files), {}), s0, View())
      modifies st, cache
      ensures Ready()
      ensures Takes(t, IndexListed(Listed(files), stored), s0, View())
      ensures ok ==> stored == PathSet(changed)
      ensures ok ==> forall b: nat :: 100 * b < |changed| ==> Excused(failing, changed, b, old(cache.entries))
      ensures !ok ==>
        && 100 * batchNo < |changed| && stored == PathSet(changed[..100 * batchNo])
        && (old(Fits(width)) ==> FailingIn(failing, batchNo) != {})
      ensures old(Fits(width)) ==> Fits(width) && (NoneFails(failing) ==> ok)
    {
      hide StoredSoFar, Excused, E.GrowsBy, Trusted, Chunked, Listing, ChangedFiles, Takes, PathSet;
      StoringStarts(t, s0, View(), files, changed, failing, cache.entries);
      stored := {};
      var i := 0;
      batchNo := 0;
      var n := 0;
      while i < |changed|
        invariant 0 <= i <= |changed| && batchNo == n
        invariant Ready() && StoredSoFar(t, s0, View(), files, changed, stored, failing, n, i, old(cache.entries), cache.entries)
        invariant old(Fits(width)) ==> Fits(width)
      {
        var end := i + EMBED_BATCH_FILES;
        if end > |changed| {
          end := |changed|;
        }
        var batch := changed[i..end];
        ghost var before, entries := View(), cache.entries;
        BatchIsNext(t, s0, View(), files, changed, stored, failing, n, i, end, old(cache.entries), cache.entries);
        ok := StoreBatch(batch, FailingIn(failing, n), width);
        if !ok {
          StoredUpTo(t, s0, View(), files, changed, stored, failing, n, i, old(cache.entries), entries);
          return;
        }
        BatchStored(t, s0, before, files, changed, stored, failing, n, i, end, old(cache.entries), entries, cache.entries);
        stored := stored + PathSet(batch);
        i := end;
        n := n + 1;
        batchNo := n;
      }
      ok := true;
      StoredUpTo(t, s0, View(), files, changed, stored, failing, n, i, old(cache.entries), cache.entries);
    }

    /** One attempt at a directory. `failing` lists the provider requests of
        batch b that fail; `stored` are the files whose batch was stored. */
    method IndexDirectory(files: seq<FileInfo>, failing: seq<set<nat>>, ghost width: nat)
      returns (ok: bool, ghost stored: set<string>)
      requires Valid() && Listing(t, files)
      modifies st, sym, cg, si, cache
      ensures Valid()
      ensures Takes(t, IndexListed(Listed(files), stored), old(View()), View())
      ensures ok ==> stored == Listed(files).Keys
      ensures ok ==> forall q :: Restrict(View(), q) == FromScratch(t, Listed(files), Restrict(old(View()), q), q)
      ensures ok ==> AllHeld(t, Listed(files), View())
      ensures old(Fits(width)) ==> Fits(width) && (NoneFails(failing) ==> ok)
    {
      hide AllHeld;
      ghost var s0 := View();
      ghost var listed := Listed(files);
      var changed := ChunkFilesParallel(files);
      ghost var batchNo;
      ok, stored, batchNo := StoreAll(changed, failing, files, s0, width);
      if !ok {
        StepKeepsCoherence(t, IndexListed(listed, stored), s0, View());
        return;
      }
      forall q
        ensures Restrict(View(), q) == FileEffect(t, IndexListed(listed, listed.Keys), Restrict(s0, q), q)
      {
        AllStored(t, s0, files, changed, q);
      }
      stored := listed.Keys;
      Completed(t, s0, View(), listed);
    }

    /** One attempt including its walk, which may find the directory missing. */
    method AttemptOnce(a: Attempt, ghost width: nat) returns (ok: bool)
      requires Valid() && Walkable(t, a)
      modifies st, sym, cg, si, cache
      ensures Valid()
      ensures ok ==> ListedRefined(t, a, View()) && AllHeld(t, Listed(a.walk.files), View())
      ensures OthersKept([a], old(View()), View())
      ensures old(Fits(width)) ==> Fits(width) && (Clean(a) ==> ok)
    {
      if !a.walk.Walked? {
        return false;
      }
      ghost var s0 := View();
      ghost var stored;
      ok, stored := IndexDirectory(a.walk.files, a.failing, width);
      forall q | Unlisted([a], q)
        ensures Restrict(View(), q) == Restrict(s0, q)
      {
        assert !ListedIn([a][0], q);
        assert Restrict(View(), q) == FileEffect(t, IndexListed(Listed(a.walk.files), stored), Restrict(s0, q), q);
      }
    }

    /** Attempt number k of a run of attempts that began in `s0`. */
    method AttemptNext(attempts: seq<Attempt>, k: nat, ghost s0: State, ghost fit: bool, ghost width: nat) returns (ok: bool)
      requires Valid() && k < |attempts| && Walkable(t, attempts[k])
      requires OthersKept(attempts[..k], s0, View())
      requires fit ==> Fits(width) && NoneClean(attempts[..k])
      modifies st, sym, cg, si, cache
      ensures Valid()
      ensures AfterAttempts(t, attempts[..k + 1], ok, fit, s0, View())
      ensures OthersKept(attempts[..k + 1], s0, View()) && (fit && !ok ==> NoneClean(attempts[..k + 1]))
      ensures ok ==> attempts[k].walk.Walked? && AllHeld(t, Listed(attempts[k].walk.files), View())
      ensures fit ==> Fits(width)
    {
      ghost var before := View();
      ok := AttemptOnce(attempts[k], width);
      OthersStillKept(attempts, k, s0, before, View());
      assert attempts[..k + 1] == attempts[..k] + [attempts[k]];
    }

    /** Up to three attempts; each walks the directory anew. On success every
        file of the last listing is as if indexed from scratch, and files that no
        attempt listed are untouched. */
    method IndexDirectoryWithRetry(attempts: seq<Attempt>, ghost width: nat) returns (ok: bool, last: nat)
      requires Valid() && |attempts| == 3
      requires forall k :: 0 <= k < |attempts| ==> Walkable(t, attempts[k])
      modifies st, sym, cg, si, cache
      ensures Valid() && last < 3
      ensures AfterAttempts(t, attempts[..last + 1], ok, old(Fits(width)), old(View()), View())
      ensures ok ==> attempts[last].walk.Walked? && AllHeld(t, Listed(attempts[last].walk.files), View())
      ensures !ok ==> last == 2 || attempts[last].walk.Missing? || attempts[last].cancelled
      ensures forall k :: 0 <= k < last ==> !attempts[k].walk.Missing? && !attempts[k].cancelled
      ensures old(Fits(width)) ==>
        && NoneClean(attempts[..last])
        && ((exists k: nat :: Reaches(attempts, k) && Clean(attempts[k])) ==> ok)
    {
      hide Trusted, Coherent, OthersKept, ListedRefined, Sound;
      ghost var s0 := View();
      NothingTouched(s0);
      ghost var fit := Fits(width);
      last := 0;
      assert attempts[..last] == [];
      while true
        invariant last < MAX_INDEX_RETRIES
        invariant Valid() && (fit ==> Fits(width))
        invariant OthersKept(attempts[..last], s0, View())
        invariant fit ==> NoneClean(attempts[..last])
        invariant forall k :: 0 <= k < last ==> !attempts[k].walk.Missing? && !attempts[k].cancelled
        decreases MAX_INDEX_RETRIES - last
      {
        ok := AttemptNext(attempts, last, s0, fit, width);
        if ok || GivesUp(attempts, last) {
          if fit && !ok { NoneReached(attempts, last); }
          return;
        }
        last := last + 1;
      }
    }

    /** Reindexes one file. The stored hash is not set, so the next directory
        run indexes the file again. */
    method ReindexFileUnder(path: string, disk: FileOnDisk, failing: set<nat>, ghost width: nat) returns (ok: bool, ghost outcome: Outcome)
      requires Valid() && (disk.Readable? ==> t.tracked(path))
      modifies st, sym, cg, si, cache
      ensures Valid()
      ensures Takes(t, ReindexFile(path, outcome), old(View()), View())
      ensures outcome == OutcomeOf(disk, ok)
      ensures disk.Absent? || disk.Excluded? ==> ok
      ensures disk.Unreadable? ==> !ok
      ensures old(Fits(width)) && disk.Readable? && failing == {} ==> ok
    {
      ghost var s0 := View();
      if disk.Absent? || disk.Excluded? {
        outcome := Gone;
        Forget(path);
        StepKeepsCoherence(t, ReindexFile(path, outcome), s0, View());
        return true, outcome;
      }
      Erase(path);
      if disk.Unreadable? {
        outcome := ReadFailed;
        StepKeepsCoherence(t, ReindexFile(path, outcome), s0, View());
        return false, outcome;
      }
      ok := IndexErased(path, disk.content, failing, s0, width);
      outcome := OutcomeOf(disk, ok);
      StepKeepsCoherence(t, ReindexFile(path, outcome), s0, View());
    }

    /** The delete branches: store and symbol index only. */
    method Forget(path: string)
      requires Ready()
      modifies st, sym
      ensures Ready()
      ensures forall q :: Restrict(View(), q) == Forgotten(path, Restrict(old(View()), q), q)
    {
      ghost var s0 := View();
      RestrictUnstored(t, s0, {path}, path);
      assert Elements([path]) == {path};
      st.DeleteByPaths([path]);
      sym.RemoveByPath(path);
      forall q
        ensures Restrict(View(), q) == Forgotten(path, Restrict(s0, q), q)
      {
        RestrictUnstored(t, s0, {path}, q);
        S.RestrictRemoved(s0.symbols, path, q);
      }
    }

    /** Removes every trace of a file. */
    method Erase(path: string)
      requires Ready()
      modifies st, sym, cg, si
      ensures Ready()
      ensures forall q :: Restrict(View(), q) == Erased({path}, Restrict(old(View()), q), q)
      ensures old(st.docs) == map[] ==> st.docs == map[]
      ensures st.dim == old(st.dim)
    {
      ghost var s0 := View();
      RestrictUnstored(t, s0, {path}, path);
      assert Elements([path]) == {path};
      st.DeleteByPaths([path]);
      ghost var s1 := View();
      assert s1 == Unstored(s0, {path});
      RemoveFromIndexes(path);
      forall q
        ensures Restrict(View(), q) == Erased({path}, Restrict(s0, q), q)
      {
        RestrictUnstored(t, s0, {path}, q);
        RestrictUnindexed(t, s1, path, q);
      }
    }

    /** Indexes a file of which no trace is left, without recording a hash. */
    method IndexErased(path: string, content: string, failing: set<nat>, ghost s0: State, ghost width: nat) returns (ok: bool)
      requires Ready() && t.tracked(path)
      requires forall q :: Restrict(View(), q) == Erased({path}, Restrict(s0, q), q)
      modifies st, sym, cg, si, cache
      ensures Ready()
      ensures Takes(t, ReindexFile(path, if ok then Done(content) else EmbedFailed(content)), s0, View())
      ensures old(Fits(width)) && failing == {} ==> ok
    {
      hide Trusted, FileEffect, Coherent;
      ghost var s1 := View();
      var chunks := t.chunkFile(path, content, "");
      ChunkFileFrom(t, path, content, "");
      AddToIndexes(path, chunks);
      OneFile(t, path, chunks, path);
      ok := EmbedAndStore(chunks, failing, width);
      forall q { ErasedIndexed(t, s0, s1, path, content, ok, q); }
    }

    /** Goes through the paths with a stored hash and erases those selected. */
    method DeleteTracked(select: string -> bool)
      requires Valid()
      modifies st, sym, cg, si
      ensures Ready()
      ensures forall q :: Restrict(View(), q) == Erased(Tracked(old(st.hashes), select), Restrict(old(View()), q), q)
    {
      hide Coherent, Trusted;
      ghost var s0 := View();
      var toDelete: seq<string> := [];
      var paths := st.Paths();
      for i := 0 to |paths|
        invariant Ready() && View().store == s0.store
        invariant forall q :: q in toDelete <==> q in paths[..i] && select(q)
        invariant forall q :: Restrict(View(), q) == OnlyStored(Elements(toDelete), Restrict(s0, q), q)
      {
        assert paths[..i + 1] == paths[..i] + [paths[i]];
        if select(paths[i]) {
          ghost var before, marked := View(), toDelete;
          RemoveFromIndexes(paths[i]);
          toDelete := toDelete + [paths[i]];
          forall q
            ensures Restrict(View(), q) == OnlyStored(Elements(toDelete), Restrict(s0, q), q)
          {
            RestrictUnindexed(t, before, paths[i], q);
            assert q in toDelete <==> q in marked || q == paths[i];
          }
        }
      }
      assert paths[..|paths|] == paths;
      ghost var s1 := View();
      RestrictUnstored(t, s1, Elements(toDelete), "");
      st.DeleteByPaths(toDelete);
      forall q
        ensures Restrict(View(), q) == Erased(Tracked(s0.store.hashes, select), Restrict(s0, q), q)
      {
        RestrictUnstored(t, s1, Elements(toDelete), q);
        assert q in Elements(paths) <==> q in s0.store.hashes;
      }
    }

    method DeleteChunksByPrefix(prefix: string)
      requires Valid()
      modifies st, sym, cg, si
      ensures Valid() && Takes(t, DeletePrefix(prefix), old(View()), View())
    {
      ghost var s0 := View();
      DeleteTracked(UnderPrefix(prefix));
      TrackedInPart(s0);
      StepKeepsCoherence(t, DeletePrefix(prefix), s0, View());
    }

    /** `missing` are the paths that no longer exist on disk. */
    method CleanupDeletedFiles(missing: set<string>)
      requires Valid()
      modifies st, sym, cg, si
      ensures Valid() && Takes(t, CleanupDeleted(missing), old(View()), View())
    {
      ghost var s0 := View();
      DeleteTracked(Among(missing));
      TrackedInPart(s0);
      StepKeepsCoherence(t, CleanupDeleted(missing), s0, View());
    }
  }

  function Forgotten(path: string, r: State, q: string): State {
    if q == path then r.(store := V.EMPTY, symbols := map[]) else r
  }

  function Erased(paths: set<string>, r: State, q: string): State {
    if q in paths then EMPTY else r
  }

  function Tracked(hashes: map<string, string>, select: string -> bool): set<string> {
    set p | p in hashes && select(p)
  }

  function OnlyStored(paths: set<string>, r: State, q: string): State {
    if q in paths then State(r.store, map[], G.EMPTY, []) else r
  }

  lemma ErasedIndexed(t: Tools, s0: State, s1: State, path: string, content: string, ok: bool, q: string)
    requires Trusted(t) && t.tracked(path) && Sound(t, s1) && Restrict(s1, q) == Erased({path}, Restrict(s0, q), q)
    ensures var chunks := t.chunkFile(path, content, "");
      Restrict(if ok then Stored(t, Indexed(t, s1, chunks), chunks) else Indexed(t, s1, chunks), q)
        == FileEffect(t, ReindexFile(path, if ok then Done(content) else EmbedFailed(content)), Restrict(s0, q), q)
  {
    var chunks := t.chunkFile(path, content, "");
    ChunkFileFrom(t, path, content, "");
    IndexedAndStored(t, s1, path, chunks, q);
    ReindexedFile(t, Restrict(s0, q), path, content, ok, q);
  }

  lemma ReindexedFile(t: Tools, r: State, path: string, content: string, ok: bool, q: string)
    ensures var chunks := t.chunkFile(path, content, "");
      FileEffect(t, ReindexFile(path, if ok then Done(content) else EmbedFailed(content)), r, q)
        == if q != path then r else if ok then Stored(t, Indexed(t, EMPTY, chunks), chunks) else Indexed(t, EMPTY, chunks)
  {
    ScratchInTwoSteps(t, path, content, "");
  }

  /** Indexing and storing the chunks of one file concern that file only. */
  lemma IndexedAndStored(t: Tools, s: State, path: string, chunks: seq<Chunk>, q: string)
    requires Sound(t, s) && ChunksFrom(t, path, chunks)
    ensures var s1, r1 := Indexed(t, s, chunks), Indexed(t, Restrict(s, q), chunks);
      && Restrict(s1, q) == (if q == path then r1 else Restrict(s, q))
      && Restrict(Stored(t, s1, chunks), q) == if q == path then Stored(t, r1, chunks) else Restrict(s, q)
  {
    RestrictIndexed(t, s, path, chunks, q);
    OneFile(t, path, chunks, q);
    RestrictStored(t, Indexed(t, s, chunks), chunks, q);
    if q != path {
      NothingStored(t, Restrict(Indexed(t, s, chunks), q));
    }
  }

  lemma NothingStored(t: Tools, s: State)
    ensures Stored(t, s, []) == s
  {
  }

  lemma ScratchInTwoSteps(t: Tools, path: string, content: string, hash: string)
    ensures var chunks := t.chunkFile(path, content, hash);
      && Indexed(t, EMPTY, chunks) == Scratch(t, path, content, hash).(store := V.EMPTY)
      && Stored(t, Indexed(t, EMPTY, chunks), chunks) == Scratch(t, path, content, hash)
  {
    var chunks := t.chunkFile(path, content, hash);
    assert [] + H.EntriesOf(chunks) == H.EntriesOf(chunks);
  }

  function UnderPrefix(prefix: string): string -> bool {
    (path: string) => IsUnderPath(path, prefix)
  }

  function Among(paths: set<string>): string -> bool {
    (path: string) => path in paths
  }

  lemma TrackedInPart(s: State)
    ensures forall q :: q in Restrict(s, q).store.hashes <==> q in s.store.hashes
  {
  }

  /** What a file looks like when it is to be reindexed: gone, a directory or
      excluded by the rules, unreadable, or read. */
  datatype FileOnDisk = Absent | Excluded | Unreadable | Readable(content: string)

  function OutcomeOf(disk: FileOnDisk, ok: bool): Outcome {
    match disk
    case Absent => Gone
    case Excluded => Gone
    case Unreadable => ReadFailed
    case Readable(content) => if ok then Done(content) else EmbedFailed(content)
  }

  datatype Walk = Walked(files: seq<FileInfo>) | Missing | WalkFailed

  /** One attempt's surroundings: the walk, the failing provider requests of each
      batch, and whether the wait before the next attempt is cancelled. */
  datatype Attempt = Attempt(walk: Walk, failing: seq<set<nat>>, cancelled: bool)

  ghost predicate ListedIn(a: Attempt, q: string) {
    a.walk.Walked? && q in Listed(a.walk.files)
  }

  ghost predicate Unlisted(attempts: seq<Attempt>, q: string) {
    forall j :: 0 <= j < |attempts| ==> !ListedIn(attempts[j], q)
  }

  /** No further attempt: none left, no such directory, or cancelled. */
  predicate GivesUp(attempts: seq<Attempt>, k: nat)
    requires k < |attempts|
  {
    k + 1 == MAX_INDEX_RETRIES || attempts[k].walk.Missing? || attempts[k].cancelled
  }

  /** Nothing stops the attempts before number k. */
  predicate Reaches(attempts: seq<Attempt>, k: nat) {
    k < |attempts| && forall j :: 0 <= j < k ==> !attempts[j].walk.Missing? && !attempts[j].cancelled
  }

  lemma NoneReached(attempts: seq<Attempt>, last: nat)
    requires last < |attempts| == 3 && NoneClean(attempts[..last + 1])
    requires last == 2 || attempts[last].walk.Missing? || attempts[last].cancelled
    ensures !exists k: nat :: Reaches(attempts, k) && Clean(attempts[k])
  {
    forall k: nat | Reaches(attempts, k)
      ensures !Clean(attempts[k])
    {
      assert k <= last;
      assert attempts[..last + 1][k] == attempts[k];
    }
  }

  ghost predicate Walkable(t: Tools, a: Attempt) {
    a.walk.Walked? ==> Listing(t, a.walk.files)
  }

  /** The attempt's walk succeeded and every file it listed is as if indexed
      from scratch. */
  ghost predicate ListedRefined(t: Tools, a: Attempt, s: State) {
    a.walk.Walked? && forall q {:trigger q in Listed(a.walk.files)} :: q in Listed(a.walk.files) ==> Restrict(s, q) == ScratchFile(t, q, Listed(a.walk.files)[q])
  }

  /** Files that no attempt listed are as before. */
  ghost predicate OthersKept(attempts: seq<Attempt>, before: State, after: State) {
    forall q {:trigger Unlisted(attempts, q)} :: Unlisted(attempts, q) ==> Restrict(after, q) == Restrict(before, q)
  }

  lemma NothingTouched(s: State)
    ensures OthersKept([], s, s)
  {
  }

  lemma UnlistedParts(attempts: seq<Attempt>, k: nat, q: string)
    requires k < |attempts| && Unlisted(attempts[..k + 1], q)
    ensures Unlisted(attempts[..k], q) && Unlisted([attempts[k]], q)
  {
    assert attempts[..k + 1][k] == attempts[k];
    assert forall j :: 0 <= j < k ==> attempts[..k + 1][j] == attempts[..k][j];
  }

  lemma OthersStillKept(attempts: seq<Attempt>, k: nat, s0: State, s1: State, s2: State)
    requires k < |attempts| && OthersKept(attempts[..k], s0, s1) && OthersKept([attempts[k]], s1, s2)
    ensures OthersKept(attempts[..k + 1], s0, s2)
  {
    forall q | Unlisted(attempts[..k + 1], q)
      ensures Restrict(s2, q) == Restrict(s0, q)
    {
      UnlistedParts(attempts, k, q);
    }
  }

  ghost predicate Clean(a: Attempt) {
    a.walk.Walked? && NoneFails(a.failing)
  }

  ghost predicate NoneClean(attempts: seq<Attempt>) {
    forall j :: 0 <= j < |attempts| ==> !Clean(attempts[j])
  }

  /** After `attempts`, the last of which succeeded or not: files that none of
      them listed are untouched, a success leaves every file it listed as if
      indexed from scratch, and an attempt without any failure succeeds. */
  ghost predicate AfterAttempts(t: Tools, attempts: seq<Attempt>, ok: bool, fit: bool, before: State, after: State) {
    && attempts != []
    && OthersKept(attempts, before, after)
    && (if ok then ListedRefined(t, attempts[|attempts| - 1], after) else fit ==> NoneClean(attempts))
  }

  /** Every listed file is held exactly. */
  ghost predicate AllHeld(t: Tools, listed: map<string, string>, s: State) {
    forall q {:trigger q in listed} :: q in listed ==> HeldExactly(t, Restrict(s, q), q, listed[q])
  }

  lemma AllRefined(t: Tools, listed: map<string, string>, s: State)
    requires Trusted(t) && forall q :: q in listed ==> Restrict(s, q) == ScratchFile(t, q, listed[q])
    ensures AllHeld(t, listed, s)
  {
    forall q | q in listed { RefinedIsHeld(t, Restrict(s, q), q, listed[q]); }
  }

  /** After a completed run the state is coherent and refines indexing from scratch. */
  lemma Completed(t: Tools, s0: State, s: State, listed: map<string, string>)
    requires Trusted(t) && Coherent(t, s0) && Takes(t, IndexListed(listed, listed.Keys), s0, s)
    ensures Coherent(t, s)
    ensures forall q :: Restrict(s, q) == FromScratch(t, listed, Restrict(s0, q), q)
    ensures AllHeld(t, listed, s)
  {
    var step := IndexListed(listed, listed.Keys);
    StepKeepsCoherence(t, step, s0, s);
    forall q
      ensures Restrict(s, q) == FromScratch(t, listed, Restrict(s0, q), q)
    {
      CompleteRunRefinesScratch(t, step, s0, s, q);
    }
    AllRefined(t, listed, s);
  }

  ghost function PathSet(list: seq<FileChunks>): set<string> {
    set i | 0 <= i < |list| :: list[i].file.path
  }

  lemma PathSetConcat(a: seq<FileChunks>, b: seq<FileChunks>)
    ensures PathSet(a + b) == PathSet(a) + PathSet(b)
  {
    forall i | 0 <= i < |a|
      ensures a[i].file.path in PathSet(a + b)
    {
      assert (a + b)[i] == a[i];
    }
    forall i | 0 <= i < |b|
      ensures b[i].file.path in PathSet(a + b)
    {
      assert (a + b)[|a| + i] == b[i];
    }
  }

  lemma PathsOfSet(list: seq<FileChunks>)
    ensures Elements(PathsOf(list)) == PathSet(list)
  {
    assert forall p :: p in PathsOf(list) ==> p in PathSet(list);
    forall i | 0 <= i < |list|
      ensures list[i].file.path in PathsOf(list)
    {
      assert PathsOf(list)[i] == list[i].file.path;
    }
  }

  /** The next batch: still chunked, and of files not stored before. */
  lemma NextBatch(t: Tools, s: State, files: seq<FileInfo>, list: seq<FileChunks>, i: nat, end: nat)
    requires Chunked(t, list) && AllStale(s, files, list) && i <= end <= |list|
    ensures Chunked(t, list[i..end]) && AllStale(s, files, list[i..end])
    ensures PathSet(list[..end]) == PathSet(list[..i]) + PathSet(list[i..end])
    ensures PathSet(list[..i]) !! PathSet(list[i..end])
  {
    assert list[..end] == list[..i] + list[i..end];
    PathSetConcat(list[..i], list[i..end]);
  }

  lemma StoringCompletes(t: Tools, q: string, content: string)
    ensures Stored(t, ScratchFile(t, q, content).(store := V.EMPTY), t.chunkFile(q, content, t.hash(content)))
      == ScratchFile(t, q, content)
  {
  }

  /** Storing one batch completes its files and touches no other. */
  lemma BatchEffect(t: Tools, s0: State, s: State, files: seq<FileInfo>, batch: seq<FileChunks>, stored: set<string>, q: string)
    requires Trusted(t) && Listing(t, files) && Chunked(t, batch) && Sound(t, s)
    requires AllStale(s0, files, batch)
    requires stored !! PathSet(batch)
    requires Restrict(s, q) == FileEffect(t, IndexListed(Listed(files), stored), Restrict(s0, q), q)
    ensures Restrict(Stored(t, s, AllChunks(batch)), q)
      == FileEffect(t, IndexListed(Listed(files), stored + PathSet(batch)), Restrict(s0, q), q)
  {
    BatchChunks(t, batch, q);
    RestrictStored(t, s, AllChunks(batch), q);
    ChunksAt(t, batch, files, q);
    PathsOfSet(batch);
    assert V.HashAt(Restrict(s0, q).store, q) == V.HashAt(s0.store, q);
    if q in PathSet(batch) {
      var content := Listed(files)[q];
      assert Lists(batch, FileInfo(q, content, t.hash(content)));
      StoringCompletes(t, q, content);
    }
  }

  lemma BatchTakes(t: Tools, s0: State, s: State, files: seq<FileInfo>, batch: seq<FileChunks>, stored: set<string>)
    requires Trusted(t) && Listing(t, files) && Chunked(t, batch) && AllStale(s0, files, batch) && stored !! PathSet(batch)
    requires Takes(t, IndexListed(Listed(files), stored), s0, s)
    ensures Takes(t, IndexListed(Listed(files), stored + PathSet(batch)), s0, Stored(t, s, AllChunks(batch)))
  {
    hide Trusted, Listing, Chunked, AllStale, FileEffect;
    BatchChunks(t, batch, "");
    RestrictStored(t, s, AllChunks(batch), "");
    forall q
      ensures Restrict(Stored(t, s, AllChunks(batch)), q)
        == FileEffect(t, IndexListed(Listed(files), stored + PathSet(batch)), Restrict(s0, q), q)
    {
      BatchEffect(t, s0, s, files, batch, stored, q);
    }
  }

  /** After n batches, up to file i: the files before it are stored, and what the
      requests of these batches have done to the cache. */
  ghost predicate StoredSoFar(t: Tools, s0: State, s: State, files: seq<FileInfo>, changed: seq<FileChunks>, stored: set<string>,
                              failing: seq<set<nat>>, n: nat, i: nat, e0: map<string, V.Vec>, e: map<string, V.Vec>) {
    && i == Min(100 * n, |changed|) && stored == PathSet(changed[..i])
    && Takes(t, IndexListed(Listed(files), stored), s0, s)
    && SentSoFar(failing, changed, n, i, e0, e)
  }

  lemma StoringStarts(t: Tools, s0: State, s: State, files: seq<FileInfo>, changed: seq<FileChunks>, failing: seq<set<nat>>,
                      e: map<string, V.Vec>)
    requires Takes(t, IndexListed(Listed(files), {}), s0, s)
    ensures StoredSoFar(t, s0, s, files, changed, {}, failing, 0, 0, e, e)
  {
    hide Takes;
    assert PathSet(changed[..0]) == {};
  }

  lemma BatchIsNext(t: Tools, s0: State, s: State, files: seq<FileInfo>, changed: seq<FileChunks>, stored: set<string>,
                    failing: seq<set<nat>>, n: nat, i: nat, end: nat, e0: map<string, V.Vec>, e: map<string, V.Vec>)
    requires StoredSoFar(t, s0, s, files, changed, stored, failing, n, i, e0, e)
    requires Chunked(t, changed) && ChangedFiles(t, s0, files, changed) && i <= end <= |changed|
    ensures Chunked(t, changed[i..end]) && AllStale(s0, files, changed[i..end]) && stored !! PathSet(changed[i..end])
    ensures stored + PathSet(changed[i..end]) == PathSet(changed[..end])
  {
    hide Takes, SentSoFar, PathSet;
    NextBatch(t, s0, files, changed, i, end);
  }

  lemma BatchStored(t: Tools, s0: State, s: State, files: seq<FileInfo>, changed: seq<FileChunks>, stored: set<string>,
                    failing: seq<set<nat>>, n: nat, i: nat, end: nat,
                    e0: map<string, V.Vec>, e1: map<string, V.Vec>, e2: map<string, V.Vec>)
    requires StoredSoFar(t, s0, s, files, changed, stored, failing, n, i, e0, e1) && i < |changed| && end == Min(i + 100, |changed|)
    requires Trusted(t) && Listing(t, files) && Chunked(t, changed) && ChangedFiles(t, s0, files, changed)
    requires E.GrowsBy(AllChunks(changed[i..end]), e1, e2)
    requires 0 in FailingIn(failing, n) ==> AllCached(AllChunks(changed[i..end]), e1)
    ensures StoredSoFar(t, s0, Stored(t, s, AllChunks(changed[i..end])), files, changed, stored + PathSet(changed[i..end]),
                        failing, n + 1, end, e0, e2)
  {
    hide Takes, SentSoFar, PathSet, AllStale, Chunked, ChangedFiles, Listing, Trusted, E.GrowsBy, AllCached;
    BatchIsNext(t, s0, s, files, changed, stored, failing, n, i, end, e0, e1);
    BatchSent(failing, changed, n, i, end, e0, e1, e2);
    BatchTakes(t, s0, s, files, changed[i..end], stored);
  }

  /** What is known when the loop ends, at its end or at a batch that failed. */
  lemma StoredUpTo(t: Tools, s0: State, s: State, files: seq<FileInfo>, changed: seq<FileChunks>, stored: set<string>,
                   failing: seq<set<nat>>, n: nat, i: nat, e0: map<string, V.Vec>, e: map<string, V.Vec>)
    requires StoredSoFar(t, s0, s, files, changed, stored, failing, n, i, e0, e)
    ensures Takes(t, IndexListed(Listed(files), stored), s0, s)
    ensures i < |changed| ==> i == 100 * n && stored == PathSet(changed[..100 * n])
    ensures i >= |changed| ==> stored == PathSet(changed)
    ensures i >= |changed| ==> forall b: nat :: 100 * b < |changed| ==> Excused(failing, changed, b, e0)
  {
    hide Takes, PathSet, Excused;
    if i >= |changed| {
      assert changed[..i] == changed;
    }
  }

  /** Once all changed files are stored, all listed files are complete. */
  lemma AllStored(t: Tools, s0: State, files: seq<FileInfo>, changed: seq<FileChunks>, q: string)
    requires Listing(t, files) && ChangedFiles(t, s0, files, changed)
    ensures FileEffect(t, IndexListed(Listed(files), PathSet(changed)), Restrict(s0, q), q)
      == FileEffect(t, IndexListed(Listed(files), Listed(files).Keys), Restrict(s0, q), q)
  {
    ListedMembers(t, files);
    assert V.HashAt(Restrict(s0, q).store, q) == V.HashAt(s0.store, q);
    if q in Listed(files) && V.HashAt(s0.store, q) != t.hash(Listed(files)[q]) {
      var f := FileInfo(q, Listed(files)[q], t.hash(Listed(files)[q]));
      assert f in files;
      var i :| 0 <= i < |changed| && changed[i].file == f;
      assert changed[i].file.path == q;
    }
  }

  function PathsOf(list: seq<FileChunks>): (paths: seq<string>)
    ensures |paths| == |list| && forall i :: 0 <= i < |list| ==> paths[i] == list[i].file.path
  {
    if list == [] then [] else PathsOf(list[..|list| - 1]) + [list[|list| - 1].file.path]
  }

  ghost predicate AllStale(s: State, files: seq<FileInfo>, list: seq<FileChunks>) {
    forall i :: 0 <= i < |list| ==> list[i].file in files && V.HashAt(s.store, list[i].file.path) != list[i].file.hash
  }

  /** `changed` are the listed files whose stored hash differs. */
  ghost predicate ChangedFiles(t: Tools, s: State, files: seq<FileInfo>, changed: seq<FileChunks>) {
    && AllStale(s, files, changed)
    && (forall f :: f in files && V.HashAt(s.store, f.path) != f.hash ==> Lists(changed, f))
  }

  lemma ChunksAt(t: Tools, list: seq<FileChunks>, files: seq<FileInfo>, q: string)
    requires Chunked(t, list) && Listing(t, files)
    requires forall i :: 0 <= i < |list| ==> list[i].file in files
    ensures q in ChunksByPath(list) ==> (
      q in Listed(files) && ChunksByPath(list)[q] == t.chunkFile(q, Listed(files)[q], t.hash(Listed(files)[q])))
    ensures q in ChunksByPath(list) <==> q in Elements(PathsOf(list))
    ensures q in ChunksByPath(list) <==> (
      q in Listed(files) && Lists(list, FileInfo(q, Listed(files)[q], t.hash(Listed(files)[q]))))
  {
    ChunksByPathMembers(list);
    ListedMembers(t, files);
    if q in Elements(PathsOf(list)) {
      var i :| 0 <= i < |list| && PathsOf(list)[i] == q;
      assert list[i].file.path == q;
    }
    if q in ChunksByPath(list) {
      var i :| 0 <= i < |list| && list[i].file.path == q;
      assert PathsOf(list)[i] == q;
    }
  }

  lemma ChunkPhaseEffect(t: Tools, s0: State, files: seq<FileInfo>, stale: set<FileInfo>, graphOnly: set<FileInfo>,
                         changed: seq<FileChunks>, backfill: seq<FileChunks>, paths: seq<string>, q: string)
    requires Trusted(t) && Listing(t, files) && Chunked(t, changed) && Chunked(t, backfill)
    requires forall f :: f in stale <==> f in files && V.HashAt(s0.store, f.path) != f.hash
    requires forall f :: f in graphOnly <==> f in files && V.HashAt(s0.store, f.path) == f.hash && f.path !in s0.graph.files
    requires forall i :: 0 <= i < |changed| ==> changed[i].file in stale
    requires forall f :: f in stale ==> Lists(changed, f)
    requires forall i :: 0 <= i < |backfill| ==> backfill[i].file in graphOnly
    requires forall f :: f in graphOnly ==> Lists(backfill, f)
    requires paths == PathsOf(changed)
    ensures var r := Restrict(s0, q);
      var r1 := if q in Elements(paths) then r.(store := V.EMPTY) else r;
      Replaced(t, ChunksByPath(backfill), Replaced(t, ChunksByPath(changed), r1, q), q)
        == FileEffect(t, IndexListed(Listed(files), {}), r, q)
  {
    var r := Restrict(s0, q);
    ChunksAt(t, changed, files, q);
    ChunksAt(t, backfill, files, q);
    ListedMembers(t, files);
    assert V.HashAt(r.store, q) == V.HashAt(s0.store, q);
    assert q in r.graph.files <==> q in s0.graph.files;
    if q in Listed(files) {
      var f := FileInfo(q, Listed(files)[q], t.hash(Listed(files)[q]));
      assert f in files;
      assert q in ChunksByPath(changed) <==> f in stale;
      assert q in ChunksByPath(backfill) <==> f in graphOnly;
    }
  }

  ghost function Replaced(t: Tools, chunks: map<string, seq<Chunk>>, r: State, q: string): State {
    if q in chunks then Parts(t, r.store, chunks[q]) else r
  }
}
