/** What the four structures hold of a file, chunk by chunk
    (internal/app/indexing.go, internal/app/rebuild.go). */
module FileContents {
  import opened Chunks
  import opened Common
  import opened Formatting
  import opened IndexState
  import G = CallGraph
  import H = SimhashIndex
  import S = SymbolIndex
  import V = VectorStore

  /** The three in-memory indexes hold exactly what the chunks describe. */
  ghost predicate InMemory(t: Tools, r: State, chunks: seq<Chunk>) {
    && S.FiledFrom(t.lower, r.symbols, chunks)
    && G.BuiltFrom(r.graph, chunks)
    && H.EnteredFrom(r.simhash, chunks)
  }

  /** All four structures hold exactly the chunks of this content, with the vectors
      of their texts, and its hash is stored. */
  ghost predicate HeldExactly(t: Tools, r: State, path: string, content: string) {
    var chunks := t.chunkFile(path, content, t.hash(content));
    && InMemory(t, r, chunks)
    && V.Embeds(t.embed, chunks, r.store.docs)
    && r.store.hashes == map[path := t.hash(content)]
  }

  lemma ScratchHolds(t: Tools, path: string, content: string, hash: string)
    requires Trusted(t)
    ensures var chunks, r := t.chunkFile(path, content, hash), Scratch(t, path, content, hash);
      && InMemory(t, r, chunks)
      && V.Embeds(t.embed, chunks, r.store.docs)
      && r.store.hashes == if hash == "" then map[] else map[path := hash]
  {
    var chunks := t.chunkFile(path, content, hash);
    S.AddedAllFiles(t.lower, chunks);
    G.AddedAllBuilds(chunks);
    H.EntriesAreEntered(chunks);
    V.AddedAllEmbeds(t.embed, chunks);
    ScratchTracked(t, path, content, hash);
  }

  /** Indexing from nothing holds exactly the file. */
  lemma ScratchIsHeld(t: Tools, path: string, content: string)
    requires Trusted(t)
    ensures HeldExactly(t, ScratchFile(t, path, content), path, content)
  {
    ScratchHolds(t, path, content, t.hash(content));
  }

  /** A directory run, stopped anywhere: the in-memory indexes hold exactly the
      chunks of every listed file's content. If the file's batch was stored or its
      hash was up to date, so does the store; otherwise the store holds nothing of
      it. Files outside the listing are untouched. */
  lemma EveryRunLeaves(t: Tools, listed: map<string, string>, stored: set<string>, s: State, s': State, path: string)
    requires Trusted(t) && Coherent(t, s) && Takes(t, IndexListed(listed, stored), s, s')
    ensures var r := Restrict(s', path);
      if path !in listed then r == Restrict(s, path)
      else if path in stored || V.HashAt(s.store, path) == t.hash(listed[path]) then HeldExactly(t, r, path, listed[path])
      else InMemory(t, r, t.chunkFile(path, listed[path], t.hash(listed[path]))) && r.store == V.EMPTY
  {
    hide InMemory, V.Embeds, Trusted;
    assert FileCoherent(t, Restrict(s, path), path);
    assert Restrict(s', path) == FileEffect(t, IndexListed(listed, stored), Restrict(s, path), path);
    assert V.HashAt(Restrict(s, path).store, path) == V.HashAt(s.store, path);
    if path in listed {
      IndexingRefinesScratch(t, Restrict(s, path), path, listed[path]);
      ScratchHolds(t, path, listed[path], t.hash(listed[path]));
      ScratchIsHeld(t, path, listed[path]);
      InMemoryOnly(t, ScratchFile(t, path, listed[path]), V.EMPTY, t.chunkFile(path, listed[path], t.hash(listed[path])));
    }
  }

  lemma InMemoryOnly(t: Tools, r: State, store: V.StoreState, chunks: seq<Chunk>)
    requires InMemory(t, r, chunks)
    ensures InMemory(t, r.(store := store), chunks)
  {
  }

  /** The watcher's reindexing, by outcome: read and embedded, the file is held
      exactly, but with no hash; read and not embedded, in memory only; unreadable,
      not at all; gone, it stays in the call graph and the simhash index. */
  lemma ReindexLeaves(t: Tools, path: string, outcome: Outcome, s: State, s': State)
    requires Trusted(t) && Takes(t, ReindexFile(path, outcome), s, s')
    ensures var r := Restrict(s', path);
      && r.store.hashes == map[]
      && (outcome.Done? ==>
            var chunks := t.chunkFile(path, outcome.content, "");
            InMemory(t, r, chunks) && V.Embeds(t.embed, chunks, r.store.docs))
      && (outcome.EmbedFailed? ==> InMemory(t, r, t.chunkFile(path, outcome.content, "")) && r.store.docs == map[])
      && (outcome.ReadFailed? ==> r == EMPTY)
      && (outcome.Gone? ==>
            && r.store.docs == map[] && r.symbols == map[]
            && r.graph == Restrict(s, path).graph && r.simhash == Restrict(s, path).simhash)
    ensures forall q :: q != path ==> Restrict(s', q) == Restrict(s, q)
  {
    hide InMemory, V.Embeds, Trusted;
    assert Restrict(s', path) == FileEffect(t, ReindexFile(path, outcome), Restrict(s, path), path);
    match outcome {
      case Done(content) => ScratchHolds(t, path, content, "");
      case EmbedFailed(content) =>
        ScratchHolds(t, path, content, "");
        InMemoryOnly(t, Scratch(t, path, content, ""), V.EMPTY, t.chunkFile(path, content, ""));
      case _ =>
    }
    forall q | q != path
      ensures Restrict(s', q) == Restrict(s, q)
    {
      assert Restrict(s', q) == FileEffect(t, ReindexFile(path, outcome), Restrict(s, q), q);
    }
  }

  /** Deletion by prefix and cleanup: a file with a stored hash that is the root,
      continues it after a separator, or is missing loses everything; every other
      file keeps everything. */
  lemma DeletionLeaves(t: Tools, step: Step, s: State, s': State, path: string)
    requires (step.DeletePrefix? || step.CleanupDeleted?) && Takes(t, step, s, s')
    ensures var selected := path in s.store.hashes &&
        if step.CleanupDeleted? then path in step.missing
        else if step.prefix == "" then path != "" else path == step.prefix || HasPrefix(path, step.prefix + "/");
      Restrict(s', path) == if selected then EMPTY else Restrict(s, path)
  {
    assert Restrict(s', path) == FileEffect(t, step, Restrict(s, path), path);
    assert path in Restrict(s, path).store.hashes <==> path in s.store.hashes;
    if step.DeletePrefix? { UnderPathMeaning(path, step.prefix); }
  }

  /** Whatever `r` holds of a file as indexed from nothing is complete. */
  lemma RefinedIsHeld(t: Tools, r: State, path: string, content: string)
    requires Trusted(t) && r == ScratchFile(t, path, content)
    ensures HeldExactly(t, r, path, content)
  {
    ScratchIsHeld(t, path, content);
  }
}
