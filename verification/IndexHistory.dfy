/** What a run of indexing steps leaves of a file, told from the steps alone, and
    the traces that no later deletion reaches (internal/app/indexing.go,
    internal/app/rebuild.go, internal/app/app_cleanup.go). */
module IndexHistory {
  import opened Chunks
  import opened Common
  import opened FileContents
  import opened Formatting
  import opened IndexState
  import opened Indexing
  import G = CallGraph
  import H = SimhashIndex
  import I = Identity
  import V = VectorStore

  /** Whether the in-memory indexes have entries of a file, and the content whose
      hash is stored. */
  datatype Trace = Trace(entries: bool, content: Option<string>)

  const NO_TRACE := Trace(false, None)

  /** What one step makes of a file's trace. */
  function After(tr: Trace, step: Step, path: string): Trace {
    match step
    case IndexListed(listed, stored) =>
      if path !in listed then tr
      else Trace(true, if path in stored || tr.content == Some(listed[path]) then Some(listed[path]) else None)
    case ReindexFile(p, outcome) =>
      if p != path then tr
      else (match outcome
        case Gone => Trace(tr.entries, None)
        case ReadFailed => NO_TRACE
        case EmbedFailed(_) => Trace(true, None)
        case Done(_) => Trace(true, None))
    case DeletePrefix(prefix) => if tr.content.Some? && IsUnderPath(path, prefix) then NO_TRACE else tr
    case CleanupDeleted(missing) => if tr.content.Some? && path in missing then NO_TRACE else tr
  }

  function History(steps: seq<Step>, path: string): Trace {
    if steps == [] then NO_TRACE
    else After(History(steps[..|steps| - 1], path), steps[|steps| - 1], path)
  }

  /** `tr` tells the part `r` of a file. */
  ghost predicate Tells(t: Tools, r: State, path: string, tr: Trace) {
    && (path in r.store.hashes <==> tr.content.Some?)
    && (tr.content.Some? ==> r.store.hashes[path] == t.hash(tr.content.value))
    && (r.simhash != [] <==> tr.entries)
    && (!tr.entries ==> r == EMPTY)
  }

  lemma ScratchTells(t: Tools, path: string, content: string, hash: string)
    requires Trusted(t)
    ensures Scratch(t, path, content, hash).simhash != []
    ensures Scratch(t, path, content, hash).store.hashes == if hash == "" then map[] else map[path := hash]
  {
    ScratchTracked(t, path, content, hash);
  }

  lemma IndexingTells(t: Tools, r: State, path: string, content: string, stored: bool, tr: Trace)
    requires Trusted(t) && FileCoherent(t, r, path) && Tells(t, r, path, tr)
    ensures Tells(t, AfterIndexing(t, r, path, content, stored), path,
                  Trace(true, if stored || tr.content == Some(content) then Some(content) else None))
  {
    ScratchTells(t, path, content, t.hash(content));
    IndexingRefinesScratch(t, r, path, content);
    assert V.HashAt(r.store, path) == t.hash(content) <==> tr.content == Some(content);
  }

  lemma ReindexTells(t: Tools, r: State, path: string, outcome: Outcome, tr: Trace)
    requires Trusted(t) && Tells(t, r, path, tr)
    ensures Tells(t, AfterReindex(t, r, path, outcome), path, After(tr, ReindexFile(path, outcome), path))
  {
    match outcome {
      case Gone =>
      case ReadFailed =>
      case EmbedFailed(content) => ScratchTells(t, path, content, "");
      case Done(content) => ScratchTells(t, path, content, "");
    }
  }

  lemma StepTells(t: Tools, step: Step, r: State, path: string, tr: Trace)
    requires Trusted(t) && FileCoherent(t, r, path) && Tells(t, r, path, tr)
    ensures Tells(t, FileEffect(t, step, r, path), path, After(tr, step, path))
  {
    match step {
      case IndexListed(listed, stored) =>
        if path in listed { IndexingTells(t, r, path, listed[path], path in stored, tr); }
      case ReindexFile(p, outcome) =>
        if p == path { ReindexTells(t, r, path, outcome, tr); }
      case DeletePrefix(_) =>
      case CleanupDeleted(_) =>
    }
  }

  /** In every state of every run the steps alone tell which files have a stored
      hash, and of what content, and which have entries. */
  lemma {:induction false} HistoryTells(t: Tools, states: seq<State>, steps: seq<Step>, i: nat, path: string)
    requires Trusted(t) && Run(t, states, steps) && i < |states|
    ensures Tells(t, Restrict(states[i], path), path, History(steps[..i], path))
  {
    if i == 0 {
      RestrictEmpty(path);
    } else {
      HistoryTells(t, states, steps, i - 1, path);
      RunsAreCoherent(t, states, steps, i - 1);
      assert Takes(t, steps[i - 1], states[i - 1], states[i]);
      assert FileCoherent(t, Restrict(states[i - 1], path), path);
      StepTells(t, steps[i - 1], Restrict(states[i - 1], path), path, History(steps[..i - 1], path));
      assert Restrict(states[i], path) == FileEffect(t, steps[i - 1], Restrict(states[i - 1], path), path);
      assert steps[..i][..i - 1] == steps[..i - 1];
    }
  }

  lemma StepHolds(t: Tools, step: Step, r: State, path: string, tr: Trace)
    requires Trusted(t) && Tells(t, r, path, tr)
    requires tr.content.Some? ==> r == ScratchFile(t, path, tr.content.value)
    ensures var after := After(tr, step, path);
      after.content.Some? ==> FileEffect(t, step, r, path) == ScratchFile(t, path, after.content.value)
  {
    if step.IndexListed? && path in step.listed {
      assert V.HashAt(r.store, path) == t.hash(step.listed[path]) <==> tr.content == Some(step.listed[path]);
    }
  }

  /** In every state of every run: a file with a stored hash is held by all four
      structures exactly as its content in the history says. */
  lemma {:induction false} RunHolds(t: Tools, states: seq<State>, steps: seq<Step>, i: nat, path: string)
    requires Trusted(t) && Run(t, states, steps) && i < |states|
    ensures var r, tr := Restrict(states[i], path), History(steps[..i], path);
      && (path in states[i].store.hashes <==> tr.content.Some?)
      && (tr.content.Some? ==> r == ScratchFile(t, path, tr.content.value) && HeldExactly(t, r, path, tr.content.value))
  {
    hide HeldExactly, FileEffect, ScratchFile, Trusted;
    HistoryTells(t, states, steps, i, path);
    assert path in Restrict(states[i], path).store.hashes <==> path in states[i].store.hashes;
    if i > 0 {
      RunHolds(t, states, steps, i - 1, path);
      HistoryTells(t, states, steps, i - 1, path);
      assert Takes(t, steps[i - 1], states[i - 1], states[i]);
      assert Restrict(states[i], path) == FileEffect(t, steps[i - 1], Restrict(states[i - 1], path), path);
      StepHolds(t, steps[i - 1], Restrict(states[i - 1], path), path, History(steps[..i - 1], path));
      assert steps[..i][..i - 1] == steps[..i - 1];
    }
    var tr := History(steps[..i], path);
    if tr.content.Some? { ScratchIsHeld(t, path, tr.content.value); }
  }

  /** A file has traces but no stored hash: deletion by prefix and cleanup, and
      with them rebuilding and removing a project, pass it by. */
  ghost predicate Stranded(s: State, path: string) {
    Restrict(s, path) != EMPTY && path !in s.store.hashes
  }

  /** Exactly the files with entries and no content in their history are
      stranded. */
  lemma StrandedExactly(t: Tools, states: seq<State>, steps: seq<Step>, i: nat, path: string)
    requires Trusted(t) && Run(t, states, steps) && i < |states|
    ensures Stranded(states[i], path) <==> History(steps[..i], path).entries && History(steps[..i], path).content.None?
  {
    HistoryTells(t, states, steps, i, path);
    assert path in Restrict(states[i], path).store.hashes <==> path in states[i].store.hashes;
  }

  /** A step that may change a file's trace. */
  predicate Touches(tr: Trace, step: Step, path: string) {
    match step
    case IndexListed(listed, _) => path in listed
    case ReindexFile(p, _) => p == path
    case DeletePrefix(prefix) => tr.content.Some? && IsUnderPath(path, prefix)
    case CleanupDeleted(missing) => tr.content.Some? && path in missing
  }

  /** Whether a step that touches a file strands it. */
  predicate Strands(tr: Trace, step: Step, path: string) {
    match step
    case IndexListed(listed, stored) => path in listed && path !in stored && tr.content != Some(listed[path])
    case ReindexFile(_, Gone) => tr.entries
    case ReindexFile(_, ReadFailed) => false
    case ReindexFile(_, EmbedFailed(_)) => true
    case ReindexFile(_, Done(_)) => true
    case DeletePrefix(_) => false
    case CleanupDeleted(_) => false
  }

  lemma {:induction false} UntouchedKeeps(steps: seq<Step>, path: string, k: nat, i: nat)
    requires k <= i <= |steps|
    requires forall j :: k <= j < i ==> !Touches(History(steps[..j], path), steps[j], path)
    ensures History(steps[..i], path) == History(steps[..k], path)
  {
    if k < i {
      UntouchedKeeps(steps, path, k, i - 1);
      assert steps[..i][..i - 1] == steps[..i - 1];
      assert !Touches(History(steps[..i - 1], path), steps[i - 1], path);
    }
  }

  /** The last step that touched a file decides whether it is stranded: a
      directory run that failed before storing it, the watcher seeing it vanish
      while it had entries, and the watcher reindexing it, successfully or not,
      strand it; nothing else does. */
  lemma LastTouchDecides(t: Tools, states: seq<State>, steps: seq<Step>, path: string, k: nat, i: nat)
    requires Trusted(t) && Run(t, states, steps) && k < i < |states|
    requires Touches(History(steps[..k], path), steps[k], path)
    requires forall j :: k < j < i ==> !Touches(History(steps[..j], path), steps[j], path)
    ensures Stranded(states[i], path) <==> Strands(History(steps[..k], path), steps[k], path)
  {
    hide Trusted, Takes, Stranded;
    StrandedExactly(t, states, steps, i, path);
    UntouchedKeeps(steps, path, k + 1, i);
    assert steps[..k + 1][..k] == steps[..k];
  }

  /** A file that no step has touched has no trace. */
  lemma UntouchedIsAbsent(t: Tools, states: seq<State>, steps: seq<Step>, path: string, i: nat)
    requires Trusted(t) && Run(t, states, steps) && i < |states|
    requires forall j :: 0 <= j < i ==> !Touches(History(steps[..j], path), steps[j], path)
    ensures Restrict(states[i], path) == EMPTY
  {
    HistoryTells(t, states, steps, i, path);
    UntouchedKeeps(steps, path, 0, i);
    assert steps[..0] == [];
  }

  // -------------------------------------------------------- it does happen

  /** A state that holds one file, as indexed from nothing. */
  lemma OneFileState(t: Tools, path: string, content: string, q: string)
    requires Trusted(t) && t.tracked(path)
    ensures Sound(t, ScratchFile(t, path, content))
    ensures Restrict(ScratchFile(t, path, content), q) == if q == path then ScratchFile(t, path, content) else EMPTY
  {
    var hash := t.hash(content);
    var chunks := t.chunkFile(path, content, hash);
    RestrictEmpty(q);
    EmptyIsCoherent(t);
    ChunkFileFrom(t, path, content, hash);
    ScratchInTwoSteps(t, path, content, hash);
    RestrictIndexed(t, EMPTY, path, chunks, q);
    OneFile(t, path, chunks, q);
    RestrictStored(t, Indexed(t, EMPTY, chunks), chunks, q);
    IndexedAndStored(t, EMPTY, path, chunks, q);
  }

  /** For any file: indexed, seen to vanish, cleaned up, and its graph and simhash
      entries are all still there. */
  lemma VanishedFileIsStranded(t: Tools, path: string, content: string) returns (states: seq<State>, steps: seq<Step>)
    requires Trusted(t) && t.tracked(path)
    ensures Run(t, states, steps) && |states| == 4
    ensures steps == [IndexListed(map[path := content], {path}), ReindexFile(path, Gone), CleanupDeleted({path})]
    ensures Stranded(states[3], path)
    ensures states[3].graph == ScratchFile(t, path, content).graph
    ensures states[3].simhash == ScratchFile(t, path, content).simhash != []
  {
    var s1 := ScratchFile(t, path, content);
    var s2 := s1.(store := V.EMPTY, symbols := map[]);
    states := [EMPTY, s1, s2, s2];
    steps := [IndexListed(map[path := content], {path}), ReindexFile(path, Gone), CleanupDeleted({path})];
    ScratchTells(t, path, content, t.hash(content));
    VanishedSteps(t, path, content, s1, s2);
    RestrictEmpty(path);
  }

  lemma VanishedParts(t: Tools, path: string, content: string, s1: State, s2: State, q: string)
    requires Trusted(t) && t.tracked(path)
    requires s1 == ScratchFile(t, path, content) && s2 == s1.(store := V.EMPTY, symbols := map[])
    ensures Restrict(s1, q) == if q == path then s1 else EMPTY
    ensures Restrict(s2, q) == if q == path then s2 else EMPTY
  {
    hide Trusted, ScratchFile;
    RestrictEmpty(q);
    OneFileState(t, path, content, q);
    assert Restrict(s2, q).store == Restrict(EMPTY, q).store && Restrict(s2, q).symbols == Restrict(EMPTY, q).symbols;
  }

  lemma VanishedSteps(t: Tools, path: string, content: string, s1: State, s2: State)
    requires Trusted(t) && t.tracked(path)
    requires s1 == ScratchFile(t, path, content) && s2 == s1.(store := V.EMPTY, symbols := map[])
    ensures Takes(t, IndexListed(map[path := content], {path}), EMPTY, s1)
    ensures Takes(t, ReindexFile(path, Gone), s1, s2)
    ensures Takes(t, CleanupDeleted({path}), s2, s2)
    ensures Restrict(s2, path) == s2
  {
    hide Restrict, ScratchFile;
    assert t.hash(content) != "";
    OneFileState(t, path, content, path);
    forall q
      ensures Restrict(EMPTY, q) == EMPTY
      ensures Restrict(s1, q) == if q == path then s1 else EMPTY
      ensures Restrict(s2, q) == if q == path then s2 else EMPTY
    {
      RestrictEmpty(q);
      VanishedParts(t, path, content, s1, s2, q);
    }
  }

  /** A chunker that makes every file one function, with digests that can be read. */
  function OneFunction(path: string, content: string, hash: string): seq<Chunk> {
    [Chunk(I.Stamp(path, content), path, hash, "go", "f", "", "", content, 1, 1, "function", [], 0)]
  }

  function Plainly(text: string): string {
    text
  }

  function Marked(text: string): string {
    "#" + text
  }

  function Embedded(text: string): V.Vec {
    [1.0]
  }

  predicate OneLine(path: string) {
    '\n' !in path
  }

  function PlainTools(): Tools {
    Tools(Marked, OneFunction, Plainly, Embedded, OneLine, Plainly, Plainly, Plainly)
  }

  lemma MarkedIsInjective()
    ensures I.Injective(Marked) && I.Injective(Plainly)
  {
    forall a, b | Marked(a) == Marked(b)
      ensures a == b
    {
      assert a == Marked(a)[1..] && b == Marked(b)[1..];
    }
  }

  lemma PlainToolsStamp()
    ensures I.Stamps(PlainTools(), Plainly) && I.ColonFree(PlainTools())
  {
  }

  /** The hypotheses can be met, by a chunker that yields nodes. */
  lemma SomeToolsAreTrusted(path: string, content: string, hash: string)
    ensures Trusted(I.Equipped(PlainTools(), Plainly))
    ensures I.Equipped(PlainTools(), Plainly).tracked(path) <==> '\n' !in path
    ensures exists c :: c in I.Equipped(PlainTools(), Plainly).chunkFile(path, content, hash) && G.Callable(c)
  {
    MarkedIsInjective();
    PlainToolsStamp();
    I.WithoutSeparatorApart(OneLine, '\n');
    I.ChunkerIsTrusted(PlainTools(), Plainly);
    assert OneFunction(path, content, hash)[0] in OneFunction(path, content, hash);
  }
}
