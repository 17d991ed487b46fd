/** The vector store: embedded chunks, file hashes and the embedding dimension
    (internal/store/store.go). The collection is a map from chunk identifier;
    its calls and the SQL statements succeed. */
module VectorStore {
  import opened Common
  import opened Chunks

  /** An embedding vector; rounding is not modelled. */
  type Vec = seq<real>

  datatype Doc = Doc(chunk: Chunk, vector: Vec)

  datatype StoreState = StoreState(docs: map<string, Doc>, hashes: map<string, string>)

  const EMPTY := StoreState(map[], map[])

  // ------------------------------------------------------------ operations

  function AddedOne(st: StoreState, c: Chunk, v: Vec): StoreState {
    StoreState(st.docs[c.id := Doc(c, v)],
               if c.fileHash != "" then st.hashes[c.path := c.fileHash] else st.hashes)
  }

  function Added(st: StoreState, chunks: seq<Chunk>, vectors: seq<Vec>): StoreState
    requires |chunks| == |vectors|
  {
    if chunks == [] then st
    else
      var n := |chunks| - 1;
      AddedOne(Added(st, chunks[..n], vectors[..n]), chunks[n], vectors[n])
  }

  /** Adding chunks with the vectors a fixed embedding gives their texts. */
  function AddedAll(embed: string -> Vec, st: StoreState, chunks: seq<Chunk>): StoreState {
    if chunks == [] then st
    else
      var c := chunks[|chunks| - 1];
      AddedOne(AddedAll(embed, st, chunks[..|chunks| - 1]), c, embed(c.content))
  }

  lemma {:induction false} AddedEmbedded(embed: string -> Vec, st: StoreState, chunks: seq<Chunk>, vectors: seq<Vec>)
    requires |chunks| == |vectors|
    requires forall i :: 0 <= i < |chunks| ==> vectors[i] == embed(chunks[i].content)
    ensures Added(st, chunks, vectors) == AddedAll(embed, st, chunks)
  {
    if chunks != [] {
      var n := |chunks| - 1;
      AddedEmbedded(embed, st, chunks[..n], vectors[..n]);
    }
  }

  /** No later chunk of the list has the identifier of chunk i. */
  ghost predicate LastOfId(chunks: seq<Chunk>, i: nat) {
    i < |chunks| && forall j :: i < j < |chunks| ==> chunks[j].id != chunks[i].id
  }

  /** Chunk i carries the last hash given for its path. */
  ghost predicate LastHash(chunks: seq<Chunk>, i: nat) {
    && i < |chunks| && chunks[i].fileHash != ""
    && forall j :: i < j < |chunks| && chunks[j].path == chunks[i].path ==> chunks[j].fileHash == ""
  }

  /** Each chunk is held with its own vector, the last one given for its identifier. */
  ghost predicate NewDocs(chunks: seq<Chunk>, vectors: seq<Vec>, docs: map<string, Doc>)
    requires |chunks| == |vectors|
  {
    forall i: nat :: LastOfId(chunks, i) ==>
      && chunks[i].id in docs
      && docs[chunks[i].id].chunk == chunks[i] && docs[chunks[i].id].vector == vectors[i]
  }

  ghost predicate NewHashes(chunks: seq<Chunk>, hashes: map<string, string>) {
    forall i: nat :: LastHash(chunks, i) ==> chunks[i].path in hashes && hashes[chunks[i].path] == chunks[i].fileHash
  }

  predicate HasId(chunks: seq<Chunk>, id: string) {
    exists i :: 0 <= i < |chunks| && chunks[i].id == id
  }

  predicate HasHash(chunks: seq<Chunk>, path: string) {
    exists i :: 0 <= i < |chunks| && chunks[i].path == path && chunks[i].fileHash != ""
  }

  /** Two maps agree at `key`. */
  predicate SameAt<T(==)>(a: map<string, T>, b: map<string, T>, key: string) {
    if key in a then key in b && a[key] == b[key] else key !in b
  }

  /** `after` holds the batch, and of all identifiers and paths that are not in
      the batch what `before` held. */
  ghost predicate Stores(before: StoreState, chunks: seq<Chunk>, vectors: seq<Vec>, after: StoreState)
    requires |chunks| == |vectors|
  {
    && NewDocs(chunks, vectors, after.docs)
    && NewHashes(chunks, after.hashes)
    && (forall id :: !HasId(chunks, id) ==> SameAt(after.docs, before.docs, id))
    && (forall path :: !HasHash(chunks, path) ==> SameAt(after.hashes, before.hashes, path))
  }

  /** What adding a batch leaves in the store, chunk by chunk. */
  lemma {:induction false} AddedStores(st: StoreState, chunks: seq<Chunk>, vectors: seq<Vec>)
    requires |chunks| == |vectors|
    ensures Stores(st, chunks, vectors, Added(st, chunks, vectors))
  {
    if chunks != [] {
      var n := |chunks| - 1;
      var front := Added(st, chunks[..n], vectors[..n]);
      AddedStores(st, chunks[..n], vectors[..n]);
      assert chunks[..n] + [chunks[n]] == chunks && vectors[..n] + [vectors[n]] == vectors;
      DocsOneMore(st.docs, chunks[..n], vectors[..n], front.docs, chunks[n], vectors[n]);
      HashesOneMore(st.hashes, chunks[..n], front.hashes, chunks[n]);
    }
  }

  lemma HasSnoc(chunks: seq<Chunk>, c: Chunk, key: string)
    ensures HasId(chunks + [c], key) <==> HasId(chunks, key) || c.id == key
    ensures HasHash(chunks + [c], key) <==> HasHash(chunks, key) || (c.path == key && c.fileHash != "")
  {
    var all, n := chunks + [c], |chunks|;
    assert all[n] == c && forall i :: 0 <= i < n ==> all[i] == chunks[i];
  }

  lemma DocsOneMore(before: map<string, Doc>, chunks: seq<Chunk>, vectors: seq<Vec>, front: map<string, Doc>, c: Chunk, v: Vec)
    requires |chunks| == |vectors| && NewDocs(chunks, vectors, front)
    requires forall id :: !HasId(chunks, id) ==> SameAt(front, before, id)
    ensures NewDocs(chunks + [c], vectors + [v], front[c.id := Doc(c, v)])
    ensures forall id :: !HasId(chunks + [c], id) ==> SameAt(front[c.id := Doc(c, v)], before, id)
  {
    var all, n := chunks + [c], |chunks|;
    assert all[n] == c && forall i :: 0 <= i < n ==> all[i] == chunks[i];
    forall i: nat | LastOfId(all, i)
      ensures i < n ==> LastOfId(chunks, i) && chunks[i].id != c.id
    {
      if i < n { assert all[n].id != all[i].id; }
    }
    forall id { HasSnoc(chunks, c, id); }
  }

  lemma HashesOneMore(before: map<string, string>, chunks: seq<Chunk>, front: map<string, string>, c: Chunk)
    requires NewHashes(chunks, front)
    requires forall path :: !HasHash(chunks, path) ==> SameAt(front, before, path)
    ensures var after := if c.fileHash != "" then front[c.path := c.fileHash] else front;
      && NewHashes(chunks + [c], after)
      && (forall path :: !HasHash(chunks + [c], path) ==> SameAt(after, before, path))
  {
    var all, n := chunks + [c], |chunks|;
    assert all[n] == c && forall i :: 0 <= i < n ==> all[i] == chunks[i];
    forall i: nat | LastHash(all, i)
      ensures i < n ==> LastHash(chunks, i) && (c.fileHash != "" ==> chunks[i].path != c.path)
    {
      if i < n { assert all[n].path == all[i].path ==> all[n].fileHash == ""; }
    }
    forall path { HasSnoc(chunks, c, path); }
  }

  lemma SameEverywhere<T>(a: map<string, T>, b: map<string, T>)
    requires forall key :: SameAt(a, b, key)
    ensures a == b
  {
    assert forall key :: SameAt(a, b, key) ==> (key in a <==> key in b) && (key in a ==> a[key] == b[key]);
    assert a.Keys == b.Keys;
  }

  lemma LastWithId(chunks: seq<Chunk>, id: string) returns (i: nat)
    requires HasId(chunks, id)
    ensures LastOfId(chunks, i) && chunks[i].id == id
  {
    i := |chunks| - 1;
    while chunks[i].id != id
      invariant i < |chunks| && forall j :: i < j < |chunks| ==> chunks[j].id != id
      decreases i
    {
      i := i - 1;
    }
  }

  lemma LastWithHash(chunks: seq<Chunk>, path: string) returns (i: nat)
    requires HasHash(chunks, path)
    ensures LastHash(chunks, i) && chunks[i].path == path
  {
    i := |chunks| - 1;
    while chunks[i].path != path || chunks[i].fileHash == ""
      invariant i < |chunks| && forall j :: i < j < |chunks| && chunks[j].path == path ==> chunks[j].fileHash == ""
      decreases i
    {
      i := i - 1;
    }
  }

  /** The description leaves nothing open: only one store fits it. */
  lemma StoresExactly(before: StoreState, chunks: seq<Chunk>, vectors: seq<Vec>, after: StoreState)
    requires |chunks| == |vectors|
    ensures Stores(before, chunks, vectors, after) <==> after == Added(before, chunks, vectors)
  {
    var added := Added(before, chunks, vectors);
    AddedStores(before, chunks, vectors);
    if Stores(before, chunks, vectors, after) {
      forall id
        ensures SameAt(after.docs, added.docs, id)
      {
        if HasId(chunks, id) { var i := LastWithId(chunks, id); }
      }
      forall path
        ensures SameAt(after.hashes, added.hashes, path)
      {
        if HasHash(chunks, path) { var i := LastWithHash(chunks, path); }
      }
      SameEverywhere(after.docs, added.docs);
      SameEverywhere(after.hashes, added.hashes);
    }
  }

  /** Exactly the chunks, the last one of each identifier, each with the vector that
      `embed` gives its text. */
  ghost predicate Embeds(embed: string -> Vec, chunks: seq<Chunk>, docs: map<string, Doc>) {
    && (forall id :: id in docs <==> HasId(chunks, id))
    && (forall i: nat :: LastOfId(chunks, i) ==>
          chunks[i].id in docs
          && docs[chunks[i].id].chunk == chunks[i] && docs[chunks[i].id].vector == embed(chunks[i].content))
  }

  /** What a store holds that was empty before. */
  lemma AddedAllEmbeds(embed: string -> Vec, chunks: seq<Chunk>)
    ensures Embeds(embed, chunks, AddedAll(embed, EMPTY, chunks).docs)
  {
    var vectors := seq(|chunks|, i requires 0 <= i < |chunks| => embed(chunks[i].content));
    var docs := AddedAll(embed, EMPTY, chunks).docs;
    AddedEmbedded(embed, EMPTY, chunks, vectors);
    AddedStores(EMPTY, chunks, vectors);
    forall id
      ensures id in docs <==> HasId(chunks, id)
    {
      if HasId(chunks, id) { var i := LastWithId(chunks, id); } else { assert SameAt(docs, EMPTY.docs, id); }
    }
  }

  function Deleted(st: StoreState, paths: set<string>): StoreState {
    StoreState(map id | id in st.docs && st.docs[id].chunk.path !in paths :: st.docs[id], st.hashes - paths)
  }

  function DocsAt(docs: map<string, Doc>, path: string): map<string, Doc> {
    map id | id in docs && docs[id].chunk.path == path :: docs[id]
  }

  function HashesAt(hashes: map<string, string>, path: string): map<string, string> {
    map p | p in hashes && p == path :: hashes[p]
  }

  /** The part of the store that belongs to one file. */
  function Restrict(st: StoreState, path: string): StoreState {
    StoreState(DocsAt(st.docs, path), HashesAt(st.hashes, path))
  }

  /** Chunk identifiers, being digests of path and text, determine the path. */
  ghost predicate Owned(owner: string -> string, docs: map<string, Doc>) {
    forall id :: id in docs ==> owner(id) == docs[id].chunk.path
  }

  lemma RestrictDeleted(st: StoreState, paths: set<string>, path: string)
    ensures Restrict(Deleted(st, paths), path) == if path in paths then EMPTY else Restrict(st, path)
  {
  }

  lemma DocsAtAdded(owner: string -> string, docs: map<string, Doc>, d: Doc, path: string)
    requires Owned(owner, docs) && owner(d.chunk.id) == d.chunk.path
    ensures DocsAt(docs[d.chunk.id := d], path)
      == if d.chunk.path == path then DocsAt(docs, path)[d.chunk.id := d] else DocsAt(docs, path)
  {
  }

  lemma HashesAtAdded(hashes: map<string, string>, p: string, hash: string, path: string)
    ensures HashesAt(hashes[p := hash], path)
      == if p == path then HashesAt(hashes, path)[p := hash] else HashesAt(hashes, path)
  {
  }

  lemma RestrictAddedOne(owner: string -> string, st: StoreState, c: Chunk, v: Vec, path: string)
    requires Owned(owner, st.docs) && owner(c.id) == c.path
    ensures Owned(owner, AddedOne(st, c, v).docs)
    ensures Restrict(AddedOne(st, c, v), path)
      == if c.path == path then AddedOne(Restrict(st, path), c, v) else Restrict(st, path)
  {
    DocsAtAdded(owner, st.docs, Doc(c, v), path);
    HashesAtAdded(st.hashes, c.path, c.fileHash, path);
  }

  lemma AddedSnoc(embed: string -> Vec, st: StoreState, chunks: seq<Chunk>, c: Chunk)
    ensures AddedAll(embed, st, chunks + [c]) == AddedOne(AddedAll(embed, st, chunks), c, embed(c.content))
  {
    assert (chunks + [c])[..|chunks|] == chunks;
  }

  lemma AddedFiltered(embed: string -> Vec, st: StoreState, chunks: seq<Chunk>, c: Chunk, path: string)
    ensures AddedAll(embed, st, Filter(InFile(path), chunks + [c]))
      == var front := AddedAll(embed, st, Filter(InFile(path), chunks));
         if c.path == path then AddedOne(front, c, embed(c.content)) else front
  {
    FilterSnoc(InFile(path), chunks, c);
    var kept := Filter(InFile(path), chunks);
    if c.path == path {
      AddedSnoc(embed, st, kept, c);
    } else {
      assert kept + [] == kept;
    }
  }

  function InFile(path: string): Chunk -> bool {
    (c: Chunk) => c.path == path
  }

  /** Adding a batch from several files acts on each file's part as adding that
      file's chunks alone. */
  lemma {:induction false} RestrictAddedAll(owner: string -> string, embed: string -> Vec, st: StoreState, chunks: seq<Chunk>, path: string)
    requires Owned(owner, st.docs)
    requires forall c :: c in chunks ==> owner(c.id) == c.path
    ensures Owned(owner, AddedAll(embed, st, chunks).docs)
    ensures Restrict(AddedAll(embed, st, chunks), path)
      == AddedAll(embed, Restrict(st, path), Filter(InFile(path), chunks))
  {
    if chunks != [] {
      var n := |chunks| - 1;
      var c := chunks[n];
      assert chunks == chunks[..n] + [c];
      RestrictAddedAll(owner, embed, st, chunks[..n], path);
      RestrictAddedOne(owner, AddedAll(embed, st, chunks[..n]), c, embed(c.content), path);
      AddedFiltered(embed, Restrict(st, path), chunks[..n], c, path);
    } else {
      assert Filter(InFile(path), chunks) == [];
    }
  }

  lemma PartsWithin(a: StoreState, b: StoreState)
    requires forall path :: Restrict(a, path) == Restrict(b, path)
    ensures forall id :: id in a.docs ==> id in b.docs && b.docs[id] == a.docs[id]
    ensures forall p :: p in a.hashes ==> p in b.hashes && b.hashes[p] == a.hashes[p]
  {
    forall id | id in a.docs
      ensures id in b.docs && b.docs[id] == a.docs[id]
    {
      assert id in Restrict(a, a.docs[id].chunk.path).docs;
    }
    forall p | p in a.hashes
      ensures p in b.hashes && b.hashes[p] == a.hashes[p]
    {
      assert p in Restrict(a, p).hashes;
    }
  }

  /** Stores that agree file by file are equal. */
  lemma PartsDetermineStore(a: StoreState, b: StoreState)
    requires forall path :: Restrict(a, path) == Restrict(b, path)
    ensures a == b
  {
    PartsWithin(a, b);
    PartsWithin(b, a);
    assert a.docs == b.docs && a.hashes == b.hashes;
  }

  // ------------------------------------------------------------- the class

  /** All vectors are non-empty and of one length. */
  predicate Uniform(vectors: seq<Vec>) {
    |vectors| > 0 && |vectors[0]| > 0 && forall i :: 0 <= i < |vectors| ==> |vectors[i]| == |vectors[0]|
  }

  lemma {:induction false} AddedVectors(st: StoreState, chunks: seq<Chunk>, vectors: seq<Vec>, dim: nat)
    requires |chunks| == |vectors|
    requires forall id :: id in st.docs ==> |st.docs[id].vector| == dim
    requires forall i :: 0 <= i < |vectors| ==> |vectors[i]| == dim
    ensures forall id :: id in Added(st, chunks, vectors).docs ==> |Added(st, chunks, vectors).docs[id].vector| == dim
    ensures chunks != [] ==> Added(st, chunks, vectors).docs != map[]
  {
    if chunks != [] {
      var n := |chunks| - 1;
      AddedVectors(st, chunks[..n], vectors[..n], dim);
      assert chunks[n].id in Added(st, chunks, vectors).docs;
    }
  }

  class Store {
    var docs: map<string, Doc>
    var hashes: map<string, string>
    var dim: nat

    constructor ()
      ensures Valid() && View() == EMPTY && dim == 0
    {
      docs := map[];
      hashes := map[];
      dim := 0;
    }

    ghost function View(): StoreState
      reads this
    {
      StoreState(docs, hashes)
    }

    /** While anything is stored, the dimension is set and every vector has it. */
    ghost predicate Valid()
      reads this
    {
      docs != map[] ==> dim > 0 && forall id :: id in docs ==> |docs[id].vector| == dim
    }

    static method ValidateEmbeddings(vectors: seq<Vec>) returns (dim: Option<nat>)
      ensures dim.Some? <==> Uniform(vectors)
      ensures dim.Some? ==> dim.value == |vectors[0]|
    {
      if |vectors| == 0 || |vectors[0]| == 0 {
        return None;
      }
      for i := 0 to |vectors|
        invariant forall j :: 0 <= j < i ==> |vectors[j]| == |vectors[0]|
      {
        if |vectors[i]| != |vectors[0]| {
          return None;
        }
      }
      return Some(|vectors[0]|);
    }

    method AddChunks(chunks: seq<Chunk>, vectors: seq<Vec>) returns (ok: bool)
      requires Valid()
      modifies this
      ensures Valid()
      ensures ok <==> (
        || chunks == []
        || (|chunks| == |vectors| && Uniform(vectors) && (old(dim) == |vectors[0]| || old(docs) == map[])))
      ensures !ok || chunks == [] ==> View() == old(View()) && dim == old(dim)
      ensures ok && chunks != [] ==> View() == Added(old(View()), chunks, vectors) && dim == |vectors[0]|
      ensures ok && chunks != [] ==> Stores(old(View()), chunks, vectors, View())
    {
      if |chunks| == 0 {
        return true;
      }
      if |chunks| != |vectors| {
        return false;
      }
      var size := ValidateEmbeddings(vectors);
      if size.None? {
        return false;
      }
      if dim != 0 && dim != size.value {
        if docs == map[] {
          dim := 0;
        } else {
          return false;
        }
      }
      ghost var before := old(View());
      AddedVectors(before, chunks, vectors, size.value);
      AddedStores(before, chunks, vectors);
      for i := 0 to |chunks|
        invariant View() == Added(before, chunks[..i], vectors[..i])
        invariant dim == 0 || dim == size.value
      {
        var c := chunks[i];
        assert chunks[..i + 1][..i] == chunks[..i] && vectors[..i + 1][..i] == vectors[..i];
        if c.fileHash != "" {
          hashes := hashes[c.path := c.fileHash];
        }
        docs := docs[c.id := Doc(c, vectors[i])];
      }
      assert chunks[..|chunks|] == chunks && vectors[..|chunks|] == vectors;
      if dim == 0 {
        dim := size.value;
      }
      return true;
    }

    method DeleteByPaths(paths: seq<string>)
      requires Valid()
      modifies this
      ensures Valid() && View() == Deleted(old(View()), Elements(paths)) && dim == old(dim)
    {
      for i := 0 to |paths|
        invariant View() == Deleted(old(View()), Elements(paths[..i])) && dim == old(dim) && Valid()
      {
        assert Elements(paths[..i + 1]) == Elements(paths[..i]) + {paths[i]};
        docs := map id | id in docs && docs[id].chunk.path != paths[i] :: docs[id];
        hashes := hashes - {paths[i]};
        assert docs == Deleted(old(View()), Elements(paths[..i + 1])).docs;
      }
      assert paths[..|paths|] == paths;
    }

    /** The stored hash, or the empty string. */
    method GetFileHash(path: string) returns (hash: string)
      ensures hash == if path in hashes then hashes[path] else ""
      ensures hash == HashAt(View(), path)
    {
      hash := if path in hashes then hashes[path] else "";
    }

    /** The tracked paths, each once, in any order. */
    method Paths() returns (paths: seq<string>)
      ensures Elements(paths) == hashes.Keys && Distinct(paths)
    {
      paths := [];
      var todo := hashes.Keys;
      while todo != {}
        invariant todo <= hashes.Keys
        invariant forall p :: p in paths <==> p in hashes.Keys - todo
        invariant Distinct(paths)
        decreases todo
      {
        var p :| p in todo;
        todo := todo - {p};
        DistinctSnoc(paths, p);
        paths := paths + [p];
      }
      assert Elements(paths) == hashes.Keys;
    }

    /** How many results a query may ask the collection for, or the dimension
        error. A query let through never meets a stored vector of another length. */
    method Query(embedding: Vec, n: int) returns (r: Result<int>)
      requires Valid()
      ensures r.Err? <==> docs != map[] && |embedding| != dim
      ensures r.Ok? ==> r.value == if docs == map[] then 0 else Min(n, |docs|)
      ensures r.Ok? ==> forall id :: id in docs ==> |docs[id].vector| == |embedding|
    {
      var count := |docs|;
      assert count == 0 <==> docs == map[];
      if count == 0 {
        return Ok(0);
      }
      var limit := if n > count then count else n;
      if dim != 0 && |embedding| != dim {
        return Err("embedding dimension mismatch");
      }
      return Ok(limit);
    }
  }

  function HashAt(st: StoreState, path: string): string {
    if path in st.hashes then st.hashes[path] else ""
  }
}
