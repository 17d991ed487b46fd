/** The fingerprint index (internal/simhash/index.go) and how chunks enter it
    (internal/app/simhash.go). */
module SimhashIndex {
  import opened Common
  import opened Chunks
  import opened Simhash

  datatype Meta = Meta(path: string, symbol: string, startLine: int, endLine: int)

  datatype IndexEntry = IndexEntry(fingerprint: uint64, meta: Meta)

  datatype Match = Match(meta: Meta, similarity: real)

  // ------------------------------------------------------------- contents

  function EntryOf(c: Chunk): IndexEntry {
    IndexEntry(c.simhash, Meta(c.path, c.symbol, c.startLine, c.endLine))
  }

  /** The entries for a list of chunks. */
  function EntriesOf(chunks: seq<Chunk>): seq<IndexEntry> {
    if chunks == [] then [] else EntriesOf(chunks[..|chunks| - 1]) + [EntryOf(chunks[|chunks| - 1])]
  }

  function FromPath(path: string): IndexEntry -> bool {
    (e: IndexEntry) => e.meta.path == path
  }

  function NotFromPath(path: string): IndexEntry -> bool {
    (e: IndexEntry) => e.meta.path != path
  }

  function Restrict(entries: seq<IndexEntry>, path: string): seq<IndexEntry> {
    Filter(FromPath(path), entries)
  }

  function Removed(entries: seq<IndexEntry>, path: string): seq<IndexEntry> {
    Filter(NotFromPath(path), entries)
  }

  lemma RestrictRemoved(entries: seq<IndexEntry>, path: string, other: string)
    ensures Restrict(Removed(entries, path), other) == if other == path then [] else Restrict(entries, other)
  {
    if other == path {
      FilterMembers(NotFromPath(path), entries);
      FilterNone(FromPath(path), Removed(entries, path));
    } else {
      FilterAbsorb(FromPath(other), NotFromPath(path), entries);
    }
  }

  lemma {:induction false} EntriesFrom(chunks: seq<Chunk>, from: string)
    requires forall c :: c in chunks ==> c.path == from
    ensures forall e :: e in EntriesOf(chunks) ==> e.meta.path == from
  {
    if chunks != [] {
      EntriesFrom(chunks[..|chunks| - 1], from);
    }
  }

  lemma RestrictAdded(entries: seq<IndexEntry>, chunks: seq<Chunk>, from: string, path: string)
    requires forall c :: c in chunks ==> c.path == from
    ensures Restrict(entries + EntriesOf(chunks), path)
      == Restrict(entries, path) + (if from == path then EntriesOf(chunks) else [])
  {
    EntriesFrom(chunks, from);
    FilterConcat(FromPath(path), entries, EntriesOf(chunks));
    if from == path {
      FilterAll(FromPath(path), EntriesOf(chunks));
    } else {
      FilterNone(FromPath(path), EntriesOf(chunks));
    }
  }

  /** The entry of a chunk: its fingerprint and where it is. */
  predicate Enters(e: IndexEntry, c: Chunk) {
    && e.fingerprint == c.simhash && e.meta.path == c.path && e.meta.symbol == c.symbol
    && e.meta.startLine == c.startLine && e.meta.endLine == c.endLine
  }

  /** The entries describe the chunks one by one. */
  predicate EnteredFrom(entries: seq<IndexEntry>, chunks: seq<Chunk>) {
    |entries| == |chunks| && forall i :: 0 <= i < |chunks| ==> Enters(entries[i], chunks[i])
  }

  lemma {:induction false} EntriesAreEntered(chunks: seq<Chunk>)
    ensures EnteredFrom(EntriesOf(chunks), chunks)
  {
    if chunks != [] {
      EntriesAreEntered(chunks[..|chunks| - 1]);
    }
  }

  /** Entry lists that agree file by file agree up to order. */
  lemma PartsDetermineEntries(a: seq<IndexEntry>, b: seq<IndexEntry>)
    requires forall path :: Restrict(a, path) == Restrict(b, path)
    ensures multiset(a) == multiset(b)
  {
    forall e
      ensures multiset(a)[e] == multiset(b)[e]
    {
      assert Restrict(a, e.meta.path) == Restrict(b, e.meta.path);
      FilterCount(FromPath(e.meta.path), a, e);
      FilterCount(FromPath(e.meta.path), b, e);
    }
  }

  // ------------------------------------------------------------ similarity

  /** Similarity as an exact rational; every value is a multiple of 1/64. */
  ghost function SimilarityOf(a: uint64, b: uint64): real {
    1.0 - Distance(a, b) as real / 64.0
  }

  /** The positions at which two words agree. */
  ghost function Agreeing(a: uint64, b: uint64): set<int> {
    set i: int | 0 <= i < 64 && Bit(a, i) == Bit(b, i)
  }

  ghost predicate Opposite(a: uint64, b: uint64) {
    forall i: nat :: i < 64 ==> Bit(a, i) != Bit(b, i)
  }

  lemma AgreeingCount(a: uint64, b: uint64)
    ensures |Agreeing(a, b)| + Distance(a, b) == 64
  {
    hide Bit;
    assert Range(64) == Differing(a, b, 64) + Agreeing(a, b);
    assert Differing(a, b, 64) !! Agreeing(a, b);
  }

  lemma NoneAgreeing(a: uint64, b: uint64)
    ensures |Agreeing(a, b)| == 0 <==> Opposite(a, b)
  {
    if |Agreeing(a, b)| == 0 {
      forall i: nat | i < 64
        ensures Bit(a, i) != Bit(b, i)
      {
        assert i !in Agreeing(a, b);
      }
    } else {
      var i: nat :| i in Agreeing(a, b);
      assert Bit(a, i) == Bit(b, i);
    }
  }

  /** Similarity is the fraction of the 64 positions at which the words agree. */
  lemma SimilarityMeaning(a: uint64, b: uint64)
    ensures SimilarityOf(a, b) * 64.0 == |Agreeing(a, b)| as real
    ensures SimilarityOf(a, b) == 1.0 <==> a == b
    ensures SimilarityOf(a, b) == 0.0 <==> Opposite(a, b)
  {
    hide Bit, Agreeing, Distance, Opposite;
    DistanceIsMetric(a, b, b);
    AgreeingCount(a, b);
    NoneAgreeing(a, b);
  }

  method Similarity(a: uint64, b: uint64) returns (s: real)
    ensures s == SimilarityOf(a, b) && s * 64.0 == |Agreeing(a, b)| as real
    ensures 0.0 <= s <= 1.0
    ensures s == 1.0 <==> a == b
    ensures s == 0.0 <==> Opposite(a, b)
  {
    var d := Hamming(a, b);
    DistanceIsMetric(a, b, b);
    SimilarityMeaning(a, b);
    s := 1.0 - d as real / 64.0;
  }

  ghost function Qualifies(fp: uint64, threshold: real, excludePath: string): IndexEntry -> bool {
    (e: IndexEntry) => e.meta.path != excludePath && SimilarityOf(fp, e.fingerprint) >= threshold
  }

  ghost function MatchesOf(fp: uint64, entries: seq<IndexEntry>): seq<Match> {
    if entries == [] then []
    else
      var e := entries[|entries| - 1];
      MatchesOf(fp, entries[..|entries| - 1]) + [Match(e.meta, SimilarityOf(fp, e.fingerprint))]
  }

  lemma MatchesSnoc(fp: uint64, entries: seq<IndexEntry>, e: IndexEntry)
    ensures MatchesOf(fp, entries + [e]) == MatchesOf(fp, entries) + [Match(e.meta, SimilarityOf(fp, e.fingerprint))]
  {
    assert (entries + [e])[..|entries|] == entries;
  }

  lemma {:induction false} MatchesMembers(fp: uint64, entries: seq<IndexEntry>)
    ensures forall m :: m in MatchesOf(fp, entries) <==>
      exists e :: e in entries && m.meta == e.meta && m.similarity == SimilarityOf(fp, e.fingerprint)
  {
    if entries != [] {
      MatchesMembers(fp, entries[..|entries| - 1]);
      assert entries == entries[..|entries| - 1] + [entries[|entries| - 1]];
    }
  }

  /** The match of an entry that the search is to consider. */
  ghost predicate Hit(fp: uint64, threshold: real, excludePath: string, e: IndexEntry, m: Match) {
    && e.meta.path != excludePath && m.meta == e.meta
    && m.similarity * 64.0 == |Agreeing(fp, e.fingerprint)| as real && m.similarity >= threshold
  }

  /** Every match kept is a hit, nothing is missing while there is room, and what
      a full list leaves out is no more similar than anything on it. */
  ghost predicate Ranks(fp: uint64, threshold: real, excludePath: string, entries: seq<IndexEntry>, topK: int, kept: seq<Match>) {
    var k := if topK <= 0 then 5 else topK;
    && |kept| <= k
    && (forall m :: m in kept ==> exists e :: e in entries && Hit(fp, threshold, excludePath, e, m))
    && (forall i, j :: 0 <= i < j < |kept| ==> kept[i].similarity >= kept[j].similarity)
    && (forall e, m :: e in entries && Hit(fp, threshold, excludePath, e, m) && m !in kept ==>
          |kept| == k && forall y :: y in kept ==> y.similarity >= m.similarity)
  }

  /** What the loop collects: exactly the hits. */
  lemma CollectedHits(fp: uint64, threshold: real, excludePath: string, entries: seq<IndexEntry>, m: Match)
    ensures m in MatchesOf(fp, Filter(Qualifies(fp, threshold, excludePath), entries))
      <==> exists e :: e in entries && Hit(fp, threshold, excludePath, e, m)
  {
    hide Agreeing, SimilarityOf;
    var want := Qualifies(fp, threshold, excludePath);
    FilterMembers(want, entries);
    MatchesMembers(fp, Filter(want, entries));
    forall e: uint64 { SimilarityMeaning(fp, e); }
    if e :| e in entries && Hit(fp, threshold, excludePath, e, m) {
      assert e in Filter(want, entries);
    }
    if e :| e in Filter(want, entries) && m.meta == e.meta && m.similarity == SimilarityOf(fp, e.fingerprint) {
      assert Hit(fp, threshold, excludePath, e, m);
    }
  }

  lemma BestRanks(fp: uint64, threshold: real, excludePath: string, entries: seq<IndexEntry>, topK: int, kept: seq<Match>)
    requires BestOf(MatchesOf(fp, Filter(Qualifies(fp, threshold, excludePath), entries)), if topK <= 0 then 5 else topK, kept)
    ensures Ranks(fp, threshold, excludePath, entries, topK, kept)
  {
    hide Hit, MatchesOf, Filter;
    var all := MatchesOf(fp, Filter(Qualifies(fp, threshold, excludePath), entries));
    forall m
      ensures m in all <==> exists e :: e in entries && Hit(fp, threshold, excludePath, e, m)
    {
      CollectedHits(fp, threshold, excludePath, entries, m);
    }
    forall m | m in kept
      ensures m in all
    {
      assert m in multiset(all);
    }
    forall m | m in all && m !in kept
      ensures |kept| == (if topK <= 0 then 5 else topK) && forall y :: y in kept ==> y.similarity >= m.similarity
    {
      assert m in multiset(all) - multiset(kept);
      LeftOut(all, kept, m);
    }
  }

  lemma LeftOut(all: seq<Match>, kept: seq<Match>, m: Match)
    requires multiset(kept) <= multiset(all) && m in multiset(all) - multiset(kept)
    ensures |kept| < |all|
  {
    assert multiset(all) == multiset(kept) + (multiset(all) - multiset(kept));
    assert |multiset(all)| == |kept| + |multiset(all) - multiset(kept)|;
  }

  /** Indexed code is found: a search from elsewhere with the fingerprint of an
      indexed chunk lists it, unless the list is full of chunks with the very same
      fingerprint. */
  lemma IndexedIsFound(before: seq<IndexEntry>, chunks: seq<Chunk>, c: Chunk, threshold: real, excludePath: string, topK: int,
                       kept: seq<Match>)
    requires c in chunks && c.path != excludePath && threshold <= 1.0
    requires Ranks(c.simhash, threshold, excludePath, before + EntriesOf(chunks), topK, kept)
    ensures Match(Meta(c.path, c.symbol, c.startLine, c.endLine), 1.0) in kept
      || (|kept| == (if topK <= 0 then 5 else topK) && forall y :: y in kept ==> y.similarity == 1.0)
  {
    var all := before + EntriesOf(chunks);
    var i :| 0 <= i < |chunks| && chunks[i] == c;
    EntriesAreEntered(chunks);
    var e := all[|before| + i];
    assert Enters(e, c);
    SimilarityMeaning(c.simhash, c.simhash);
    var m := Match(e.meta, 1.0);
    assert e in all && Hit(c.simhash, threshold, excludePath, e, m);
    forall y | y in kept
      ensures y.similarity <= 1.0
    {
      var f :| f in all && Hit(c.simhash, threshold, excludePath, f, y);
      SimilarityMeaning(c.simhash, f.fingerprint);
      assert y.similarity == SimilarityOf(c.simhash, f.fingerprint);
    }
  }

  function BySimilarity(): (Match, Match) -> bool {
    (a: Match, b: Match) => a.similarity > b.similarity
  }

  /** A best selection of k among `all`: most similar first, and nothing left
      out beats anything kept. */
  ghost predicate BestOf(all: seq<Match>, k: nat, kept: seq<Match>) {
    && multiset(kept) <= multiset(all)
    && |kept| == Min(|all|, k)
    && (forall i, j :: 0 <= i < j < |kept| ==> kept[i].similarity >= kept[j].similarity)
    && (forall x, y :: x in multiset(all) - multiset(kept) && y in kept ==> x.similarity <= y.similarity)
  }

  /** Sorting and truncating selects the best. */
  lemma SortedIsBest(all: seq<Match>, sorted: seq<Match>, k: nat)
    requires multiset(all) == multiset(sorted) && SortedBy(sorted, BySimilarity())
    ensures BestOf(all, k, Take(sorted, k))
  {
    var kept := Take(sorted, k);
    TopOfSorted(all, sorted, k, BySimilarity());
    forall x, y | x in multiset(all) - multiset(kept) && y in kept
      ensures x.similarity <= y.similarity
    {
      assert !BySimilarity()(x, y);
    }
    forall i, j | 0 <= i < j < |kept|
      ensures kept[i].similarity >= kept[j].similarity
    {
      assert !BySimilarity()(kept[j], kept[i]);
    }
  }

  /** Ranking by similarity is ranking by Hamming distance. */
  lemma CloserIsMoreSimilar(fp: uint64, a: uint64, b: uint64)
    ensures SimilarityOf(fp, a) >= SimilarityOf(fp, b) <==> Distance(fp, a) <= Distance(fp, b)
  {
  }

  class Index {
    var entries: seq<IndexEntry>

    constructor ()
      ensures entries == []
    {
      entries := [];
    }

    method Add(fp: uint64, m: Meta)
      modifies this
      ensures entries == old(entries) + [IndexEntry(fp, m)]
    {
      entries := entries + [IndexEntry(fp, m)];
    }

    /** simhashAddChunks. */
    method AddChunks(chunks: seq<Chunk>)
      modifies this
      ensures entries == old(entries) + EntriesOf(chunks)
      ensures old(entries) <= entries && EnteredFrom(entries[|old(entries)|..], chunks)
    {
      for i := 0 to |chunks|
        invariant entries == old(entries) + EntriesOf(chunks[..i])
      {
        var c := chunks[i];
        assert chunks[..i + 1][..i] == chunks[..i];
        Add(c.simhash, Meta(c.path, c.symbol, c.startLine, c.endLine));
      }
      assert chunks[..|chunks|] == chunks;
      EntriesAreEntered(chunks);
    }

    method RemoveByPath(path: string)
      modifies this
      ensures entries == Removed(old(entries), path)
    {
      var before := entries;
      var kept: seq<IndexEntry> := [];
      for i := 0 to |before|
        invariant kept == Filter(NotFromPath(path), before[..i])
      {
        FilterStep(NotFromPath(path), before, i);
        if before[i].meta.path != path {
          kept := kept + [before[i]];
        }
      }
      assert before[..|before|] == before;
      entries := kept;
    }

    method FindSimilar(fp: uint64, threshold: real, excludePath: string, topK: int) returns (kept: seq<Match>)
      ensures BestOf(MatchesOf(fp, Filter(Qualifies(fp, threshold, excludePath), entries)),
                     if topK <= 0 then 5 else topK, kept)
      ensures Ranks(fp, threshold, excludePath, entries, topK, kept)
    {
      hide BestOf, Ranks, SortedBy;
      var limit := if topK <= 0 then 5 else topK;
      ghost var want := Qualifies(fp, threshold, excludePath);
      var matches: seq<Match> := [];
      for i := 0 to |entries|
        invariant matches == MatchesOf(fp, Filter(want, entries[..i]))
      {
        var e := entries[i];
        FilterStep(want, entries, i);
        assert Filter(want, entries[..i]) + [] == Filter(want, entries[..i]);
        if e.meta.path == excludePath {
          continue;
        }
        var sim := Similarity(fp, e.fingerprint);
        if sim >= threshold {
          MatchesSnoc(fp, Filter(want, entries[..i]), e);
          matches := matches + [Match(e.meta, sim)];
        }
      }
      assert entries[..|entries|] == entries;
      var sorted := SortSlice(matches, BySimilarity());
      SortedIsBest(matches, sorted, limit);
      kept := if |sorted| > limit then sorted[..limit] else sorted;
      assert kept == Take(sorted, limit);
      BestRanks(fp, threshold, excludePath, entries, topK, kept);
    }
  }
}
