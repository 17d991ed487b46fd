/** Batched embedding with a cache (internal/app/embed.go). */
module Embedding {
  import opened Common
  import opened Chunks
  import opened VectorStore

  const DEFAULT_BATCH_SIZE := 32

  /** The embedding cache: vectors by chunk identifier. */
  class EmbeddingCache {
    var entries: map<string, Vec>

    constructor ()
      ensures entries == map[]
    {
      entries := map[];
    }
  }

  /** Identifiers are digests: they determine the text. */
  ghost predicate Identified(textOf: string -> string, chunks: seq<Chunk>) {
    forall i :: 0 <= i < |chunks| ==> textOf(chunks[i].id) == chunks[i].content
  }

  /** Every cached vector is the embedding of the text its key stands for. */
  ghost predicate Coherent(embed: string -> Vec, textOf: string -> string, entries: map<string, Vec>) {
    forall id :: id in entries ==> entries[id] == embed(textOf(id))
  }

  /** Nothing is forgotten, and only identifiers of `chunks` are new. */
  ghost predicate GrowsBy(chunks: seq<Chunk>, before: map<string, Vec>, after: map<string, Vec>) {
    before.Keys <= after.Keys && forall id :: id in after ==> id in before || HasId(chunks, id)
  }

  function Cached(entries: Option<map<string, Vec>>, id: string): bool {
    entries.Some? && id in entries.value
  }

  /** The positions that need the provider. */
  function Missing(entries: Option<map<string, Vec>>, chunks: seq<Chunk>): (r: seq<nat>)
    ensures forall k :: 0 <= k < |r| ==> r[k] < |chunks| && !Cached(entries, chunks[r[k]].id)
    ensures forall i :: 0 <= i < |chunks| && !Cached(entries, chunks[i].id) ==> i in r
    ensures forall k, l :: 0 <= k < l < |r| ==> r[k] < r[l]
  {
    if chunks == [] then []
    else
      var n := |chunks| - 1;
      var front := Missing(entries, chunks[..n]);
      if Cached(entries, chunks[n].id) then front else front + [n]
  }

  lemma {:induction false} IncreasingCount(s: seq<nat>)
    requires forall k, l :: 0 <= k < l < |s| ==> s[k] < s[l]
    ensures |set k | 0 <= k < |s| :: s[k]| == |s|
  {
    if s != [] {
      var n := |s| - 1;
      IncreasingCount(s[..n]);
      var front := set k | 0 <= k < n :: s[..n][k];
      assert (set k | 0 <= k < |s| :: s[k]) == front + {s[n]};
      assert s[n] !in front;
    }
  }

  /** The positions without a cached vector. */
  function Misses(entries: Option<map<string, Vec>>, chunks: seq<Chunk>): set<int> {
    set i | 0 <= i < |chunks| && !Cached(entries, chunks[i].id)
  }

  lemma PlainMisses(entries: Option<map<string, Vec>>, chunks: seq<Chunk>, misses: set<int>)
    requires forall i :: i in misses <==> 0 <= i < |chunks| && (entries.None? || chunks[i].id !in entries.value)
    ensures misses == Misses(entries, chunks)
  {
  }

  /** Each position without a cached vector is listed once. */
  lemma MissingCount(entries: Option<map<string, Vec>>, chunks: seq<Chunk>)
    ensures |Missing(entries, chunks)| == |Misses(entries, chunks)|
  {
    var missing := Missing(entries, chunks);
    IncreasingCount(missing);
    var listed := set k | 0 <= k < |missing| :: missing[k] as int;
    forall i | i in Misses(entries, chunks)
      ensures i in listed
    {
      var k :| 0 <= k < |missing| && missing[k] == i;
    }
    assert listed == Misses(entries, chunks);
    assert listed == set k | 0 <= k < |missing| :: missing[k];
  }

  lemma NoneMissing(entries: Option<map<string, Vec>>, chunks: seq<Chunk>)
    requires |Misses(entries, chunks)| == 0
    ensures forall i :: 0 <= i < |chunks| ==> Cached(entries, chunks[i].id)
  {
    var misses := Misses(entries, chunks);
    assert misses == {};
    forall i | 0 <= i < |chunks|
      ensures Cached(entries, chunks[i].id)
    {
      assert i !in misses;
    }
  }

  function BatchOf(batchSize: int): nat {
    if batchSize <= 0 then DEFAULT_BATCH_SIZE else batchSize
  }

  /** The [start, stop) ranges into which `total` missing texts are cut. */
  function Bounds(start: nat, total: nat, size: nat): (r: seq<(nat, nat)>)
    requires size > 0
    decreases total - start
  {
    if start >= total then [] else [(start, Min(start + size, total))] + Bounds(start + size, total, size)
  }

  /** Request b is made exactly if the ones before it leave something, and asks for
      the next `size` texts or the rest. */
  lemma {:induction false} BoundsAt(start: nat, total: nat, size: nat, b: nat)
    requires size > 0
    ensures b < |Bounds(start, total, size)| <==> start + b * size < total
    ensures b < |Bounds(start, total, size)| ==>
      Bounds(start, total, size)[b] == (start + b * size, Min(start + b * size + size, total))
    decreases b
  {
    if start < total && b > 0 {
      BoundsAt(start + size, total, size, b - 1);
      assert start + size + (b - 1) * size == start + b * size;
    } else if start >= total {
      assert b * size >= 0;
    }
  }

  /** Request b is made exactly if b full batches do not cover the misses. */
  lemma RequestsMade(entries: Option<map<string, Vec>>, chunks: seq<Chunk>, size: nat)
    requires size > 0
    ensures |Missing(entries, chunks)| == |Misses(entries, chunks)|
    ensures forall b: nat {:trigger b * size} ::
      b >= |Bounds(0, |Missing(entries, chunks)|, size)| <==> b * size >= |Misses(entries, chunks)|
  {
    MissingCount(entries, chunks);
    forall b: nat { BoundsAt(0, |Missing(entries, chunks)|, size, b); }
  }

  predicate Holds(bounds: seq<(nat, nat)>, j: nat, k: nat) {
    j < |bounds| && bounds[j].0 <= k < bounds[j].1
  }

  ghost predicate InSome(bounds: seq<(nat, nat)>, k: nat) {
    exists j :: Holds(bounds, j, k)
  }

  /** The ranges lie between `start` and `total` and follow one another. */
  ghost predicate InOrder(bounds: seq<(nat, nat)>, start: nat, total: nat) {
    && (forall j :: 0 <= j < |bounds| ==> start <= bounds[j].0 < bounds[j].1 <= total)
    && (forall i, j :: 0 <= i < j < |bounds| ==> bounds[i].1 <= bounds[j].0)
  }

  /** They follow one another and cover everything from `start` to `total`. */
  ghost predicate Covers(bounds: seq<(nat, nat)>, start: nat, total: nat) {
    InOrder(bounds, start, total) && forall k: nat :: InSome(bounds, k) <==> start <= k < total
  }

  lemma InSomeCons(first: (nat, nat), rest: seq<(nat, nat)>, k: nat)
    ensures InSome([first] + rest, k) <==> first.0 <= k < first.1 || InSome(rest, k)
  {
    var bounds := [first] + rest;
    if first.0 <= k < first.1 {
      assert Holds(bounds, 0, k);
    }
    if InSome(rest, k) {
      var j: nat :| Holds(rest, j, k);
      assert Holds(bounds, j + 1, k);
    }
    if InSome(bounds, k) {
      var j: nat :| Holds(bounds, j, k);
      assert j > 0 ==> Holds(rest, j - 1, k);
    }
  }

  lemma InOrderCons(first: (nat, nat), rest: seq<(nat, nat)>, total: nat)
    requires first.0 < first.1 <= total && InOrder(rest, first.1, total)
    ensures InOrder([first] + rest, first.0, total)
  {
    var bounds := [first] + rest;
    assert bounds[0] == first && forall j :: 0 < j < |bounds| ==> bounds[j] == rest[j - 1];
  }

  lemma CoversCons(first: (nat, nat), rest: seq<(nat, nat)>, total: nat)
    requires first.0 < first.1 <= total && Covers(rest, first.1, total)
    ensures Covers([first] + rest, first.0, total)
  {
    hide InSome, InOrder;
    InOrderCons(first, rest, total);
    forall k: nat
      ensures InSome([first] + rest, k) <==> first.0 <= k < total
    {
      InSomeCons(first, rest, k);
    }
  }

  lemma {:induction false} BoundsCover(start: nat, total: nat, size: nat)
    requires size > 0
    ensures Covers(Bounds(start, total, size), start, total)
    decreases total - start
  {
    if start < total {
      BoundsCover(start + size, total, size);
      CoversCons((start, Min(start + size, total)), Bounds(start + size, total, size), total);
    }
  }

  function Interval(lo: nat, hi: nat): (r: set<nat>)
    requires lo <= hi
    ensures forall k: nat :: k in r <==> lo <= k < hi
    ensures |r| == hi - lo
  {
    if lo == hi then {} else Interval(lo, hi - 1) + {hi - 1}
  }

  /** The ranges do not overlap. */
  lemma OneBatch(bounds: seq<(nat, nat)>, total: nat, i: nat, j: nat, k: nat)
    requires Covers(bounds, 0, total) && Holds(bounds, i, k)
    ensures Holds(bounds, j, k) <==> i == j
  {
  }

  function EntriesOf(cache: EmbeddingCache?): Option<map<string, Vec>>
    reads if cache == null then {} else {cache}
  {
    if cache == null then None else Some(cache.entries)
  }

  /** Sorts positions into those the cache answers and those it does not. */
  method Lookup(chunks: seq<Chunk>, cache: EmbeddingCache?, results: array<Vec>) returns (missing: seq<nat>)
    requires results.Length == |chunks|
    modifies results
    ensures missing == Missing(EntriesOf(cache), chunks)
    ensures forall i :: 0 <= i < |chunks| && cache != null && chunks[i].id in cache.entries ==>
      results[i] == cache.entries[chunks[i].id]
  {
    missing := [];
    for i := 0 to |chunks|
      invariant missing == Missing(EntriesOf(cache), chunks[..i])
      invariant forall j :: 0 <= j < i && cache != null && chunks[j].id in cache.entries ==>
        results[j] == cache.entries[chunks[j].id]
    {
      assert chunks[..i + 1][..i] == chunks[..i];
      if cache != null && chunks[i].id in cache.entries {
        results[i] := cache.entries[chunks[i].id];
      } else {
        missing := missing + [i];
      }
    }
    assert chunks[..|chunks|] == chunks;
  }

  method CutBatches(total: nat, size: nat) returns (bounds: seq<(nat, nat)>)
    requires size > 0
    ensures bounds == Bounds(0, total, size)
  {
    bounds := [];
    var i := 0;
    assert bounds + Bounds(0, total, size) == Bounds(0, total, size);
    while i < total
      invariant bounds + Bounds(i, total, size) == Bounds(0, total, size)
      decreases total - i
    {
      var end := i + size;
      if end > total {
        end := total;
      }
      bounds := bounds + [(i, end)];
      i := i + size;
    }
  }

  /** The positions written by the batches in `done`. */
  ghost predicate Written(bounds: seq<(nat, nat)>, done: set<nat>, covered: set<nat>) {
    forall k :: k in covered <==> exists j :: j in done && Holds(bounds, j, k)
  }

  lemma WriteBatch(bounds: seq<(nat, nat)>, total: nat, done: set<nat>, covered: set<nat>, b: nat)
    requires Covers(bounds, 0, total) && Written(bounds, done, covered)
    requires b < |bounds| && b !in done && forall j :: j in done ==> j < |bounds|
    ensures Written(bounds, done + {b}, covered + Interval(bounds[b].0, bounds[b].1))
    ensures |covered + Interval(bounds[b].0, bounds[b].1)| == |covered| + (bounds[b].1 - bounds[b].0)
  {
    var added := Interval(bounds[b].0, bounds[b].1);
    forall k: nat | k in added
      ensures k !in covered && Holds(bounds, b, k)
    {
      forall j { OneBatch(bounds, total, b, j, k); }
    }
    assert covered !! added;
  }

  lemma AllWritten(bounds: seq<(nat, nat)>, total: nat, done: set<nat>, covered: set<nat>)
    requires Covers(bounds, 0, total) && Written(bounds, done, covered)
    requires forall j :: j in done <==> 0 <= j < |bounds|
    ensures |covered| == total && covered == Interval(0, total)
  {
    forall k: nat
      ensures k in covered <==> k in Interval(0, total)
    {
      assert InSome(bounds, k) <==> 0 <= k < total;
    }
    assert covered == Interval(0, total);
  }

  /** Which batches are still pending and which have succeeded. */
  ghost predicate Schedule(n: nat, failing: set<nat>, pending: set<nat>, done: set<nat>, ok: bool) {
    && (forall j: nat :: j in pending ==> j < n && j !in done)
    && (forall j: nat :: j in done ==> j < n && j !in failing)
    && (forall j: nat :: j < n ==> j in pending || j in done || j in failing)
    && (ok <==> forall j: nat :: j in failing && j < n ==> j in pending)
  }

  lemma ScheduleStep(n: nat, failing: set<nat>, pending: set<nat>, done: set<nat>, ok: bool, b: nat)
    requires Schedule(n, failing, pending, done, ok) && b in pending
    ensures Schedule(n, failing, pending - {b}, if b in failing then done else done + {b}, ok && b !in failing)
  {
  }

  ghost predicate Right(embed: string -> Vec, chunks: seq<Chunk>, results: seq<Vec>, i: nat) {
    i < |chunks| && i < |results| && results[i] == embed(chunks[i].content)
  }

  ghost predicate RightAt(embed: string -> Vec, chunks: seq<Chunk>, missing: seq<nat>, results: seq<Vec>, covered: set<nat>) {
    forall k :: k in covered ==> k < |missing| && Right(embed, chunks, results, missing[k])
  }

  /** Entries change only to the right value. */
  ghost predicate OnlyRight(embed: string -> Vec, chunks: seq<Chunk>, before: seq<Vec>, after: seq<Vec>) {
    |before| == |after| == |chunks|
    && forall i :: 0 <= i < |chunks| ==> after[i] == before[i] || Right(embed, chunks, after, i)
  }

  ghost predicate IdsCached(chunks: seq<Chunk>, missing: seq<nat>, entries: map<string, Vec>, covered: set<nat>) {
    forall k :: k in covered ==> k < |missing| && missing[k] < |chunks| && chunks[missing[k]].id in entries
  }

  /** The results after the batches that cover `covered`. */
  ghost predicate Filled(embed: string -> Vec, chunks: seq<Chunk>, missing: seq<nat>, before: seq<Vec>, after: seq<Vec>, covered: set<nat>) {
    RightAt(embed, chunks, missing, after, covered) && OnlyRight(embed, chunks, before, after)
  }

  lemma NothingFilled(embed: string -> Vec, chunks: seq<Chunk>, missing: seq<nat>, results: seq<Vec>)
    requires |results| == |chunks|
    ensures Filled(embed, chunks, missing, results, results, {})
  {
  }

  lemma FillBatch(embed: string -> Vec, chunks: seq<Chunk>, missing: seq<nat>, r0: seq<Vec>, r1: seq<Vec>, r2: seq<Vec>,
                  covered: set<nat>, added: set<nat>)
    requires Filled(embed, chunks, missing, r0, r1, covered) && Filled(embed, chunks, missing, r1, r2, added)
    ensures Filled(embed, chunks, missing, r0, r2, covered + added)
  {
  }

  /** The cache after the batches that cover `covered`. */
  ghost predicate Kept(chunks: seq<Chunk>, missing: seq<nat>, before: map<string, Vec>, after: map<string, Vec>, covered: set<nat>) {
    GrowsBy(chunks, before, after) && IdsCached(chunks, missing, after, covered)
  }

  lemma NothingKept(chunks: seq<Chunk>, missing: seq<nat>, entries: map<string, Vec>)
    ensures Kept(chunks, missing, entries, entries, {})
  {
  }

  lemma KeepBatch(chunks: seq<Chunk>, missing: seq<nat>, e0: map<string, Vec>, e1: map<string, Vec>, e2: map<string, Vec>,
                  covered: set<nat>, added: set<nat>)
    requires Kept(chunks, missing, e0, e1, covered) && Kept(chunks, missing, e1, e2, added)
    ensures Kept(chunks, missing, e0, e2, covered + added)
  {
  }

  lemma FillOne(embed: string -> Vec, chunks: seq<Chunk>, missing: seq<nat>, r0: seq<Vec>, r1: seq<Vec>, covered: set<nat>, k: nat)
    requires Filled(embed, chunks, missing, r0, r1, covered) && k < |missing| && missing[k] < |chunks|
    ensures |r1| == |chunks|
    ensures Filled(embed, chunks, missing, r0, r1[missing[k] := embed(chunks[missing[k]].content)], covered + {k})
  {
  }

  lemma CacheOne(embed: string -> Vec, textOf: string -> string, chunks: seq<Chunk>, missing: seq<nat>,
                 e0: map<string, Vec>, e1: map<string, Vec>, covered: set<nat>, k: nat)
    requires Identified(textOf, chunks) && k < |missing| && missing[k] < |chunks|
    requires Coherent(embed, textOf, e1) && Kept(chunks, missing, e0, e1, covered)
    ensures var c := chunks[missing[k]]; var e2 := e1[c.id := embed(c.content)];
      Coherent(embed, textOf, e2) && Kept(chunks, missing, e0, e2, covered + {k})
  {
  }

  /** One successful request: stores the vectors of missing[lo..hi]. */
  method RunBatch(embed: string -> Vec, chunks: seq<Chunk>, missing: seq<nat>, lo: nat, hi: nat,
                  results: array<Vec>, cache: EmbeddingCache?, ghost textOf: string -> string)
    requires results.Length == |chunks| && lo <= hi <= |missing|
    requires forall k :: 0 <= k < |missing| ==> missing[k] < |chunks|
    requires Identified(textOf, chunks)
    requires cache != null ==> Coherent(embed, textOf, cache.entries)
    modifies results, if cache == null then {} else {cache}
    ensures Filled(embed, chunks, missing, old(results[..]), results[..], Interval(lo, hi))
    ensures cache != null ==>
      Coherent(embed, textOf, cache.entries) && Kept(chunks, missing, old(cache.entries), cache.entries, Interval(lo, hi))
  {
    hide Filled, Kept, Coherent;
    NothingFilled(embed, chunks, missing, results[..]);
    if cache != null { NothingKept(chunks, missing, cache.entries); }
    for k := lo to hi
      invariant Filled(embed, chunks, missing, old(results[..]), results[..], Interval(lo, k))
      invariant cache != null ==>
        Coherent(embed, textOf, cache.entries) && Kept(chunks, missing, old(cache.entries), cache.entries, Interval(lo, k))
    {
      var idx := missing[k];
      var vector := embed(chunks[idx].content);
      FillOne(embed, chunks, missing, old(results[..]), results[..], Interval(lo, k), k);
      ghost var before := results[..];
      results[idx] := vector;
      assert results[..] == before[idx := vector];
      if cache != null {
        CacheOne(embed, textOf, chunks, missing, old(cache.entries), cache.entries, Interval(lo, k), k);
        cache.entries := cache.entries[chunks[idx].id := vector];
      }
    }
  }

  /** Runs every batch; the next one to complete is any of those pending. */
  method RunBatches(embed: string -> Vec, bounds: seq<(nat, nat)>, failing: set<nat>, chunks: seq<Chunk>, missing: seq<nat>,
                    results: array<Vec>, cache: EmbeddingCache?, ghost textOf: string -> string)
    returns (ok: bool, reported: nat)
    requires results.Length == |chunks| && Covers(bounds, 0, |missing|)
    requires forall k :: 0 <= k < |missing| ==> missing[k] < |chunks|
    requires Identified(textOf, chunks)
    requires cache != null ==> Coherent(embed, textOf, cache.entries)
    modifies results, if cache == null then {} else {cache}
    ensures ok <==> forall b :: b in failing ==> b >= |bounds|
    ensures ok ==> reported == |missing| && Filled(embed, chunks, missing, old(results[..]), results[..], Interval(0, |missing|))
    ensures cache != null ==>
      && Coherent(embed, textOf, cache.entries)
      && GrowsBy(chunks, old(cache.entries), cache.entries)
      && (ok ==> Kept(chunks, missing, old(cache.entries), cache.entries, Interval(0, |missing|)))
  {
    hide Filled, GrowsBy, IdsCached;
    NothingFilled(embed, chunks, missing, results[..]);
    if cache != null { NothingKept(chunks, missing, cache.entries); }
    reported := 0;
    ok := true;
    var pending := Interval(0, |bounds|);
    ghost var done: set<nat> := {};
    ghost var covered: set<nat> := {};
    while pending != {}
      invariant Schedule(|bounds|, failing, pending, done, ok)
      invariant Written(bounds, done, covered) && reported == |covered|
      invariant Filled(embed, chunks, missing, old(results[..]), results[..], covered)
      invariant cache != null ==>
        Coherent(embed, textOf, cache.entries) && Kept(chunks, missing, old(cache.entries), cache.entries, covered)
      decreases pending
    {
      var b :| b in pending;
      ScheduleStep(|bounds|, failing, pending, done, ok, b);
      pending := pending - {b};
      if b in failing {
        ok := false;
      } else {
        WriteBatch(bounds, |missing|, done, covered, b);
        ghost var added := Interval(bounds[b].0, bounds[b].1);
        ghost var before := results[..];
        ghost var entries := if cache == null then map[] else cache.entries;
        RunBatch(embed, chunks, missing, bounds[b].0, bounds[b].1, results, cache, textOf);
        FillBatch(embed, chunks, missing, old(results[..]), before, results[..], covered, added);
        if cache != null { KeepBatch(chunks, missing, old(cache.entries), entries, cache.entries, covered, added); }
        reported := reported + (bounds[b].1 - bounds[b].0);
        done := done + {b};
        covered := covered + added;
      }
    }
    if ok {
      AllWritten(bounds, |missing|, done, covered);
    }
  }

  /** Every position is either to be embedded or already right. */
  ghost predicate LookedUp(embed: string -> Vec, chunks: seq<Chunk>, missing: seq<nat>, results: seq<Vec>) {
    forall i :: 0 <= i < |chunks| ==> i in missing || Right(embed, chunks, results, i)
  }

  lemma LookupIsRight(embed: string -> Vec, textOf: string -> string, chunks: seq<Chunk>, entries: Option<map<string, Vec>>,
                      missing: seq<nat>, results: seq<Vec>)
    requires |results| == |chunks| && Identified(textOf, chunks) && (entries.Some? ==> Coherent(embed, textOf, entries.value))
    requires missing == Missing(entries, chunks)
    requires forall i :: 0 <= i < |chunks| && entries.Some? && chunks[i].id in entries.value ==> results[i] == entries.value[chunks[i].id]
    ensures LookedUp(embed, chunks, missing, results)
  {
    hide Missing;
  }

  lemma AllRight(embed: string -> Vec, chunks: seq<Chunk>, missing: seq<nat>, before: seq<Vec>, after: seq<Vec>)
    requires LookedUp(embed, chunks, missing, before) && Filled(embed, chunks, missing, before, after, Interval(0, |missing|))
    ensures forall i :: 0 <= i < |chunks| ==> after[i] == embed(chunks[i].content)
  {
    forall i | 0 <= i < |chunks|
      ensures Right(embed, chunks, after, i)
    {
      if i in missing {
        var k :| 0 <= k < |missing| && missing[k] == i;
        assert k in Interval(0, |missing|);
      }
    }
  }

  lemma AllCached(chunks: seq<Chunk>, missing: seq<nat>, before: map<string, Vec>, after: map<string, Vec>)
    requires missing == Missing(Some(before), chunks) && Kept(chunks, missing, before, after, Interval(0, |missing|))
    ensures forall i :: 0 <= i < |chunks| ==> chunks[i].id in after
  {
    hide Missing, Interval;
    forall i | 0 <= i < |chunks|
      ensures chunks[i].id in after
    {
      if i in missing {
        var k :| 0 <= k < |missing| && missing[k] == i;
        assert k in Interval(0, |missing|);
      }
    }
  }

  /** `embed` is the provider, `failing` the requests that fail: an arbitrary
      set, as a failure may cancel others. On success position i holds the
      embedding of chunk i and the cache misses are reported; the cache stays
      coherent either way. */
  method EmbedChunks(embed: string -> Vec, batchSize: int, failing: set<nat>, chunks: seq<Chunk>, cache: EmbeddingCache?,
                     ghost textOf: string -> string)
    returns (r: Result<seq<Vec>>, reported: nat)
    requires Identified(textOf, chunks)
    requires cache != null ==> Coherent(embed, textOf, cache.entries)
    modifies if cache == null then {} else {cache}
    ensures cache != null ==> Coherent(embed, textOf, cache.entries) && GrowsBy(chunks, old(cache.entries), cache.entries)
    ensures var misses := set i | 0 <= i < |chunks| && (cache == null || chunks[i].id !in old(cache.entries));
      && (r.Ok? <==> forall b :: b in failing ==> b * (if batchSize <= 0 then 32 else batchSize) >= |misses|)
      && (r.Ok? ==> reported == |misses|)
    ensures r.Ok? ==>
      && |r.value| == |chunks|
      && (forall i :: 0 <= i < |chunks| ==> r.value[i] == embed(chunks[i].content))
      && (cache != null ==> forall i :: 0 <= i < |chunks| ==> chunks[i].id in cache.entries)
      && (0 in failing ==> forall i :: 0 <= i < |chunks| ==> Cached(old(EntriesOf(cache)), chunks[i].id))
  {
    hide Missing, Bounds, Misses, Identified, Coherent, LookedUp, Filled, Kept, Covers, GrowsBy, Interval;
    var results := new Vec[|chunks|](_ => []);
    var missing := Lookup(chunks, cache, results);
    ghost var looked := results[..];
    LookupIsRight(embed, textOf, chunks, EntriesOf(cache), missing, looked);
    var bounds := CutBatches(|missing|, BatchOf(batchSize));
    BoundsCover(0, |missing|, BatchOf(batchSize));
    RequestsMade(old(EntriesOf(cache)), chunks, BatchOf(batchSize));
    PlainMisses(old(EntriesOf(cache)), chunks, set i | 0 <= i < |chunks| && (cache == null || chunks[i].id !in old(cache.entries)));
    var ok;
    ok, reported := RunBatches(embed, bounds, failing, chunks, missing, results, cache, textOf);
    if !ok {
      return Err("embed batch"), reported;
    }
    AllRight(embed, chunks, missing, looked, results[..]);
    if 0 in failing {
      assert 0 * BatchOf(batchSize) == 0;
      NoneMissing(old(EntriesOf(cache)), chunks);
    }
    if cache != null {
      AllCached(chunks, missing, old(cache.entries), cache.entries);
    }
    return Ok(results[..]), reported;
  }
}
