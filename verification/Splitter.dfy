/** Line-based splitting of oversized chunks (internal/chunker/split.go). */
module Splitter {
  import opened Common
  import opened Chunks
  import opened Simhash

  const MAX_CHUNK_CHARS := 100_000

  /** The digests a sub-chunk is stamped with: its identifier, from path and
      text, and its simhash fingerprint. */
  datatype Digests = Digests(chunkId: (string, string) -> string, fingerprint: string -> uint64)

  // ---------------------------------------------------------------- lines

  /** strings.Split(s, "\n"). */
  function SplitLines(s: string): (r: seq<string>)
    ensures |r| >= 1
    ensures forall l :: l in r ==> '\n' !in l
  {
    if s == [] then [[]]
    else
      var r := SplitLines(s[..|s| - 1]);
      var c := s[|s| - 1];
      if c == '\n' then r + [[]] else r[..|r| - 1] + [r[|r| - 1] + [c]]
  }

  /** strings.Join(lines, "\n"). */
  function JoinLines(lines: seq<string>): (r: string)
    requires |lines| >= 1
  {
    if |lines| == 1 then lines[0]
    else JoinLines(lines[..|lines| - 1]) + "\n" + lines[|lines| - 1]
  }

  /** The size of a run of lines as the packing loop counts it: every line with
      its newline. */
  function Weight(lines: seq<string>): (w: nat) {
    if lines == [] then 0 else Weight(lines[..|lines| - 1]) + |lines[|lines| - 1]| + 1
  }

  lemma WeightSnoc(lines: seq<string>, l: string)
    ensures Weight(lines + [l]) == Weight(lines) + |l| + 1
  {
    assert (lines + [l])[..|lines|] == lines;
  }

  lemma JoinSnoc(lines: seq<string>, l: string)
    requires |lines| >= 1
    ensures JoinLines(lines + [l]) == JoinLines(lines) + "\n" + l
  {
    assert (lines + [l])[..|lines|] == lines;
  }

  lemma {:induction false} JoinConcat(a: seq<string>, b: seq<string>)
    requires |a| >= 1 && |b| >= 1
    ensures JoinLines(a + b) == JoinLines(a) + "\n" + JoinLines(b)
  {
    var n := |b| - 1;
    if n == 0 {
      assert a + b == a + [b[0]];
      JoinSnoc(a, b[0]);
    } else {
      assert a + b == (a + b[..n]) + [b[n]];
      JoinSnoc(a + b[..n], b[n]);
      JoinConcat(a, b[..n]);
    }
  }

  lemma {:induction false} JoinLength(lines: seq<string>)
    requires |lines| >= 1
    ensures |JoinLines(lines)| == Weight(lines) - 1
  {
    if |lines| == 1 {
      assert lines == [] + [lines[0]];
      WeightSnoc([], lines[0]);
    } else {
      JoinLength(lines[..|lines| - 1]);
    }
  }

  lemma JoinExtended(front: seq<string>, last: string, c: char)
    ensures JoinLines(front + [last + [c]]) == JoinLines(front + [last]) + [c]
  {
    if front == [] {
      assert front + [last + [c]] == [last + [c]] && front + [last] == [last];
    } else {
      JoinSnoc(front, last + [c]);
      JoinSnoc(front, last);
      AppendAssociates(JoinLines(front) + "\n", last, [c]);
    }
  }

  lemma AppendAssociates<T>(a: seq<T>, b: seq<T>, c: seq<T>)
    ensures a + (b + c) == a + b + c
  {
  }

  lemma {:induction false} SplitJoin(s: string)
    ensures JoinLines(SplitLines(s)) == s
  {
    if s != [] {
      var n := |s| - 1;
      var r := SplitLines(s[..n]);
      SplitJoin(s[..n]);
      assert s == s[..n] + [s[n]];
      if s[n] == '\n' {
        JoinSnoc(r, []);
        assert s[..n] + "\n" + [] == s[..n] + [s[n]];
      } else {
        JoinExtended(r[..|r| - 1], r[|r| - 1], s[n]);
        assert r[..|r| - 1] + [r[|r| - 1]] == r;
      }
    }
  }

  lemma {:induction false} SplitAppend(a: string, line: string)
    requires '\n' !in line
    ensures SplitLines(a + "\n" + line) == SplitLines(a) + [line]
  {
    var whole := a + "\n" + line;
    if line == [] {
      assert whole[..|whole| - 1] == a;
    } else {
      var n := |line| - 1;
      SplitAppend(a, line[..n]);
      assert whole[..|whole| - 1] == a + "\n" + line[..n];
      assert line == line[..n] + [line[n]];
    }
  }

  predicate NoNewline(lines: seq<string>) {
    forall i :: 0 <= i < |lines| ==> '\n' !in lines[i]
  }

  lemma {:induction false} JoinSplit(lines: seq<string>)
    requires |lines| >= 1 && NoNewline(lines)
    ensures SplitLines(JoinLines(lines)) == lines
  {
    var n := |lines| - 1;
    if n == 0 {
      SplitOneLine(lines[0]);
    } else {
      JoinSplit(lines[..n]);
      SplitAppend(JoinLines(lines[..n]), lines[n]);
    }
  }

  lemma {:induction false} SplitOneLine(s: string)
    requires '\n' !in s
    ensures SplitLines(s) == [s]
  {
    if s != [] {
      SplitOneLine(s[..|s| - 1]);
      assert s == s[..|s| - 1] + [s[|s| - 1]];
    }
  }

  // -------------------------------------------------------------- packing

  /** Greedy packing: `cur` is the open piece, `rest` the lines still to place. */
  function Greedy(cur: seq<string>, rest: seq<string>): (pieces: seq<seq<string>>)
    decreases |rest|
  {
    if rest == [] then
      if cur == [] then [] else [cur]
    else if Weight(cur) + |rest[0]| + 1 > MAX_CHUNK_CHARS && cur != [] then
      [cur] + Greedy([rest[0]], rest[1..])
    else
      Greedy(cur + [rest[0]], rest[1..])
  }

  /** A piece the chunker may emit: it respects the limit, or cannot be cut. */
  predicate Admissible(piece: seq<string>) {
    |piece| <= 1 || Weight(piece) <= 100_000
  }

  predicate AllAdmissible(pieces: seq<seq<string>>) {
    forall i :: 0 <= i < |pieces| ==> Admissible(pieces[i])
  }

  predicate NoneEmpty<T>(pieces: seq<seq<T>>) {
    forall i :: 0 <= i < |pieces| ==> |pieces[i]| >= 1
  }

  predicate Packed(pieces: seq<seq<string>>) {
    forall i :: 0 <= i < |pieces| ==> pieces[i] != [] && Admissible(pieces[i])
  }

  lemma {:induction false} GreedyPacks(cur: seq<string>, rest: seq<string>)
    requires Admissible(cur)
    ensures Packed(Greedy(cur, rest))
    ensures cur != [] || rest != [] ==> Greedy(cur, rest) != []
    decreases |rest|
  {
    if rest != [] {
      if Weight(cur) + |rest[0]| + 1 > MAX_CHUNK_CHARS && cur != [] {
        GreedyPacks([rest[0]], rest[1..]);
      } else {
        WeightSnoc(cur, rest[0]);
        GreedyPacks(cur + [rest[0]], rest[1..]);
      }
    }
  }

  lemma {:induction false} GreedyPartitions(cur: seq<string>, rest: seq<string>)
    ensures Flatten(Greedy(cur, rest)) == cur + rest
    decreases |rest|
  {
    if rest == [] {
      if cur != [] { FlattenCons(cur, []); }
    } else {
      assert rest == [rest[0]] + rest[1..];
      if Weight(cur) + |rest[0]| + 1 > MAX_CHUNK_CHARS && cur != [] {
        GreedyPartitions([rest[0]], rest[1..]);
        FlattenCons(cur, Greedy([rest[0]], rest[1..]));
      } else {
        GreedyPartitions(cur + [rest[0]], rest[1..]);
        assert cur + rest == cur + [rest[0]] + rest[1..];
      }
    }
  }

  lemma {:induction false} WeightConcat(a: seq<string>, b: seq<string>)
    ensures Weight(a + b) == Weight(a) + Weight(b)
  {
    if b == [] {
      assert a + b == a;
    } else {
      var n := |b| - 1;
      assert a + b == (a + b[..n]) + [b[n]];
      WeightSnoc(a + b[..n], b[n]);
      WeightConcat(a, b[..n]);
    }
  }

  lemma GreedyStart(lines: seq<string>)
    requires lines != []
    ensures Greedy([], lines) == Greedy([lines[0]], lines[1..])
  {
    assert [] + [lines[0]] == [lines[0]];
  }

  /** The first piece of a greedy packing, and the packing of what is left. */
  lemma {:induction false} GreedyFirstPiece(cur: seq<string>, rest: seq<string>) returns (m: nat)
    requires cur != []
    ensures m <= |rest|
    ensures Greedy(cur, rest) == [cur + rest[..m]] + Greedy([], rest[m..])
    decreases |rest|
  {
    if rest == [] || Weight(cur) + |rest[0]| + 1 > MAX_CHUNK_CHARS {
      m := 0;
      assert rest[0..] == rest && cur + rest[..0] == cur;
      if rest != [] { GreedyStart(rest); }
    } else {
      var x, tail := rest[0], rest[1..];
      var k := GreedyFirstPiece(cur + [x], tail);
      m := k + 1;
      assert rest[m..] == tail[k..];
      assert cur + rest[..m] == cur + [x] + tail[..k];
    }
  }

  /** Lines that fit join the open piece. */
  lemma {:induction false} GreedyAbsorbs(cur: seq<string>, more: seq<string>, rest: seq<string>)
    requires more == [] || Weight(cur + more) <= MAX_CHUNK_CHARS
    ensures Greedy(cur, more + rest) == Greedy(cur + more, rest)
    decreases |more|
  {
    if more == [] {
      assert more + rest == rest && cur + more == cur;
    } else {
      var x := more[0];
      assert cur + more == (cur + [x]) + more[1..];
      WeightConcat(cur + [x], more[1..]);
      WeightSnoc(cur, x);
      assert (more + rest)[0] == x && (more + rest)[1..] == more[1..] + rest;
      GreedyAbsorbs(cur + [x], more[1..], rest);
    }
  }

  /** A whole admissible piece `own` goes into the first greedy piece. */
  lemma GreedyTakesPiece(own: seq<string>, rest: seq<string>) returns (m: nat)
    requires own != [] && Admissible(own)
    ensures m <= |rest|
    ensures Greedy([], own + rest) == [own + rest[..m]] + Greedy([], rest[m..])
  {
    var x, more := own[0], own[1..];
    assert own == [x] + more;
    assert (own + rest)[0] == x && (own + rest)[1..] == more + rest;
    GreedyStart(own + rest);
    GreedyAbsorbs([x], more, rest);
    m := GreedyFirstPiece(own, rest);
  }

  lemma PartAdmissible(piece: seq<string>, skip: nat)
    requires Admissible(piece) && skip < |piece|
    ensures Admissible(piece[skip..])
  {
    assert piece == piece[..skip] + piece[skip..];
    WeightConcat(piece[..skip], piece[skip..]);
  }

  /** Greedy packing of any tail of a text needs no more pieces than any
      admissible division of the whole text. */
  lemma {:induction false} GreedyStaysAhead(division: seq<seq<string>>, skip: nat)
    requires AllAdmissible(division)
    requires skip <= |Flatten(division)|
    ensures |Greedy([], Flatten(division)[skip..])| <= |division|
    decreases |division|
  {
    if division != [] {
      var q, tail := division[0], division[1..];
      assert division == [q] + tail;
      FlattenCons(q, tail);
      var all := Flatten(tail);
      assert AllAdmissible(tail);
      if skip >= |q| {
        GreedyStaysAhead(tail, skip - |q|);
        assert (q + all)[skip..] == all[skip - |q|..];
      } else {
        var own := q[skip..];
        assert (q + all)[skip..] == own + all;
        PartAdmissible(q, skip);
        var m := GreedyTakesPiece(own, all);
        GreedyStaysAhead(tail, m);
        assert Greedy([], own + all) == [own + all[..m]] + Greedy([], all[m..]);
      }
    }
  }

  /** No admissible division of the lines has fewer pieces than the greedy one. */
  lemma GreedyIsOptimal(lines: seq<string>, division: seq<seq<string>>)
    requires Flatten(division) == lines
    requires AllAdmissible(division)
    ensures |Greedy([], lines)| <= |division|
  {
    GreedyStaysAhead(division, 0);
    assert lines[0..] == lines;
  }

  // ------------------------------------------------------------ splitChunk

  function SubChunk(d: Digests, c: Chunk, text: string, startLine: int, endLine: int): Chunk {
    c.(id := d.chunkId(c.path, text), content := text, startLine := startLine, endLine := endLine,
       simhash := d.fingerprint(text))
  }

  /** The sub-chunks for consecutive line pieces of `c`. */
  function SubChunks(d: Digests, c: Chunk, pieces: seq<seq<string>>): (r: seq<Chunk>)
    requires NoneEmpty(pieces)
    ensures |r| == |pieces|
  {
    if pieces == [] then []
    else
      var n := |pieces| - 1;
      SubChunks(d, c, pieces[..n])
      + [SubChunk(d, c, JoinLines(pieces[n]), c.startLine + |Flatten(pieces[..n])|,
                  c.startLine + |Flatten(pieces)| - 1)]
  }

  /** What splitting `c` yields. */
  function Pieces(d: Digests, c: Chunk): (r: seq<Chunk>) {
    GreedyPacks([], SplitLines(c.content));
    SubChunks(d, c, Greedy([], SplitLines(c.content)))
  }

  function TrimSuffix(s: string, suffix: string): string {
    if HasSuffix(s, suffix) then s[..|s| - |suffix|] else s
  }

  function Buffered(cur: seq<string>): string {
    if cur == [] then "" else JoinLines(cur) + "\n"
  }

  lemma WriteLine(cur: seq<string>, line: string)
    ensures Buffered(cur + [line]) == Buffered(cur) + line + "\n"
    ensures Weight(cur + [line]) == Weight(cur) + |line| + 1
  {
    WeightSnoc(cur, line);
    if cur != [] { JoinSnoc(cur, line); } else { assert cur + [line] == [line]; }
  }

  lemma TrimBuffered(cur: seq<string>)
    requires cur != []
    ensures TrimSuffix(Buffered(cur), "\n") == JoinLines(cur)
  {
  }

  lemma SubChunksSnoc(d: Digests, c: Chunk, done: seq<seq<string>>, cur: seq<string>)
    requires NoneEmpty(done) && cur != []
    ensures NoneEmpty(done + [cur])
    ensures var first := c.startLine + |Flatten(done)|;
      SubChunks(d, c, done + [cur]) == SubChunks(d, c, done) + [SubChunk(d, c, JoinLines(cur), first, first + |cur| - 1)]
  {
    FlattenSnoc(done, cur);
    assert (done + [cur])[..|done|] == done;
  }

  lemma CloseSection(d: Digests, c: Chunk, done: seq<seq<string>>, cur: seq<string>,
                     text: string, first: int, last: int)
    requires NoneEmpty(done) && cur != []
    requires text == TrimSuffix(Buffered(cur), "\n")
    requires first == c.startLine + |Flatten(done)| && last == first + |cur| - 1
    ensures NoneEmpty(done + [cur])
    ensures Flatten(done + [cur]) == Flatten(done) + cur
    ensures SubChunks(d, c, done + [cur]) == SubChunks(d, c, done) + [SubChunk(d, c, text, first, last)]
  {
    hide SubChunks, SubChunk, Flatten, JoinLines, TrimSuffix, Buffered;
    FlattenSnoc(done, cur);
    TrimBuffered(cur);
    SubChunksSnoc(d, c, done, cur);
  }

  /** What the variables of the packing loop amount to: `done` are the line
      pieces cut so far, `cur` the lines buffered, `rest` those to come. */
  ghost predicate Packing(d: Digests, c: Chunk, packing: seq<seq<string>>, done: seq<seq<string>>, cur: seq<string>,
                          rest: seq<string>, result: seq<Chunk>, buf: string, bufLen: int, sectionStart: int, lineIdx: int) {
    && NoneEmpty(done) && result == SubChunks(d, c, done)
    && buf == Buffered(cur) && bufLen == Weight(cur) && (cur == [] <==> bufLen == 0)
    && lineIdx == |Flatten(done)| + |cur|
    && sectionStart == c.startLine + |Flatten(done)|
    && done + Greedy(cur, rest) == packing
  }

  lemma PackingStarts(d: Digests, c: Chunk)
    ensures var lines := SplitLines(c.content);
      Packing(d, c, Greedy([], lines), [], [], lines, [], "", 0, c.startLine, 0)
  {
    assert [] + Greedy([], SplitLines(c.content)) == Greedy([], SplitLines(c.content));
  }

  lemma CutKeepsPacking(d: Digests, c: Chunk, packing: seq<seq<string>>, done: seq<seq<string>>, cur: seq<string>,
                        line: string, rest: seq<string>, result: seq<Chunk>, buf: string, bufLen: int, sectionStart: int, lineIdx: int)
    requires Packing(d, c, packing, done, cur, [line] + rest, result, buf, bufLen, sectionStart, lineIdx)
    requires bufLen > 0 && bufLen + |line| + 1 > MAX_CHUNK_CHARS
    ensures Packing(d, c, packing, done + [cur], [], [line] + rest,
                    result + [SubChunk(d, c, TrimSuffix(buf, "\n"), sectionStart, lineIdx + c.startLine - 1)],
                    "", 0, lineIdx + c.startLine, lineIdx)
  {
    CloseSection(d, c, done, cur, TrimSuffix(buf, "\n"), sectionStart, lineIdx + c.startLine - 1);
    GreedyCuts(done, cur, [line] + rest);
  }

  lemma GreedyCuts(done: seq<seq<string>>, cur: seq<string>, rest: seq<string>)
    requires cur != [] && rest != [] && Weight(cur) + |rest[0]| + 1 > MAX_CHUNK_CHARS
    ensures done + Greedy(cur, rest) == (done + [cur]) + Greedy([], rest)
  {
    GreedyStart(rest);
    AppendAssociates(done, [cur], Greedy([], rest));
  }

  lemma LineKeepsPacking(d: Digests, c: Chunk, packing: seq<seq<string>>, done: seq<seq<string>>, cur: seq<string>,
                         line: string, rest: seq<string>, result: seq<Chunk>, buf: string, bufLen: int, sectionStart: int, lineIdx: int)
    requires Packing(d, c, packing, done, cur, [line] + rest, result, buf, bufLen, sectionStart, lineIdx)
    requires bufLen == 0 || bufLen + |line| + 1 <= MAX_CHUNK_CHARS
    ensures Packing(d, c, packing, done, cur + [line], rest, result, buf + line + "\n", bufLen + |line| + 1,
                    sectionStart, lineIdx + 1)
  {
    WriteLine(cur, line);
    assert ([line] + rest)[1..] == rest;
  }

  lemma PackingEnds(d: Digests, c: Chunk, packing: seq<seq<string>>, done: seq<seq<string>>, cur: seq<string>,
                    result: seq<Chunk>, buf: string, bufLen: int, sectionStart: int, lineIdx: int)
    requires Packing(d, c, packing, done, cur, [], result, buf, bufLen, sectionStart, lineIdx)
    ensures NoneEmpty(packing)
    ensures SubChunks(d, c, packing) == if bufLen > 0
      then result + [SubChunk(d, c, TrimSuffix(buf, "\n"), sectionStart, lineIdx + c.startLine - 1)]
      else result
  {
    if bufLen > 0 {
      CloseSection(d, c, done, cur, TrimSuffix(buf, "\n"), sectionStart, lineIdx + c.startLine - 1);
    } else {
      assert done + [] == done;
    }
  }

  method SplitChunk(d: Digests, c: Chunk) returns (result: seq<Chunk>)
    ensures result == Pieces(d, c)
  {
    hide Greedy, SubChunks, SplitLines;
    var lines := SplitLines(c.content);
    result := [];
    var startLine := c.startLine;
    var buf := "";
    var bufLen := 0;
    var sectionStart := startLine;
    var lineIdx := 0;
    ghost var done: seq<seq<string>> := [];
    ghost var cur: seq<string> := [];
    ghost var packing := Greedy([], lines);
    PackingStarts(d, c);
    assert lines[0..] == lines;

    for i := 0 to |lines|
      invariant Packing(d, c, packing, done, cur, lines[i..], result, buf, bufLen, sectionStart, lineIdx)
    {
      var line := lines[i];
      var lineLen := |line| + 1;
      ghost var rest := lines[i + 1..];
      assert lines[i..] == [line] + rest;
      if bufLen + lineLen > MAX_CHUNK_CHARS && bufLen > 0 {
        CutKeepsPacking(d, c, packing, done, cur, line, rest, result, buf, bufLen, sectionStart, lineIdx);
        var text := TrimSuffix(buf, "\n");
        result := result + [SubChunk(d, c, text, sectionStart, lineIdx + startLine - 1)];
        done, cur := done + [cur], [];
        buf := "";
        bufLen := 0;
        sectionStart := lineIdx + startLine;
      }
      LineKeepsPacking(d, c, packing, done, cur, line, rest, result, buf, bufLen, sectionStart, lineIdx);
      buf := buf + line + "\n";
      bufLen := bufLen + lineLen;
      lineIdx := lineIdx + 1;
      cur := cur + [line];
    }

    assert lines[|lines|..] == [];
    PackingEnds(d, c, packing, done, cur, result, buf, bufLen, sectionStart, lineIdx);
    if bufLen > 0 {
      var text := TrimSuffix(buf, "\n");
      result := result + [SubChunk(d, c, text, sectionStart, lineIdx + startLine - 1)];
    }
  }

  function SplitOne(d: Digests, c: Chunk): (r: seq<Chunk>) {
    if |c.content| <= MAX_CHUNK_CHARS then [c] else Pieces(d, c)
  }

  /** What splitLargeChunks does to a list. */
  function SplitAll(d: Digests, chunks: seq<Chunk>): (r: seq<Chunk>) {
    if chunks == [] then []
    else
      var n := |chunks| - 1;
      SplitAll(d, chunks[..n]) + SplitOne(d, chunks[n])
  }

  method SplitLargeChunks(d: Digests, chunks: seq<Chunk>) returns (out: seq<Chunk>)
    ensures out == SplitAll(d, chunks)
    ensures exists groups :: out == Flatten(groups) && Divides(d, chunks, groups)
  {
    out := [];
    for i := 0 to |chunks|
      invariant out == SplitAll(d, chunks[..i])
    {
      var c := chunks[i];
      assert chunks[..i + 1][..i] == chunks[..i];
      if |c.content| <= MAX_CHUNK_CHARS {
        out := out + [c];
      } else {
        var parts := SplitChunk(d, c);
        out := out + parts;
      }
    }
    assert chunks[..|chunks|] == chunks;
    ghost var groups := SplitAllDivides(d, chunks);
  }

  // --------------------------------------------------- properties promised

  function Contents(chunks: seq<Chunk>): (r: seq<string>)
    ensures |r| == |chunks|
  {
    if chunks == [] then [] else Contents(chunks[..|chunks| - 1]) + [chunks[|chunks| - 1].content]
  }

  /** `chunks` occupy the lines from `first` to `last` one after the other,
      with neither gap nor overlap. */
  predicate Consecutive(chunks: seq<Chunk>, first: int, last: int) {
    && |chunks| >= 1
    && chunks[0].startLine == first
    && chunks[|chunks| - 1].endLine == last
    && (forall i :: 0 <= i < |chunks| ==> chunks[i].startLine <= chunks[i].endLine)
    && (forall i :: 0 < i < |chunks| ==> chunks[i].startLine == chunks[i - 1].endLine + 1)
  }

  /** A sub-chunk differs from its parent in text, line range and digests only. */
  predicate SameSymbol(a: Chunk, b: Chunk) {
    && a.path == b.path && a.fileHash == b.fileHash && a.language == b.language
    && a.symbol == b.symbol && a.signature == b.signature && a.docstring == b.docstring
    && a.kind == b.kind && a.calls == b.calls
  }

  predicate Bounded(c: Chunk) {
    |c.content| < 100_000 || ('\n' !in c.content && c.startLine == c.endLine)
  }

  /** The line range has as many lines as the text. */
  predicate Ranged(c: Chunk) {
    |SplitLines(c.content)| == c.endLine - c.startLine + 1
  }

  /** A piece within the limits makes a chunk within the limits. */
  lemma PieceBounded(x: Chunk, p: seq<string>)
    requires |p| >= 1 && Admissible(p) && NoNewline(p)
    requires x.content == JoinLines(p) && x.endLine == x.startLine + |p| - 1
    ensures Bounded(x) && Ranged(x)
  {
    JoinSplit(p);
    JoinLength(p);
    if |p| == 1 {
      assert JoinLines(p) == p[0];
    }
  }

  lemma {:induction false} SubChunksText(d: Digests, c: Chunk, pieces: seq<seq<string>>)
    requires NoneEmpty(pieces) && pieces != []
    ensures |Flatten(pieces)| >= 1
    ensures JoinLines(Contents(SubChunks(d, c, pieces))) == JoinLines(Flatten(pieces))
    decreases |pieces|
  {
    var n := |pieces| - 1;
    var front, p := pieces[..n], pieces[n];
    var sub := SubChunks(d, c, pieces);
    assert Contents(sub) == Contents(SubChunks(d, c, front)) + [JoinLines(p)] by {
      assert sub[..n] == SubChunks(d, c, front);
    }
    assert Flatten(pieces) == Flatten(front) + p;
    if n > 0 {
      SubChunksText(d, c, front);
      JoinConcat(Contents(SubChunks(d, c, front)), [JoinLines(p)]);
      JoinConcat(Flatten(front), p);
    } else {
      assert Flatten(front) == [] && Contents(SubChunks(d, c, front)) == [];
      assert [] + p == p;
      assert Contents(sub) == [JoinLines(p)];
    }
  }

  lemma {:induction false} SubChunksTile(d: Digests, c: Chunk, pieces: seq<seq<string>>)
    requires NoneEmpty(pieces) && pieces != []
    ensures Consecutive(SubChunks(d, c, pieces), c.startLine, c.startLine + |Flatten(pieces)| - 1)
    decreases |pieces|
  {
    var n := |pieces| - 1;
    var front, p := pieces[..n], pieces[n];
    assert Flatten(pieces) == Flatten(front) + p;
    if n > 0 {
      SubChunksTile(d, c, front);
    } else {
      assert Flatten(front) == [];
    }
  }

  lemma {:induction false} SubChunksEach(d: Digests, c: Chunk, pieces: seq<seq<string>>, i: nat)
    requires NoneEmpty(pieces) && AllAdmissible(pieces)
    requires forall j :: 0 <= j < |pieces| ==> NoNewline(pieces[j])
    requires i < |pieces|
    ensures var x := SubChunks(d, c, pieces)[i];
      SameSymbol(x, c) && Bounded(x) && Ranged(x) && Stamped(d, x)
    decreases |pieces|
  {
    var n := |pieces| - 1;
    if i < n {
      SubChunksEach(d, c, pieces[..n], i);
    } else {
      var x, p := SubChunks(d, c, pieces)[n], pieces[n];
      FlattenSnoc(pieces[..n], p);
      assert pieces[..n] + [p] == pieces;
      assert x == SubChunk(d, c, JoinLines(p), c.startLine + |Flatten(pieces[..n])|, c.startLine + |Flatten(pieces)| - 1);
      PieceBounded(x, p);
    }
  }

  /** The digests match the path and the text. */
  predicate Stamped(d: Digests, x: Chunk) {
    x.id == d.chunkId(x.path, x.content) && x.simhash == d.fingerprint(x.content)
  }

  lemma {:induction false} PiecesHaveNoNewline(pieces: seq<seq<string>>)
    requires NoNewline(Flatten(pieces))
    ensures forall j :: 0 <= j < |pieces| ==> NoNewline(pieces[j])
  {
    if pieces != [] {
      var n := |pieces| - 1;
      var flat := Flatten(pieces);
      assert flat == Flatten(pieces[..n]) + pieces[n];
      var front := Flatten(pieces[..n]);
      assert forall i :: 0 <= i < |pieces[n]| ==> pieces[n][i] == flat[|front| + i];
      assert forall i :: 0 <= i < |front| ==> front[i] == flat[i];
      PiecesHaveNoNewline(pieces[..n]);
    }
  }

  /** Splitting loses nothing: the texts joined by newlines give back the
      content, the line ranges tile the original range, every piece obeys the
      limit or is one uncuttable line, and no admissible division of the lines
      is shorter. */
  lemma SplitIsLosslessAndOptimal(d: Digests, c: Chunk, division: seq<seq<string>>)
    requires Flatten(division) == SplitLines(c.content)
    requires AllAdmissible(division)
    ensures Pieces(d, c) != []
    ensures JoinLines(Contents(Pieces(d, c))) == c.content
    ensures Consecutive(Pieces(d, c), c.startLine, c.startLine + |SplitLines(c.content)| - 1)
    ensures forall x :: x in Pieces(d, c) ==> SameSymbol(x, c) && Bounded(x) && Ranged(x) && Stamped(d, x)
    ensures |Pieces(d, c)| <= |division|
  {
    PiecesProperties(d, c);
    GreedyIsOptimal(SplitLines(c.content), division);
  }

  lemma PiecesEach(d: Digests, c: Chunk)
    ensures forall x :: x in Pieces(d, c) ==> SameSymbol(x, c) && Bounded(x) && Ranged(x) && Stamped(d, x)
  {
    var lines := SplitLines(c.content);
    var pieces := Greedy([], lines);
    GreedyPacks([], lines);
    GreedyPartitions([], lines);
    assert [] + lines == lines;
    PiecesHaveNoNewline(pieces);
    forall x | x in Pieces(d, c)
      ensures SameSymbol(x, c) && Bounded(x) && Ranged(x) && Stamped(d, x)
    {
      var i :| 0 <= i < |pieces| && x == SubChunks(d, c, pieces)[i];
      SubChunksEach(d, c, pieces, i);
    }
  }

  lemma PiecesProperties(d: Digests, c: Chunk)
    ensures Pieces(d, c) != []
    ensures JoinLines(Contents(Pieces(d, c))) == c.content
    ensures Consecutive(Pieces(d, c), c.startLine, c.startLine + |SplitLines(c.content)| - 1)
    ensures forall x :: x in Pieces(d, c) ==> SameSymbol(x, c) && Bounded(x) && Ranged(x) && Stamped(d, x)
  {
    var lines := SplitLines(c.content);
    var pieces := Greedy([], lines);
    GreedyPacks([], lines);
    GreedyPartitions([], lines);
    assert [] + lines == lines;
    SubChunksText(d, c, pieces);
    SubChunksTile(d, c, pieces);
    SplitJoin(c.content);
    PiecesEach(d, c);
  }

  /** What becomes of one chunk: itself if it is within the limit; otherwise pieces
      that lose nothing, follow one another and keep to the limit. */
  ghost predicate SplitsInto(d: Digests, c: Chunk, group: seq<Chunk>) {
    if |c.content| <= 100_000 then group == [c]
    else
      && group != [] && JoinLines(Contents(group)) == c.content
      && Consecutive(group, c.startLine, c.startLine + |SplitLines(c.content)| - 1)
      && forall x :: x in group ==> SameSymbol(x, c) && Bounded(x) && Ranged(x) && Stamped(d, x)
  }

  ghost predicate Divides(d: Digests, chunks: seq<Chunk>, groups: seq<seq<Chunk>>) {
    |groups| == |chunks| && forall i :: 0 <= i < |chunks| ==> SplitsInto(d, chunks[i], groups[i])
  }

  lemma SplitOneDivides(d: Digests, c: Chunk)
    ensures SplitsInto(d, c, SplitOne(d, c))
  {
    hide JoinLines, Contents, Consecutive, SameSymbol, Bounded, Ranged, Stamped, Pieces, SplitLines;
    PiecesProperties(d, c);
  }

  /** A list is split chunk by chunk, in order. */
  lemma {:induction false} SplitAllDivides(d: Digests, chunks: seq<Chunk>) returns (groups: seq<seq<Chunk>>)
    ensures Divides(d, chunks, groups) && Flatten(groups) == SplitAll(d, chunks)
  {
    hide SplitsInto, SplitOne;
    groups := [];
    if chunks != [] {
      var n := |chunks| - 1;
      groups := SplitAllDivides(d, chunks[..n]);
      SplitOneDivides(d, chunks[n]);
      FlattenSnoc(groups, SplitOne(d, chunks[n]));
      groups := groups + [SplitOne(d, chunks[n])];
    }
  }

  /** A chunk that splitting leaves as it is. */
  predicate Settled(d: Digests, c: Chunk) {
    SplitOne(d, c) == [c]
  }

  predicate AllSettled(d: Digests, chunks: seq<Chunk>) {
    forall i :: 0 <= i < |chunks| ==> Settled(d, chunks[i])
  }

  lemma PieceIsSettled(d: Digests, x: Chunk)
    requires Bounded(x)
    requires Stamped(d, x)
    ensures Settled(d, x)
  {
    if |x.content| > MAX_CHUNK_CHARS {
      SplitOneLine(x.content);
      var lines := SplitLines(x.content);
      assert lines == [x.content] && lines[1..] == [];
      GreedyStart(lines);
      var g := [lines];
      assert Greedy([], lines) == g && g[..0] == [];
      assert Flatten(g[..0]) == [];
      assert Flatten(g) == [] + lines;
      assert SubChunks(d, x, g) == SubChunks(d, x, g[..0]) + [x];
    }
  }

  lemma {:induction false} SplitAllSettles(d: Digests, chunks: seq<Chunk>)
    ensures AllSettled(d, SplitAll(d, chunks))
  {
    if chunks != [] {
      var n := |chunks| - 1;
      SplitAllSettles(d, chunks[..n]);
      SplitOneSettles(d, chunks[n]);
    }
  }

  lemma SplitOneSettles(d: Digests, c: Chunk)
    ensures AllSettled(d, SplitOne(d, c))
  {
    if |c.content| > MAX_CHUNK_CHARS {
      PiecesProperties(d, c);
      forall i | 0 <= i < |Pieces(d, c)|
        ensures Settled(d, Pieces(d, c)[i])
      {
        PieceIsSettled(d, Pieces(d, c)[i]);
      }
    }
  }

  lemma {:induction false} SettledIsFixed(d: Digests, chunks: seq<Chunk>)
    requires AllSettled(d, chunks)
    ensures SplitAll(d, chunks) == chunks
  {
    if chunks != [] {
      var n := |chunks| - 1;
      var front, c := chunks[..n], chunks[n];
      assert chunks == front + [c];
      assert AllSettled(d, front) by {
        assert forall i :: 0 <= i < n ==> front[i] == chunks[i];
      }
      SettledIsFixed(d, front);
      assert SplitOne(d, c) == [c] by {
        assert Settled(d, c);
      }
    }
  }

  /** Splitting twice is splitting once. */
  lemma SplitIsIdempotent(d: Digests, chunks: seq<Chunk>)
    ensures SplitAll(d, SplitAll(d, chunks)) == SplitAll(d, chunks)
  {
    SplitAllSettles(d, chunks);
    SettledIsFixed(d, SplitAll(d, chunks));
  }
}
