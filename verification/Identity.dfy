/** When identifiers tell what they identify: chunk identifiers are digests of
    path and text (internal/chunker/chunker.go), node keys join path and symbol
    (internal/graph/graph.go). */
module Identity {
  import opened Chunks
  import opened Common
  import opened Formatting
  import opened IndexState
  import G = CallGraph

  /** What hashChunk digests. */
  function Stamp(path: string, text: string): string {
    path + "\n" + text
  }

  ghost predicate Injective(digest: string -> string) {
    forall a, b :: digest(a) == digest(b) ==> a == b
  }

  /** Two chunks share an identifier exactly when they share path and text, or a
      newline inside one part could be the one between them. */
  lemma ChunkIdClashesExactly(digest: string -> string, p: string, text: string, p': string, text': string)
    requires Injective(digest)
    ensures digest(Stamp(p, text)) == digest(Stamp(p', text'))
      <==> (p == p' && text == text') || SeparatorMoved(p, text, p', text', '\n') || SeparatorMoved(p', text', p, text, '\n')
  {
    JoinClashesExactly(p, text, p', text', '\n');
  }

  /** No tracked path continues another after the separator. */
  ghost predicate Apart(tracked: string -> bool, sep: char) {
    forall p, q :: tracked(p) && tracked(q) ==> !HasPrefix(q, p + [sep])
  }

  lemma PrefixHolds(q: string, p: string, sep: char)
    requires HasPrefix(q, p + [sep])
    ensures sep in q
  {
    assert q[|p|] == (p + [sep])[|p|];
  }

  /** Paths that do not contain the separator are apart. */
  lemma WithoutSeparatorApart(tracked: string -> bool, sep: char)
    requires forall p :: tracked(p) ==> sep !in p
    ensures Apart(tracked, sep)
  {
    forall p, q | tracked(p) && tracked(q)
      ensures !HasPrefix(q, p + [sep])
    {
      if HasPrefix(q, p + [sep]) { PrefixHolds(q, p, sep); }
    }
  }

  /** The tracked path a joined key starts with. */
  ghost function PathBefore(tracked: string -> bool, sep: char): string -> string {
    (key: string) =>
      if exists p :: tracked(p) && HasPrefix(key, p + [sep])
      then var p :| tracked(p) && HasPrefix(key, p + [sep]); p
      else ""
  }

  lemma TwoPrefixes(key: string, p: string, q: string, sep: char)
    requires HasPrefix(key, p + [sep]) && HasPrefix(key, q + [sep])
    ensures p == q || HasPrefix(q, p + [sep]) || HasPrefix(p, q + [sep])
  {
    assert p == key[..|p|] && q == key[..|q|];
    if |q| < |p| {
      assert q + [sep] == p[..|q| + 1];
    } else if |p| < |q| {
      assert p + [sep] == q[..|p| + 1];
    }
  }

  lemma PathBeforeReads(tracked: string -> bool, sep: char, p: string, rest: string)
    requires Apart(tracked, sep) && tracked(p)
    ensures PathBefore(tracked, sep)(p + [sep] + rest) == p
  {
    var key := p + [sep] + rest;
    assert HasPrefix(key, p + [sep]);
    forall q | tracked(q) && HasPrefix(key, q + [sep])
      ensures q == p
    {
      TwoPrefixes(key, p, q, sep);
    }
  }

  ghost function Preimage(digest: string -> string): string -> string {
    (id: string) => if exists s :: digest(s) == id then var s :| digest(s) == id; s else ""
  }

  /** The path and the text that an identifier digests. */
  ghost function OwnerBy(tracked: string -> bool, digest: string -> string): string -> string {
    (id: string) => PathBefore(tracked, '\n')(Preimage(digest)(id))
  }

  ghost function TextBy(tracked: string -> bool, digest: string -> string): string -> string {
    (id: string) =>
      var stamp := Preimage(digest)(id);
      var path := PathBefore(tracked, '\n')(stamp);
      if |path| < |stamp| then stamp[|path| + 1..] else ""
  }

  lemma PreimageReads(digest: string -> string, s: string)
    requires Injective(digest)
    ensures Preimage(digest)(digest(s)) == s
  {
  }

  /** What the chunker does: it labels its chunks and digests path and text. */
  ghost predicate Stamps(t: Tools, digest: string -> string) {
    && (forall p, c, h :: t.chunkFile(p, c, h) != [])
    && (forall p, c, h, ch :: ch in t.chunkFile(p, c, h) ==>
          ch.path == p && ch.fileHash == h && ch.id == digest(Stamp(ch.path, ch.content)))
  }

  /** Symbols that become nodes contain no colon. Headings and file names, which
      do not, may. */
  ghost predicate ColonFree(t: Tools) {
    forall p, c, h, ch :: t.tracked(p) && ch in t.chunkFile(p, c, h) && G.Callable(ch) ==> ':' !in ch.symbol
  }

  /** Path and text can be read off the identifier of a tracked chunk. */
  lemma StampRead(tracked: string -> bool, digest: string -> string, path: string, text: string)
    requires Injective(digest) && Apart(tracked, '\n') && tracked(path)
    ensures OwnerBy(tracked, digest)(digest(Stamp(path, text))) == path
    ensures TextBy(tracked, digest)(digest(Stamp(path, text))) == text
  {
    PreimageReads(digest, Stamp(path, text));
    PathBeforeReads(tracked, '\n', path, text);
    assert Stamp(path, text)[|path| + 1..] == text;
  }

  ghost function KeyOwnerBy(t: Tools): string -> string {
    if ColonFree(t) then G.OwnerOf else PathBefore(t.tracked, ':')
  }

  lemma KeyRead(t: Tools, p: string, c: string, h: string, ch: Chunk)
    requires ch in t.chunkFile(p, c, h) && ch.path == p && t.tracked(p)
    requires ColonFree(t) || Apart(t.tracked, ':')
    ensures G.KeyOwned(KeyOwnerBy(t), ch)
  {
    if ColonFree(t) {
      G.ColonFreeKeyOwned(ch);
    } else {
      PathBeforeReads(t.tracked, ':', p, ch.symbol);
    }
  }

  /** The tools with the readers that the digest and the paths allow for. */
  ghost function Equipped(t: Tools, digest: string -> string): Tools {
    t.(owner := OwnerBy(t.tracked, digest), textOf := TextBy(t.tracked, digest), keyOwner := KeyOwnerBy(t))
  }

  /** With injective digests, identifiers and keys can be read on any set of
      paths of which none continues another after a newline, if either callable
      symbols are colon-free or no path continues another after a colon. */
  lemma ChunkerIsTrusted(t: Tools, digest: string -> string)
    requires (forall c :: t.hash(c) != "") && Injective(t.hash)
    requires Injective(digest) && Stamps(t, digest)
    requires Apart(t.tracked, '\n')
    requires ColonFree(t) || Apart(t.tracked, ':')
    ensures Trusted(Equipped(t, digest))
  {
    hide OwnerBy, TextBy, KeyOwnerBy, Apart, ColonFree;
    var t' := Equipped(t, digest);
    forall p, c, h, ch | ch in t.chunkFile(p, c, h) && t.tracked(p)
      ensures Identified(t', ch)
    {
      StampRead(t.tracked, digest, p, ch.content);
      KeyRead(t, p, c, h, ch);
    }
  }
}
