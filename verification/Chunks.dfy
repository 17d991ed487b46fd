/** The chunk record passed between the chunker and the four indexes
    (internal/chunker/chunker.go). Strings are byte sequences, one char a byte. */
module Chunks {
  import opened Simhash

  /** One outgoing call of a symbol: the callee's name as written, and the line. */
  datatype CallRef = CallRef(name: string, line: int)

  datatype Chunk = Chunk(
    id: string,
    path: string,
    fileHash: string,
    language: string,
    symbol: string,
    signature: string,
    docstring: string,
    content: string,
    startLine: int,
    endLine: int,
    kind: string,
    calls: seq<CallRef>,
    simhash: uint64)
}
