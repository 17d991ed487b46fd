/** The in-place compaction shared by the RemoveByPath methods of the call graph,
    the symbol index and the simhash index (kept := xs[:0] followed by appends):
    reading and writing the same array is an order-preserving filter. */
module Compaction {
  import opened Common

  method CompactInPlace<T>(xs: array<T>, n: nat, keep: T -> bool) returns (k: nat)
    requires n <= xs.Length
    modifies xs
    ensures k <= n && xs[..k] == Filter(keep, old(xs[..n]))
    ensures xs[k..] == old(xs[k..])
  {
    ghost var before := xs[..n];
    k := 0;
    for i := 0 to n
      invariant k <= i && xs[..k] == Filter(keep, before[..i])
      invariant forall j :: k <= j < xs.Length ==> xs[j] == old(xs[j])
    {
      FilterStep(keep, before, i);
      if keep(xs[i]) {
        xs[k] := xs[i];
        k := k + 1;
      }
    }
    assert before[..n] == before;
  }
}
