/** Small vocabulary shared by every module: results, sequence filters, string
    affixes and the library sort. */
module Common {

  datatype Option<+T> = None | Some(value: T)

  datatype Result<+T> = Ok(value: T) | Err(error: string)

  function Min(a: int, b: int): int {
    if a < b then a else b
  }

  function Max(a: int, b: int): int {
    if a < b then b else a
  }

  predicate HasPrefix(s: string, prefix: string) {
    prefix <= s
  }

  predicate HasSuffix(s: string, suffix: string) {
    |suffix| <= |s| && s[|s| - |suffix|..] == suffix
  }

  predicate Distinct<T(==)>(s: seq<T>) {
    forall i, j :: 0 <= i < j < |s| ==> s[i] != s[j]
  }

  lemma DistinctSnoc<T>(s: seq<T>, x: T)
    requires Distinct(s) && x !in s
    ensures Distinct(s + [x])
  {
  }

  function Elements<T>(s: seq<T>): set<T> {
    set x | x in s
  }

  /** The subsequence of elements that satisfy `keep`, in order. */
  function Filter<T>(keep: T -> bool, s: seq<T>): (r: seq<T>)
    ensures |r| <= |s|
  {
    if s == [] then []
    else
      var n := |s| - 1;
      Filter(keep, s[..n]) + (if keep(s[n]) then [s[n]] else [])
  }

  lemma {:induction false} FilterMembers<T>(keep: T -> bool, s: seq<T>)
    ensures forall x :: x in Filter(keep, s) <==> x in s && keep(x)
  {
    if s != [] {
      var n := |s| - 1;
      FilterMembers(keep, s[..n]);
      assert s == s[..n] + [s[n]];
    }
  }

  lemma FilterKeeps<T>(keep: T -> bool, s: seq<T>, i: nat)
    requires i < |Filter(keep, s)|
    ensures keep(Filter(keep, s)[i])
  {
    FilterMembers(keep, s);
    assert Filter(keep, s)[i] in Filter(keep, s);
  }

  lemma FilterSnoc<T>(keep: T -> bool, s: seq<T>, x: T)
    ensures Filter(keep, s + [x]) == Filter(keep, s) + (if keep(x) then [x] else [])
  {
    assert (s + [x])[..|s|] == s;
  }

  lemma FilterStep<T>(keep: T -> bool, s: seq<T>, i: nat)
    requires i < |s|
    ensures Filter(keep, s[..i + 1]) == Filter(keep, s[..i]) + (if keep(s[i]) then [s[i]] else [])
  {
    assert s[..i + 1] == s[..i] + [s[i]];
    FilterSnoc(keep, s[..i], s[i]);
  }

  lemma {:induction false} FilterConcat<T>(keep: T -> bool, a: seq<T>, b: seq<T>)
    ensures Filter(keep, a + b) == Filter(keep, a) + Filter(keep, b)
  {
    if b == [] {
      assert a + b == a;
    } else {
      var n := |b| - 1;
      FilterConcat(keep, a, b[..n]);
      assert a + b == (a + b[..n]) + [b[n]];
      FilterSnoc(keep, a + b[..n], b[n]);
    }
  }

  lemma {:induction false} FilterAll<T>(keep: T -> bool, s: seq<T>)
    requires forall x :: x in s ==> keep(x)
    ensures Filter(keep, s) == s
  {
    if s != [] {
      var n := |s| - 1;
      assert s == s[..n] + [s[n]];
      FilterAll(keep, s[..n]);
    }
  }

  lemma {:induction false} FilterNone<T>(keep: T -> bool, s: seq<T>)
    requires forall x :: x in s ==> !keep(x)
    ensures Filter(keep, s) == []
  {
    if s != [] {
      FilterNone(keep, s[..|s| - 1]);
    }
  }

  /** Filtering twice by predicates of which the first one is implied. */
  lemma {:induction false} FilterAbsorb<T>(outer: T -> bool, inner: T -> bool, s: seq<T>)
    requires forall x :: x in s && outer(x) ==> inner(x)
    ensures Filter(outer, Filter(inner, s)) == Filter(outer, s)
  {
    if s != [] {
      var n := |s| - 1;
      FilterAbsorb(outer, inner, s[..n]);
      if inner(s[n]) {
        FilterSnoc(outer, Filter(inner, s[..n]), s[n]);
      } else {
        assert Filter(inner, s) == Filter(inner, s[..n]);
      }
    }
  }

  lemma {:induction false} FilterCongruent<T>(a: T -> bool, b: T -> bool, s: seq<T>)
    requires forall x :: x in s ==> a(x) == b(x)
    ensures Filter(a, s) == Filter(b, s)
  {
    if s != [] {
      FilterCongruent(a, b, s[..|s| - 1]);
    }
  }

  lemma {:induction false} FilterCount<T>(keep: T -> bool, s: seq<T>, x: T)
    requires keep(x)
    ensures multiset(Filter(keep, s))[x] == multiset(s)[x]
  {
    if s != [] {
      var n := |s| - 1;
      FilterCount(keep, s[..n], x);
      assert s == s[..n] + [s[n]];
    }
  }

  /** The concatenation of all pieces. */
  function Flatten<T>(pieces: seq<seq<T>>): (r: seq<T>) {
    if pieces == [] then [] else Flatten(pieces[..|pieces| - 1]) + pieces[|pieces| - 1]
  }

  lemma FlattenSnoc<T>(pieces: seq<seq<T>>, p: seq<T>)
    ensures Flatten(pieces + [p]) == Flatten(pieces) + p
  {
    assert (pieces + [p])[..|pieces|] == pieces;
  }

  lemma {:induction false} FlattenConcat<T>(a: seq<seq<T>>, b: seq<seq<T>>)
    ensures Flatten(a + b) == Flatten(a) + Flatten(b)
  {
    if b == [] {
      assert a + b == a;
    } else {
      var n := |b| - 1;
      assert a + b == (a + b[..n]) + [b[n]];
      FlattenSnoc(a + b[..n], b[n]);
      FlattenConcat(a, b[..n]);
    }
  }

  lemma FlattenCons<T>(p: seq<T>, rest: seq<seq<T>>)
    ensures Flatten([p] + rest) == p + Flatten(rest)
  {
    FlattenConcat([p], rest);
    assert [p][..0] == [];
    assert Flatten([p]) == Flatten([p][..0]) + p;
  }

  /** `less` orders every pair, possibly with ties: what a sort needs of its
      comparison. */
  ghost predicate WeakOrder<T(!new)>(less: (T, T) -> bool) {
    && (forall a, b :: less(a, b) ==> !less(b, a))
    && (forall a, b, c :: !less(b, a) && !less(c, b) ==> !less(c, a))
  }

  ghost predicate SortedBy<T>(s: seq<T>, less: (T, T) -> bool) {
    forall i, j :: 0 <= i < j < |s| ==> !less(s[j], s[i])
  }

  lemma InsertKeepsOrder<T(!new)>(r: seq<T>, k: nat, x: T, less: (T, T) -> bool)
    requires WeakOrder(less) && SortedBy(r, less) && k <= |r|
    requires k > 0 ==> !less(x, r[k - 1])
    requires forall j :: k <= j < |r| ==> less(x, r[j])
    ensures SortedBy(r[..k] + [x] + r[k..], less)
  {
    var q := r[..k] + [x] + r[k..];
    forall i, j | 0 <= i < j < |q|
      ensures !less(q[j], q[i])
    {
      if j == k {
        assert !less(r[k - 1], r[i]) || i == k - 1;
      }
    }
  }

  lemma InsertIsPermutation<T>(r: seq<T>, k: nat, x: T)
    requires k <= |r|
    ensures multiset(r[..k] + [x] + r[k..]) == multiset(r) + multiset{x}
  {
    assert r == r[..k] + r[k..];
  }

  /** Puts `x` behind the elements it does not precede. */
  method InsertSorted<T(!new)>(r: seq<T>, x: T, less: (T, T) -> bool) returns (q: seq<T>)
    requires WeakOrder(less) && SortedBy(r, less)
    ensures multiset(q) == multiset(r) + multiset{x} && SortedBy(q, less)
  {
    var k := |r|;
    while k > 0 && less(x, r[k - 1])
      invariant 0 <= k <= |r|
      invariant forall j :: k <= j < |r| ==> less(x, r[j])
    {
      k := k - 1;
    }
    InsertKeepsOrder(r, k, x, less);
    InsertIsPermutation(r, k, x);
    q := r[..k] + [x] + r[k..];
  }

  /** The library sort, of which callers learn only that the result is an
      ordered permutation: ties may come out in any order. */
  method SortSlice<T(!new)>(s: seq<T>, less: (T, T) -> bool) returns (r: seq<T>)
    requires WeakOrder(less)
    ensures multiset(r) == multiset(s) && |r| == |s|
    ensures forall x :: x in r <==> x in s
    ensures SortedBy(r, less)
  {
    hide WeakOrder, SortedBy;
    r := NothingSorted(less);
    for i := 0 to |s|
      invariant multiset(r) == multiset(s[..i])
      invariant SortedBy(r, less)
    {
      TakeOneMore(s, i);
      r := InsertSorted(r, s[i], less);
    }
    assert s[..|s|] == s;
    SameMembers(r, s);
  }

  function NothingSorted<T>(less: (T, T) -> bool): (r: seq<T>)
    ensures r == [] && SortedBy(r, less)
  {
    []
  }

  lemma TakeOneMore<T>(s: seq<T>, i: nat)
    requires i < |s|
    ensures multiset(s[..i + 1]) == multiset(s[..i]) + multiset{s[i]}
  {
    assert s[..i + 1] == s[..i] + [s[i]];
  }

  lemma SameMembers<T>(a: seq<T>, b: seq<T>)
    requires multiset(a) == multiset(b)
    ensures forall x :: x in a <==> x in b
    ensures |a| == |b|
  {
    assert forall x :: x in a <==> x in multiset(a);
    assert forall x :: x in b <==> x in multiset(b);
    assert |multiset(a)| == |a| && |multiset(b)| == |b|;
  }

  function Take<T>(s: seq<T>, k: nat): seq<T> {
    if |s| > k then s[..k] else s
  }

  /** Sorting and truncating keeps a best selection: nothing left out precedes
      anything kept. */
  lemma TopOfSorted<T>(all: seq<T>, sorted: seq<T>, k: nat, less: (T, T) -> bool)
    requires multiset(all) == multiset(sorted) && SortedBy(sorted, less)
    ensures var top := Take(sorted, k);
      && |top| == Min(|all|, k)
      && SortedBy(top, less)
      && multiset(top) <= multiset(all)
      && (forall x, y :: x in multiset(all) - multiset(top) && y in top ==> !less(x, y))
  {
    SameMembers(all, sorted);
    if |sorted| > k {
      assert sorted == sorted[..k] + sorted[k..];
      assert multiset(all) - multiset(sorted[..k]) == multiset(sorted[k..]);
    }
  }

  // ---------------------------------------------------------- string order

  /** Byte-wise lexicographic order, Go's `<` on strings. */
  predicate LexLess(a: string, b: string) {
    if b == [] then false
    else if a == [] then true
    else if a[0] != b[0] then a[0] < b[0]
    else LexLess(a[1..], b[1..])
  }

  /** At k the texts first differ, and `a` has ended or has the smaller byte. */
  predicate FirstDifference(a: string, b: string, k: nat) {
    k <= |a| && k < |b| && a[..k] == b[..k] && (k == |a| || a[k] < b[k])
  }

  /** One text precedes another if it is a proper prefix of it, or has the smaller
      byte where they first differ. */
  lemma {:induction false} LexLessMeaning(a: string, b: string)
    ensures LexLess(a, b) <==> exists k: nat :: FirstDifference(a, b, k)
  {
    if a != [] && b != [] && a[0] == b[0] {
      LexLessMeaning(a[1..], b[1..]);
      assert a == [a[0]] + a[1..] && b == [b[0]] + b[1..];
      if k: nat :| FirstDifference(a[1..], b[1..], k) {
        assert a[..k + 1] == [a[0]] + a[1..][..k] && b[..k + 1] == [b[0]] + b[1..][..k];
        assert FirstDifference(a, b, k + 1);
      }
      if k: nat :| FirstDifference(a, b, k) {
        assert a[1..][..k - 1] == a[..k][1..] && b[1..][..k - 1] == b[..k][1..];
        assert FirstDifference(a[1..], b[1..], k - 1);
      }
    } else if LexLess(a, b) {
      assert FirstDifference(a, b, 0);
    } else if a != [] && b != [] {
      forall k: nat | 0 < k <= |a| && k < |b|
        ensures !FirstDifference(a, b, k)
      {
        assert a[..k][0] == a[0] && b[..k][0] == b[0];
      }
    }
  }

  lemma {:induction false} LexTotal(a: string, b: string)
    ensures LexLess(a, b) ==> !LexLess(b, a)
    ensures !LexLess(a, b) && !LexLess(b, a) ==> a == b
  {
    if a != [] && b != [] {
      LexTotal(a[1..], b[1..]);
      assert a == [a[0]] + a[1..] && b == [b[0]] + b[1..];
    }
  }

  lemma {:induction false} LexTransitive(a: string, b: string, c: string)
    requires !LexLess(b, a) && !LexLess(c, b)
    ensures !LexLess(c, a)
  {
    if a != [] && b != [] && c != [] && a[0] == b[0] == c[0] {
      LexTransitive(a[1..], b[1..], c[1..]);
    }
  }
}
