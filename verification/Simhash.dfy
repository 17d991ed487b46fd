/** Simhash fingerprints and their Hamming distance (internal/simhash/simhash.go).
    A uint64 is a natural below 2^64; bit operations are spelled out on its
    binary digits. */
module Simhash {

  const WORD := 0x1_0000_0000_0000_0000

  type uint64 = x: nat | x < WORD

  // ------------------------------------------------------------------ bits

  /** Binary digit i of x. */
  predicate Bit(x: nat, i: nat) {
    if i == 0 then x % 2 == 1 else Bit(x / 2, i - 1)
  }

  function Digit(b: bool): nat {
    if b then 1 else 0
  }

  function And(x: nat, y: nat): nat {
    if x == 0 || y == 0 then 0 else Digit(x % 2 == 1 && y % 2 == 1) + 2 * And(x / 2, y / 2)
  }

  function Or(x: nat, y: nat): nat
    decreases x + y
  {
    if x == 0 && y == 0 then 0 else Digit(x % 2 == 1 || y % 2 == 1) + 2 * Or(x / 2, y / 2)
  }

  function Xor(x: nat, y: nat): nat
    decreases x + y
  {
    if x == 0 && y == 0 then 0 else Digit(x % 2 != y % 2) + 2 * Xor(x / 2, y / 2)
  }

  /** 1 << i. */
  function Pow2(i: nat): (p: nat)
    ensures p >= 1
  {
    if i == 0 then 1 else 2 * Pow2(i - 1)
  }

  lemma {:induction false} BitsOfZero(i: nat)
    ensures !Bit(0, i)
  {
    if i > 0 { BitsOfZero(i - 1); }
  }

  /** Reading digit i of a number, from its last digit and its half. */
  lemma BitStep(x: nat, b: bool, h: nat, i: nat)
    requires x == Digit(b) + 2 * h
    ensures Bit(x, i) <==> if i == 0 then b else Bit(h, i - 1)
  {
    assert x / 2 == h && x % 2 == Digit(b);
  }

  lemma {:induction false} AndBits(x: nat, y: nat, i: nat)
    ensures Bit(And(x, y), i) <==> Bit(x, i) && Bit(y, i)
  {
    if x == 0 || y == 0 {
      BitsOfZero(i);
    } else {
      BitStep(And(x, y), x % 2 == 1 && y % 2 == 1, And(x / 2, y / 2), i);
      if i > 0 { AndBits(x / 2, y / 2, i - 1); }
    }
  }

  lemma {:induction false} OrBits(x: nat, y: nat, i: nat)
    ensures Bit(Or(x, y), i) <==> Bit(x, i) || Bit(y, i)
  {
    if x == 0 && y == 0 {
      BitsOfZero(i);
    } else {
      BitStep(Or(x, y), x % 2 == 1 || y % 2 == 1, Or(x / 2, y / 2), i);
      if i > 0 { OrBits(x / 2, y / 2, i - 1); }
    }
  }

  lemma {:induction false} XorBits(x: nat, y: nat, i: nat)
    ensures Bit(Xor(x, y), i) <==> Bit(x, i) != Bit(y, i)
  {
    if x == 0 && y == 0 {
      BitsOfZero(i);
    } else {
      BitStep(Xor(x, y), x % 2 != y % 2, Xor(x / 2, y / 2), i);
      if i > 0 { XorBits(x / 2, y / 2, i - 1); }
    }
  }

  lemma BitOps(x: nat, y: nat, i: nat)
    ensures Bit(And(x, y), i) <==> Bit(x, i) && Bit(y, i)
    ensures Bit(Or(x, y), i) <==> Bit(x, i) || Bit(y, i)
    ensures Bit(Xor(x, y), i) <==> Bit(x, i) != Bit(y, i)
  {
    AndBits(x, y, i);
    OrBits(x, y, i);
    XorBits(x, y, i);
  }

  lemma {:induction false} OpsBounded(x: nat, y: nat, n: nat)
    requires x < Pow2(n) && y < Pow2(n)
    ensures And(x, y) < Pow2(n) && Or(x, y) < Pow2(n) && Xor(x, y) < Pow2(n)
  {
    if n > 0 {
      OpsBounded(x / 2, y / 2, n - 1);
    }
  }

  lemma {:induction false} BitOfPow2(k: nat, i: nat)
    ensures Bit(Pow2(k), i) <==> i == k
  {
    if k == 0 {
      if i > 0 { BitsOfZero(i - 1); }
    } else if i > 0 {
      BitOfPow2(k - 1, i - 1);
    }
  }

  /** Words are determined by their digits. */
  lemma {:induction false} SameBits(x: nat, y: nat, n: nat)
    requires x < Pow2(n) && y < Pow2(n)
    requires forall i :: 0 <= i < n ==> Bit(x, i) == Bit(y, i)
    ensures x == y
  {
    if n > 0 {
      assert Bit(x, 0) == Bit(y, 0);
      forall i | 0 <= i < n - 1
        ensures Bit(x / 2, i) == Bit(y / 2, i)
      {
        assert Bit(x, i + 1) == Bit(y, i + 1);
      }
      SameBits(x / 2, y / 2, n - 1);
    }
  }

  lemma {:induction false} Pow2Doubled(n: nat)
    ensures Pow2(2 * n) == Pow2(n) * Pow2(n)
  {
    if n > 0 {
      Pow2Doubled(n - 1);
      assert Pow2(2 * n) == 4 * Pow2(2 * (n - 1));
    }
  }

  lemma WordIsPow2()
    ensures Pow2(64) == WORD
  {
    assert Pow2(2) == 4;
    Pow2Doubled(2);
    Pow2Doubled(4);
    Pow2Doubled(8);
    Pow2Doubled(16);
    Pow2Doubled(32);
  }

  // -------------------------------------------------------------- distance

  function PopCount(x: nat): nat {
    if x == 0 then 0 else x % 2 + PopCount(x / 2)
  }

  /** Clearing the lowest set bit, x &= x - 1, removes exactly one. */
  lemma {:induction false} ClearLowest(x: nat)
    requires x > 0
    ensures And(x, x - 1) < x
    ensures PopCount(And(x, x - 1)) == PopCount(x) - 1
  {
    var y := x / 2;
    if x % 2 == 1 {
      assert (x - 1) / 2 == y;
      AndSelf(y);
      assert And(x, x - 1) == 2 * y;
    } else {
      assert (x - 1) / 2 == y - 1;
      ClearLowest(y);
      assert And(x, x - 1) == 2 * And(y, y - 1);
    }
  }

  lemma {:induction false} AndSelf(x: nat)
    ensures And(x, x) == x
  {
    if x > 0 { AndSelf(x / 2); }
  }

  /** The positions below n where two words differ. */
  ghost function Differing(a: nat, b: nat, n: nat): set<int> {
    set i: int | 0 <= i < n && Bit(a, i) != Bit(b, i)
  }

  /** The number of bit positions in which two words differ. */
  ghost function Distance(a: uint64, b: uint64): nat {
    |Differing(a, b, 64)|
  }

  ghost function Digits(x: nat, n: nat): set<int> {
    set i: int | 0 <= i < n && Bit(x, i)
  }

  lemma {:induction false} DigitsStep(x: nat, n: nat)
    requires n > 0
    ensures |Digits(x, n)| == |Digits(x, n - 1)| + Digit(Bit(x, n - 1))
  {
    assert Digits(x, n) == Digits(x, n - 1) + if Bit(x, n - 1) then {n - 1} else {};
  }

  lemma {:induction false} DigitsShift(x: nat, n: nat)
    requires n > 0
    ensures |Digits(x, n)| == x % 2 + |Digits(x / 2, n - 1)|
  {
    DigitsStep(x, n);
    if n == 1 {
      assert Digits(x, 0) == {} && Digits(x / 2, 0) == {};
    } else {
      DigitsShift(x, n - 1);
      DigitsStep(x / 2, n - 1);
    }
  }

  lemma {:induction false} PopCountIsCardinality(x: nat, n: nat)
    requires x < Pow2(n)
    ensures PopCount(x) == |Digits(x, n)|
  {
    if n > 0 {
      PopCountIsCardinality(x / 2, n - 1);
      DigitsShift(x, n);
    } else {
      assert Digits(x, 0) == {};
    }
  }

  method Hamming(a: uint64, b: uint64) returns (count: nat)
    ensures count == Distance(a, b)
  {
    WordIsPow2();
    OpsBounded(a, b, 64);
    var x := Xor(a, b);
    count := 0;
    while x != 0
      invariant count + PopCount(x) == PopCount(Xor(a, b))
    {
      ClearLowest(x);
      count := count + 1;
      x := And(x, x - 1);
    }
    PopCountIsCardinality(Xor(a, b), 64);
    forall i: nat
      ensures Bit(Xor(a, b), i) <==> Bit(a, i) != Bit(b, i)
    {
      BitOps(a, b, i);
    }
    assert Digits(Xor(a, b), 64) == Differing(a, b, 64);
  }

  ghost function Range(n: nat): (r: set<int>)
    ensures forall i :: i in r <==> 0 <= i < n
    ensures |r| == n
  {
    if n == 0 then {} else Range(n - 1) + {n - 1}
  }

  lemma SubsetSize<T>(s: set<T>, t: set<T>)
    requires s <= t
    ensures |s| <= |t|
  {
    assert t == s + (t - s);
  }

  /** The distance is a metric on words, bounded by their width. */
  lemma DistanceIsMetric(a: uint64, b: uint64, c: uint64)
    ensures Distance(a, b) == Distance(b, a)
    ensures Distance(a, b) == 0 <==> a == b
    ensures Distance(a, c) <= Distance(a, b) + Distance(b, c)
    ensures Distance(a, b) <= 64
  {
    WordIsPow2();
    assert Differing(a, b, 64) == Differing(b, a, 64);
    if Distance(a, b) == 0 {
      forall i | 0 <= i < 64
        ensures Bit(a, i) == Bit(b, i)
      {
        assert i !in Differing(a, b, 64);
      }
      SameBits(a, b, 64);
    }
    SubsetSize(Differing(a, c, 64), Differing(a, b, 64) + Differing(b, c, 64));
    SubsetSize(Differing(a, b, 64), Range(64));
  }

  // ----------------------------------------------------------- fingerprint

  /** How many tokens hash to a word with bit i set. */
  ghost function Ones(hash: string -> uint64, tokens: seq<string>, i: nat): nat {
    if tokens == [] then 0
    else Ones(hash, tokens[..|tokens| - 1], i) + Digit(Bit(hash(tokens[|tokens| - 1]), i))
  }

  /** Bit i is set exactly when more than half of the tokens have it. */
  ghost predicate Majority(hash: string -> uint64, tokens: seq<string>, fp: uint64) {
    forall i :: 0 <= i < 64 ==> (Bit(fp, i) <==> 2 * Ones(hash, tokens, i) > |tokens|)
  }

  method CastVotes(hv: uint64, v: array<int>)
    requires v.Length == 64
    modifies v
    ensures forall i :: 0 <= i < 64 ==> v[i] == old(v[i]) + (if Bit(hv, i) then 1 else -1)
  {
    for i := 0 to 64
      invariant forall j :: 0 <= j < i ==> v[j] == old(v[j]) + (if Bit(hv, j) then 1 else -1)
      invariant forall j :: i <= j < 64 ==> v[j] == old(v[j])
    {
      TestBit(hv, i);
      if And(hv, Pow2(i)) != 0 {
        v[i] := v[i] + 1;
      } else {
        v[i] := v[i] - 1;
      }
    }
  }

  /** x & (1 << i) != 0 reads digit i. */
  lemma {:induction false} TestBit(x: nat, i: nat)
    ensures And(x, Pow2(i)) != 0 <==> Bit(x, i)
  {
    if x == 0 {
      BitsOfZero(i);
    } else if i > 0 {
      TestBit(x / 2, i - 1);
    } else {
      assert And(x / 2, 0) == 0;
    }
  }

  /** `tokens` is the token list of `text`; a text without tokens is hashed whole. */
  method Fingerprint(hash: string -> uint64, text: string, tokens: seq<string>) returns (fp: uint64)
    ensures tokens == [] ==> fp == hash(text)
    ensures tokens != [] ==> Majority(hash, tokens, fp)
  {
    if |tokens| == 0 {
      return hash(text);
    }
    var v := new int[64](_ => 0);
    for k := 0 to |tokens|
      invariant forall i :: 0 <= i < 64 ==> v[i] == 2 * Ones(hash, tokens[..k], i) - k
    {
      assert tokens[..k + 1][..k] == tokens[..k];
      CastVotes(hash(tokens[k]), v);
    }
    assert tokens[..|tokens|] == tokens;
    fp := 0;
    WordIsPow2();
    forall i: nat { BitsOfZero(i); }
    for i := 0 to 64
      invariant forall j :: 0 <= j < 64 ==> v[j] == 2 * Ones(hash, tokens, j) - |tokens|
      invariant forall j :: 0 <= j < i ==> (Bit(fp, j) <==> v[j] > 0)
      invariant forall j: nat :: j >= i ==> !Bit(fp, j)
    {
      if v[i] > 0 {
        forall j: nat
          ensures Bit(Or(fp, Pow2(i)), j) <==> Bit(fp, j) || i == j
        {
          BitOps(fp, Pow2(i), j);
          BitOfPow2(i, j);
        }
        Pow2Below(i, 64);
        OpsBounded(fp, Pow2(i), 64);
        fp := Or(fp, Pow2(i));
      }
    }
  }

  lemma {:induction false} Pow2Below(i: nat, n: nat)
    requires i < n
    ensures Pow2(i) < Pow2(n)
    decreases n
  {
    if i < n - 1 { Pow2Below(i, n - 1); }
  }

  /** The majority rule determines the word. */
  lemma MajorityUnique(hash: string -> uint64, tokens: seq<string>, tokens': seq<string>, fp: uint64, fp': uint64)
    requires Majority(hash, tokens, fp) && Majority(hash, tokens', fp')
    requires forall i :: 0 <= i < 64 ==>
      (2 * Ones(hash, tokens, i) > |tokens| <==> 2 * Ones(hash, tokens', i) > |tokens'|)
    ensures fp == fp'
  {
    WordIsPow2();
    SameBits(fp, fp', 64);
  }

  lemma {:induction false} OnesConcat(hash: string -> uint64, a: seq<string>, b: seq<string>, i: nat)
    ensures Ones(hash, a + b, i) == Ones(hash, a, i) + Ones(hash, b, i)
  {
    if b == [] {
      assert a + b == a;
    } else {
      assert (a + b)[..|a + b| - 1] == a + b[..|b| - 1];
      OnesConcat(hash, a, b[..|b| - 1], i);
    }
  }

  function WithoutAt<T>(s: seq<T>, k: nat): seq<T>
    requires k < |s|
  {
    s[..k] + s[k + 1..]
  }

  lemma WithoutAtMembers<T>(s: seq<T>, k: nat)
    requires k < |s|
    ensures multiset(WithoutAt(s, k)) == multiset(s) - multiset{s[k]}
  {
    assert s == s[..k] + [s[k]] + s[k + 1..];
  }

  lemma OnesWithout(hash: string -> uint64, b: seq<string>, k: nat, i: nat)
    requires k < |b|
    ensures Ones(hash, b, i) == Ones(hash, WithoutAt(b, k), i) + Digit(Bit(hash(b[k]), i))
  {
    assert b == b[..k] + [b[k]] + b[k + 1..];
    OnesConcat(hash, b[..k], b[k + 1..], i);
    OnesConcat(hash, b[..k] + [b[k]], b[k + 1..], i);
    assert (b[..k] + [b[k]])[..k] == b[..k];
  }

  lemma {:induction false} OnesPermuted(hash: string -> uint64, a: seq<string>, b: seq<string>, i: nat)
    requires multiset(a) == multiset(b)
    ensures Ones(hash, a, i) == Ones(hash, b, i) && |a| == |b|
  {
    assert |a| == |multiset(a)| == |multiset(b)| == |b|;
    if a != [] {
      var n := |a| - 1;
      assert WithoutAt(a, n) == a[..n];
      WithoutAtMembers(a, n);
      assert a[n] in multiset(b);
      var k :| 0 <= k < |b| && b[k] == a[n];
      WithoutAtMembers(b, k);
      OnesPermuted(hash, a[..n], WithoutAt(b, k), i);
      OnesWithout(hash, b, k, i);
    }
  }

  /** The order of tokens does not matter. */
  lemma FingerprintPermuted(hash: string -> uint64, tokens: seq<string>, tokens': seq<string>, fp: uint64, fp': uint64)
    requires multiset(tokens) == multiset(tokens')
    requires Majority(hash, tokens, fp) && Majority(hash, tokens', fp')
    ensures fp == fp'
  {
    forall i | 0 <= i < 64
      ensures 2 * Ones(hash, tokens, i) > |tokens| <==> 2 * Ones(hash, tokens', i) > |tokens'|
    {
      OnesPermuted(hash, tokens, tokens', i);
    }
    MajorityUnique(hash, tokens, tokens', fp, fp');
  }

  function Repeat(tokens: seq<string>, n: nat): seq<string> {
    if n == 0 then [] else Repeat(tokens, n - 1) + tokens
  }

  lemma {:induction false} OnesRepeated(hash: string -> uint64, tokens: seq<string>, n: nat, i: nat)
    ensures Ones(hash, Repeat(tokens, n), i) == n * Ones(hash, tokens, i)
    ensures |Repeat(tokens, n)| == n * |tokens|
  {
    if n > 0 {
      OnesRepeated(hash, tokens, n - 1, i);
      OnesConcat(hash, Repeat(tokens, n - 1), tokens, i);
      OneMore(n, Ones(hash, tokens, i));
      OneMore(n, |tokens|);
    }
  }

  lemma OneMore(n: int, x: int)
    ensures n * x == (n - 1) * x + x
  {
  }

  /** Neither does repeating the whole token list. */
  lemma FingerprintRepeated(hash: string -> uint64, tokens: seq<string>, n: nat, fp: uint64, fp': uint64)
    requires n >= 1
    requires Majority(hash, tokens, fp) && Majority(hash, Repeat(tokens, n), fp')
    ensures fp == fp'
  {
    forall i | 0 <= i < 64
      ensures 2 * Ones(hash, tokens, i) > |tokens| <==> 2 * Ones(hash, Repeat(tokens, n), i) > |Repeat(tokens, n)|
    {
      OnesRepeated(hash, tokens, n, i);
      Scale(Ones(hash, tokens, i), |tokens|, n);
    }
    MajorityUnique(hash, tokens, Repeat(tokens, n), fp, fp');
  }

  lemma Scale(x: int, y: int, n: int)
    requires n >= 1
    ensures 2 * x > y <==> 2 * (n * x) > n * y
  {
    assert 2 * (n * x) - n * y == n * (2 * x - y);
    if 2 * x > y {
      assert n * (2 * x - y) > 0;
    } else {
      assert n * (2 * x - y) <= 0;
    }
  }
}
