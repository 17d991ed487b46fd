/** Decimal formatting of naturals, separator-joined keys and paths below a root:
    when the composite keys the program builds with Sprintf collide. */
module Formatting {
  import opened Common

  function Digit(d: nat): char
    requires d < 10
  {
    "0123456789"[d]
  }

  /** Sprintf("%d", n). */
  function Itoa(n: nat): (s: string)
    ensures s != []
    ensures forall i :: 0 <= i < |s| ==> '0' <= s[i] <= '9'
  {
    if n < 10 then [Digit(n)] else Itoa(n / 10) + [Digit(n % 10)]
  }

  /** The number that decimal digits denote. */
  function DecimalValue(s: string): int {
    if s == [] then 0 else 10 * DecimalValue(s[..|s| - 1]) + (s[|s| - 1] as int - '0' as int)
  }

  /** Itoa writes the number in decimal without leading zeros. */
  lemma {:induction false} ItoaMeaning(n: nat)
    ensures DecimalValue(Itoa(n)) == n
    ensures n > 0 ==> Itoa(n)[0] != '0'
  {
    var s := Itoa(n);
    if n < 10 {
      assert s[..0] == [];
    } else {
      ItoaMeaning(n / 10);
      assert s[..|s| - 1] == Itoa(n / 10);
    }
  }

  lemma ItoaInjective(a: nat, b: nat)
    requires Itoa(a) == Itoa(b)
    ensures a == b
  {
    hide Itoa, DecimalValue;
    ItoaMeaning(a);
    ItoaMeaning(b);
  }

  lemma Misaligned(a: string, x: string, b: string, y: string, sep: char)
    requires |a| < |b| && |a| + |x| == |b| + |y| && sep !in x
    ensures a + [sep] + x != b + [sep] + y
  {
    assert (a + [sep] + x)[|b|] == x[|b| - |a| - 1];
    assert (b + [sep] + y)[|b|] == sep;
  }

  /** A separator that does not occur in the last part splits a key uniquely. */
  lemma LastSeparator(a: string, x: string, b: string, y: string, sep: char)
    requires a + [sep] + x == b + [sep] + y
    requires sep !in x && sep !in y
    ensures a == b && x == y
  {
    assert |a + [sep] + x| == |a| + 1 + |x| && |b + [sep] + y| == |b| + 1 + |y|;
    if |a| < |b| {
      Misaligned(a, x, b, y, sep);
    } else if |b| < |a| {
      Misaligned(b, y, a, x, sep);
    } else {
      var k := a + [sep] + x;
      assert a == k[..|a|] == b;
      assert x == k[|a| + 1..] == y;
    }
  }

  /** The key joined from p' and s' reads as that of p and s if a separator
      inside `s` is taken for the one between the parts. */
  predicate SeparatorMoved(p: string, s: string, p': string, s': string, sep: char) {
    HasPrefix(p', p + [sep]) && s == p'[|p| + 1..] + [sep] + s'
  }

  /** Joined keys clash exactly when a separator inside a part could be the one
      between the parts. */
  lemma JoinClashesExactly(p: string, s: string, p': string, s': string, sep: char)
    ensures p + [sep] + s == p' + [sep] + s'
      <==> (p == p' && s == s') || SeparatorMoved(p, s, p', s', sep) || SeparatorMoved(p', s', p, s, sep)
  {
    ClashOneWay(p, s, p', s', sep);
    ClashOneWay(p', s', p, s, sep);
    var k, k' := p + [sep] + s, p' + [sep] + s';
    if k == k' && |p| == |p'| {
      assert p == k[..|p|] == p';
      assert s == k[|p| + 1..] == s';
    }
  }

  lemma ClashOneWay(p: string, s: string, p': string, s': string, sep: char)
    ensures SeparatorMoved(p, s, p', s', sep) <==> |p| < |p'| && p + [sep] + s == p' + [sep] + s'
  {
    var k, k' := p + [sep] + s, p' + [sep] + s';
    if SeparatorMoved(p, s, p', s', sep) {
      assert p' == p + [sep] + p'[|p| + 1..];
    }
    if |p| < |p'| && k == k' {
      assert p' == k[..|p'|] && k[..|p| + 1] == p + [sep] == p'[..|p| + 1];
      assert s == k[|p| + 1..] == k'[|p| + 1..] == p'[|p| + 1..] + [sep] + s';
    }
  }

  predicate IsUnderPath(path: string, root: string) {
    if root == "" then path != ""
    else if !HasPrefix(path, root) then false
    else if |path| == |root| then true
    else path[|root|] == '/'
  }

  /** A path is under a root if it is the root or continues it after a
      separator; under the empty root are all but the empty path. */
  lemma UnderPathMeaning(path: string, root: string)
    ensures IsUnderPath(path, root)
      <==> if root == "" then path != "" else path == root || HasPrefix(path, root + "/")
  {
    if HasPrefix(path, root) && |path| > |root| {
      assert path[..|root| + 1] == root + [path[|root|]];
    }
    if HasPrefix(path, root + "/") {
      assert root + "/" == path[..|root| + 1];
      assert path[..|root|] == root && path[|root|] == (root + "/")[|root|];
    }
  }
}
