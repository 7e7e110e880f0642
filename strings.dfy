/** Decimal rendering of naturals and the `<base>_<n>` decoration the code
    generator uses for symbol generations and branch labels
    (`format!("{}_{}", base, n)` in the source). */
module Strings {

  predicate IsDigit(c: char) {
    '0' <= c <= '9'
  }

  function DigitChar(d: nat): (c: char)
    requires d < 10
    ensures IsDigit(c)
  {
    ['0', '1', '2', '3', '4', '5', '6', '7', '8', '9'][d]
  }

  function DigitValue(c: char): (d: nat)
    requires IsDigit(c)
    ensures d < 10 && DigitChar(d) == c
  {
    (c as int - '0' as int) as nat
  }

  /** The decimal text of `n`, as Rust's `{}` formatting of an unsigned integer. */
  function NatToString(n: nat): (s: string)
    ensures |s| >= 1
    ensures forall i :: 0 <= i < |s| ==> IsDigit(s[i])
    ensures (n < 10) == (|s| == 1)
  {
    if n < 10 then [DigitChar(n)] else NatToString(n / 10) + [DigitChar(n % 10)]
  }

  /** Different numbers have different decimal texts. */
  lemma {:induction false} NatToStringInjective(a: nat, b: nat)
    requires NatToString(a) == NatToString(b)
    ensures a == b
  {
    var sa, sb := NatToString(a), NatToString(b);
    if a < 10 || b < 10 {
      assert a < 10 && b < 10;
      assert DigitValue(sa[0]) == a && DigitValue(sb[0]) == b;
    } else {
      var pa, pb := NatToString(a / 10), NatToString(b / 10);
      assert sa == pa + [DigitChar(a % 10)] && sb == pb + [DigitChar(b % 10)];
      assert sa[|sa| - 1] == DigitChar(a % 10) && sb[|sb| - 1] == DigitChar(b % 10);
      DigitCharInjective(a % 10, b % 10);
      assert sa[..|sa| - 1] == pa && sb[..|sb| - 1] == pb;
      NatToStringInjective(a / 10, b / 10);
      DivModTen(a);
      DivModTen(b);
    }
  }

  lemma DigitCharInjective(d: nat, e: nat)
    requires d < 10 && e < 10 && DigitChar(d) == DigitChar(e)
    ensures d == e
  {
    assert DigitValue(DigitChar(d)) == d && DigitValue(DigitChar(e)) == e;
  }

  lemma DivModTen(n: nat)
    ensures n == 10 * (n / 10) + n % 10
  {
  }

  /** `format!("{}_{}", base, n)` */
  function Decorated(base: string, n: nat): string {
    base + "_" + NatToString(n)
  }

  /** The underscore at `|base|` is the last one of a decorated name. */
  lemma UnderscoreIsLast(base: string, n: nat)
    ensures Decorated(base, n)[|base|] == '_'
    ensures forall j :: |base| < j < |Decorated(base, n)| ==> Decorated(base, n)[j] != '_'
  {
    var s, d := Decorated(base, n), NatToString(n);
    forall j | |base| < j < |s| ensures s[j] != '_' {
      assert s[j] == d[j - |base| - 1];
    }
  }

  /** The separator of a decorated name is its last underscore, because the
      decimal suffix holds none; so a decorated name determines both its base
      and its number, and names decorated from different (base, n) pairs
      never collide. */
  lemma DecoratedInjective(b1: string, n1: nat, b2: string, n2: nat)
    requires Decorated(b1, n1) == Decorated(b2, n2)
    ensures b1 == b2 && n1 == n2
  {
    var s := Decorated(b1, n1);
    var d1, d2 := NatToString(n1), NatToString(n2);
    assert |s| == |b1| + 1 + |d1| == |b2| + 1 + |d2|;
    UnderscoreIsLast(b1, n1);
    UnderscoreIsLast(b2, n2);
    assert |b1| == |b2|;
    assert b1 == s[..|b1|] == b2;
    assert d1 == s[|b1| + 1..] == d2;
    NatToStringInjective(n1, n2);
  }

  /** The same base decorated with different numbers gives different names. */
  lemma DecoratedDistinct(base: string, m: nat, n: nat)
    requires m != n
    ensures Decorated(base, m) != Decorated(base, n)
  {
    if Decorated(base, m) == Decorated(base, n) {
      DecoratedInjective(base, m, base, n);
    }
  }

  predicate StartsWith(s: string, prefix: string) {
    |prefix| <= |s| && s[..|prefix|] == prefix
  }

  predicate EndsWith(s: string, suffix: string) {
    |suffix| <= |s| && s[|s| - |suffix|..] == suffix
  }

  /** A string made of three parts starts with the first and ends with the last. */
  lemma Framed(pre: string, mid: string, post: string)
    ensures StartsWith(pre + mid + post, pre) && EndsWith(pre + mid + post, post)
  {
    var s := pre + mid + post;
    assert s[..|pre|] == pre;
    assert s[|s| - |post|..] == post;
  }

  /** A string that begins with a non-empty `p` has `p`'s first character. */
  lemma FirstChar(p: string, x: string)
    requires |p| > 0
    ensures (p + x)[0] == p[0]
  {
  }
}
