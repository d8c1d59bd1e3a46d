/**
 Numbers written in decimal, and what makes them self-delimiting: a decimal
 length followed by a separator can be read back, however the text goes on. The
 digest stream and the cache keys are decoded with it.
 */
module Decimals {
  predicate Digits(s: string) {
    s != "" && forall i | 0 <= i < |s| :: '0' <= s[i] <= '9'
  }

  /** The decimal digits of a number. */
  function Decimal(n: nat): (s: string)
    ensures Digits(s)
  {
    if n < 10 then [Digit(n)] else Decimal(n / 10) + [Digit(n % 10)]
  }

  function Digit(d: nat): (c: char)
    requires d < 10
    ensures '0' <= c <= '9'
  {
    '0' + d as char
  }

  /** The number written by a list of digits. */
  function Value(s: string): int {
    if s == "" then 0 else Value(s[..|s| - 1]) * 10 + (s[|s| - 1] as int - '0' as int)
  }

  lemma {:induction false} DecimalReadBack(n: nat)
    ensures Value(Decimal(n)) == n
  {
    var s := Decimal(n);
    if n < 10 {
      assert s[..|s| - 1] == "";
    } else {
      DecimalReadBack(n / 10);
      assert s[..|s| - 1] == Decimal(n / 10);
    }
  }

  /** A text in which `sep` does not occur. */
  predicate Free(sep: char, a: string) {
    forall i | 0 <= i < |a| :: a[i] != sep
  }

  /** Nothing, or something that starts with `sep`. */
  predicate Opens(sep: char, t: string) {
    t == "" || t[0] == sep
  }

  lemma FreeNotLonger(sep: char, a: string, b: string, t: string, t': string)
    requires Free(sep, b) && Opens(sep, t) && a + t == b + t'
    ensures |b| <= |a|
  {
    if t != "" {
      assert (a + t)[|a|] == sep;
      assert forall i | 0 <= i < |b| :: (b + t')[i] == b[i];
    }
  }

  /** A text that reaches up to the first `sep`, or to the end, can be split off in only one way. */
  lemma FreeSplits(sep: char, a: string, b: string, t: string, t': string)
    requires Free(sep, a) && Free(sep, b) && Opens(sep, t) && Opens(sep, t') && a + t == b + t'
    ensures a == b && t == t'
  {
    FreeNotLonger(sep, a, b, t, t');
    FreeNotLonger(sep, b, a, t', t);
    assert a == (a + t)[..|a|] && b == (b + t')[..|b|];
    assert t == (a + t)[|a|..] && t' == (b + t')[|b|..];
  }

  lemma LastNotShorter(sep: char, a: string, b: string, d: string, d': string)
    requires Free(sep, d) && a + [sep] + d == b + [sep] + d'
    ensures |d| <= |d'|
  {
    var s := b + [sep] + d';
    assert s[|b|] == sep;
    assert forall i | 0 <= i < |d| :: (a + [sep] + d)[|s| - |d| + i] == d[i];
  }

  /** What follows the last `sep` can be split off in only one way. */
  lemma LastSplits(sep: char, a: string, b: string, d: string, d': string)
    requires Free(sep, d) && Free(sep, d') && a + [sep] + d == b + [sep] + d'
    ensures a == b && d == d'
  {
    LastNotShorter(sep, a, b, d, d');
    LastNotShorter(sep, b, a, d', d);
    var s, t := a + [sep] + d, b + [sep] + d';
    assert a == s[..|a|] && b == t[..|b|];
    assert d == s[|a| + 1..] && d' == t[|b| + 1..];
  }

  lemma Regroup(a: string, b: string, c: string)
    ensures a + b + c == a + (b + c)
  {
  }

  /** A length prefix can be read in only one way. */
  lemma PrefixUnique(m: nat, n: nat, rest: string, rest': string)
    requires Decimal(m) + ":" + rest == Decimal(n) + ":" + rest'
    ensures m == n && rest == rest'
  {
    Regroup(Decimal(m), ":", rest);
    Regroup(Decimal(n), ":", rest');
    FreeSplits(':', Decimal(m), Decimal(n), ":" + rest, ":" + rest');
    assert rest == (":" + rest)[1..] && rest' == (":" + rest')[1..];
    DecimalReadBack(m);
    DecimalReadBack(n);
  }
}
