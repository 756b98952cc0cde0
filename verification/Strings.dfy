// Strings as sequences of characters: lexicographic order, decimal digits and identifier names.

module Strings {
  /** Lexicographic order by character, a proper prefix first. */
  predicate Leq(a: string, b: string) {
    a == "" || (b != "" && (a[0] < b[0] || (a[0] == b[0] && Leq(a[1..], b[1..]))))
  }

  lemma {:induction false} LeqTotal(a: string, b: string)
    ensures Leq(a, b) || Leq(b, a)
  {
    if a != "" && b != "" {
      LeqTotal(a[1..], b[1..]);
    }
  }

  lemma {:induction false} LeqTransitive(a: string, b: string, c: string)
    requires Leq(a, b) && Leq(b, c)
    ensures Leq(a, c)
  {
    if a != "" {
      if a[0] == b[0] && b[0] == c[0] {
        LeqTransitive(a[1..], b[1..], c[1..]);
      }
    }
  }

  predicate Letter(c: char) {
    'a' <= c <= 'z' || 'A' <= c <= 'Z' || c == '_'
  }

  predicate Digit(c: char) {
    '0' <= c <= '9'
  }

  /** The pattern `[a-zA-Z_][a-zA-Z0-9_]*`, matching the whole string. */
  predicate Name(s: string) {
    s != "" && Letter(s[0]) && forall i :: 0 <= i < |s| ==> Letter(s[i]) || Digit(s[i])
  }

  function DigitChar(d: nat): char
    requires d < 10
  {
    "0123456789"[d]
  }

  function Decimal(n: nat): (s: string)
    ensures s != "" && forall i :: 0 <= i < |s| ==> Digit(s[i])
  {
    if n < 10 then [DigitChar(n)] else Decimal(n / 10) + [DigitChar(n % 10)]
  }

  lemma {:induction false} DecimalInjective(m: nat, n: nat)
    requires Decimal(m) == Decimal(n)
    ensures m == n
  {
    var s := Decimal(m);
    if m >= 10 && n >= 10 {
      var front := s[..|s| - 1];
      assert front == Decimal(m / 10) && front == Decimal(n / 10);
      DecimalInjective(m / 10, n / 10);
      assert DigitChar(m % 10) == DigitChar(n % 10);
    } else {
      assert |Decimal(m)| == 1 <==> m < 10;
    }
  }

  /** The part before the last underscore and the part after it are determined by the whole. */
  lemma LastUnderscore(a: string, x: string, b: string, y: string)
    requires a + "_" + x == b + "_" + y
    requires forall i :: 0 <= i < |x| ==> x[i] != '_'
    requires forall i :: 0 <= i < |y| ==> y[i] != '_'
    ensures a == b && x == y
  {
    var s := a + "_" + x;
    assert s[|a|] == '_' && s[|b|] == '_';
    assert forall i :: |a| < i < |s| ==> s[i] == x[i - |a| - 1];
    assert forall i :: |b| < i < |s| ==> s[i] == y[i - |b| - 1];
    assert |a| == |b|;
    assert a == s[..|a|] && b == s[..|b|];
    assert x == s[|a| + 1..] && y == s[|b| + 1..];
  }
}
