/** Decimal numerals and occurrences of one string inside another. */
module Strings {

  predicate IsDigit(c: char) { '0' <= c <= '9' }

  predicate IsLower(c: char) { 'a' <= c <= 'z' }

  predicate AllDigits(s: string) { forall c | c in s :: IsDigit(c) }

  /** The text `%d` prints for a natural number. */
  function Decimal(n: nat): (s: string)
    ensures |s| > 0 && AllDigits(s)
    ensures n < 10 ==> |s| == 1
  {
    if n < 10 then [DigitChar(n)] else Decimal(n / 10) + [DigitChar(n % 10)]
  }

  function DigitChar(d: nat): (c: char)
    requires d < 10
    ensures IsDigit(c) && (c - '0') as int == d
  {
    '0' + d as char
  }

  function ParseDecimal(s: string): nat
    requires AllDigits(s)
  {
    if s == "" then 0
    else
      var last := s[|s| - 1];
      assert last in s;
      10 * ParseDecimal(s[..|s| - 1]) + (last - '0') as int
  }

  lemma {:induction false} DecimalRoundTrip(n: nat)
    ensures ParseDecimal(Decimal(n)) == n
  {
    var s := Decimal(n);
    if n >= 10 {
      DecimalRoundTrip(n / 10);
      assert s[..|s| - 1] == Decimal(n / 10);
    } else {
      assert s[..|s| - 1] == "";
    }
  }

  lemma DecimalInjective(m: nat, n: nat)
    requires Decimal(m) == Decimal(n)
    ensures m == n
  {
    DecimalRoundTrip(m);
    DecimalRoundTrip(n);
  }

  /** `p` occurs in `t` at offset `x`. */
  predicate OccursAt(t: string, x: nat, p: string) {
    x + |p| <= |t| && t[x..x + |p|] == p
  }

  /** Two strings agree as far as the shorter one reaches. */
  predicate Compatible(a: string, b: string) {
    a <= b || b <= a
  }

  lemma PrefixesCompatible(a: string, b: string, t: string)
    requires a <= t && b <= t
    ensures Compatible(a, b)
  {
    if |a| <= |b| {
      assert b[..|a|] == t[..|b|][..|a|] == t[..|a|];
    } else {
      assert a[..|b|] == t[..|a|][..|b|] == t[..|b|];
    }
  }

  /** Digit runs are delimited by the first character that is not a digit. */
  lemma DigitRunsAgree(a: string, x: char, s: string, b: string, y: char, t: string)
    requires AllDigits(a) && AllDigits(b) && !IsDigit(x) && !IsDigit(y)
    requires Compatible(a + [x] + s, b + [y] + t)
    ensures a == b && x == y
  {
    var u, v := a + [x] + s, b + [y] + t;
    forall i | 0 <= i < |u| && i < |v|
      ensures u[i] == v[i]
    {
      if u <= v { assert v[..|u|] == u; } else { assert u[..|v|] == v; }
    }
    assert u[|a|] == x && v[|b|] == y;
    if |a| < |b| {
      assert false;
    } else if |b| < |a| {
      assert false;
    } else {
      forall i | 0 <= i < |a| ensures a[i] == b[i] { assert u[i] == a[i] && v[i] == b[i]; }
    }
  }
}
