/** Decimal rendering of integers as JavaScript's `toString()` and
    `String(n).padStart(2, '0')` produce it. */
module Text {

  predicate IsDigit(c: char) {
    '0' <= c <= '9'
  }

  predicate AllDigits(s: string) {
    forall i :: 0 <= i < |s| ==> IsDigit(s[i])
  }

  function DigitChar(d: nat): (c: char)
    requires d < 10
    ensures IsDigit(c)
  {
    ('0' as int + d) as char
  }

  function DigitValue(c: char): (d: nat)
    requires IsDigit(c)
    ensures d < 10 && DigitChar(d) == c
  {
    c as int - '0' as int
  }

  /** `n.toString()` for a non-negative integer: no leading zero. */
  function NatString(n: nat): (s: string)
    ensures |s| >= 1 && AllDigits(s)
    ensures |s| > 1 ==> s[0] != '0'
    ensures n < 10 <==> |s| == 1
    decreases n
  {
    if n < 10 then [DigitChar(n)] else NatString(n / 10) + [DigitChar(n % 10)]
  }

  /** The number a string of decimal digits denotes. */
  function ValueOf(s: string): nat
    requires AllDigits(s)
  {
    if s == [] then 0 else 10 * ValueOf(s[..|s| - 1]) + DigitValue(s[|s| - 1])
  }

  /** Reading back the decimal rendering gives the number. */
  lemma {:induction false} NatStringValue(n: nat)
    ensures ValueOf(NatString(n)) == n
    decreases n
  {
    if n >= 10 {
      var s := NatString(n);
      assert s[..|s| - 1] == NatString(n / 10);
      NatStringValue(n / 10);
    }
  }

  /** Two numbers with the same rendering are equal. */
  lemma NatStringInjective(m: nat, n: nat)
    requires NatString(m) == NatString(n)
    ensures m == n
  {
    NatStringValue(m);
    NatStringValue(n);
  }

  /** `n.toString()` for any integer. */
  function IntString(i: int): string {
    if i < 0 then "-" + NatString(-i) else NatString(i)
  }

  /** `String(n).padStart(2, '0')`. */
  function PadTwo(n: nat): (s: string)
    ensures |s| >= 2 && AllDigits(s)
    ensures n < 100 ==> |s| == 2 && ValueOf(s) == n
  {
    if n < 10 then
      assert ValueOf([DigitChar(n)]) == n by { assert [DigitChar(n)][..0] == []; }
      assert ("0" + NatString(n))[..1] == "0";
      "0" + NatString(n)
    else
      NatStringValue(n);
      NatString(n)
  }

  lemma CharAt(a: string, sep: char, t: string, k: nat)
    ensures k < |a| ==> (a + [sep] + t)[k] == a[k]
    ensures k == |a| ==> (a + [sep] + t)[k] == sep
  {
  }

  /** A run of digits ends where the next character is not a digit: two
      digit strings followed by the same non-digit separator can only be split
      one way. */
  lemma DigitPrefixUnique(a: string, b: string, sep: char, t: string, u: string)
    requires AllDigits(a) && AllDigits(b) && !IsDigit(sep)
    requires a + [sep] + t == b + [sep] + u
    ensures a == b && t == u
  {
    var l := a + [sep] + t;
    var r := b + [sep] + u;
    if |a| < |b| {
      CharAt(a, sep, t, |a|);
      CharAt(b, sep, u, |a|);
      assert false;
    } else if |b| < |a| {
      CharAt(b, sep, u, |b|);
      assert false;
    }
    assert a == l[..|a|] == r[..|b|] == b;
    assert t == l[|a| + 1..] == r[|b| + 1..] == u;
  }
}
