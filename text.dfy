/** String operations the application relies on: ASCII lower-casing
    (`toLowerCase`), substring search (`includes`) and the decimal rendering
    of integers (`toString`). */
module Text {

  predicate IsDigit(c: char)
  {
    '0' <= c <= '9'
  }

  predicate AllDigits(s: string)
  {
    forall k :: 0 <= k < |s| ==> IsDigit(s[k])
  }

  function LowerChar(c: char): char
  {
    if 'A' <= c <= 'Z' then (c as int + 32) as char else c
  }

  /** `s.toLowerCase()` on the ASCII letters: the result has no capital letter, and
      every other character stays where it was. */
  function ToLower(s: string): (r: string)
    ensures |r| == |s|
    ensures forall k :: 0 <= k < |r| ==> !('A' <= r[k] <= 'Z')
    ensures forall k :: 0 <= k < |s| && !('A' <= s[k] <= 'Z') ==> r[k] == s[k]
  {
    seq(|s|, k requires 0 <= k < |s| => LowerChar(s[k]))
  }

  /** `s.includes(t)`: `t` occurs in `s` as a contiguous block. */
  predicate Includes(s: string, t: string)
  {
    exists i :: 0 <= i <= |s| && t <= s[i..]
  }

  /** Every string includes the empty string. */
  lemma IncludesEmpty(s: string)
    ensures Includes(s, "")
  {
    assert "" <= s[0..];
  }

  function DigitChar(d: nat): (c: char)
    requires d < 10
    ensures IsDigit(c)
  {
    ('0' as int + d) as char
  }

  function DigitValue(c: char): (d: nat)
    requires IsDigit(c)
    ensures d < 10 && DigitChar(d) == c
  {
    c as int - '0' as int
  }

  /** `n.toString()` for a non-negative integer: its decimal digits, most
      significant first, with no leading zero. */
  function ToDecimal(n: nat): (s: string)
    ensures |s| >= 1
    ensures AllDigits(s)
    ensures s[0] == '0' ==> n == 0
    decreases n
  {
    if n < 10 then [DigitChar(n)] else ToDecimal(n / 10) + [DigitChar(n % 10)]
  }

  /** The value of a string of decimal digits (0 for the empty string). */
  function ParseDecimal(s: string): nat
    requires AllDigits(s)
  {
    if s == [] then 0 else 10 * ParseDecimal(s[..|s| - 1]) + DigitValue(s[|s| - 1])
  }

  /** Reading back the decimal rendering of `n` gives `n`. */
  lemma {:induction false} ParseToDecimal(n: nat)
    ensures ParseDecimal(ToDecimal(n)) == n
    decreases n
  {
    var s := ToDecimal(n);
    if n >= 10 {
      ParseToDecimal(n / 10);
      assert s[..|s| - 1] == ToDecimal(n / 10);
    }
  }

  /** Distinct numbers have distinct renderings, so `toString` ids never collide. */
  lemma ToDecimalInjective(a: nat, b: nat)
    requires ToDecimal(a) == ToDecimal(b)
    ensures a == b
  {
    ParseToDecimal(a);
    ParseToDecimal(b);
  }

  /** Numbers below 1000 have at most three digits; from 1000 on they have at least four. */
  lemma {:induction false} ShortDecimal(n: nat)
    ensures n < 1000 <==> |ToDecimal(n)| <= 3
    decreases n
  {
    if n >= 10 {
      ShortDecimal(n / 10);
      if n / 10 >= 10 {
        ShortDecimal(n / 100);
        assert |ToDecimal(n / 10)| == |ToDecimal(n / 100)| + 1;
      }
    }
  }

  /** `n.toString()` for any integer: a minus sign precedes the digits of a negative number. */
  function IntToString(n: int): string
  {
    if n < 0 then "-" + ToDecimal(-n) else ToDecimal(n)
  }
}
