/** The few .NET string operations the core relies on, over `seq<char>`:
    `string.IsNullOrWhiteSpace`, `ToLowerInvariant` (on ASCII letters) and the
    decimal rendering of an `int` used in string interpolation. */
module Text {

  /** `char.IsWhiteSpace`: the Unicode separator characters plus the control
      characters U+0009 to U+000D and U+0085. */
  predicate IsWhiteSpace(c: char)
  {
    || ('\t' <= c <= '\r')
    || c == ' '
    || c == '\U{85}'
    || c == '\U{A0}'
    || c == '\U{1680}'
    || ('\U{2000}' <= c <= '\U{200A}')
    || c == '\U{2028}'
    || c == '\U{2029}'
    || c == '\U{202F}'
    || c == '\U{205F}'
    || c == '\U{3000}'
  }

  /** `string.IsNullOrWhiteSpace` (null is represented by the empty string). */
  predicate IsBlank(s: string)
  {
    forall i :: 0 <= i < |s| ==> IsWhiteSpace(s[i])
  }

  /** Blankness on the inputs the client meets: empty and all-separator
      strings are blank (a tab, a line break, a no-break or ideographic
      space), and one other character anywhere makes a string not blank. */
  lemma BlankExamples()
    ensures IsBlank("") && IsBlank(" \t\r\n") && IsBlank("\U{A0}\U{3000}")
    ensures !IsBlank("a") && !IsBlank(" my-topic ") && !IsBlank("\U{200B}")
  {
    assert !IsWhiteSpace("a"[0]) && !IsWhiteSpace(" my-topic "[1]) && !IsWhiteSpace("\U{200B}"[0]);
  }

  function LowerChar(c: char): char
  {
    if 'A' <= c <= 'Z' then (c as int + 32) as char else c
  }

  /** `ToLowerInvariant`, restricted to the ASCII letters. */
  function LowerInvariant(s: string): (r: string)
    ensures |r| == |s|
    ensures forall i :: 0 <= i < |s| ==> r[i] == LowerChar(s[i])
    ensures IsBlank(s) ==> r == s
  {
    seq(|s|, i requires 0 <= i < |s| => LowerChar(s[i]))
  }

  predicate IsDigit(c: char)
  {
    '0' <= c <= '9'
  }

  function DigitChar(d: nat): (c: char)
    requires d < 10
    ensures IsDigit(c)
  {
    ('0' as int + d) as char
  }

  /** The decimal digits of `n`, most significant first, without leading zeros. */
  function NatToDigits(n: nat): (s: string)
    ensures |s| >= 1
    ensures |s| == 1 <==> n < 10
    ensures forall i :: 0 <= i < |s| ==> IsDigit(s[i])
    decreases n
  {
    if n < 10 then [DigitChar(n)] else NatToDigits(n / 10) + [DigitChar(n % 10)]
  }

  /** `int.ToString()`: a minus sign for negative values, then the digits. */
  function IntToString(i: int): (s: string)
    ensures |s| >= 1
    ensures s[0] == '-' <==> i < 0
    ensures IsDigit(s[|s| - 1])
    ensures forall k :: 0 <= k < |s| ==> IsDigit(s[k]) || s[k] == '-'
  {
    if i < 0 then "-" + NatToDigits(-i) else NatToDigits(i)
  }

  lemma {:induction false} NatToDigitsInjective(a: nat, b: nat)
    requires NatToDigits(a) == NatToDigits(b)
    ensures a == b
    decreases a
  {
    var s := NatToDigits(a);
    if a < 10 {
      // a single digit, so b is a single digit too
      assert s[0] == DigitChar(a) && s[0] == DigitChar(b);
    } else {
      var n := |s|;
      assert s[n - 1] == DigitChar(a % 10) && s[n - 1] == DigitChar(b % 10);
      assert NatToDigits(a / 10) == s[..n - 1] == NatToDigits(b / 10);
      NatToDigitsInjective(a / 10, b / 10);
    }
  }

  /** Distinct integers render as distinct strings, so the cache keys built
      from them are distinct. */
  lemma {:induction false} IntToStringInjective(a: int, b: int)
    requires IntToString(a) == IntToString(b)
    ensures a == b
  {
    var s := IntToString(a);
    if a < 0 {
      // the leading minus sign shows that b is negative too
      assert NatToDigits(-a) == s[1..] == NatToDigits(-b);
      NatToDigitsInjective(-a, -b);
    } else {
      NatToDigitsInjective(a, b);
    }
  }
}
