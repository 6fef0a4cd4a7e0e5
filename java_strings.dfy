/** The `java.lang.String` operations the modelled code relies on. */
module JavaStrings {

  /** `sub` occurs in `s` starting at index `i`. */
  predicate OccursAt(s: string, sub: string, i: nat)
  {
    i + |sub| <= |s| && s[i..i + |sub|] == sub
  }

  /** `s.contains(sub)`. */
  predicate Contains(s: string, sub: string)
  {
    exists i: nat | i <= |s| :: OccursAt(s, sub, i)
  }

  /** A string contains its own suffix. */
  lemma ContainsSuffix(a: string, b: string)
    ensures Contains(a + b, b)
  {
    assert OccursAt(a + b, b, |a|);
  }

  /** Appending to a string keeps what it contained. */
  lemma ContainsExtend(s: string, t: string, sub: string)
    requires Contains(s, sub)
    ensures Contains(s + t, sub)
  {
    var i: nat :| i <= |s| && OccursAt(s, sub, i);
    assert (s + t)[i..i + |sub|] == s[i..i + |sub|];
    assert OccursAt(s + t, sub, i);
  }

  /** `s.indexOf(sub, from)` for `from <= |s|`: the first occurrence at or after `from`, or -1. */
  function IndexOfFrom(s: string, sub: string, from: nat): (r: int)
    requires from <= |s|
    ensures r == -1 || (from <= r <= |s| && OccursAt(s, sub, r))
    ensures forall j: nat :: from <= j && (r == -1 || j < r) ==> !OccursAt(s, sub, j)
    decreases |s| - from
  {
    if OccursAt(s, sub, from) then from
    else if from == |s| then -1
    else IndexOfFrom(s, sub, from + 1)
  }

  /** `s.indexOf(sub)`: the index of the first occurrence of `sub`, or -1 if there is none. */
  function IndexOf(s: string, sub: string): (r: int)
    ensures r == -1 <==> !Contains(s, sub)
    ensures r != -1 ==> 0 <= r && r + |sub| <= |s| && OccursAt(s, sub, r)
    ensures r != -1 ==> forall j: nat :: j < r ==> !OccursAt(s, sub, j)
  {
    var r := IndexOfFrom(s, sub, 0);
    assert r == -1 ==> forall j: nat :: !OccursAt(s, sub, j) by {
      if r == -1 {
        forall j: nat ensures !OccursAt(s, sub, j) {
          if j > |s| {
            assert !(j + |sub| <= |s|);
          }
        }
      }
    }
    r
  }

  /** `s.endsWith(suffix)`. */
  predicate EndsWith(s: string, suffix: string)
  {
    |suffix| <= |s| && s[|s| - |suffix|..] == suffix
  }

  /** `s.trim().isEmpty()`: `trim` strips every character up to U+0020, so the
      string is blank exactly when it holds no character above U+0020. */
  predicate IsBlank(s: string)
  {
    forall i :: 0 <= i < |s| ==> s[i] as int <= 0x20
  }

  /** The regular-expression class `\s`: space, tab, line feed, vertical tab, form feed, carriage return. */
  predicate IsRegexWhitespace(c: char)
  {
    c == ' ' || c == '\t' || c == '\n' || c as int == 0x0B || c as int == 0x0C || c == '\r'
  }

  /** An ASCII decimal digit. */
  predicate IsDigit(c: char)
  {
    '0' <= c <= '9'
  }

  /** `c - '0'` as Java computes it for a `char`. */
  function DigitValue(c: char): int
  {
    c as int - '0' as int
  }

  /** The decimal digit character for `d`. */
  function DigitChar(d: nat): (c: char)
    requires d < 10
    ensures IsDigit(c) && DigitValue(c) == d
  {
    ('0' as int + d) as char
  }

  /** The decimal digits of `n`, without leading zeros (`Long.toString` of a non-negative value). */
  function NatToDecimal(n: nat): (s: string)
    ensures |s| >= 1
    ensures forall i :: 0 <= i < |s| ==> IsDigit(s[i])
    ensures s[0] == '0' ==> n == 0
  {
    if n < 10 then [DigitChar(n)] else NatToDecimal(n / 10) + [DigitChar(n % 10)]
  }

  /** `Long.toString(n)`: a minus sign for negative values, then the decimal digits. */
  function LongToString(n: int): (s: string)
  {
    if n < 0 then "-" + NatToDecimal(-n) else NatToDecimal(n)
  }

  /** The value of a string of decimal digits: the inverse of `NatToDecimal`. */
  function DecimalValue(s: string): nat
    requires forall i :: 0 <= i < |s| ==> IsDigit(s[i])
  {
    if s == [] then 0
    else
      assert IsDigit(s[|s| - 1]);
      10 * DecimalValue(s[..|s| - 1]) + DigitValue(s[|s| - 1])
  }

  /** Reading back the digits `NatToDecimal` writes gives the number. */
  lemma {:induction false} DecimalRoundTrip(n: nat)
    ensures DecimalValue(NatToDecimal(n)) == n
  {
    var s := NatToDecimal(n);
    if n >= 10 {
      DecimalRoundTrip(n / 10);
      assert s[..|s| - 1] == NatToDecimal(n / 10);
    }
  }

  /** `LongToString` is injective: distinct numbers are printed differently. */
  lemma LongToStringInjective(m: int, n: int)
    requires LongToString(m) == LongToString(n)
    ensures m == n
  {
    if m < 0 && n < 0 {
      assert NatToDecimal(-m) == LongToString(m)[1..];
      DecimalRoundTrip(-m);
      DecimalRoundTrip(-n);
    } else if m >= 0 && n >= 0 {
      DecimalRoundTrip(m);
      DecimalRoundTrip(n);
    }
  }
}
