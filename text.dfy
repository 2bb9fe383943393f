/** Text helpers shared by the order messages: a substring predicate and the
    decimal rendering that a Python f-string gives an `int` field. */
module Text {

  /** `part` occurs somewhere inside `s`. */
  ghost predicate Contains(s: string, part: string)
  {
    exists i :: OccursAt(s, part, i)
  }

  /** `part` occurs inside `s` starting at index `i`. */
  predicate OccursAt(s: string, part: string, i: int)
  {
    0 <= i <= |s| - |part| && s[i..i + |part|] == part
  }

  /** `part` occurs inside `before + part + after`, wherever the two ends are. */
  lemma ContainsMiddle(before: string, part: string, after: string)
    ensures Contains(before + part + after, part)
  {
    var s := before + part + after;
    assert OccursAt(s, part, |before|);
  }

  /** `part` occurs at the end of `before + part`. */
  lemma ContainsSuffix(before: string, part: string)
    ensures Contains(before + part, part)
  {
    assert OccursAt(before + part, part, |before|);
  }

  /** Appending text keeps what `s` already contains. */
  lemma ContainsExtend(s: string, part: string, more: string)
    requires Contains(s, part)
    ensures Contains(s + more, part)
  {
    var i :| OccursAt(s, part, i);
    assert (s + more)[i..i + |part|] == s[i..i + |part|];
    assert OccursAt(s + more, part, i);
  }

  /** `s` starts with `prefix`. */
  predicate StartsWith(s: string, prefix: string)
  {
    |prefix| <= |s| && s[..|prefix|] == prefix
  }

  predicate IsDigit(c: char)
  {
    '0' <= c <= '9'
  }

  predicate AllDigits(s: string)
  {
    forall i :: 0 <= i < |s| ==> IsDigit(s[i])
  }

  /** The character of a single decimal digit. */
  function DigitChar(d: nat): (c: char)
    requires d < 10
    ensures IsDigit(c) && c as int - '0' as int == d
  {
    ('0' as int + d) as char
  }

  /** Decimal digits of `n`, most significant first, as Python's `str` writes them:
      no leading zero except for zero itself. */
  function NatToDecimal(n: nat): (r: string)
    ensures |r| > 0 && AllDigits(r)
    ensures |r| > 1 ==> r[0] != '0'
    ensures (r[0] == '0') == (n == 0)
    decreases n
  {
    if n < 10 then [DigitChar(n)] else NatToDecimal(n / 10) + [DigitChar(n % 10)]
  }

  /** Python's `str(z)` for an integer: a minus sign in front of the digits of a
      negative number. */
  function IntToString(z: int): (r: string)
    ensures |r| > 0
    ensures (r[0] == '-') == (z < 0)
    ensures z >= 0 ==> AllDigits(r)
    ensures z < 0 ==> AllDigits(r[1..])
  {
    if z < 0 then "-" + NatToDecimal(-z) else NatToDecimal(z)
  }

  /** Value of a string of decimal digits: the reading that inverts `NatToDecimal`. */
  function DecimalValue(s: string): nat
    requires AllDigits(s)
  {
    if s == [] then 0 else DecimalValue(s[..|s| - 1]) * 10 + (s[|s| - 1] as int - '0' as int)
  }

  /** Reading the digits back gives the number that was written. */
  lemma {:induction false} DecimalRoundTrip(n: nat)
    ensures DecimalValue(NatToDecimal(n)) == n
    decreases n
  {
    var r := NatToDecimal(n);
    if n >= 10 {
      DecimalRoundTrip(n / 10);
      assert r[..|r| - 1] == NatToDecimal(n / 10);
    }
  }

  /** Reading back `IntToString`: the sign character and the digits after it. */
  function ParseInt(s: string): (z: int)
    requires |s| > 0
    requires s[0] == '-' ==> AllDigits(s[1..])
    requires s[0] != '-' ==> AllDigits(s)
  {
    if s[0] == '-' then 0 - DecimalValue(s[1..]) as int else DecimalValue(s)
  }

  /** Reading back what `IntToString` wrote gives the integer again. */
  lemma IntToStringRoundTrip(z: int)
    ensures ParseInt(IntToString(z)) == z
  {
    if z < 0 {
      assert IntToString(z)[1..] == NatToDecimal(-z);
      DecimalRoundTrip(-z);
    } else {
      DecimalRoundTrip(z);
    }
  }

  /** Different quantities are rendered as different texts: a message names its
      quantity unambiguously. */
  lemma IntToStringInjective(a: int, b: int)
    requires IntToString(a) == IntToString(b)
    ensures a == b
  {
    IntToStringRoundTrip(a);
    IntToStringRoundTrip(b);
  }
}
