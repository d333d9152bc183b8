/**
 * Integers as text: the decimal rendering an interpolated C# `int` gets
 * (invariant culture, '-' for negatives) and the JSON-number reading a JSON
 * parser applies to an integer token (no leading zeros, optional '-').
 */
module JsonNumbers {
  import opened Common

  predicate IsDigit(c: char) {
    '0' <= c <= '9'
  }

  predicate AllDigits(s: string) {
    forall i :: 0 <= i < |s| ==> IsDigit(s[i])
  }

  function DigitChar(d: int): char
    requires 0 <= d < 10
  {
    ('0' as int + d) as char
  }

  function DigitValue(c: char): int
    requires IsDigit(c)
  {
    c as int - '0' as int
  }

  /** The decimal digits of a natural number, most significant first, with no leading zero. */
  function Digits(n: nat): (s: string)
    ensures |s| > 0 && AllDigits(s)
    ensures n > 0 ==> s[0] != '0'
    ensures n == 0 ==> s == "0"
  {
    if n < 10 then [DigitChar(n)] else Digits(n / 10) + [DigitChar(n % 10)]
  }

  /** `n.ToString()` for an integer. */
  function FormatInteger(n: int): (s: string)
    ensures |s| > 0
    ensures n < 0 <==> s[0] == '-'
  {
    if n < 0 then "-" + Digits(-n) else Digits(n)
  }

  /** The value of a string of decimal digits. */
  function DigitsValue(s: string): nat
    requires AllDigits(s)
  {
    if s == [] then 0 else DigitsValue(s[..|s| - 1]) * 10 + DigitValue(s[|s| - 1])
  }

  /** A JSON integer token: an optional '-', then "0" or digits without a leading zero. */
  function ParseInteger(s: string): Option<int> {
    var negative := |s| > 0 && s[0] == '-';
    var magnitude := if negative then s[1..] else s;
    if |magnitude| > 0 && AllDigits(magnitude) && (magnitude[0] != '0' || |magnitude| == 1) then
      var v: int := DigitsValue(magnitude);
      Some(if negative then -v else v)
    else
      None
  }

  lemma {:induction false} NonZeroLead(s: string)
    requires |s| > 0 && AllDigits(s) && s[0] != '0'
    ensures DigitsValue(s) > 0
    decreases |s|
  {
    if |s| > 1 {
      NonZeroLead(s[..|s| - 1]);
    }
  }

  /** Reading back the digits of `n` yields `n`. */
  lemma {:induction false} DigitsRoundTrip(n: nat)
    ensures DigitsValue(Digits(n)) == n
    decreases n
  {
    if n >= 10 {
      var s := Digits(n);
      assert s[..|s| - 1] == Digits(n / 10);
      DigitsRoundTrip(n / 10);
    }
  }

  /** Digits without a leading zero are the rendering of their value. */
  lemma {:induction false} ValueThenDigits(s: string)
    requires |s| > 0 && AllDigits(s) && (s[0] != '0' || |s| == 1)
    ensures Digits(DigitsValue(s)) == s
    decreases |s|
  {
    if |s| > 1 {
      var prefix := s[..|s| - 1];
      NonZeroLead(prefix);
      ValueThenDigits(prefix);
    }
  }

  /** The digits of a natural number parse back to it. */
  lemma ParseDigits(n: nat)
    ensures ParseInteger(Digits(n)) == Some(n)
  {
    var d := Digits(n);
    assert !(d[0] == '-');
    DigitsRoundTrip(n);
  }

  /** A minus sign before the digits of a positive number parses back to its negation. */
  lemma ParseNegatedDigits(n: nat)
    requires n > 0
    ensures ParseInteger("-" + Digits(n)) == Some(-(n as int))
  {
    var s := "-" + Digits(n);
    assert s[0] == '-';
    assert s[1..] == Digits(n);
    DigitsRoundTrip(n);
  }

  /** Parsing the rendering of any integer yields that integer. */
  lemma FormatThenParse(n: int)
    ensures ParseInteger(FormatInteger(n)) == Some(n)
  {
    if n < 0 {
      ParseNegatedDigits(-n);
    } else {
      ParseDigits(n);
    }
  }

  /** Every text the parser accepts, except "-0", is the rendering of the value it yields. */
  lemma ParseThenFormat(s: string)
    requires ParseInteger(s).Some? && s != "-0"
    ensures FormatInteger(ParseInteger(s).value) == s
  {
    if s[0] == '-' {
      var magnitude := s[1..];
      assert s == "-" + magnitude;
      ValueThenDigits(magnitude);
      NonZeroLead(magnitude);
    } else {
      ValueThenDigits(s);
    }
  }
}
