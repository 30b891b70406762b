/** Python's `str(n)` on an integer: optional minus sign, then decimal digits without
    leading zeros. `ParseInt` is its inverse on canonical decimal strings. */
module Decimal {
  import opened Wrappers

  predicate IsDigit(c: char) {
    '0' <= c <= '9'
  }

  predicate AllDigits(s: string) {
    forall i :: 0 <= i < |s| ==> IsDigit(s[i])
  }

  /** A non-empty digit string with no leading zero (except "0" itself). */
  predicate IsCanonical(s: string) {
    |s| >= 1 && AllDigits(s) && (s[0] == '0' ==> |s| == 1)
  }

  function DigitChar(d: nat): (c: char)
    requires d < 10
    ensures IsDigit(c)
  {
    ('0' as int + d) as char
  }

  function DigitValue(c: char): (d: nat)
    requires IsDigit(c)
    ensures d < 10 && DigitChar(d) == c
  {
    c as int - '0' as int
  }

  /** The decimal digits of a natural number. */
  function NatToString(n: nat): (r: string)
    ensures IsCanonical(r)
    decreases n
  {
    if n < 10 then [DigitChar(n)] else NatToString(n / 10) + [DigitChar(n % 10)]
  }

  /** The value of a string of decimal digits. */
  function DigitsValue(s: string): nat
    requires AllDigits(s)
  {
    if s == [] then 0 else DigitsValue(s[..|s| - 1]) * 10 + DigitValue(s[|s| - 1])
  }

  /** `str(n)` for a Python int. */
  function IntToString(n: int): (s: string)
    ensures n >= 0 ==> IsCanonical(s)
    ensures n < 0 ==> |s| >= 2 && s[0] == '-' && IsCanonical(s[1..])
  {
    if n < 0 then "-" + NatToString(-n) else NatToString(n)
  }

  /** Reads back a string produced by `IntToString`; anything else is rejected. */
  function ParseInt(s: string): Option<int> {
    if |s| >= 1 && s[0] == '-' then
      if IsCanonical(s[1..]) && s[1..] != "0" then Some(-(DigitsValue(s[1..]) as int)) else None
    else if IsCanonical(s) then Some(DigitsValue(s))
    else None
  }

  lemma {:induction false} NatToStringRoundTrip(n: nat)
    ensures DigitsValue(NatToString(n)) == n
    decreases n
  {
    if n >= 10 {
      var p := NatToString(n / 10);
      var r := p + [DigitChar(n % 10)];
      assert r[..|r| - 1] == p;
      NatToStringRoundTrip(n / 10);
    }
  }

  lemma {:induction false} LeadingDigitPositive(s: string)
    requires AllDigits(s) && |s| >= 1 && s[0] != '0'
    ensures DigitsValue(s) >= 1
    decreases |s|
  {
    if |s| > 1 {
      LeadingDigitPositive(s[..|s| - 1]);
    }
  }

  lemma {:induction false} CanonicalRoundTrip(s: string)
    requires IsCanonical(s)
    ensures NatToString(DigitsValue(s)) == s
    decreases |s|
  {
    if |s| > 1 {
      var p := s[..|s| - 1];
      var d := DigitValue(s[|s| - 1]);
      LeadingDigitPositive(p);
      CanonicalRoundTrip(p);
      var v := DigitsValue(s);
      assert v / 10 == DigitsValue(p) && v % 10 == d;
      assert s == p + [s[|s| - 1]];
    }
  }

  /** `str` never loses information: parsing its output gives the number back. */
  lemma IntToStringRoundTrip(n: int)
    ensures ParseInt(IntToString(n)) == Some(n)
  {
    if n < 0 {
      var t := NatToString(-n);
      assert ("-" + t)[1..] == t;
      NatToStringRoundTrip(-n);
    } else {
      NatToStringRoundTrip(n);
    }
  }

  /** Conversely, every string `ParseInt` accepts is exactly what `str` prints. */
  lemma ParseIntInverse(s: string, n: int)
    requires ParseInt(s) == Some(n)
    ensures IntToString(n) == s
  {
    if |s| >= 1 && s[0] == '-' {
      CanonicalRoundTrip(s[1..]);
      LeadingDigitPositive(s[1..]);
      assert s == "-" + s[1..];
    } else {
      CanonicalRoundTrip(s);
    }
  }
}
