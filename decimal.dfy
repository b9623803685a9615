/**
 * Decimal rendering of integers, as Swift's string interpolation `"\(n)"`
 * prints an `Int`: an optional minus sign followed by the digits, no leading
 * zeros. `ParseInt` is its inverse, used to show that the rendering loses
 * nothing.
 */
module Decimal {
  import opened Wrappers

  predicate IsDigit(c: char) {
    '0' <= c <= '9'
  }

  function DigitValue(c: char): (d: nat)
    requires IsDigit(c)
    ensures d < 10
  {
    c as int - '0' as int
  }

  function DigitChar(d: nat): (c: char)
    requires d < 10
    ensures IsDigit(c) && DigitValue(c) == d
  {
    ('0' as int + d) as char
  }

  predicate AllDigits(s: string) {
    forall i | 0 <= i < |s| :: IsDigit(s[i])
  }

  /**
   * The canonical form of a numeral: "0", or a first digit (after an
   * optional minus sign) other than '0'. It excludes "-0" and leading zeros.
   */
  predicate Canonical(s: string) {
    if |s| > 0 && s[0] == '-' then |s| > 1 && s[1] != '0'
    else |s| > 0 && (s[0] != '0' || |s| == 1)
  }

  /** The digits of `n`, most significant first. */
  function NatToString(n: nat): (s: string)
    ensures |s| > 0 && AllDigits(s)
    ensures (s[0] == '0') == (n == 0)
    ensures n < 10 ==> |s| == 1
  {
    if n < 10 then [DigitChar(n)] else NatToString(n / 10) + [DigitChar(n % 10)]
  }

  /** `"\(x)"` for a Swift `Int`. */
  function IntToString(x: int): (s: string)
    ensures |s| > 0 && IsDigit(s[|s| - 1])
    ensures forall i | 0 <= i < |s| :: IsDigit(s[i]) || (i == 0 && s[i] == '-')
    ensures (s[0] == '-') == (x < 0)
    ensures Canonical(s)
  {
    if x < 0 then "-" + NatToString(-x) else NatToString(x)
  }

  /** The number a string of digits denotes. */
  function DigitsValue(s: string): nat
    requires AllDigits(s)
  {
    if s == [] then 0 else DigitsValue(s[..|s| - 1]) * 10 + DigitValue(s[|s| - 1])
  }

  /** Reads back an optional minus sign followed by at least one digit. */
  function ParseInt(s: string): (r: Option<int>)
    ensures r.Some? ==> |s| > 0
  {
    if |s| > 0 && AllDigits(s) then Some(DigitsValue(s))
    else if |s| > 1 && s[0] == '-' && AllDigits(s[1..]) then var v: int := DigitsValue(s[1..]); Some(-v)
    else None
  }

  lemma {:induction false} NatToStringValue(n: nat)
    ensures DigitsValue(NatToString(n)) == n
  {
    if n >= 10 {
      var s := NatToString(n);
      assert s[..|s| - 1] == NatToString(n / 10);
      NatToStringValue(n / 10);
    }
  }

  /** Rendering an integer and parsing it back gives the same integer. */
  lemma IntToStringRoundTrip(x: int)
    ensures ParseInt(IntToString(x)) == Some(x)
  {
    var s := IntToString(x);
    if x < 0 {
      assert s[1..] == NatToString(-x);
      assert !IsDigit(s[0]);
      NatToStringValue(-x);
    } else {
      NatToStringValue(x);
    }
  }

  /** A string of digits denotes 0 only if it starts with '0'. */
  lemma {:induction false} ZeroValueLeadingZero(d: string)
    requires |d| > 0 && AllDigits(d) && DigitsValue(d) == 0
    ensures d[0] == '0'
  {
    if |d| > 1 {
      ZeroValueLeadingZero(d[..|d| - 1]);
    }
  }

  /** Digits without a leading zero are the rendering of the number they denote. */
  lemma {:induction false} CanonicalDigits(d: string)
    requires |d| > 0 && AllDigits(d) && (d[0] != '0' || |d| == 1)
    ensures NatToString(DigitsValue(d)) == d
  {
    if |d| > 1 {
      var p := d[..|d| - 1];
      CanonicalDigits(p);
      if DigitsValue(p) == 0 {
        ZeroValueLeadingZero(p);
      }
      var n := DigitsValue(d);
      assert n / 10 == DigitsValue(p) && n % 10 == DigitValue(d[|d| - 1]);
      assert d == p + [d[|d| - 1]];
    }
  }

  /**
   * A canonical numeral that reads back as `x` is the rendering of `x`:
   * the contracts that state a numeral by `Canonical` and `ParseInt` fix it
   * exactly.
   */
  lemma CanonicalParseUnique(s: string, x: int)
    requires Canonical(s) && ParseInt(s) == Some(x)
    ensures s == IntToString(x)
  {
    if |s| > 0 && AllDigits(s) {
      CanonicalDigits(s);
    } else {
      assert s == "-" + s[1..];
      CanonicalDigits(s[1..]);
    }
  }

  /** Distinct integers are printed differently. */
  lemma IntToStringInjective(x: int, y: int)
    ensures IntToString(x) == IntToString(y) <==> x == y
  {
    if IntToString(x) == IntToString(y) {
      IntToStringRoundTrip(x);
      IntToStringRoundTrip(y);
    }
  }
}
