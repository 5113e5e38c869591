/** Python's decimal rendering of an integer (`f"{n}"`), with the parser
    that inverts it. */
module Decimal {

  import opened Results

  predicate IsDigit(c: char) { '0' <= c <= '9' }

  predicate AllDigits(s: string) { forall i :: 0 <= i < |s| ==> IsDigit(s[i]) }

  function DigitChar(d: nat): (c: char)
    requires d < 10
    ensures IsDigit(c)
  {
    ['0', '1', '2', '3', '4', '5', '6', '7', '8', '9'][d]
  }

  function DigitValue(c: char): (d: nat)
    requires IsDigit(c)
    ensures d < 10 && DigitChar(d) == c
  {
    (c as int - '0' as int) as nat
  }

  /** Base-10 digits of `n`, most significant first, with no leading zero. */
  function NatToString(n: nat): (s: string)
    ensures |s| >= 1 && AllDigits(s)
  {
    if n < 10 then [DigitChar(n)] else NatToString(n / 10) + [DigitChar(n % 10)]
  }

  /** The value of a string of decimal digits. */
  function StringToNat(s: string): nat
    requires AllDigits(s)
  {
    if s == [] then 0 else StringToNat(s[..|s| - 1]) * 10 + DigitValue(s[|s| - 1])
  }

  /** `str(n)` for a Python int: a minus sign before the digits of a
      negative number. */
  function IntToString(n: int): (s: string)
    ensures |s| >= 1
  {
    if n < 0 then "-" + NatToString(-n) else NatToString(n)
  }

  /** Reads back a rendered integer; None for anything that is not one. */
  function ParseInt(s: string): Option<int>
  {
    if |s| >= 1 && s[0] == '-' then
      if |s| >= 2 && AllDigits(s[1..]) then Some(-(StringToNat(s[1..]) as int)) else None
    else if |s| >= 1 && AllDigits(s) then Some(StringToNat(s))
    else None
  }

  lemma {:induction false} NatRoundTrip(n: nat)
    ensures StringToNat(NatToString(n)) == n
  {
    if n >= 10 {
      var s := NatToString(n);
      assert s[..|s| - 1] == NatToString(n / 10);
      NatRoundTrip(n / 10);
    }
  }

  /** A minus sign followed by digits parses as the negated value of the
      digits. */
  lemma ParseMinusDigits(s: string)
    requires |s| >= 2 && s[0] == '-' && AllDigits(s[1..])
    ensures ParseInt(s) == Some(-(StringToNat(s[1..]) as int))
  {
  }

  /** A negative number renders as a minus sign before the digits of its
      magnitude. */
  lemma NegativeRendering(n: int)
    requires n < 0
    ensures var s := IntToString(n); |s| >= 2 && s[0] == '-' && s[1..] == NatToString(-n)
  {
    var s := IntToString(n);
    assert s == "-" + NatToString(-n);
  }

  /** A negative number renders as a minus sign and its digits, which parse
      back to it. */
  lemma NegativeRoundTrip(n: int)
    requires n < 0
    ensures ParseInt(IntToString(n)) == Some(n)
  {
    var s, m: nat := IntToString(n), -n;
    NegativeRendering(n);
    assert s[1..] == NatToString(m);
    NatRoundTrip(m);
    assert StringToNat(s[1..]) == m;
    ParseMinusDigits(s);
  }

  /** A number that is not negative renders as its digits alone, which
      parse back to it. */
  lemma NonNegativeRoundTrip(n: int)
    requires n >= 0
    ensures ParseInt(IntToString(n)) == Some(n)
  {
    var s := IntToString(n);
    assert s == NatToString(n);
    assert IsDigit(s[0]) && s[0] != '-';
    NatRoundTrip(n);
  }

  /** Rendering an integer and parsing it back gives the integer. */
  lemma IntRoundTrip(n: int)
    ensures ParseInt(IntToString(n)) == Some(n)
  {
    if n < 0 {
      NegativeRoundTrip(n);
    } else {
      NonNegativeRoundTrip(n);
    }
  }
}
