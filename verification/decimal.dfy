/** Decimal notation of integers, as produced by .NET's Int32/UInt32
    ToString() and StringBuilder number appends with the invariant culture:
    an optional '-' followed by the digits, most significant first, with no
    leading zeros. */
module Decimal {
  import opened Common

  /** The decimal digits of n, most significant first; 0 has the digit 0. */
  function Digits(n: nat): (ds: seq<nat>)
    ensures 1 <= |ds|
    ensures forall i :: 0 <= i < |ds| ==> ds[i] < 10
    ensures n < 10 <==> |ds| == 1
    ensures 0 < n ==> 0 < ds[0]
  {
    if n < 10 then [n] else Digits(n / 10) + [n % 10]
  }

  /** The value of a most-significant-first digit sequence. */
  function ValueOf(ds: seq<nat>): nat
  {
    if |ds| == 0 then 0 else ValueOf(ds[..|ds| - 1]) * 10 + ds[|ds| - 1]
  }

  lemma {:induction false} ValueOfDigits(n: nat)
    ensures ValueOf(Digits(n)) == n
  {
    if n >= 10 {
      var ds := Digits(n / 10) + [n % 10];
      assert ds[..|ds| - 1] == Digits(n / 10);
      ValueOfDigits(n / 10);
    }
  }

  predicate IsDigit(c: char)
  {
    '0' <= c <= '9'
  }

  function DigitChar(d: nat): (c: char)
    requires d < 10
    ensures IsDigit(c)
  {
    "0123456789"[d]
  }

  function DigitValue(c: char): (d: nat)
    requires IsDigit(c)
    ensures d < 10
  {
    (c as int) - ('0' as int)
  }

  lemma DigitRoundTrip(d: nat)
    requires d < 10
    ensures DigitValue(DigitChar(d)) == d
  {
  }

  /** Decimal text of a non-negative number. */
  function ShowNat(n: nat): (s: string)
    ensures |s| == |Digits(n)|
    ensures forall i :: 0 <= i < |s| ==> s[i] == DigitChar(Digits(n)[i])
  {
    if n < 10 then [DigitChar(n)] else ShowNat(n / 10) + [DigitChar(n % 10)]
  }

  /** Decimal text of any integer: a leading '-' for negatives. */
  function Show(x: int): (s: string)
    ensures 1 <= |s|
    ensures (s[0] == '-') <==> x < 0
    ensures forall i :: 0 < i < |s| ==> IsDigit(s[i])
  {
    if x < 0 then "-" + ShowNat(-x) else ShowNat(x)
  }

  predicate AllDigits(s: string)
  {
    forall i :: 0 <= i < |s| ==> IsDigit(s[i])
  }

  /** The value of a string of digits. */
  function ParseNat(s: string): nat
    requires AllDigits(s)
  {
    if |s| == 0 then 0 else ParseNat(s[..|s| - 1]) * 10 + DigitValue(s[|s| - 1])
  }

  /** Reads back what Show writes: optional '-', then at least one digit. */
  function ParseInt(s: string): Option<int>
  {
    if 2 <= |s| && s[0] == '-' && AllDigits(s[1..]) then Some(-(ParseNat(s[1..]) as int))
    else if 1 <= |s| && AllDigits(s) then Some(ParseNat(s))
    else None
  }

  lemma {:induction false} ParseShowNat(n: nat)
    ensures AllDigits(ShowNat(n))
    ensures ParseNat(ShowNat(n)) == n
  {
    if n >= 10 {
      var s := ShowNat(n);
      assert s[..|s| - 1] == ShowNat(n / 10);
      ParseShowNat(n / 10);
      DigitRoundTrip(n % 10);
    } else {
      DigitRoundTrip(n);
    }
  }

  /** Show and ParseInt are inverse: the decimal text determines the number. */
  lemma ParseShow(x: int)
    ensures ParseInt(Show(x)) == Some(x)
  {
    if x < 0 {
      ParseNegative(-x);
    } else {
      ParseShowNat(x);
      ParseNonNegative(ShowNat(x));
    }
  }

  lemma ParseNegative(n: nat)
    requires n > 0
    ensures ParseInt("-" + ShowNat(n)) == Some(-(n as int))
  {
    var s := "-" + ShowNat(n);
    assert s[1..] == ShowNat(n);
    ParseShowNat(n);
  }

  lemma ParseNonNegative(s: string)
    requires 1 <= |s| && AllDigits(s)
    ensures ParseInt(s) == Some(ParseNat(s))
  {
    assert IsDigit(s[0]);
  }

  lemma ShowInjective(x: int, y: int)
    requires Show(x) == Show(y)
    ensures x == y
  {
    ParseShow(x);
    ParseShow(y);
  }
}
