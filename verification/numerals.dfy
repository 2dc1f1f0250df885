/** Decimal numerals: how a whole number of cents is written by the portal
    ("<int>,<dd> €") and how a two-decimal number reads back. */
module Numerals {
  import opened Wrappers

  predicate IsDigit(c: char) {
    '0' <= c <= '9'
  }

  predicate AllDigits(s: string) {
    forall k :: 0 <= k < |s| ==> IsDigit(s[k])
  }

  function DigitChar(d: nat): (c: char)
    requires d < 10
    ensures IsDigit(c)
  {
    "0123456789"[d]
  }

  function DigitValue(c: char): (d: nat)
    requires IsDigit(c)
    ensures d < 10
  {
    c as int - '0' as int
  }

  /** The shortest decimal numeral of n. */
  function NatStr(n: nat): (s: string)
    ensures |s| >= 1 && AllDigits(s)
  {
    if n < 10 then [DigitChar(n)] else NatStr(n / 10) + [DigitChar(n % 10)]
  }

  /** The value of a string of decimal digits. */
  function DigitsValue(s: string): nat
    requires AllDigits(s)
  {
    if |s| == 0 then 0 else DigitsValue(s[..|s| - 1]) * 10 + DigitValue(s[|s| - 1])
  }

  /** Two-digit zero-padded numeral of n < 100. */
  function Pad2(n: nat): (s: string)
    requires n < 100
    ensures |s| == 2 && AllDigits(s)
  {
    [DigitChar(n / 10), DigitChar(n % 10)]
  }

  lemma DigitRoundTrip(d: nat)
    requires d < 10
    ensures DigitValue(DigitChar(d)) == d
  {
  }

  /** Reading back a numeral gives the number it was written from. */
  lemma {:induction false} NatStrRoundTrip(n: nat)
    ensures DigitsValue(NatStr(n)) == n
  {
    DigitRoundTrip(n % 10);
    if n >= 10 {
      NatStrRoundTrip(n / 10);
      assert NatStr(n)[..|NatStr(n)| - 1] == NatStr(n / 10);
    }
  }

  /** cents written as the portal prints them: "<int>,<dd> €". */
  function Euros(cents: nat): string {
    NatStr(cents / 100) + "," + Pad2(cents % 100) + " €"
  }

  /** cents written with a decimal point and two decimals, as `toFixed(2)` does. */
  function Fixed2(cents: nat): string {
    NatStr(cents / 100) + "." + Pad2(cents % 100)
  }

  /** `parseFloat` restricted to "<digits>.<dd>", giving whole cents. */
  function ParseFixed2(s: string): (r: Option<nat>)
    ensures r.Some? ==> |s| >= 4 && s[|s| - 3] == '.'
  {
    if |s| >= 4 && s[|s| - 3] == '.' && AllDigits(s[..|s| - 3])
       && IsDigit(s[|s| - 2]) && IsDigit(s[|s| - 1])
    then Some(DigitsValue(s[..|s| - 3]) * 100 + DigitValue(s[|s| - 2]) * 10 + DigitValue(s[|s| - 1]))
    else None
  }

  /** Every amount of cents survives writing with two decimals and reading back. */
  lemma Fixed2RoundTrip(cents: nat)
    ensures ParseFixed2(Fixed2(cents)) == Some(cents)
  {
    var s := Fixed2(cents);
    var i := NatStr(cents / 100);
    assert s[..|s| - 3] == i;
    NatStrRoundTrip(cents / 100);
    DigitRoundTrip(cents % 100 / 10);
    DigitRoundTrip(cents % 10);
  }
}
