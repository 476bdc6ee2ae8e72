// Decimal numerals, as String(n) prints them, and their reader.
module Decimal {
  import opened Wrappers

  predicate IsDigit(c: char) {
    '0' <= c <= '9'
  }

  function DigitChar(d: nat): (c: char)
    requires d < 10
    ensures IsDigit(c)
  {
    ['0', '1', '2', '3', '4', '5', '6', '7', '8', '9'][d]
  }

  function DigitValue(c: char): nat
    requires IsDigit(c)
  {
    (c as int) - ('0' as int)
  }

  function Numeral(n: nat): (s: string)
    ensures s != [] && forall i :: 0 <= i < |s| ==> IsDigit(s[i])
  {
    if n < 10 then [DigitChar(n)] else Numeral(n / 10) + [DigitChar(n % 10)]
  }

  // The value of a non-empty digit string, leading zeros allowed.
  function Value(s: string): Option<nat> {
    if s == [] || !IsDigit(s[|s| - 1]) then None
    else if |s| == 1 then Some(DigitValue(s[0]))
    else
      var high := Value(s[..|s| - 1]);
      if high.None? then None else Some(10 * high.value + DigitValue(s[|s| - 1]))
  }

  lemma DigitRoundTrip(d: nat)
    requires d < 10
    ensures DigitValue(DigitChar(d)) == d
  {
  }

  lemma {:induction false} NumeralRoundTrip(n: nat)
    ensures Value(Numeral(n)) == Some(n)
  {
    DigitRoundTrip(n % 10);
    if n >= 10 {
      NumeralRoundTrip(n / 10);
      var s := Numeral(n);
      assert s[..|s| - 1] == Numeral(n / 10);
    }
  }

  function Power10(k: nat): nat {
    if k == 0 then 1 else 10 * Power10(k - 1)
  }

  // A numeral has at most k digits exactly when its number is below 10^k.
  lemma {:induction false} NumeralWidth(n: nat, k: nat)
    requires k >= 1
    ensures |Numeral(n)| <= k <==> n < Power10(k)
  {
    if k == 1 {
      assert Power10(1) == 10;
    } else if n >= 10 {
      NumeralWidth(n / 10, k - 1);
      assert n < 10 * Power10(k - 1) <==> n / 10 < Power10(k - 1);
    } else {
      PowerGrows(k - 1);
    }
  }

  lemma {:induction false} PowerGrows(k: nat)
    requires k >= 1
    ensures Power10(k) >= 10
  {
    if k > 1 {
      PowerGrows(k - 1);
    }
  }

  function Zeros(n: nat): string {
    seq(n, i => '0')
  }

  // padStart(width, "0").
  function Padded(n: nat, width: nat): string {
    var s := Numeral(n);
    if |s| >= width then s else Zeros(width - |s|) + s
  }

  lemma {:induction false} LeadingZeros(n: nat, s: string)
    requires Value(s).Some?
    ensures Value(Zeros(n) + s) == Value(s)
  {
    var all := Zeros(n) + s;
    if |s| == 1 {
      if n > 0 {
        ZerosAreZero(n);
        assert all[..|all| - 1] == Zeros(n);
      } else {
        assert all == s;
      }
    } else {
      LeadingZeros(n, s[..|s| - 1]);
      assert all[..|all| - 1] == Zeros(n) + s[..|s| - 1];
    }
  }

  lemma {:induction false} ZerosAreZero(n: nat)
    requires n > 0
    ensures Value(Zeros(n)) == Some(0)
  {
    if n > 1 {
      ZerosAreZero(n - 1);
      assert Zeros(n)[..n - 1] == Zeros(n - 1);
    }
  }

  lemma PaddedRoundTrip(n: nat, width: nat)
    ensures Value(Padded(n, width)) == Some(n)
  {
    NumeralRoundTrip(n);
    if |Numeral(n)| < width {
      LeadingZeros(width - |Numeral(n)|, Numeral(n));
    }
  }
}
