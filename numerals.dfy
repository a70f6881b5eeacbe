/** Decimal numerals as the browser runtime writes them (`String(n)`,
    `padStart`), and their values read back. */
module Numerals {
  function DigitChar(d: nat): char
    requires d < 10
  {
    ('0' as int + d) as char
  }

  predicate IsDigit(ch: char) { '0' <= ch <= '9' }

  function DigitValue(ch: char): nat
    requires IsDigit(ch)
  {
    ch as int - '0' as int
  }

  /** The decimal numeral of `v`, as the runtime's `String` produces it. */
  function Decimal(v: nat): (s: string)
    ensures |s| >= 1 && forall i :: 0 <= i < |s| ==> IsDigit(s[i])
    ensures v < 10 ==> |s| == 1
    ensures v < 100 ==> |s| <= 2
    ensures v < 1000 ==> |s| <= 3
    ensures v == 0 ==> s == "0"
    ensures v > 0 ==> s[0] != '0'
  {
    if v < 10 then [DigitChar(v)] else Decimal(v / 10) + [DigitChar(v % 10)]
  }

  /** `s` widened to `width` by filling on the left, as `padStart` does. */
  function PadStart(s: string, width: nat, fill: char): (t: string)
    ensures |t| == if |s| >= width then |s| else width
  {
    if |s| >= width then s else seq(width - |s|, _ => fill) + s
  }

  /** The value of a string of digits. */
  function NumeralValue(s: string): nat
    requires forall i :: 0 <= i < |s| ==> IsDigit(s[i])
  {
    if s == [] then 0 else 10 * NumeralValue(s[..|s| - 1]) + DigitValue(s[|s| - 1])
  }

  lemma {:induction false} DecimalValue(v: nat)
    ensures NumeralValue(Decimal(v)) == v
  {
    if v >= 10 {
      DecimalValue(v / 10);
      var s := Decimal(v);
      assert s[..|s| - 1] == Decimal(v / 10);
    }
  }

  predicate AllDigits(s: string)
  {
    forall i :: 0 <= i < |s| ==> IsDigit(s[i])
  }

  function Zeros(k: nat): (z: string)
    ensures |z| == k && AllDigits(z)
  {
    seq(k, _ => '0')
  }

  lemma {:induction false} ZerosZero(k: nat)
    ensures NumeralValue(Zeros(k)) == 0
  {
    if k > 0 {
      ZerosZero(k - 1);
      assert Zeros(k)[..k - 1] == Zeros(k - 1);
    }
  }

  /** Leading zeros do not change a numeral's value. */
  lemma {:induction false} ZerosValue(k: nat, s: string)
    requires AllDigits(s)
    ensures AllDigits(Zeros(k) + s)
    ensures NumeralValue(Zeros(k) + s) == NumeralValue(s)
    decreases |s|
  {
    var z := Zeros(k);
    assert forall i :: 0 <= i < |z + s| ==> IsDigit((z + s)[i]) by {
      forall i | 0 <= i < |z + s| ensures IsDigit((z + s)[i]) {
        if i < k { assert (z + s)[i] == z[i]; } else { assert (z + s)[i] == s[i - k]; }
      }
    }
    if s == [] {
      assert z + s == z;
      ZerosZero(k);
    } else {
      ZerosValue(k, s[..|s| - 1]);
      assert (z + s)[..|z + s| - 1] == z + s[..|s| - 1];
    }
  }
}
