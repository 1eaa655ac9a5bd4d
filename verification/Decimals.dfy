/** Decimal notation: what a string of digits stands for. */
module Decimals {

  function Power10(k: nat): (p: nat)
    ensures p > 0
  {
    if k == 0 then 1 else 10 * Power10(k - 1)
  }

  function DigitChar(d: nat): char
    requires d < 10
  {
    ('0' as int + d) as char
  }

  /** The last k digits of n, with leading zeros. */
  function FixedText(n: nat, k: nat): (s: string)
    ensures |s| == k
    ensures forall i :: 0 <= i < k ==> '0' <= s[i] <= '9'
  {
    if k == 0 then "" else FixedText(n / 10, k - 1) + [DigitChar(n % 10)]
  }

  /** n in decimal. */
  function DecimalText(n: nat): (s: string)
    ensures |s| > 0
    ensures forall i :: 0 <= i < |s| ==> '0' <= s[i] <= '9'
  {
    if n < 10 then [DigitChar(n)] else DecimalText(n / 10) + [DigitChar(n % 10)]
  }

  lemma {:induction false} DecimalFixed(n: nat)
    ensures n < Power10(|DecimalText(n)|) && FixedText(n, |DecimalText(n)|) == DecimalText(n)
  {
    if n < 10 {
      assert FixedText(n / 10, 0) == "" && FixedText(n, 1) == "" + [DigitChar(n)];
      assert Power10(1) == 10 * Power10(0);
    } else {
      DecimalFixed(n / 10);
    }
  }

  /** Every string of digits is one of these. */
  lemma {:induction false} FixedEvery(s: string) returns (n: nat)
    requires forall i :: 0 <= i < |s| ==> '0' <= s[i] <= '9'
    ensures n < Power10(|s|) && s == FixedText(n, |s|)
  {
    if s == "" {
      n := 0;
    } else {
      var m := FixedEvery(s[..|s| - 1]);
      var d := s[|s| - 1] as int - '0' as int;
      n := 10 * m + d;
      assert n / 10 == m && n % 10 == d;
      assert s == s[..|s| - 1] + [DigitChar(d)];
    }
  }
}
