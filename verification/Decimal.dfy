/** Decimal numerals: printing, parsing, and that printing is undone by parsing. */
module Decimal {

  predicate IsDigit(c: char) {
    '0' <= c <= '9'
  }

  predicate IsDecimal(s: string) {
    s != "" && forall k :: 0 <= k < |s| ==> IsDigit(s[k])
  }

  function DigitChar(d: nat): (c: char)
    requires d < 10
    ensures IsDigit(c)
  {
    '0' + d as char
  }

  function DigitValue(c: char): (d: nat)
    requires IsDigit(c)
    ensures d < 10
  {
    (c as int - '0' as int) as nat
  }

  function Print(n: nat): (s: string)
    ensures IsDecimal(s)
  {
    if n < 10 then [DigitChar(n)] else Print(n / 10) + [DigitChar(n % 10)]
  }

  function Parse(s: string): nat
    requires IsDecimal(s)
  {
    if |s| == 1 then DigitValue(s[0]) else Parse(s[..|s| - 1]) * 10 + DigitValue(s[|s| - 1])
  }

  lemma {:induction false} ParsePrint(n: nat)
    ensures Parse(Print(n)) == n
  {
    if n >= 10 {
      ParsePrint(n / 10);
      assert Print(n)[..|Print(n)| - 1] == Print(n / 10);
    }
  }

  function Pow10(k: nat): (p: nat)
    ensures p > 0
  {
    if k == 0 then 1 else 10 * Pow10(k - 1)
  }

  /** A numeral of `k` digits is below the `k`-th power of ten. */
  lemma {:induction false} ParseBound(s: string)
    requires IsDecimal(s)
    ensures Parse(s) < Pow10(|s|)
  {
    if |s| > 1 {
      ParseBound(s[..|s| - 1]);
    }
  }

  /** A number below the `k`-th power of ten prints in at most `k` digits. */
  lemma {:induction false} PrintBound(n: nat, k: nat)
    requires k > 0 && n < Pow10(k)
    ensures |Print(n)| <= k
  {
    assert Pow10(k) == 10 * Pow10(k - 1) && Pow10(1) == 10;
    if n >= 10 {
      PrintBound(n / 10, k - 1);
    }
  }
}
