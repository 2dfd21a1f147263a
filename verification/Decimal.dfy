/** Natural numbers in decimal, printed and read. */
module Decimal {

  predicate IsDigit(c: char) {
    '0' <= c <= '9'
  }

  function DigitValue(c: char): nat
    requires IsDigit(c)
  {
    c as int - '0' as int
  }

  function Number(s: string): nat
    requires forall j :: 0 <= j < |s| ==> IsDigit(s[j])
  {
    if s == "" then 0 else 10 * Number(s[..|s| - 1]) + DigitValue(s[|s| - 1])
  }

  function Digit(d: nat): char
    requires d < 10
  {
    '0' + d as char
  }

  function PrintNat(n: nat): (s: string)
    ensures s != "" && forall j :: 0 <= j < |s| ==> IsDigit(s[j])
  {
    if n < 10 then [Digit(n)] else PrintNat(n / 10) + [Digit(n % 10)]
  }

  lemma {:induction false} NumberOfPrinted(n: nat)
    ensures Number(PrintNat(n)) == n
  {
    var s := PrintNat(n);
    if n < 10 {
      assert s[..0] == "";
    } else {
      NumberOfPrinted(n / 10);
      assert s[..|s| - 1] == PrintNat(n / 10);
    }
  }
}
