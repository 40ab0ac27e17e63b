/** Non-negative integers in decimal. */
module Decimals {

  type Digit = c: int | 0x30 <= c < 0x3A witness 0x30

  function Decimal(n: nat): (t: seq<Digit>)
    ensures t != []
  {
    if n < 10 then [0x30 + n] else Decimal(n / 10) + [0x30 + n % 10]
  }

  function DigitValue(c: int): int { c - 0x30 }

  function DecimalValue(t: seq<int>): int {
    if t == [] then 0 else 10 * DecimalValue(t[..|t| - 1]) + DigitValue(t[|t| - 1])
  }

  /** A printed number is read as itself. */
  lemma {:induction false} DecimalReads(n: nat)
    ensures DecimalValue(Decimal(n)) == n
  {
    var t := Decimal(n);
    if n < 10 {
      assert t[..0] == [];
    } else {
      DecimalReads(n / 10);
      assert t[..|t| - 1] == Decimal(n / 10);
    }
  }
}
