/** Amounts: `quantize(Decimal("0.01"))`, which rounds halves to the even cent. */
module Money {

  /** The nearest whole number of cents. */
  function Cents(x: real): (c: int)
    ensures -0.5 <= x * 100.0 - c as real <= 0.5
    ensures x * 100.0 - c as real == 0.5 || x * 100.0 - c as real == -0.5 ==> c % 2 == 0
  {
    var n := (x * 100.0).Floor;
    var rest := x * 100.0 - n as real;
    if rest < 0.5 || (rest == 0.5 && n % 2 == 0) then n else n + 1
  }

  function Quantize(x: real): (r: real)
    ensures -0.005 <= x - r <= 0.005
  {
    Cents(x) as real / 100.0
  }
}
