/** Python's two roundings to hundredths, over exact reals: `round(x, 2)` and `f"{x:.2f}"`
    break ties to even, `Decimal.quantize(..., ROUND_HALF_UP)` away from zero. */
module Rounding {

  function Hundredths(n: int): real { n as real / 100.0 }

  function RoundHalfEven(x: real): int {
    var below := (x * 100.0).Floor;
    var rest := x * 100.0 - below as real;
    if rest < 0.5 || (rest == 0.5 && below % 2 == 0) then below else below + 1
  }

  lemma RoundHalfEvenOnGrid(n: int)
    ensures RoundHalfEven(Hundredths(n)) == n
  {
    assert Hundredths(n) * 100.0 == n as real;
  }

  /** Rounding moves a value by at most half a hundredth, never across a hundredth. */
  lemma RoundHalfEvenBounds(x: real, low: int, high: int)
    requires Hundredths(low) <= x <= Hundredths(high)
    ensures low <= RoundHalfEven(x) <= high
    ensures x * 100.0 - 0.5 <= RoundHalfEven(x) as real <= x * 100.0 + 0.5
  {
    assert low as real <= x * 100.0 <= high as real;
    var below := (x * 100.0).Floor;
    assert low <= below <= high;
    if below == high {
      assert x * 100.0 == high as real;
    }
  }
}
