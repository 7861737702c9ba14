/** Money: exact decimals, quantized to cents half away from zero. An amount at scale is a
    whole number of cents. */
module Money {

  type Cents = int

  // A whole number of hundredths of a real.
  function Amount(cents: Cents): real { cents as real / 100.0 }

  // Nearest integer, ties away from zero.
  function HalfAway(x: real): int {
    if x >= 0.0 then (x + 0.5).Floor else -((-x + 0.5).Floor)
  }

  function QuantizeMoney(value: real): Cents { HalfAway(value * 100.0) }

  // In ten-thousandths.
  function QuantizeRatio(value: real): int { HalfAway(value * 10000.0) }

  // `n` is the nearest integer to `x`, the one further from zero on a tie.
  ghost predicate NearestHalfAway(x: real, n: int) {
    && -0.5 <= n as real - x <= 0.5
    && (n as real - x == 0.5 ==> x > 0.0)
    && (n as real - x == -0.5 ==> x < 0.0)
  }

  /** The rounding is the nearest integer with ties away from zero, and nothing else is. */
  lemma HalfAwayIsNearest(x: real, n: int)
    ensures n == HalfAway(x) <==> NearestHalfAway(x, n)
  {
    var r := HalfAway(x);
    assert NearestHalfAway(x, r);
    if NearestHalfAway(x, n) {
      assert -1.0 <= (n - r) as real <= 1.0;
    }
  }

  /** It is odd, monotone, and the identity on what it produced. */
  lemma HalfAwayLaws(x: real, y: real, n: int)
    ensures HalfAway(-x) == -HalfAway(x)
    ensures x <= y ==> HalfAway(x) <= HalfAway(y)
    ensures HalfAway(n as real) == n
  {
  }

  /** Quantizing is within half a cent, odd, monotone and idempotent. */
  lemma QuantizeLaws(x: real, y: real)
    ensures x - 0.005 <= Amount(QuantizeMoney(x)) <= x + 0.005
    ensures QuantizeMoney(-x) == -QuantizeMoney(x)
    ensures x <= y ==> QuantizeMoney(x) <= QuantizeMoney(y)
    ensures QuantizeMoney(Amount(QuantizeMoney(x))) == QuantizeMoney(x)
    ensures QuantizeRatio(-x) == -QuantizeRatio(x) && (x <= y ==> QuantizeRatio(x) <= QuantizeRatio(y))
  {
    HalfAwayIsNearest(x * 100.0, QuantizeMoney(x));
    HalfAwayLaws(x * 100.0, y * 100.0, QuantizeMoney(x));
    HalfAwayLaws(x * 10000.0, y * 10000.0, 0);
    assert Amount(QuantizeMoney(x)) * 100.0 == QuantizeMoney(x) as real;
  }

  /** On an amount already at scale quantizing changes nothing. */
  lemma QuantizeExact(cents: Cents)
    ensures QuantizeMoney(Amount(cents)) == cents
  {
    assert Amount(cents) * 100.0 == cents as real;
    HalfAwayLaws(0.0, 0.0, cents);
  }

  // `quantize_money(unit_price * quantity)`
  function PriceTotal(unit: Cents, quantity: int): Cents {
    QuantizeMoney(Amount(unit) * quantity as real)
  }

  /** A line total is the exact product: a whole number of cents is not rounded. */
  lemma PriceTotalIsExact(unit: Cents, quantity: int)
    ensures PriceTotal(unit, quantity) == unit * quantity
  {
    assert unit as real * quantity as real == (unit * quantity) as real;
    assert Amount(unit) * quantity as real == Amount(unit * quantity);
    QuantizeExact(unit * quantity);
  }
}
