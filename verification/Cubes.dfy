/** Cubes, squares and products of reals: order, slopes, ratios and expansions. */
module Cubes {
  // Python's `x ** n`.
  function Power(x: real, n: nat): real {
    if n == 0 then 1.0 else x * Power(x, n - 1)
  }

  lemma PowerExpands(x: real)
    ensures Power(x, 2) == x * x
    ensures Power(x, 3) == x * x * x
  {
    assert Power(x, 1) == x;
    assert Power(x, 2) == x * x;
  }

  lemma ScaleMonotone(x: real, y: real, k: real)
    requires x <= y && 0.0 <= k
    ensures x * k <= y * k
  {
    assert (y - x) * k >= 0.0;
  }

  lemma SquareIsNonnegative(x: real)
    ensures x * x >= 0.0
  {
  }

  lemma CubeDifference(x: real, y: real)
    ensures y * y * y - x * x * x == (y - x) * ((y + x / 2.0) * (y + x / 2.0) + 0.75 * (x * x))
  {
  }

  lemma CubeMonotone(x: real, y: real)
    requires x <= y
    ensures Power(x, 3) <= Power(y, 3)
  {
    PowerExpands(x);
    PowerExpands(y);
    CubeDifference(x, y);
    hide Power;
    var half := y + x / 2.0;
    SquareIsNonnegative(half);
    SquareIsNonnegative(x);
    ScaleMonotone(x, y, half * half + 0.75 * (x * x));
  }

  predicate OnCircle(x: real, y: real) { x * x + y * y == 1.0 }

  lemma UnitCircle(x: real, y: real)
    requires OnCircle(x, y) || OnCircle(y, x)
    ensures -1.0 <= x <= 1.0
  {
    SquareIsNonnegative(y);
    if x > 1.0 {
      ScaleMonotone(1.0, x, x);
    } else if x < -1.0 {
      ScaleMonotone(1.0, -x, -x);
    }
  }

  // A product under a name: equal factors make equal products.
  function Times(x: real, y: real): real { x * y }

  lemma TimesSign(x: real, y: real)
    ensures 0.0 < x && 0.0 < y ==> 0.0 < Times(x, y)
    ensures 0.0 <= x && 0.0 <= y ==> 0.0 <= Times(x, y)
    ensures 0.0 <= Times(x, x)
  {
  }

  lemma PositiveCube(d: real, sum: real)
    requires 0.0 < d
    ensures 0.0 < Times(Times(d, d), d) && 0.0 <= Times(Times(sum, sum), d)
  {
    hide Times;
    TimesSign(d, d);
    TimesSign(Times(d, d), d);
    TimesSign(sum, d);
    TimesSign(Times(sum, sum), d);
  }

  lemma CubeDifferenceSplits(x: real, y: real, d: real, sum: real)
    requires d == y - x && sum == x + y
    ensures Power(y, 3) - Power(x, 3) == 0.25 * Times(Times(d, d), d) + 0.75 * Times(Times(sum, sum), d)
  {
    PowerExpands(x);
    PowerExpands(y);
    hide Power;
    assert y * y * y - x * x * x == 0.25 * (d * d * d) + 0.75 * (sum * sum * d);
  }

  lemma CubeStrict(x: real, y: real)
    requires x < y
    ensures Power(x, 3) < Power(y, 3)
  {
    hide Power, Times;
    CubeDifferenceSplits(x, y, y - x, x + y);
    PositiveCube(y - x, x + y);
  }

  lemma CubeOrder(x: real, y: real)
    ensures x <= y <==> Power(x, 3) <= Power(y, 3)
  {
    hide Power;
    if x <= y {
      CubeMonotone(x, y);
    } else {
      CubeStrict(y, x);
    }
  }

  lemma ScaledCube(x: real, r: real)
    ensures Power(r * x, 3) == r * r * r * Power(x, 3)
  {
    PowerExpands(x);
    PowerExpands(r * x);
  }

  lemma SquareAgainst(x: real, u: real)
    ensures Power(x, 2) - 2.0 * u * x + u * u >= 0.0
  {
    PowerExpands(x);
    hide Power;
    SquareIsNonnegative(x - u);
    assert (x - u) * (x - u) == x * x - 2.0 * u * x + u * u;
  }

  // A ratio of cubes bounds the ratio of the bases.
  lemma RootRatio(x: real, y: real, r: real)
    requires r * r * r * Power(x, 3) <= Power(y, 3)
    ensures r * x <= y
  {
    ScaledCube(x, r);
    CubeOrder(r * x, y);
    hide Power;
  }

  lemma CubeWithin(x: real, low: real, high: real)
    requires low <= x <= high
    ensures low * low * low <= Power(x, 3) <= high * high * high
  {
    CubeMonotone(low, x);
    CubeMonotone(x, high);
    PowerExpands(low);
    PowerExpands(high);
  }

  lemma CubeAtLeast(x: real, low: real)
    ensures low <= x <==> low * low * low <= Power(x, 3)
  {
    PowerExpands(low);
    CubeOrder(low, x);
    hide Power;
  }

  lemma CubeAtMost(x: real, high: real)
    ensures x <= high <==> Power(x, 3) <= high * high * high
  {
    PowerExpands(high);
    CubeOrder(x, high);
    hide Power;
  }

  // A cube grows by at most its steepest slope times the step.
  lemma CubeSlope(x: real, y: real, bound: real)
    requires -bound <= x <= y <= bound
    ensures Power(y, 3) - Power(x, 3) <= 3.0 * bound * bound * (y - x)
  {
    PowerExpands(x);
    PowerExpands(y);
    CubeDifference(x, y);
    hide Power;
    SquareWithin(x, bound);
    SquareWithin(y + x / 2.0, 1.5 * bound);
    ScaleMonotone((y + x / 2.0) * (y + x / 2.0) + 0.75 * (x * x), 3.0 * bound * bound, y - x);
  }

  lemma SquareWithin(x: real, bound: real)
    requires -bound <= x <= bound
    ensures x * x <= bound * bound
  {
    ScaleMonotone(x, bound, bound + x);
    assert (bound - x) * (bound + x) == bound * bound - x * x;
  }

  lemma CubeOfSum(x: real, d: real)
    ensures Power(x + d, 3) == Power(x, 3) + 3.0 * d * Power(x, 2) + 3.0 * (d * d) * x + d * d * d
    ensures Power(x - d, 3) == Power(x, 3) - 3.0 * d * Power(x, 2) + 3.0 * (d * d) * x - d * d * d
  {
    PowerExpands(x);
    PowerExpands(x + d);
    PowerExpands(x - d);
  }

  // A cubic with a double root is not negative to the right of its other root.
  lemma DoubleRoot(x: real, root: real)
    requires 0.0 <= root && 0.0 <= x
    ensures Power(x, 3) - 1.5 * root * Power(x, 2) + 0.5 * (root * root * root) >= 0.0
  {
    PowerExpands(x);
    hide Power;
    SquareIsNonnegative(x - root);
    ScaleMonotone(0.0, (x - root) * (x - root), x + root / 2.0);
    assert (x - root) * (x - root) * (x + root / 2.0)
           == x * x * x - 1.5 * root * (x * x) + 0.5 * (root * root * root);
  }

  // The same with its other root at zero.
  lemma RootAtZero(x: real, root: real)
    requires 0.0 <= x
    ensures Power(x, 3) - 2.0 * root * Power(x, 2) + root * root * x >= 0.0
  {
    PowerExpands(x);
    hide Power;
    SquareIsNonnegative(x - root);
    ScaleMonotone(0.0, (x - root) * (x - root), x);
    assert (x - root) * (x - root) * x == x * x * x - 2.0 * root * (x * x) + root * root * x;
  }

  lemma TimesWithin(k: real, x: real, low: real, high: real)
    requires low <= k <= high && 0.0 <= x
    ensures low * x <= k * x <= high * x
  {
    ScaleMonotone(low, k, x);
    ScaleMonotone(k, high, x);
  }

  lemma PowersWithin(k: real, low: real, high: real)
    requires 0.0 <= low <= k <= high
    ensures low * k <= Power(k, 2) <= high * k && low * Power(k, 2) <= Power(k, 3) <= high * Power(k, 2)
  {
    PowerExpands(k);
    hide Power;
    TimesWithin(k, k, low, high);
    assert low * k <= k * k <= high * k;
    var square := Power(k, 2);
    SquareIsNonnegative(k);
    TimesWithin(k, square, low, high);
    assert k * square == k * k * k;
  }

  lemma SquareBelow(x: real, top: real)
    requires 0.0 <= x <= top
    ensures Power(x, 2) <= top * x
  {
    PowerExpands(x);
    hide Power;
    ScaleMonotone(x, top, x);
  }

  // How much a cube drops over a step `d`, for a base between 0 and `top`.
  lemma CubeDrop(x: real, y: real, d: real, top: real)
    requires 0.0 <= x <= top && 0.0 <= d && x - d <= y
    ensures Power(x, 3) - Power(y, 3) <= 3.0 * d * (top - d) * x + d * d * d
  {
    CubeOrder(x - d, y);
    CubeOfSum(x, d);
    PowerExpands(x);
    hide Power;
    SquareBelow(x, top);
    ScaleMonotone(Power(x, 2), top * x, 3.0 * d);
  }

  // Close bases have close cubes.
  lemma CubesClose(x: real, y: real, step: real, bound: real)
    requires -bound <= x <= bound && -bound <= y <= bound && -step <= y - x <= step
    ensures -3.0 * bound * bound * step <= Power(y, 3) - Power(x, 3) <= 3.0 * bound * bound * step
  {
    hide Power;
    SquareIsNonnegative(bound);
    var slope := 3.0 * bound * bound;
    if x <= y {
      CubeMonotone(x, y);
      CubeSlope(x, y, bound);
      ScaleMonotone(y - x, step, slope);
    } else {
      CubeMonotone(y, x);
      CubeSlope(y, x, bound);
      ScaleMonotone(x - y, step, slope);
    }
  }

  lemma TimesMonotone(k: real, x: real, y: real)
    requires 0.0 <= k && x <= y
    ensures Times(k, x) <= Times(k, y)
  {
    ScaleMonotone(x, y, k);
  }

  lemma CubeGap(x: real, d: real)
    ensures Power(x + d, 3) - Power(x, 3)
            == 3.0 * Times(d, Power(x, 2)) + 3.0 * Times(Times(d, d), x) + Power(d, 3)
  {
    PowerExpands(x);
    PowerExpands(d);
    PowerExpands(x + d);
  }

  lemma SquareOrder(x: real, y: real)
    requires 0.0 <= x <= y
    ensures Power(x, 2) <= Power(y, 2)
  {
    PowerExpands(x);
    PowerExpands(y);
    hide Power;
    ScaleMonotone(x, y, x);
    ScaleMonotone(x, y, y);
  }

  // A base rises by at most `d` when its cube rises by no more than it does over a step `d`
  // from `floor`.
  lemma RootRise(x: real, y: real, floor: real, d: real, rise: real)
    requires 0.0 <= floor <= x && 0.0 <= d && Power(y, 3) <= Power(x, 3) + rise
    requires rise <= 3.0 * d * floor * (floor + d) + d * d * d
    ensures y <= x + d
  {
    assert rise <= Power(floor + d, 3) - Power(floor, 3) by {
      PowerExpands(floor);
      PowerExpands(floor + d);
      hide Power;
    }
    hide Power, Times;
    CubeGap(x, d);
    CubeGap(floor, d);
    SquareOrder(floor, x);
    TimesSign(d, d);
    TimesMonotone(d, Power(floor, 2), Power(x, 2));
    TimesMonotone(Times(d, d), floor, x);
    CubeOrder(y, x + d);
  }
}
