/** Colour conversion, gamut mapping and contrast measurement of `branding.py`.

    Floats are exact reals here. `math.cos`, `math.sin` (of a hue in degrees) and
    `math.cbrt` are parameters, collected in `Maths`; where a result needs them to be
    the cosine and sine of one angle it says so with `Pythagorean`. */
module Colour {
  import opened Cubes

  datatype Maths = Maths(cos: real -> real, sin: real -> real, cbrt: real -> real)
  {
    ghost predicate Pythagorean() {
      forall hue {:trigger OnCircle(cos(hue), sin(hue))} :: OnCircle(cos(hue), sin(hue))
    }
  }

  datatype Oklch = Oklch(lightness: real, chroma: real, hue: real)

  // Linear-light channels.
  datatype Rgb = Rgb(red: real, green: real, blue: real)

  datatype Oklab = Oklab(lightness: real, a: real, b: real)

  const MINIMUM_CONTRAST_RATIO := 4.5
  const GAMUT_TOLERANCE := 0.0001
  const JND := 0.02
  const BISECTION_EPSILON := 0.00001
  const LUMINANCE_OFFSET := 0.05

  const WHITE := Rgb(1.0, 1.0, 1.0)
  const BLACK := Rgb(0.0, 0.0, 0.0)

  // ---------------------------------------------------------------------------
  // Conversion
  // ---------------------------------------------------------------------------

  function LongBase(lab: Oklab): real {
    lab.lightness + 0.3963377774 * lab.a + 0.2158037573 * lab.b
  }

  function MediumBase(lab: Oklab): real {
    lab.lightness - 0.1055613458 * lab.a - 0.0638541728 * lab.b
  }

  function ShortBase(lab: Oklab): real {
    lab.lightness - 0.0894841775 * lab.a - 1.2914855480 * lab.b
  }

  function Mix(long: real, medium: real, short: real): Rgb {
    Rgb(4.0767416621 * long - 3.3077115913 * medium + 0.2309699292 * short,
        -1.2684380046 * long + 2.6097574011 * medium - 0.3413193965 * short,
        -0.0041960863 * long - 0.7034186147 * medium + 1.7076147010 * short)
  }

  // The component of a chroma along an axis.
  function Along(chroma: real, direction: real): real {
    chroma * direction
  }

  function ToOklab(m: Maths, c: Oklch): Oklab {
    Oklab(c.lightness, Along(c.chroma, m.cos(c.hue)), Along(c.chroma, m.sin(c.hue)))
  }

  lemma AlongWithin(chroma: real, direction: real, low: real, high: real)
    requires low <= direction <= high && 0.0 <= chroma
    ensures chroma * low <= Along(chroma, direction) <= chroma * high
  {
    ScaleMonotone(low, direction, chroma);
    ScaleMonotone(direction, high, chroma);
  }

  lemma AlongStep(x: real, y: real, direction: real)
    requires x <= y && -1.0 <= direction <= 1.0
    ensures x - y <= Along(y, direction) - Along(x, direction) <= y - x
  {
    assert Along(y, direction) - Along(x, direction) == Along(y - x, direction);
    hide Along;
    AlongWithin(y - x, direction, -1.0, 1.0);
  }

  function OklchToLinear(m: Maths, c: Oklch): Rgb {
    var lab := ToOklab(m, c);
    Mix(Power(LongBase(lab), 3), Power(MediumBase(lab), 3), Power(ShortBase(lab), 3))
  }

  function LinearToOklab(m: Maths, rgb: Rgb): Oklab {
    var long := m.cbrt(0.4122214708 * rgb.red + 0.5363325363 * rgb.green + 0.0514459929 * rgb.blue);
    var medium := m.cbrt(0.2119034982 * rgb.red + 0.6806995451 * rgb.green + 0.1073969566 * rgb.blue);
    var short := m.cbrt(0.0883024619 * rgb.red + 0.2817188376 * rgb.green + 0.6299787005 * rgb.blue);
    Oklab(0.2104542553 * long + 0.7936177850 * medium - 0.0040720468 * short,
          1.9779984951 * long - 2.4285922050 * medium + 0.4505937099 * short,
          0.0259040371 * long + 0.7827717662 * medium - 0.8086757660 * short)
  }

  // ---------------------------------------------------------------------------
  // Gamut mapping
  // ---------------------------------------------------------------------------

  predicate ChannelInGamut(channel: real) {
    -GAMUT_TOLERANCE <= channel <= 1.0 + GAMUT_TOLERANCE
  }

  predicate InGamut(m: Maths, c: Oklch) {
    var rgb := OklchToLinear(m, c);
    ChannelInGamut(rgb.red) && ChannelInGamut(rgb.green) && ChannelInGamut(rgb.blue)
  }

  function ClipChannel(channel: real): real {
    if channel < 0.0 then 0.0 else if channel > 1.0 then 1.0 else channel
  }

  function Clip(rgb: Rgb): Rgb {
    Rgb(ClipChannel(rgb.red), ClipChannel(rgb.green), ClipChannel(rgb.blue))
  }

  // The colour painted when `c` is clipped channel by channel.
  function Clipped(m: Maths, c: Oklch): Rgb {
    Clip(OklchToLinear(m, c))
  }

  function DistanceSquared(x: Oklab, y: Oklab): real {
    Power(x.lightness - y.lightness, 2) + Power(x.a - y.a, 2) + Power(x.b - y.b, 2)
  }

  // The squared OKLab distance between a colour and its clip: the source compares the
  // distance with the JND, which for non-negative numbers is comparing the squares.
  function ClipErrorSquared(m: Maths, c: Oklch): real {
    DistanceSquared(ToOklab(m, c), LinearToOklab(m, Clipped(m, c)))
  }

  predicate WithinJnd(m: Maths, c: Oklch) {
    ClipErrorSquared(m, c) < JND * JND
  }

  // What the bisection between two chromas ends in.
  function Bisect(m: Maths, c: Oklch, low: real, high: real): Rgb
    decreases HalvingsLeft(low, high)
  {
    if high - low <= BISECTION_EPSILON then
      Clipped(m, c.(chroma := low))
    else
      var middle := (low + high) / 2.0;
      var candidate := c.(chroma := middle);
      if InGamut(m, candidate) then Bisect(m, c, middle, high)
      else if WithinJnd(m, candidate) then Clipped(m, candidate)
      else Bisect(m, c, low, middle)
  }

  function HalvingsLeft(low: real, high: real): nat {
    if high - low <= BISECTION_EPSILON then 0 else ((high - low) * 100000.0).Floor
  }

  // How often the bisection halves its interval before it stops.
  function Halvings(m: Maths, c: Oklch, low: real, high: real): nat
    decreases HalvingsLeft(low, high)
  {
    if high - low <= BISECTION_EPSILON then 0
    else
      var middle := (low + high) / 2.0;
      var candidate := c.(chroma := middle);
      if InGamut(m, candidate) then 1 + Halvings(m, c, middle, high)
      else if WithinJnd(m, candidate) then 1
      else 1 + Halvings(m, c, low, middle)
  }

  // The colour a browser paints for `c`.
  function Paint(m: Maths, c: Oklch): Rgb {
    if c.lightness >= 1.0 then WHITE
    else if c.lightness <= 0.0 then BLACK
    else if InGamut(m, c) then Clipped(m, c)
    else Bisect(m, c, 0.0, c.chroma)
  }

  // At zero chroma every base is the lightness and each row of the matrix sums to one,
  // so all three channels are the lightness cubed.
  lemma GreyChannels(m: Maths, c: Oklch)
    requires c.chroma == 0.0
    ensures OklchToLinear(m, c) == Rgb(Power(c.lightness, 3), Power(c.lightness, 3), Power(c.lightness, 3))
  {
    assert ToOklab(m, c) == Oklab(c.lightness, 0.0, 0.0);
  }

  lemma GreyInGamut(m: Maths, c: Oklch)
    requires c.chroma == 0.0 && 0.0 <= c.lightness <= 1.0
    ensures InGamut(m, c)
  {
    GreyChannels(m, c);
    CubeMonotone(0.0, c.lightness);
    CubeMonotone(c.lightness, 1.0);
    PowerExpands(0.0);
    PowerExpands(1.0);
  }

  // The bisection paints the clip of one chroma of its interval, and that chroma is
  // either inside the gamut or within the JND of its own clip.
  lemma {:induction false} BisectPaints(m: Maths, c: Oklch, low: real, high: real) returns (chroma: real)
    requires low <= high && InGamut(m, c.(chroma := low))
    ensures low <= chroma <= high
    ensures Bisect(m, c, low, high) == Clipped(m, c.(chroma := chroma))
    ensures InGamut(m, c.(chroma := chroma)) || WithinJnd(m, c.(chroma := chroma))
    decreases HalvingsLeft(low, high)
  {
    hide WithinJnd;
    if high - low <= BISECTION_EPSILON { return low; }
    var middle := (low + high) / 2.0;
    if InGamut(m, c.(chroma := middle)) {
      chroma := BisectPaints(m, c, middle, high);
    } else if WithinJnd(m, c.(chroma := middle)) {
      chroma := middle;
    } else {
      chroma := BisectPaints(m, c, low, middle);
    }
  }

  /** Strictly between black and white, what is painted is the clip of the same lightness
      and hue at a chroma no larger than the one asked for; that chroma is in the gamut or
      its clip is within the JND. An in-gamut colour is only clipped. */
  lemma PaintKeepsLightnessAndHue(m: Maths, c: Oklch) returns (chroma: real)
    requires 0.0 < c.lightness < 1.0 && 0.0 <= c.chroma
    ensures 0.0 <= chroma <= c.chroma
    ensures Paint(m, c) == Clipped(m, c.(chroma := chroma))
    ensures InGamut(m, c.(chroma := chroma)) || WithinJnd(m, c.(chroma := chroma))
    ensures InGamut(m, c) ==> chroma == c.chroma
  {
    if InGamut(m, c) { return c.chroma; }
    GreyInGamut(m, c.(chroma := 0.0));
    chroma := BisectPaints(m, c, 0.0, c.chroma);
  }

  function Pow2(n: nat): real {
    if n == 0 then 1.0 else 2.0 * Pow2(n - 1)
  }

  /** Every halving but the last leaves an interval still wider than the epsilon, so the
      number of halvings is logarithmic in chroma over epsilon. */
  lemma {:induction false} HalvingsLogarithmic(m: Maths, c: Oklch, low: real, high: real)
    ensures Halvings(m, c, low, high) == 0
            || Pow2(Halvings(m, c, low, high) - 1) * BISECTION_EPSILON < high - low
    decreases HalvingsLeft(low, high)
  {
    hide InGamut, WithinJnd;
    if Halvings(m, c, low, high) == 0 { return; }
    var middle := (low + high) / 2.0;
    var candidate := c.(chroma := middle);
    var rest := Halvings(m, c, low, high) - 1;
    if rest > 0 {
      if InGamut(m, candidate) {
        HalvingsLogarithmic(m, c, middle, high);
      } else {
        HalvingsLogarithmic(m, c, low, middle);
      }
      assert Pow2(rest) == 2.0 * Pow2(rest - 1);
    }
  }

  // One turn of the bisection.
  lemma BisectStep(m: Maths, c: Oklch, low: real, high: real)
    requires high - low > BISECTION_EPSILON
    ensures var middle := (low + high) / 2.0;
            var candidate := c.(chroma := middle);
            && HalvingsLeft(middle, high) < HalvingsLeft(low, high)
            && HalvingsLeft(low, middle) < HalvingsLeft(low, high)
            && if InGamut(m, candidate) then
                 Bisect(m, c, low, high) == Bisect(m, c, middle, high)
                 && Halvings(m, c, low, high) == 1 + Halvings(m, c, middle, high)
               else if WithinJnd(m, candidate) then
                 Bisect(m, c, low, high) == Clipped(m, candidate) && Halvings(m, c, low, high) == 1
               else
                 Bisect(m, c, low, high) == Bisect(m, c, low, middle)
                 && Halvings(m, c, low, high) == 1 + Halvings(m, c, low, middle)
  {
    hide InGamut, WithinJnd, Clipped;
  }

  lemma BisectEnd(m: Maths, c: Oklch, low: real, high: real)
    requires high - low <= BISECTION_EPSILON
    ensures Bisect(m, c, low, high) == Clipped(m, c.(chroma := low)) && Halvings(m, c, low, high) == 0
  {
  }

  lemma PaintCases(m: Maths, c: Oklch)
    ensures Paint(m, c) == if c.lightness >= 1.0 then WHITE else if c.lightness <= 0.0 then BLACK
                           else if InGamut(m, c) then Clipped(m, c) else Bisect(m, c, 0.0, c.chroma)
    ensures c.(chroma := c.chroma) == c
  {
    hide InGamut, Clipped, Bisect;
  }

  /** `gamut_map`: the bisection keeps `low` inside the gamut and `high` outside it, and halves
      a number of times logarithmic in the chroma over the epsilon. */
  method GamutMap(m: Maths, c: Oklch) returns (painted: Rgb, ghost halvings: nat)
    ensures painted == Paint(m, c)
    ensures halvings == 0 || Pow2(halvings - 1) * BISECTION_EPSILON < c.chroma
  {
    hide *;
    PaintCases(m, c);
    halvings := 0;
    if c.lightness >= 1.0 { return WHITE, 0; }
    if c.lightness <= 0.0 { return BLACK, 0; }
    if InGamut(m, c) { return Clipped(m, c), 0; }
    var low, high := 0.0, c.chroma;
    GreyInGamut(m, c.(chroma := 0.0));
    ghost var target, total := Paint(m, c), Halvings(m, c, low, high);
    HalvingsLogarithmic(m, c, low, high);
    while high - low > BISECTION_EPSILON
      invariant target == Bisect(m, c, low, high)
      invariant InGamut(m, c.(chroma := low)) && !InGamut(m, c.(chroma := high))
      invariant halvings + Halvings(m, c, low, high) == total
      decreases HalvingsLeft(low, high)
    {
      BisectStep(m, c, low, high);
      halvings := halvings + 1;
      var middle := (low + high) / 2.0;
      var candidate := c.(chroma := middle);
      if InGamut(m, candidate) {
        low := middle;
        continue;
      }
      var clipped := Clipped(m, candidate);
      if WithinJnd(m, candidate) { return clipped, halvings; }
      high := middle;
    }
    BisectEnd(m, c, low, high);
    return Clipped(m, c.(chroma := low)), halvings;
  }

  // ---------------------------------------------------------------------------
  // WCAG 2.1 measurement
  // ---------------------------------------------------------------------------

  function Luminance(rgb: Rgb): real {
    0.2126 * rgb.red + 0.7152 * rgb.green + 0.0722 * rgb.blue
  }

  function PaintedLuminance(m: Maths, c: Oklch): real {
    Luminance(Paint(m, c))
  }

  lemma PaintedChannels(m: Maths, c: Oklch)
    ensures var p := Paint(m, c); 0.0 <= p.red <= 1.0 && 0.0 <= p.green <= 1.0 && 0.0 <= p.blue <= 1.0
    ensures 0.0 <= PaintedLuminance(m, c) <= 1.0
  {
    if 0.0 < c.lightness < 1.0 && !InGamut(m, c) {
      BisectChannels(m, c, 0.0, c.chroma);
    }
  }

  lemma {:induction false} BisectChannels(m: Maths, c: Oklch, low: real, high: real)
    ensures exists at: Oklch :: Bisect(m, c, low, high) == Clipped(m, at)
    decreases HalvingsLeft(low, high)
  {
    var middle := (low + high) / 2.0;
    var candidate := c.(chroma := middle);
    if high - low <= BISECTION_EPSILON {
      assert Bisect(m, c, low, high) == Clipped(m, c.(chroma := low));
    } else if InGamut(m, candidate) {
      BisectChannels(m, c, middle, high);
    } else if !WithinJnd(m, candidate) {
      BisectChannels(m, c, low, middle);
    } else {
      assert Bisect(m, c, low, high) == Clipped(m, candidate);
    }
  }

  // The WCAG ratio of two relative luminances, in either order.
  function Ratio(x: real, y: real): real
    requires 0.0 <= x && 0.0 <= y
  {
    if x <= y then (y + LUMINANCE_OFFSET) / (x + LUMINANCE_OFFSET)
    else (x + LUMINANCE_OFFSET) / (y + LUMINANCE_OFFSET)
  }

  function ContrastRatio(m: Maths, first: Oklch, second: Oklch): real {
    PaintedChannels(m, first);
    PaintedChannels(m, second);
    Ratio(PaintedLuminance(m, first), PaintedLuminance(m, second))
  }

  predicate Legible(m: Maths, first: Oklch, second: Oklch) {
    ContrastRatio(m, first, second) >= MINIMUM_CONTRAST_RATIO
  }

  lemma QuotientBounds(n: real, d: real, q: real)
    requires d > 0.0
    ensures n / d >= q <==> n >= q * d
    ensures n / d <= q <==> n <= q * d
  {
    assert n - q * d == (n / d - q) * d by {
      assert (n / d) * d == n;
    }
  }

  /** The ratio is symmetric, between 1:1 and 21:1, and reaches 4.5:1 exactly when one
      luminance is 4.5 times the other after the WCAG offset. */
  lemma RatioRange(x: real, y: real)
    requires 0.0 <= x <= 1.0 && 0.0 <= y <= 1.0
    ensures Ratio(x, y) == Ratio(y, x)
    ensures 1.0 <= Ratio(x, y) <= 21.0
    ensures Ratio(x, y) >= MINIMUM_CONTRAST_RATIO
            <==> x + 0.05 >= 4.5 * (y + 0.05) || y + 0.05 >= 4.5 * (x + 0.05)
  {
    var darker, lighter := if x <= y then x + 0.05 else y + 0.05, if x <= y then y + 0.05 else x + 0.05;
    QuotientBounds(lighter, darker, 4.5);
    QuotientBounds(lighter, darker, 1.0);
    QuotientBounds(lighter, darker, 21.0);
  }
}
