/** When `gamut_map` falls out of its loop: the return its comment calls unreachable, and the
    colours that reach it. */
module GamutFallback {
  import opened BrandGrid
  import opened ClipErrors
  import opened Colour
  import opened Cubes

  // Whether the bisection ends by closing its interval rather than within the JND.
  predicate FallsThrough(m: Maths, c: Oklch, low: real, high: real)
    decreases HalvingsLeft(low, high)
  {
    if high - low <= BISECTION_EPSILON then true
    else
      var middle := (low + high) / 2.0;
      var candidate := c.(chroma := middle);
      if InGamut(m, candidate) then FallsThrough(m, c, middle, high)
      else !WithinJnd(m, candidate) && FallsThrough(m, c, low, middle)
  }

  // Whether the mapping of a colour ends in the return after the loop.
  predicate ReachesFallback(m: Maths, c: Oklch) {
    0.0 < c.lightness < 1.0 && !InGamut(m, c) && FallsThrough(m, c, 0.0, c.chroma)
  }

  // ---------------------------------------------------------------------------
  // The bisection
  // ---------------------------------------------------------------------------

  function Halved(x: real, k: nat): real {
    if k == 0 then x else Halved(x, k - 1) / 2.0
  }

  // The midpoints of a bisection that always moves up, from its `n`-th on: the requested
  // chroma less a half, a quarter, and so on down to the epsilon. All are inside the gamut.
  ghost predicate MidpointsRender(m: Maths, c: Oklch, n: nat) {
    forall k: nat :: n <= k && Halved(c.chroma, k) > BISECTION_EPSILON ==>
      InGamut(m, c.(chroma := c.chroma - Halved(c.chroma, k + 1)))
  }

  // Every out-of-gamut chroma is perceptibly far from its clip.
  ghost predicate AlwaysPerceptible(m: Maths, c: Oklch) {
    forall x | 0.0 <= x :: !InGamut(m, c.(chroma := x)) ==> !WithinJnd(m, c.(chroma := x))
  }

  // A chroma just outside the gamut is within the JND of its clip.
  ghost predicate EdgeImperceptible(m: Maths, c: Oklch) {
    forall x, y | 0.0 <= x <= y <= x + BISECTION_EPSILON && InGamut(m, c.(chroma := x)) ::
      !InGamut(m, c.(chroma := y)) ==> WithinJnd(m, c.(chroma := y))
  }

  lemma {:induction false} PerceptibleFallsThrough(m: Maths, c: Oklch, low: real, high: real)
    requires AlwaysPerceptible(m, c) && 0.0 <= low
    ensures FallsThrough(m, c, low, high)
    decreases HalvingsLeft(low, high)
  {
    hide InGamut, WithinJnd;
    if high - low > BISECTION_EPSILON {
      var middle := (low + high) / 2.0;
      PerceptibleFallsThrough(m, c, middle, high);
      PerceptibleFallsThrough(m, c, low, middle);
    }
  }

  // Once an out-of-gamut candidate has been tried, the interval closes on one within the JND.
  lemma {:induction false} TriedMeansFound(m: Maths, c: Oklch, low: real, high: real)
    requires 0.0 <= low <= high && EdgeImperceptible(m, c)
    requires InGamut(m, c.(chroma := low)) && !InGamut(m, c.(chroma := high)) && !WithinJnd(m, c.(chroma := high))
    ensures !FallsThrough(m, c, low, high)
    decreases HalvingsLeft(low, high)
  {
    hide InGamut, WithinJnd;
    if high - low > BISECTION_EPSILON {
      var middle := (low + high) / 2.0;
      if InGamut(m, c.(chroma := middle)) {
        TriedMeansFound(m, c, middle, high);
      } else if !WithinJnd(m, c.(chroma := middle)) {
        TriedMeansFound(m, c, low, middle);
      }
    }
  }

  lemma {:induction false} FallsThroughFrom(m: Maths, c: Oklch, n: nat)
    requires 0.0 <= Halved(c.chroma, n) <= c.chroma && EdgeImperceptible(m, c)
    requires InGamut(m, c.(chroma := c.chroma - Halved(c.chroma, n)))
    ensures FallsThrough(m, c, c.chroma - Halved(c.chroma, n), c.chroma)
            <==> MidpointsRender(m, c, n)
    decreases HalvingsLeft(c.chroma - Halved(c.chroma, n), c.chroma)
  {
    hide InGamut, WithinJnd, EdgeImperceptible;
    var low, width := c.chroma - Halved(c.chroma, n), Halved(c.chroma, n);
    if width <= BISECTION_EPSILON {
      forall k: nat | n <= k ensures Halved(c.chroma, k) <= BISECTION_EPSILON { HalvedShrinks(c.chroma, n, k); }
    } else {
      var middle := (low + c.chroma) / 2.0;
      assert middle == c.chroma - Halved(c.chroma, n + 1);
      if InGamut(m, c.(chroma := middle)) {
        FallsThroughFrom(m, c, n + 1);
      } else if !WithinJnd(m, c.(chroma := middle)) {
        TriedMeansFound(m, c, low, middle);
      }
    }
  }

  // At any lightness, when every midpoint is inside no candidate is tried against the JND.
  lemma {:induction false} MidpointsFallThrough(m: Maths, c: Oklch, n: nat)
    requires 0.0 <= Halved(c.chroma, n) && MidpointsRender(m, c, n)
    ensures FallsThrough(m, c, c.chroma - Halved(c.chroma, n), c.chroma)
    decreases HalvingsLeft(c.chroma - Halved(c.chroma, n), c.chroma)
  {
    hide InGamut, WithinJnd;
    if Halved(c.chroma, n) > BISECTION_EPSILON {
      assert (c.chroma - Halved(c.chroma, n) + c.chroma) / 2.0 == c.chroma - Halved(c.chroma, n + 1);
      MidpointsFallThrough(m, c, n + 1);
    }
  }

  lemma {:induction false} HalvedShrinks(x: real, n: nat, k: nat)
    requires n <= k && 0.0 <= Halved(x, n)
    ensures 0.0 <= Halved(x, k) <= Halved(x, n)
    decreases k
  {
    if n < k { HalvedShrinks(x, n, k - 1); }
  }

  // ---------------------------------------------------------------------------
  // Which colours fall through
  // ---------------------------------------------------------------------------

  // The lightnesses outside which the hue does not matter.
  const DARK := 0.02
  const LIGHT := 0.08

  /** At any lightness, hue and chroma, what decides is the edge of the gamut there: where every
      out-of-gamut chroma is perceptibly far from its clip, every such colour falls through;
      where the chromas just outside are not, only those do whose midpoints are all inside. */
  lemma FallbackByEdge(m: Maths, c: Oklch)
    requires 0.0 <= c.chroma && (AlwaysPerceptible(m, c) || EdgeImperceptible(m, c))
    ensures ReachesFallback(m, c)
            <==> 0.0 < c.lightness < 1.0 && !InGamut(m, c) && (AlwaysPerceptible(m, c) || MidpointsRender(m, c, 0))
  {
    if 0.0 < c.lightness < 1.0 {
      GreyInGamut(m, c.(chroma := 0.0));
      hide InGamut, WithinJnd, MidpointsRender, AlwaysPerceptible, EdgeImperceptible;
      if AlwaysPerceptible(m, c) {
        PerceptibleFallsThrough(m, c, 0.0, c.chroma);
      } else {
        assert Halved(c.chroma, 0) == c.chroma;
        FallsThroughFrom(m, c, 0);
      }
    }
  }

  lemma DarkBelow(m: Maths, c: Oklch)
    requires CubeRoots(m) && c.lightness <= DARK
    ensures AlwaysPerceptible(m, c)
  {
    hide InGamut, WithinJnd;
    forall x | 0.0 <= x && WithinJnd(m, c.(chroma := x)) ensures InGamut(m, c.(chroma := x)) {
      DarkIsPerceptible(m, c.(chroma := x));
    }
  }

  lemma EdgeAbove(m: Maths, c: Oklch)
    requires CubeRoots(m) && m.Pythagorean() && LIGHT <= c.lightness
    ensures EdgeImperceptible(m, c)
  {
    hide InGamut, WithinJnd;
    forall x, y | 0.0 <= x <= y <= x + BISECTION_EPSILON && InGamut(m, c.(chroma := x))
      ensures WithinJnd(m, c.(chroma := y))
    {
      EdgeIsWithinJnd(m, c, x, y);
    }
  }

  // Between a chroma inside and one outside there are two as close as one epsilon.
  lemma {:induction false} EdgeExists(m: Maths, c: Oklch, low: real, high: real)
    requires 0.0 <= low <= high && InGamut(m, c.(chroma := low)) && !InGamut(m, c.(chroma := high))
    ensures exists x, y :: 0.0 <= x <= y <= x + BISECTION_EPSILON && InGamut(m, c.(chroma := x))
                           && !InGamut(m, c.(chroma := y))
    decreases HalvingsLeft(low, high)
  {
    hide InGamut;
    if high - low > BISECTION_EPSILON {
      var middle := (low + high) / 2.0;
      if InGamut(m, c.(chroma := middle)) {
        EdgeExists(m, c, middle, high);
      } else {
        EdgeExists(m, c, low, middle);
      }
    }
  }

  // A colour some of whose chromas leave the gamut is not both.
  lemma EdgeIsSeen(m: Maths, c: Oklch)
    requires 0.0 < c.lightness < 1.0 && 0.0 <= c.chroma && !InGamut(m, c) && EdgeImperceptible(m, c)
    ensures !AlwaysPerceptible(m, c)
  {
    GreyInGamut(m, c.(chroma := 0.0));
    EdgeExists(m, c, 0.0, c.chroma);
    hide InGamut, WithinJnd;
  }

  /** The return after the loop is called unreachable; these are the colours that reach it.
      Up to lightness 0.02 every out-of-gamut colour does, whatever its hue and chroma. From
      lightness 0.08 up only those do whose chroma is so close to the gamut that the
      bisection, which never tries the chroma it was given, finds every midpoint inside. */
  lemma FallbackExactly(m: Maths, c: Oklch)
    requires CubeRoots(m) && m.Pythagorean() && 0.0 <= c.chroma
    requires c.lightness <= DARK || LIGHT <= c.lightness
    ensures ReachesFallback(m, c)
            <==> 0.0 < c.lightness < 1.0 && !InGamut(m, c) && (c.lightness <= DARK || MidpointsRender(m, c, 0))
  {
    hide InGamut, WithinJnd, MidpointsRender, AlwaysPerceptible, EdgeImperceptible, FallsThrough;
    if c.lightness <= DARK {
      DarkBelow(m, c);
    } else {
      EdgeAbove(m, c);
      if 0.0 < c.lightness < 1.0 && !InGamut(m, c) { EdgeIsSeen(m, c); }
    }
    FallbackByEdge(m, c);
  }

  /** What is painted then: the clip of an in-gamut chroma within one epsilon of one that is
      not, or was asked for. */
  lemma {:induction false} FallbackPaintsTheEdge(m: Maths, c: Oklch, low: real, high: real)
    returns (chroma: real, above: real)
    requires low <= high && InGamut(m, c.(chroma := low)) && !InGamut(m, c.(chroma := high))
    requires FallsThrough(m, c, low, high)
    ensures low <= chroma <= above <= chroma + BISECTION_EPSILON && above <= high
    ensures InGamut(m, c.(chroma := chroma)) && !InGamut(m, c.(chroma := above))
    ensures Bisect(m, c, low, high) == Clipped(m, c.(chroma := chroma))
    decreases HalvingsLeft(low, high)
  {
    hide InGamut, WithinJnd, Clipped;
    if high - low <= BISECTION_EPSILON { return low, high; }
    var middle := (low + high) / 2.0;
    if InGamut(m, c.(chroma := middle)) {
      chroma, above := FallbackPaintsTheEdge(m, c, middle, high);
    } else {
      chroma, above := FallbackPaintsTheEdge(m, c, low, middle);
    }
  }

  /** No colour the theme emits or measures is among them: a snapped colour is not even
      bisected. */
  lemma SnappedNeverFallsThrough(m: Maths, c: Oklch)
    requires 0.0 <= c.lightness <= 1.0 && 0.0 <= c.chroma <= 1.0
    ensures !ReachesFallback(m, Snap(Browser(m), c).Exact())
  {
    BrowserIsSound(m);
    SnapIsLargestRendered(Browser(m), c);
    hide InGamut;
  }

  // ---------------------------------------------------------------------------
  // Witnesses
  // ---------------------------------------------------------------------------

  /** A colour just outside the gamut: the requested chroma itself is never compared with the
      JND, and its half is inside. */
  lemma JustOutsideFallsThrough(m: Maths)
    requires m.cos(270.0) == 0.0 && m.sin(270.0) == -1.0
    ensures ReachesFallback(m, Oklch(0.9999999, 0.000016, 270.0))
  {
    var c := Oklch(0.9999999, 0.000016, 270.0);
    PaleOutside(m);
    PaleInside(m);
    hide InGamut, WithinJnd;
    assert c.(chroma := 0.000008) == Oklch(0.9999999, 0.000008, 270.0);
    assert FallsThrough(m, c, 0.000008, 0.000016);
  }

  lemma PaleOutside(m: Maths)
    requires m.cos(270.0) == 0.0 && m.sin(270.0) == -1.0
    ensures !InGamut(m, Oklch(0.9999999, 0.000016, 270.0))
  {
    var lab := ToOklab(m, Oklch(0.9999999, 0.000016, 270.0));
    assert lab == Oklab(0.9999999, 0.0, -0.000016);
    hide Power, ToOklab;
    CubeWithin(LongBase(lab), 0.9999, 1.0);
    CubeWithin(MediumBase(lab), 1.0000009, 1.000001);
    CubeWithin(ShortBase(lab), 1.0000205, 1.0000206);
  }

  lemma PaleInside(m: Maths)
    requires m.cos(270.0) == 0.0 && m.sin(270.0) == -1.0
    ensures InGamut(m, Oklch(0.9999999, 0.000008, 270.0))
  {
    var lab := ToOklab(m, Oklch(0.9999999, 0.000008, 270.0));
    assert lab == Oklab(0.9999999, 0.0, -0.000008);
    hide Power, ToOklab;
    CubeWithin(LongBase(lab), 0.999998, 0.999999);
    CubeWithin(MediumBase(lab), 1.0000004, 1.0000005);
    CubeWithin(ShortBase(lab), 1.0000102, 1.0000103);
  }

  /** A colour near black, well outside the gamut. */
  lemma NearBlackFallsThrough(m: Maths)
    requires CubeRoots(m) && m.Pythagorean() && m.cos(180.0) == -1.0 && m.sin(180.0) == 0.0
    ensures ReachesFallback(m, Oklch(0.01, 0.10, 180.0))
  {
    var c := Oklch(0.01, 0.10, 180.0);
    assert ToOklab(m, c) == Oklab(0.01, -0.1, 0.0);
    CubeAtMost(LongBase(ToOklab(m, c)), -0.0296);
    CubeAtLeast(MediumBase(ToOklab(m, c)), 0.02);
    CubeAtMost(ShortBase(ToOklab(m, c)), 0.019);
    hide Power;
    assert !InGamut(m, c);
    FallbackExactly(m, c);
  }

  // Cosines and sines of the two angles.
  ghost predicate VerticalAngles(m: Maths) {
    m.cos(90.0) == 0.0 && m.sin(90.0) == 1.0 && m.cos(270.0) == 0.0 && m.sin(270.0) == -1.0
  }

  // At lightness 0.03 a yellow that leaves the gamut leaves it through blue.
  lemma YellowLeavesThroughBlue(m: Maths, x: real)
    requires VerticalAngles(m) && 0.0 <= x
    requires -GAMUT_TOLERANCE <= OklchToLinear(m, Oklch(0.03, x, 90.0)).blue
    ensures InGamut(m, Oklch(0.03, x, 90.0))
  {
    var lab := ToOklab(m, Oklch(0.03, x, 90.0));
    assert lab == Oklab(0.03, 0.0, x);
    var l, k, s := LongBase(lab), MediumBase(lab), ShortBase(lab);
    hide Power, ToOklab;
    CubeAtLeast(k, 0.0266);
    CubeAtMost(k, 0.03);
    CubeAtLeast(k, s);
    CubeAtLeast(l, 0.03);
    CubeAtMost(l, 0.0416);
    CubeAtLeast(s, -0.0385);
    CubeAtMost(s, 0.03);
    YellowChroma(x, k, s, l);
  }

  lemma YellowChroma(x: real, k: real, s: real, l: real)
    requires 0.0 <= x && k == 0.03 - 0.0638541728 * x && s == 0.03 - 1.2914855480 * x && 0.0 <= l
    requires -0.0041960863 * Power(l, 3) - 0.7034186147 * Power(k, 3) + 1.7076147010 * Power(s, 3) >= -0.0001
    ensures x <= 0.053
  {
    hide Power;
    CubeAtLeast(l, 0.0);
    CubeAtMost(s, -0.0384);
    CubeAtMost(s, -0.05);
    CubeAtLeast(k, 0.026);
    ScaledCube(s, 0.5);
    CubeOrder(0.5 * s, k);
  }

  lemma YellowIsPerceptible(m: Maths, x: real)
    requires CubeRoots(m) && VerticalAngles(m) && 0.0 <= x && WithinJnd(m, Oklch(0.03, x, 90.0))
    ensures InGamut(m, Oklch(0.03, x, 90.0))
  {
    var c := Oklch(0.03, x, 90.0);
    PairOfClip(m, c);
    CloseBases(PairOf(m, c), ToOklab(m, c), 0.03);
    hide Power, PairOf, Pair.IsClip, DarkAndClose, ToOklab, OklchToLinear, Pair.Wanted;
    DarkBlueRenders(PairOf(m, c), 0.03);
    YellowLeavesThroughBlue(m, x);
  }

  lemma BlueIsImperceptible(m: Maths)
    requires CubeRoots(m) && VerticalAngles(m)
    ensures var c := Oklch(0.03, 0.04, 270.0); !InGamut(m, c) && WithinJnd(m, c)
  {
    var c := Oklch(0.03, 0.04, 270.0);
    var w := ToOklab(m, c);
    assert w == Oklab(0.03, 0.0, -0.04);
    var x := PairOf(m, c);
    PairOfClip(m, c);
    hide Power, PairOf, DistanceSquared;
    BlueChannels(x);
    assert !InGamut(m, c);
    BlueClip(x);
    hide InGamut, ToOklab, LinearToOklab, Clipped;
    SquaresWithin(w, x.Got(), 0.0161, 0.0026, 0.0112);
  }

  lemma BlueChannels(x: Pair)
    requires x.l == 0.021367849708 && x.k == 0.032554166912 && x.s == 0.08165942192
    ensures var rgb := x.Wanted();
            && 0.0000514 <= rgb.red <= 0.0000515 && -0.000109 <= rgb.green <= -0.000108
            && 0.0009055 <= rgb.blue <= 0.0009056
  {
    CubeWithin(x.l, 0.021367, 0.021368);
    CubeWithin(x.k, 0.032554, 0.0325542);
    CubeWithin(x.s, 0.081659, 0.0816595);
    hide Power;
  }

  lemma BlueClip(x: Pair)
    requires x.IsClip() && var rgb := x.Wanted();
             && 0.0000514 <= rgb.red <= 0.0000515 && -0.000109 <= rgb.green <= -0.000108
             && 0.0009055 <= rgb.blue <= 0.0009056
    ensures ErrorsWithin(Oklab(0.03, 0.0, -0.04), x.Got(), 0.0161, 0.0026, 0.0112)
  {
    hide Power;
    CubeAtLeast(x.tl, 0.04076);
    CubeAtMost(x.tl, 0.04079);
    CubeAtLeast(x.tk, 0.04763);
    CubeAtMost(x.tk, 0.04766);
    CubeAtLeast(x.ts, 0.08314);
    CubeAtMost(x.ts, 0.08317);
  }

  /** Between the two lightnesses the hue decides: of two colours that differ in nothing
      else, the yellow falls through and the blue does not. */
  lemma HueDecidesBetween(m: Maths)
    requires CubeRoots(m) && VerticalAngles(m)
    ensures ReachesFallback(m, Oklch(0.03, 0.08, 90.0))
    ensures !InGamut(m, Oklch(0.03, 0.08, 270.0)) && !ReachesFallback(m, Oklch(0.03, 0.08, 270.0))
  {
    var yellow, blue := Oklch(0.03, 0.08, 90.0), Oklch(0.03, 0.08, 270.0);
    YellowIsOutside(m);
    BlueIsOutside(m);
    BlueIsImperceptible(m);
    hide InGamut, WithinJnd;
    forall x | 0.0 <= x && WithinJnd(m, yellow.(chroma := x)) ensures InGamut(m, yellow.(chroma := x)) {
      YellowIsPerceptible(m, x);
    }
    PerceptibleFallsThrough(m, yellow, 0.0, yellow.chroma);
    assert blue.(chroma := 0.04) == Oklch(0.03, 0.04, 270.0);
    assert !FallsThrough(m, blue, 0.0, 0.08);
  }

  lemma YellowIsOutside(m: Maths)
    requires VerticalAngles(m)
    ensures !InGamut(m, Oklch(0.03, 0.08, 90.0))
  {
    var lab := ToOklab(m, Oklch(0.03, 0.08, 90.0));
    assert lab == Oklab(0.03, 0.0, 0.08);
    hide Power, ToOklab;
    CubeAtLeast(LongBase(lab), 0.0);
    CubeAtLeast(MediumBase(lab), 0.0);
    CubeAtMost(ShortBase(lab), -0.07);
  }

  lemma BlueIsOutside(m: Maths)
    requires VerticalAngles(m)
    ensures !InGamut(m, Oklch(0.03, 0.08, 270.0))
  {
    var lab := ToOklab(m, Oklch(0.03, 0.08, 270.0));
    assert lab == Oklab(0.03, 0.0, -0.08);
    hide Power, ToOklab;
    CubeAtLeast(LongBase(lab), 0.0);
    CubeAtMost(MediumBase(lab), 0.036);
    CubeAtLeast(ShortBase(lab), 0.13);
  }
}
