/** How far an out-of-gamut colour is from its clip: always perceptibly near black, never
    perceptibly at the edge of the gamut of a lighter colour. */
module ClipErrors {
  import opened Colour
  import opened Cubes

  // `math.cbrt` is the real cube root.
  ghost predicate CubeRoots(m: Maths) {
    forall x {:trigger IsRoot(m.cbrt(x), x)} :: IsRoot(m.cbrt(x), x)
  }

  predicate IsRoot(root: real, x: real) { Power(root, 3) == x }

  // ---------------------------------------------------------------------------
  // Distances
  // ---------------------------------------------------------------------------

  // An error below the JND is below it along every direction.
  lemma SmallError(x: real, y: real, z: real, u: real, v: real, w: real)
    requires Power(x, 2) + Power(y, 2) + Power(z, 2) < JND * JND
    ensures 2.0 * u * x + 2.0 * v * y + 2.0 * w * z <= 0.0004 + u * u + v * v + w * w
  {
    hide Power;
    SquareAgainst(x, u);
    SquareAgainst(y, v);
    SquareAgainst(z, w);
  }

  // ---------------------------------------------------------------------------
  // A colour, its clip, and the bases of both
  // ---------------------------------------------------------------------------

  // The bases of a wanted colour (`l`, `k`, `s`) and of its clip (`tl`, `tk`, `ts`).
  datatype Pair = Pair(l: real, k: real, s: real, tl: real, tk: real, ts: real)
  {
    function Wanted(): Rgb { Mix(Power(l, 3), Power(k, 3), Power(s, 3)) }

    // The cubes of the clip's bases are its linear channels mixed back.
    ghost predicate IsClip() {
      var p := Clip(Wanted());
      && Power(tl, 3) == 0.4122214708 * p.red + 0.5363325363 * p.green + 0.0514459929 * p.blue
      && Power(tk, 3) == 0.2119034982 * p.red + 0.6806995451 * p.green + 0.1073969566 * p.blue
      && Power(ts, 3) == 0.0883024619 * p.red + 0.2817188376 * p.green + 0.6299787005 * p.blue
    }

    function Got(): Oklab {
      Oklab(0.2104542553 * tl + 0.7936177850 * tk - 0.0040720468 * ts,
            1.9779984951 * tl - 2.4285922050 * tk + 0.4505937099 * ts,
            0.0259040371 * tl + 0.7827717662 * tk - 0.8086757660 * ts)
    }
  }

  function PairOf(m: Maths, c: Oklch): Pair {
    var lab := ToOklab(m, c);
    var p := Clipped(m, c);
    Pair(LongBase(lab), MediumBase(lab), ShortBase(lab),
         m.cbrt(0.4122214708 * p.red + 0.5363325363 * p.green + 0.0514459929 * p.blue),
         m.cbrt(0.2119034982 * p.red + 0.6806995451 * p.green + 0.1073969566 * p.blue),
         m.cbrt(0.0883024619 * p.red + 0.2817188376 * p.green + 0.6299787005 * p.blue))
  }

  lemma PairOfClip(m: Maths, c: Oklch)
    requires CubeRoots(m)
    ensures PairOf(m, c).IsClip() && PairOf(m, c).Got() == LinearToOklab(m, Clipped(m, c))
    ensures PairOf(m, c).Wanted() == OklchToLinear(m, c)
  {
    hide Power;
    var x, cubes := PairOf(m, c), Unmix(Clipped(m, c));
    assert IsRoot(m.cbrt(cubes.0), cubes.0) && IsRoot(m.cbrt(cubes.1), cubes.1) && IsRoot(m.cbrt(cubes.2), cubes.2);
    assert x.tl == m.cbrt(cubes.0) && x.tk == m.cbrt(cubes.1) && x.ts == m.cbrt(cubes.2);
    hide OklchToLinear, Clip, Mix;
  }

  // The bases of a clip lie between 0 and 1.
  lemma ClipBases(x: Pair)
    requires x.IsClip()
    ensures 0.0 <= x.tl <= 1.001 && 0.0 <= x.tk <= 1.001 && 0.0 <= x.ts <= 1.001
  {
    CubeOrder(0.0, x.tl);
    CubeOrder(0.0, x.tk);
    CubeOrder(0.0, x.ts);
    CubeOrder(x.tl, 1.001);
    CubeOrder(x.tk, 1.001);
    CubeOrder(x.ts, 1.001);
    PowerExpands(0.0);
    PowerExpands(1.001);
    hide Power;
  }

  // ---------------------------------------------------------------------------
  // Near black
  // ---------------------------------------------------------------------------

  // What being within the JND says of the bases, up to the lightness `dark`.
  ghost predicate DarkAndClose(x: Pair, dark: real) {
    && -0.02197 <= x.tl - x.l <= 0.02197
    && -0.02017 <= x.tk - x.k <= 0.02017
    && -0.03273 <= x.ts - x.s <= 0.03273
    && 0.2104542553 * x.l + 0.7936177850 * x.k - 0.0040720468 * x.s <= dark + 0.00001
    && 0.2104542553 * x.tl + 0.7936177850 * x.tk - 0.0040720468 * x.ts <= dark + 0.02
  }

  lemma CloseAxis(e: real, a: real, b: real)
    requires Power(e, 2) + Power(a, 2) + Power(b, 2) < JND * JND
    ensures -0.02 <= e <= 0.02
  {
    hide Power;
    SmallError(e, a, b, 0.02, 0.0, 0.0);
    SmallError(e, a, b, -0.02, 0.0, 0.0);
  }

  lemma CloseLong(e: real, a: real, b: real)
    requires Power(e, 2) + Power(a, 2) + Power(b, 2) < JND * JND
    ensures -0.021961 <= e + 0.3963377774 * a + 0.2158037573 * b <= 0.021961
  {
    hide Power;
    SmallError(e, a, b, 0.01823, 0.007225237682002, 0.003934102495579);
    SmallError(e, a, b, -0.01823, -0.007225237682002, -0.003934102495579);
  }

  lemma CloseMedium(e: real, a: real, b: real)
    requires Power(e, 2) + Power(a, 2) + Power(b, 2) < JND * JND
    ensures -0.020161 <= e - 0.1055613458 * a - 0.0638541728 * b <= 0.020161
  {
    hide Power;
    SmallError(e, a, b, 0.01985, -0.002095392714130, -0.001267505330080);
    SmallError(e, a, b, -0.01985, 0.002095392714130, 0.001267505330080);
  }

  lemma CloseShort(e: real, a: real, b: real)
    requires Power(e, 2) + Power(a, 2) + Power(b, 2) < JND * JND
    ensures -0.03272 <= e - 0.0894841775 * a - 1.2914855480 * b <= 0.03272
  {
    hide Power;
    SmallError(e, a, b, 0.01223, -0.001094391490825, -0.015794868252040);
    SmallError(e, a, b, -0.01223, 0.001094391490825, 0.015794868252040);
  }

  lemma CloseBases(x: Pair, w: Oklab, dark: real)
    requires x.IsClip() && w.lightness <= dark <= 0.1
    requires x.l == LongBase(w) && x.k == MediumBase(w) && x.s == ShortBase(w)
    requires DistanceSquared(w, x.Got()) < JND * JND
    ensures DarkAndClose(x, dark)
  {
    ClipBases(x);
    var g := x.Got();
    var e, a, b := w.lightness - g.lightness, w.a - g.a, w.b - g.b;
    hide Power, Pair.IsClip;
    CloseAxis(e, a, b);
    CloseLong(e, a, b);
    CloseMedium(e, a, b);
    CloseShort(e, a, b);
  }

  lemma MixedRatios(x: Pair)
    requires x.IsClip()
    ensures 0.78 * x.tk <= x.tl && 0.55 * x.ts <= x.tk
  {
    hide Power;
    RootRatio(x.tk, x.tl, 0.78);
    RootRatio(x.ts, x.tk, 0.55);
  }

  // The clip is dark too.
  lemma DarkClipBases(x: Pair, dark: real)
    requires x.IsClip() && DarkAndClose(x, dark) && dark <= 0.03
    ensures 0.0 <= x.tl && 0.0 <= x.tk && 0.0 <= x.ts
    ensures 0.95 * x.tk <= dark + 0.02 && 0.55 * x.ts <= x.tk && Power(x.tk, 3) <= 0.00015
  {
    ClipBases(x);
    MixedRatios(x);
    CubeAtMost(x.tk, 0.053);
    hide Power, Pair.IsClip;
  }

  lemma DarkGreenRenders(x: Pair)
    requires x.IsClip() && DarkAndClose(x, 0.02)
    ensures -GAMUT_TOLERANCE <= x.Wanted().green
  {
    ClipBases(x);
    DarkClipBases(x, 0.02);
    CubeDrop(x.tk, x.k, 0.02017, 0.04211);
    hide Power;
  }

  // Blue is never the channel left out up to lightness 0.03.
  lemma DarkBlueRenders(x: Pair, dark: real)
    requires x.IsClip() && DarkAndClose(x, dark) && dark <= 0.03
    ensures -GAMUT_TOLERANCE <= x.Wanted().blue
  {
    ClipBases(x);
    DarkClipBases(x, dark);
    hide Power;
    if x.Wanted().blue < 0.0 {
      RootRatio(x.ts, x.tk, 1.33);
      CubeDrop(x.ts, x.s, 0.03273, 0.0396);
    }
  }

  // With no red left, the medium base of the clip exceeds the long one; more so with no green.
  lemma NoRedRatios(x: Pair)
    requires x.IsClip() && x.Wanted().red <= 0.0
    ensures 1.08 * x.tl <= x.tk
    ensures x.Wanted().green <= 0.0 ==> 1.27 * x.tl <= x.tk
  {
    hide Power;
    RootRatio(x.tl, x.tk, 1.08);
    if x.Wanted().green <= 0.0 { RootRatio(x.tl, x.tk, 1.27); }
  }

  // Out of gamut through red, the clip's long base cannot be very small.
  lemma DarkRedReach(x: Pair)
    requires x.IsClip() && DarkAndClose(x, 0.02) && x.Wanted().red < -GAMUT_TOLERANCE
    ensures 0.0351 <= x.tl
  {
    ClipBases(x);
    DarkClipBases(x, 0.02);
    hide Power;
    if x.tl < 0.0351 {
      CubeDrop(x.tl, x.l, 0.02197, 0.0351);
    }
  }

  lemma DarkRedMedium(x: Pair)
    requires x.IsClip() && DarkAndClose(x, 0.02) && x.Wanted().red < -GAMUT_TOLERANCE <= x.Wanted().blue
    requires 0.0 < x.Wanted().green && 0.0351 <= x.tl <= 0.03777 && 0.0379 <= x.tk
    ensures 0.0266 <= x.k
  {
    ClipBases(x);
    DarkClipBases(x, 0.02);
    hide Power;
    CubeAtLeast(x.l, 0.01313);
    CubeAtMost(x.tl, 0.03777);
    CubeAtLeast(x.tk, 0.0379);
    CubeAtLeast(x.k, 0.0266);
  }

  lemma DarkRedRenders(x: Pair)
    requires x.IsClip() && DarkAndClose(x, 0.02) && -GAMUT_TOLERANCE <= x.Wanted().blue
    ensures -GAMUT_TOLERANCE <= x.Wanted().red
  {
    if x.Wanted().red < -GAMUT_TOLERANCE {
      ClipBases(x);
      DarkClipBases(x, 0.02);
      DarkRedReach(x);
      NoRedRatios(x);
      hide Power, Pair.IsClip, Pair.Wanted;
      if 0.0 < x.Wanted().green {
        DarkRedMedium(x);
      }
    }
  }

  // From above nothing leaves the gamut: a full channel would not be dark.
  lemma DarkBelowWhite(x: Pair)
    requires x.IsClip() && DarkAndClose(x, 0.02)
    ensures x.Wanted().red <= 1.0 && x.Wanted().green <= 1.0 && x.Wanted().blue <= 1.0
  {
    DarkClipBases(x, 0.02);
    CubeAtMost(x.tk, 0.0422);
    hide Power;
  }

  /** Near black every out-of-gamut colour, of whatever hue and chroma, is perceptibly far
      from its clip. */
  lemma DarkIsPerceptible(m: Maths, c: Oklch)
    requires CubeRoots(m) && c.lightness <= 0.02 && WithinJnd(m, c)
    ensures InGamut(m, c)
  {
    PairOfClip(m, c);
    var x := PairOf(m, c);
    CloseBases(x, ToOklab(m, c), 0.02);
    hide Power, PairOf, Pair.IsClip, DarkAndClose;
    DarkBelowWhite(x);
    DarkGreenRenders(x);
    DarkBlueRenders(x, 0.02);
    DarkRedRenders(x);
  }

  // ---------------------------------------------------------------------------
  // At the edge of the gamut
  // ---------------------------------------------------------------------------

  // The channels mixed from three bases leave the unit range by the tolerance at most.
  ghost predicate Inside(l: real, k: real, s: real, tolerance: real) {
    var rgb := Mix(Power(l, 3), Power(k, 3), Power(s, 3));
    && -tolerance <= rgb.red <= 1.0 + tolerance
    && -tolerance <= rgb.green <= 1.0 + tolerance
    && -tolerance <= rgb.blue <= 1.0 + tolerance
  }

  // The lightness of three bases.
  function Lightness(l: real, k: real, s: real): real {
    0.2104542553 * l + 0.7936177850 * k - 0.0040720468 * s
  }

  // One epsilon of chroma moves the bases a little.
  lemma EdgeStep(m: Maths, c: Oklch, x: real, y: real)
    requires m.Pythagorean() && x <= y <= x + BISECTION_EPSILON
    ensures var v, w := ToOklab(m, c.(chroma := x)), ToOklab(m, c.(chroma := y));
            && -0.0000062 <= LongBase(w) - LongBase(v) <= 0.0000062
            && -0.0000017 <= MediumBase(w) - MediumBase(v) <= 0.0000017
            && -0.0000139 <= ShortBase(w) - ShortBase(v) <= 0.0000139
  {
    assert OnCircle(m.cos(c.hue), m.sin(c.hue));
    hide OnCircle;
    UnitCircle(m.cos(c.hue), m.sin(c.hue));
    UnitCircle(m.sin(c.hue), m.cos(c.hue));
    hide Along;
    AlongStep(x, y, m.cos(c.hue));
    AlongStep(x, y, m.sin(c.hue));
  }

  lemma InsideBases(l: real, k: real, s: real)
    requires Inside(l, k, s, GAMUT_TOLERANCE)
    ensures -0.047 <= l <= 1.001 && -0.047 <= k <= 1.001 && -0.047 <= s <= 1.001
  {
    CubeAtLeast(l, -0.047);
    CubeAtLeast(k, -0.047);
    CubeAtLeast(s, -0.047);
    CubeAtMost(l, 1.001);
    CubeAtMost(k, 1.001);
    CubeAtMost(s, 1.001);
    hide Power;
  }

  // How large the bases of an in-gamut colour of lightness 0.14 or less are.
  lemma DimBasesReach(l: real, k: real, s: real)
    requires Inside(l, k, s, GAMUT_TOLERANCE) && Lightness(l, k, s) <= 0.1401
    ensures l <= 0.205 && k <= 0.16 && s <= 0.32
  {
    InsideBases(l, k, s);
    hide Power;
    CubeAtMost(k, 0.16);
    CubeAtLeast(l, 0.124);
    CubeAtMost(l, 0.205);
    CubeAtMost(s, 0.32);
  }

  // Mixing cubes that are at most `dl`, `dk` and `ds` large.
  lemma SmallMix(l: real, k: real, s: real, dl: real, dk: real, ds: real)
    requires -dl <= l <= dl && -dk <= k <= dk && -ds <= s <= ds
    ensures var rgb := Mix(l, k, s);
            && -(4.08 * dl + 3.31 * dk + 0.24 * ds) <= rgb.red <= 4.08 * dl + 3.31 * dk + 0.24 * ds
            && -(1.27 * dl + 2.61 * dk + 0.35 * ds) <= rgb.green <= 1.27 * dl + 2.61 * dk + 0.35 * ds
            && -(0.01 * dl + 0.71 * dk + 1.71 * ds) <= rgb.blue <= 0.01 * dl + 0.71 * dk + 1.71 * ds
  {
  }

  // Moving cubes by at most `dl`, `dk` and `ds` moves each channel by `slack` at most.
  lemma MixMoved(l0: real, k0: real, s0: real, l: real, k: real, s: real,
                 dl: real, dk: real, ds: real, slack: real)
    requires -dl <= l - l0 <= dl && -dk <= k - k0 <= dk && -ds <= s - s0 <= ds
    requires 4.08 * dl + 3.31 * dk + 0.24 * ds <= slack
    requires 1.27 * dl + 2.61 * dk + 0.35 * ds <= slack
    requires 0.01 * dl + 0.71 * dk + 1.71 * ds <= slack
    ensures var x, y := Mix(l0, k0, s0), Mix(l, k, s);
            && -slack <= y.red - x.red <= slack
            && -slack <= y.green - x.green <= slack
            && -slack <= y.blue - x.blue <= slack
  {
    SmallMix(l - l0, k - k0, s - s0, dl, dk, ds);
    MixSums(l0, k0, s0, l - l0, k - k0, s - s0);
    hide Mix;
  }

  lemma MixSums(l: real, k: real, s: real, l': real, k': real, s': real)
    ensures var x, y, sum := Mix(l, k, s), Mix(l', k', s'), Mix(l + l', k + k', s + s');
            sum == Rgb(x.red + y.red, x.green + y.green, x.blue + y.blue)
  {
  }

  ghost predicate OneStep(l0: real, k0: real, s0: real, l: real, k: real, s: real) {
    && -0.0000062 <= l - l0 <= 0.0000062
    && -0.0000017 <= k - k0 <= 0.0000017
    && -0.0000139 <= s - s0 <= 0.0000139
  }

  lemma DimEdge(l0: real, k0: real, s0: real, l: real, k: real, s: real)
    requires Inside(l0, k0, s0, GAMUT_TOLERANCE) && Lightness(l0, k0, s0) <= 0.1401
    requires OneStep(l0, k0, s0, l, k, s)
    ensures Inside(l, k, s, 0.000108)
  {
    hide Power;
    InsideBases(l0, k0, s0);
    DimBasesReach(l0, k0, s0);
    CubesClose(l0, l, 0.0000062, 0.206);
    CubesClose(k0, k, 0.0000017, 0.161);
    CubesClose(s0, s, 0.0000139, 0.321);
    MixMoved(Power(l0, 3), Power(k0, 3), Power(s0, 3), Power(l, 3), Power(k, 3), Power(s, 3),
             0.0000008, 0.00000014, 0.0000043, 0.000008);
    hide Mix;
  }

  lemma InsideFloor(l: real, k: real, s: real, tolerance: real)
    requires Inside(l, k, s, tolerance) && tolerance <= 0.00021
    ensures -0.06 <= l && -0.06 <= k && -0.06 <= s
    ensures tolerance <= 0.00011 ==> -0.05 <= l && -0.05 <= k && -0.05 <= s
  {
    CubeAtLeast(l, -0.05);
    CubeAtLeast(k, -0.05);
    CubeAtLeast(s, -0.05);
    CubeAtLeast(l, -0.06);
    CubeAtLeast(k, -0.06);
    CubeAtLeast(s, -0.06);
    hide Power;
  }

  // How small the bases can be just outside the gamut, from lightness 0.08 up.
  ghost predicate DimFloors(l: real, k: real, s: real) {
    var blue := Mix(Power(l, 3), Power(k, 3), Power(s, 3)).blue;
    && 0.0747 <= k
    && (if blue < 0.0 then 0.067 <= l && 0.0476 <= s else 0.061 <= l && 0.0555 <= s)
  }

  lemma DimFloor(l: real, k: real, s: real)
    requires Inside(l, k, s, 0.000108) && 0.07999 <= Lightness(l, k, s)
    ensures DimFloors(l, k, s)
  {
    InsideFloor(l, k, s, 0.000108);
    hide Power;
    CubeAtLeast(k, 0.0747);
    CubeAtMost(l, 0.0971);
    assert 0.0747 <= k;
    CubeAtLeast(s, 0.0476);
    CubeAtLeast(s, 0.0555);
    CubeAtLeast(l, 0.061);
    CubeAtLeast(l, 0.067);
    CubeAtLeast(k, 0.0843);
  }

  // How far above the bases of a colour those of its clip can be. (The two matrices undo
  // each other to nine decimals only.)
  ghost predicate Rises(x: Pair, dl: real, dk: real, ds: real) {
    && x.l - 0.000001 <= x.tl <= x.l + dl
    && x.k - 0.000001 <= x.tk <= x.k + dk
    && x.s - 0.000001 <= x.ts <= x.s + ds
  }

  ghost predicate CubesRise(x: Pair, l: real, k: real, s: real) {
    && Power(x.l, 3) - 0.000000001 <= Power(x.tl, 3) <= Power(x.l, 3) + l
    && Power(x.k, 3) - 0.000000001 <= Power(x.tk, 3) <= Power(x.k, 3) + k
    && Power(x.s, 3) - 0.000000001 <= Power(x.ts, 3) <= Power(x.s, 3) + s
  }

  // Mixing back: the cubes that linear channels come from.
  function Unmix(rgb: Rgb): (real, real, real) {
    (0.4122214708 * rgb.red + 0.5363325363 * rgb.green + 0.0514459929 * rgb.blue,
     0.2119034982 * rgb.red + 0.6806995451 * rgb.green + 0.1073969566 * rgb.blue,
     0.0883024619 * rgb.red + 0.2817188376 * rgb.green + 0.6299787005 * rgb.blue)
  }

  lemma UnmixUndoesMix(l: real, k: real, s: real)
    requires -1.1 <= l <= 1.1 && -1.1 <= k <= 1.1 && -1.1 <= s <= 1.1
    ensures var c := Unmix(Mix(l, k, s));
            && -0.000000001 <= c.0 - l <= 0.000000001
            && -0.000000001 <= c.1 - k <= 0.000000001
            && -0.000000001 <= c.2 - s <= 0.000000001
  {
  }

  lemma UnmixSums(x: Rgb, y: Rgb)
    ensures var a, b := Unmix(x), Unmix(y);
            Unmix(Rgb(x.red + y.red, x.green + y.green, x.blue + y.blue)) == (a.0 + b.0, a.1 + b.1, a.2 + b.2)
  {
  }

  // What clipping adds to each channel.
  function Clipping(rgb: Rgb): Rgb {
    var p := Clip(rgb);
    Rgb(p.red - rgb.red, p.green - rgb.green, p.blue - rgb.blue)
  }

  // The cubes of the clip are those of the colour and what clipping adds, mixed back.
  lemma ClipAdds(x: Pair)
    requires x.IsClip()
    requires -1.1 <= Power(x.l, 3) <= 1.1 && -1.1 <= Power(x.k, 3) <= 1.1 && -1.1 <= Power(x.s, 3) <= 1.1
    ensures var c := Unmix(Clipping(x.Wanted()));
            && -0.000000001 <= Power(x.tl, 3) - Power(x.l, 3) - c.0 <= 0.000000001
            && -0.000000001 <= Power(x.tk, 3) - Power(x.k, 3) - c.1 <= 0.000000001
            && -0.000000001 <= Power(x.ts, 3) - Power(x.s, 3) - c.2 <= 0.000000001
  {
    hide Power, Clip, Mix;
    UnmixUndoesMix(Power(x.l, 3), Power(x.k, 3), Power(x.s, 3));
    UnmixSums(x.Wanted(), Clipping(x.Wanted()));
    assert Unmix(Clip(x.Wanted())) == (Power(x.tl, 3), Power(x.tk, 3), Power(x.ts, 3));
    hide Unmix, Pair.Wanted, Pair.IsClip;
  }

  // The clip of a colour just outside raises its cubes, and by how much depends on whether
  // blue is one of the channels it raises.
  lemma DimCubesRise(x: Pair)
    requires x.IsClip() && Inside(x.l, x.k, x.s, 0.000108) && 0.04 <= x.k
    requires x.l <= 0.206 && x.k <= 0.161 && x.s <= 0.321
    ensures if x.Wanted().blue < 0.0
            then CubesRise(x, 0.0000636, 0.0000853, 0.0000986)
            else CubesRise(x, 0.0001026, 0.0000966, 0.0000401)
  {
    hide Power, Pair.IsClip, Pair.Wanted, Inside, Unmix, Clipping;
    DimChannels(x);
    ClipAdds(x);
    RaisedChannels(x.Wanted());
  }

  // Clipping raises the negative channels, at most two of the three.
  lemma RaisedChannels(rgb: Rgb)
    requires -0.000108 <= rgb.red <= 1.0 && -0.000108 <= rgb.green <= 1.0 && -0.000108 <= rgb.blue <= 1.0
    requires 0.0 <= rgb.red || 0.0 <= rgb.green || 0.0 <= rgb.blue
    ensures var c := Unmix(Clipping(rgb));
            && 0.0 <= c.0 && 0.0 <= c.1 && 0.0 <= c.2
            && if rgb.blue < 0.0 then c.0 <= 0.0000635 && c.1 <= 0.0000852 && c.2 <= 0.0000985
               else c.0 <= 0.0001025 && c.1 <= 0.0000965 && c.2 <= 0.00004
  {
    var d := Clipping(rgb);
    var r := if rgb.red < 0.0 then 0.000108 else 0.0;
    var g := if rgb.green < 0.0 then 0.000108 else 0.0;
    var b := if rgb.blue < 0.0 then 0.000108 else 0.0;
    assert 0.0 <= d.red <= r && 0.0 <= d.green <= g && 0.0 <= d.blue <= b;
    hide Clipping, Unmix;
    UnmixWithin(d, Rgb(r, g, b));
  }

  lemma UnmixWithin(x: Rgb, y: Rgb)
    requires 0.0 <= x.red <= y.red && 0.0 <= x.green <= y.green && 0.0 <= x.blue <= y.blue
    ensures var c := Unmix(x);
            && 0.0 <= c.0 <= 0.4123 * y.red + 0.5364 * y.green + 0.0515 * y.blue
            && 0.0 <= c.1 <= 0.2120 * y.red + 0.6808 * y.green + 0.1074 * y.blue
            && 0.0 <= c.2 <= 0.0884 * y.red + 0.2818 * y.green + 0.63 * y.blue
  {
  }

  lemma DimChannels(x: Pair)
    requires Inside(x.l, x.k, x.s, 0.000108) && 0.04 <= x.k
    requires x.l <= 0.206 && x.k <= 0.161 && x.s <= 0.321
    ensures -1.1 <= Power(x.l, 3) <= 1.1 && -1.1 <= Power(x.k, 3) <= 1.1 && -1.1 <= Power(x.s, 3) <= 1.1
    ensures var rgb := x.Wanted();
            && -0.000108 <= rgb.red <= 1.0 && -0.000108 <= rgb.green <= 1.0 && -0.000108 <= rgb.blue <= 1.0
            && (0.0 <= rgb.red || 0.0 <= rgb.green || 0.0 <= rgb.blue)
  {
    InsideFloor(x.l, x.k, x.s, 0.000108);
    hide Power;
    CubeWithin(x.l, -0.05, 0.206);
    CubeWithin(x.k, 0.04, 0.161);
    CubeWithin(x.s, -0.05, 0.321);
    hide Inside;
    DimMix(Power(x.l, 3), Power(x.k, 3), Power(x.s, 3));
    InsideChannels(x.l, x.k, x.s, 0.000108);
  }

  lemma InsideChannels(l: real, k: real, s: real, tolerance: real)
    requires Inside(l, k, s, tolerance)
    ensures var rgb := Mix(Power(l, 3), Power(k, 3), Power(s, 3));
            -tolerance <= rgb.red && -tolerance <= rgb.green && -tolerance <= rgb.blue
  {
    hide Power;
  }

  lemma DimMix(l: real, k: real, s: real)
    requires -0.0002 <= l <= 0.009 && 0.00006 <= k <= 0.0045 && -0.0002 <= s <= 0.034
    ensures var rgb := Mix(l, k, s);
            && rgb.red <= 1.0 && rgb.green <= 1.0 && rgb.blue <= 1.0
            && (0.0 <= rgb.red || 0.0 <= rgb.green || 0.0 <= rgb.blue)
  {
    UnmixUndoesMix(l, k, s);
  }

  lemma RootRises(x: real, y: real, floor: real, d: real, rise: real)
    requires 0.04 <= floor <= x && 0.0 <= d
    requires Power(x, 3) - 0.000000001 <= Power(y, 3) <= Power(x, 3) + rise
    requires rise <= 3.0 * d * floor * (floor + d) + d * d * d
    ensures x - 0.000001 <= y <= x + d
  {
    RootRise(x, y, floor, d, rise);
    CubeAtLeast(x, 0.04);
    CubeAtLeast(y, 0.03);
    hide Power;
    RootRise(y, x, 0.03, 0.000001, 0.000000001);
  }

  lemma BlueRises(x: Pair)
    requires CubesRise(x, 0.0000636, 0.0000853, 0.0000986) && 0.067 <= x.l && 0.0747 <= x.k && 0.0476 <= x.s
    ensures Rises(x, 0.0045, 0.0048, 0.0116)
  {
    hide Power;
    RootRises(x.l, x.tl, 0.067, 0.0045, 0.0000636);
    RootRises(x.k, x.tk, 0.0747, 0.0048, 0.0000853);
    RootRises(x.s, x.ts, 0.0476, 0.0116, 0.0000986);
  }

  lemma OtherRises(x: Pair)
    requires CubesRise(x, 0.0001026, 0.0000966, 0.0000401) && 0.061 <= x.l && 0.0747 <= x.k && 0.0555 <= x.s
    ensures Rises(x, 0.0082, 0.0054, 0.0044)
  {
    hide Power;
    RootRises(x.l, x.tl, 0.061, 0.0082, 0.0001026);
    RootRises(x.k, x.tk, 0.0747, 0.0054, 0.0000966);
    RootRises(x.s, x.ts, 0.0555, 0.0044, 0.0000401);
  }

  lemma DimRises(x: Pair)
    requires x.IsClip() && Inside(x.l, x.k, x.s, 0.000108) && DimFloors(x.l, x.k, x.s)
    requires x.l <= 0.206 && x.k <= 0.161 && x.s <= 0.321
    ensures Rises(x, 0.0045, 0.0048, 0.0116) || Rises(x, 0.0082, 0.0054, 0.0044)
  {
    assert x.Wanted().blue == Mix(Power(x.l, 3), Power(x.k, 3), Power(x.s, 3)).blue;
    hide Power, Pair.IsClip, Pair.Wanted, Inside, Mix;
    DimCubesRise(x);
    hide CubesRise, Rises;
    if x.Wanted().blue < 0.0 {
      BlueRises(x);
    } else {
      OtherRises(x);
    }
  }

  // ---------------------------------------------------------------------------
  // The error these bases make
  // ---------------------------------------------------------------------------

  // The OKLab colour of three bases.
  function OfBases(l: real, k: real, s: real): Oklab {
    Oklab(0.2104542553 * l + 0.7936177850 * k - 0.0040720468 * s,
          1.9779984951 * l - 2.4285922050 * k + 0.4505937099 * s,
          0.0259040371 * l + 0.7827717662 * k - 0.8086757660 * s)
  }

  // The two matrices between OKLab and its bases undo each other to six decimals.
  lemma BasesUndone(w: Oklab)
    requires -1.1 <= LongBase(w) <= 1.1 && -1.1 <= MediumBase(w) <= 1.1 && -1.1 <= ShortBase(w) <= 1.1
    ensures var v := OfBases(LongBase(w), MediumBase(w), ShortBase(w));
            && -0.000001 <= v.lightness - w.lightness <= 0.000001
            && -0.000001 <= v.a - w.a <= 0.000001
            && -0.000001 <= v.b - w.b <= 0.000001
  {
  }

  lemma OfBasesSums(l: real, k: real, s: real, l': real, k': real, s': real)
    ensures var x, y := OfBases(l, k, s), OfBases(l', k', s');
            OfBases(l + l', k + k', s + s') == Oklab(x.lightness + y.lightness, x.a + y.a, x.b + y.b)
  {
  }

  ghost predicate ErrorsWithin(x: Oklab, y: Oklab, lightness: real, a: real, b: real) {
    && -lightness <= x.lightness - y.lightness <= lightness
    && -a <= x.a - y.a <= a
    && -b <= x.b - y.b <= b
  }

  lemma SmallOfBases(l: real, k: real, s: real, dl: real, dk: real, ds: real)
    requires -dl <= l <= dl && -dk <= k <= dk && -ds <= s <= ds
    ensures var v := OfBases(l, k, s);
            && -(0.2105 * dl + 0.7937 * dk + 0.0041 * ds) <= v.lightness <= 0.2105 * dl + 0.7937 * dk + 0.0041 * ds
            && -(1.9780 * dl + 2.4286 * dk + 0.4506 * ds) <= v.a <= 1.9780 * dl + 2.4286 * dk + 0.4506 * ds
            && -(0.0260 * dl + 0.7828 * dk + 0.8087 * ds) <= v.b <= 0.0260 * dl + 0.7828 * dk + 0.8087 * ds
  {
  }

  // When the bases only rise, the errors along `a` and `b` partly cancel.
  lemma RisingOfBases(l: real, k: real, s: real, dl: real, dk: real, ds: real)
    requires -0.000001 <= l <= dl && -0.000001 <= k <= dk && -0.000001 <= s <= ds
    ensures var v := OfBases(l, k, s);
            && -0.00001 - 0.0041 * ds <= v.lightness <= 0.2105 * dl + 0.7937 * dk + 0.00001
            && -0.00001 - 2.4286 * dk <= v.a <= 1.9780 * dl + 0.4506 * ds + 0.00001
            && -0.00001 - 0.8087 * ds <= v.b <= 0.0260 * dl + 0.7828 * dk + 0.00001
  {
  }

  // The error between a colour and its clip is that of the difference of their bases.
  lemma ErrorOfBases(x: Pair, w: Oklab)
    requires x.l == LongBase(w) && x.k == MediumBase(w) && x.s == ShortBase(w)
    requires -1.1 <= x.l <= 1.1 && -1.1 <= x.k <= 1.1 && -1.1 <= x.s <= 1.1
    ensures var v, g := OfBases(x.tl - x.l, x.tk - x.k, x.ts - x.s), x.Got();
            && -0.000001 <= g.lightness - w.lightness - v.lightness <= 0.000001
            && -0.000001 <= g.a - w.a - v.a <= 0.000001
            && -0.000001 <= g.b - w.b - v.b <= 0.000001
  {
    BasesUndone(w);
    assert x.Got() == OfBases(x.tl, x.tk, x.ts);
    OfBasesSums(x.l, x.k, x.s, x.tl - x.l, x.tk - x.k, x.ts - x.s);
    hide OfBases, Pair.Got, LongBase, MediumBase, ShortBase;
  }

  lemma DimErrors(x: Pair, w: Oklab)
    requires x.l == LongBase(w) && x.k == MediumBase(w) && x.s == ShortBase(w)
    requires -1.1 <= x.l <= 1.1 && -1.1 <= x.k <= 1.1 && -1.1 <= x.s <= 1.1
    requires Rises(x, 0.0045, 0.0048, 0.0116) || Rises(x, 0.0082, 0.0054, 0.0044)
    ensures ErrorsWithin(w, x.Got(), 0.0048, 0.0142, 0.0095) || ErrorsWithin(w, x.Got(), 0.0061, 0.0183, 0.0045)
  {
    hide LongBase, MediumBase, ShortBase, Pair.Got, ErrorsWithin;
    if Rises(x, 0.0045, 0.0048, 0.0116) {
      RisingErrors(x, w, 0.0045, 0.0048, 0.0116, 0.0048, 0.0142, 0.0095);
    } else {
      RisingErrors(x, w, 0.0082, 0.0054, 0.0044, 0.0061, 0.0183, 0.0045);
    }
  }

  lemma RisingErrors(x: Pair, w: Oklab, dl: real, dk: real, ds: real, lightness: real, a: real, b: real)
    requires x.l == LongBase(w) && x.k == MediumBase(w) && x.s == ShortBase(w)
    requires -1.1 <= x.l <= 1.1 && -1.1 <= x.k <= 1.1 && -1.1 <= x.s <= 1.1
    requires Rises(x, dl, dk, ds)
    requires 0.2105 * dl + 0.7937 * dk + 0.000011 <= lightness && 0.0041 * ds + 0.000011 <= lightness
    requires 1.9780 * dl + 0.4506 * ds + 0.000011 <= a && 2.4286 * dk + 0.000011 <= a
    requires 0.0260 * dl + 0.7828 * dk + 0.000011 <= b && 0.8087 * ds + 0.000011 <= b
    ensures ErrorsWithin(w, x.Got(), lightness, a, b)
  {
    ErrorOfBases(x, w);
    hide OfBases, Pair.Got, LongBase, MediumBase, ShortBase;
    RisingOfBases(x.tl - x.l, x.tk - x.k, x.ts - x.s, dl, dk, ds);
  }

  lemma ErrorSquare(x: real, bound: real)
    requires -bound <= x <= bound
    ensures Power(x, 2) <= bound * bound
  {
    PowerExpands(x);
    SquareWithin(x, bound);
    hide Power;
  }

  lemma SquaresWithin(x: Oklab, y: Oklab, lightness: real, a: real, b: real)
    requires ErrorsWithin(x, y, lightness, a, b)
    ensures DistanceSquared(x, y) <= lightness * lightness + a * a + b * b
  {
    hide Power;
    ErrorSquare(x.lightness - y.lightness, lightness);
    ErrorSquare(x.a - y.a, a);
    ErrorSquare(x.b - y.b, b);
  }

  // ---------------------------------------------------------------------------
  // At the edge of the gamut of a lighter colour
  // ---------------------------------------------------------------------------

  // Clipping moves the cubes by at most the tolerance.
  lemma CubesMoved(x: Pair, tolerance: real)
    requires x.IsClip() && Inside(x.l, x.k, x.s, tolerance) && 0.0 <= tolerance <= 0.001
    ensures -tolerance - 0.000000001 <= Power(x.tl, 3) - Power(x.l, 3) <= tolerance + 0.000000001
    ensures -tolerance - 0.000000001 <= Power(x.tk, 3) - Power(x.k, 3) <= tolerance + 0.000000001
    ensures -tolerance - 0.000000001 <= Power(x.ts, 3) - Power(x.s, 3) <= tolerance + 0.000000001
  {
    InsideCubes(x.l, x.k, x.s, tolerance);
    hide Power, Pair.IsClip, Unmix, Clipping;
    ClipAdds(x);
    ClippingSmall(x.Wanted(), tolerance);
    hide Pair.Wanted, Inside;
    UnmixSmall(Clipping(x.Wanted()), tolerance);
  }

  lemma ClippingSmall(rgb: Rgb, bound: real)
    requires 0.0 <= bound && -bound <= rgb.red <= 1.0 + bound
    requires -bound <= rgb.green <= 1.0 + bound && -bound <= rgb.blue <= 1.0 + bound
    ensures var d := Clipping(rgb); -bound <= d.red <= bound && -bound <= d.green <= bound && -bound <= d.blue <= bound
  {
  }

  lemma InsideCubes(l: real, k: real, s: real, tolerance: real)
    requires Inside(l, k, s, tolerance) && 0.0 <= tolerance <= 0.001
    ensures -1.1 <= Power(l, 3) <= 1.1 && -1.1 <= Power(k, 3) <= 1.1 && -1.1 <= Power(s, 3) <= 1.1
  {
    hide Power;
  }

  lemma UnmixSmall(x: Rgb, bound: real)
    requires -bound <= x.red <= bound && -bound <= x.green <= bound && -bound <= x.blue <= bound
    ensures var c := Unmix(x); -bound <= c.0 <= bound && -bound <= c.1 <= bound && -bound <= c.2 <= bound
  {
  }

  // Two bases from `floor` up with close cubes are close.
  lemma RootsClose(x: real, y: real, floor: real, low: real, d: real, rise: real)
    requires 0.0 <= low <= floor <= x && 0.0 <= d
    requires -rise <= Power(y, 3) - Power(x, 3) <= rise
    requires low * low * low <= floor * floor * floor - rise
    requires rise <= 3.0 * d * low * (low + d) + d * d * d
    ensures -d <= y - x <= d
  {
    CubeAtLeast(x, floor);
    CubeAtLeast(y, low);
    hide Power;
    RootRise(x, y, low, d, rise);
    RootRise(y, x, low, d, rise);
  }

  ghost predicate BasesClose(x: Pair, dl: real, dk: real, ds: real) {
    -dl <= x.tl - x.l <= dl && -dk <= x.tk - x.k <= dk && -ds <= x.ts - x.s <= ds
  }

  // Lightness from 0.14 to 0.30.
  lemma MiddleReach(l: real, k: real, s: real)
    requires Inside(l, k, s, GAMUT_TOLERANCE) && Lightness(l, k, s) <= 0.3001
    ensures l <= 0.434 && k <= 0.34 && s <= 0.671
  {
    InsideBases(l, k, s);
    hide Power;
    CubeAtMost(k, 0.34);
    CubeAtLeast(l, 0.265);
    CubeAtMost(l, 0.434);
    CubeAtMost(s, 0.671);
  }

  lemma MiddleEdge(l0: real, k0: real, s0: real, l: real, k: real, s: real)
    requires Inside(l0, k0, s0, GAMUT_TOLERANCE) && Lightness(l0, k0, s0) <= 0.3001
    requires OneStep(l0, k0, s0, l, k, s)
    ensures Inside(l, k, s, 0.000133)
  {
    hide Power;
    InsideBases(l0, k0, s0);
    MiddleReach(l0, k0, s0);
    CubesClose(l0, l, 0.0000062, 0.435);
    CubesClose(k0, k, 0.0000017, 0.341);
    CubesClose(s0, s, 0.0000139, 0.672);
    MixMoved(Power(l0, 3), Power(k0, 3), Power(s0, 3), Power(l, 3), Power(k, 3), Power(s, 3),
             0.0000036, 0.0000006, 0.0000189, 0.000033);
    hide Mix;
  }

  lemma MiddleFloor(l: real, k: real, s: real)
    requires Inside(l, k, s, 0.000133) && 0.1399 <= Lightness(l, k, s)
    ensures 0.11 <= l && 0.131 <= k && 0.094 <= s
  {
    InsideFloor(l, k, s, 0.000133);
    hide Power;
    CubeAtLeast(k, 0.131);
    CubeAtMost(l, 0.1652);
    assert 0.131 <= k;
    CubeAtLeast(s, 0.094);
    CubeAtLeast(l, 0.11);
    CubeAtLeast(k, 0.1467);
  }

  lemma MiddleRises(x: Pair)
    requires x.IsClip() && Inside(x.l, x.k, x.s, 0.000133) && 0.1399 <= Lightness(x.l, x.k, x.s)
    ensures BasesClose(x, 0.0039, 0.0027, 0.0054)
  {
    MiddleFloor(x.l, x.k, x.s);
    CubesMoved(x, 0.000133);
    hide Power, Pair.IsClip, Inside;
    RootsClose(x.l, x.tl, 0.11, 0.106, 0.0039, 0.0001331);
    RootsClose(x.k, x.tk, 0.131, 0.128, 0.0027, 0.0001331);
    RootsClose(x.s, x.ts, 0.094, 0.0885, 0.0054, 0.0001331);
  }

  // Lightness from 0.30 up.
  lemma LightEdge(l0: real, k0: real, s0: real, l: real, k: real, s: real)
    requires Inside(l0, k0, s0, GAMUT_TOLERANCE) && OneStep(l0, k0, s0, l, k, s)
    ensures Inside(l, k, s, 0.000205)
  {
    hide Power;
    InsideBases(l0, k0, s0);
    CubesClose(l0, l, 0.0000062, 1.0011);
    CubesClose(k0, k, 0.0000017, 1.0011);
    CubesClose(s0, s, 0.0000139, 1.0011);
    MixMoved(Power(l0, 3), Power(k0, 3), Power(s0, 3), Power(l, 3), Power(k, 3), Power(s, 3),
             0.0000187, 0.0000052, 0.0000419, 0.000105);
    hide Mix;
  }

  lemma LightFloor(l: real, k: real, s: real)
    requires Inside(l, k, s, 0.000205) && 0.2999 <= Lightness(l, k, s)
    ensures 0.2 <= l && 0.28 <= k && 0.2 <= s
  {
    InsideFloor(l, k, s, 0.000205);
    hide Power;
    CubeAtLeast(k, 0.28);
    CubeAtMost(l, 0.3505);
    assert 0.28 <= k;
    CubeAtLeast(s, 0.2);
    CubeAtLeast(l, 0.2);
    CubeAtLeast(k, 0.324);
  }

  lemma LightRises(x: Pair)
    requires x.IsClip() && Inside(x.l, x.k, x.s, 0.000205) && 0.2999 <= Lightness(x.l, x.k, x.s)
    ensures BasesClose(x, 0.0039, 0.0027, 0.0054)
  {
    LightFloor(x.l, x.k, x.s);
    CubesMoved(x, 0.000205);
    hide Power, Pair.IsClip, Inside;
    RootsClose(x.l, x.tl, 0.2, 0.198, 0.0039, 0.0002051);
    RootsClose(x.k, x.tk, 0.28, 0.279, 0.0027, 0.0002051);
    RootsClose(x.s, x.ts, 0.2, 0.198, 0.0054, 0.0002051);
  }

  lemma CloseErrors(x: Pair, w: Oklab)
    requires x.l == LongBase(w) && x.k == MediumBase(w) && x.s == ShortBase(w)
    requires -1.1 <= x.l <= 1.1 && -1.1 <= x.k <= 1.1 && -1.1 <= x.s <= 1.1
    requires BasesClose(x, 0.0039, 0.0027, 0.0054)
    ensures ErrorsWithin(w, x.Got(), 0.0031, 0.0168, 0.0067)
  {
    ErrorOfBases(x, w);
    hide OfBases, Pair.Got, LongBase, MediumBase, ShortBase;
    SmallOfBases(x.tl - x.l, x.tk - x.k, x.ts - x.s, 0.0039, 0.0027, 0.0054);
  }

  // Errors small enough for the JND.
  ghost predicate SmallErrors(x: Oklab, y: Oklab) {
    || ErrorsWithin(x, y, 0.0048, 0.0142, 0.0095)
    || ErrorsWithin(x, y, 0.0061, 0.0183, 0.0045)
    || ErrorsWithin(x, y, 0.0031, 0.0168, 0.0067)
  }

  lemma SmallErrorsAreClose(x: Oklab, y: Oklab)
    requires SmallErrors(x, y)
    ensures DistanceSquared(x, y) < JND * JND
  {
    hide DistanceSquared;
    if ErrorsWithin(x, y, 0.0048, 0.0142, 0.0095) {
      SquaresWithin(x, y, 0.0048, 0.0142, 0.0095);
    } else if ErrorsWithin(x, y, 0.0061, 0.0183, 0.0045) {
      SquaresWithin(x, y, 0.0061, 0.0183, 0.0045);
    } else {
      SquaresWithin(x, y, 0.0031, 0.0168, 0.0067);
    }
  }

  // The bases `l0`, `k0`, `s0` of a rendered colour of the same lightness are one step away.
  lemma EdgeErrors(l0: real, k0: real, s0: real, x: Pair, w: Oklab)
    requires Inside(l0, k0, s0, GAMUT_TOLERANCE) && OneStep(l0, k0, s0, x.l, x.k, x.s) && x.IsClip()
    requires x.l == LongBase(w) && x.k == MediumBase(w) && x.s == ShortBase(w)
    requires 0.08 <= w.lightness && w.lightness - 0.000001 <= Lightness(l0, k0, s0) <= w.lightness + 0.000001
    ensures SmallErrors(w, x.Got())
  {
    InsideBases(l0, k0, s0);
    BasesUndone(w);
    assert w.lightness - 0.000002 <= Lightness(x.l, x.k, x.s) <= w.lightness + 0.000002;
    hide Power, LongBase, MediumBase, ShortBase, Pair.IsClip, Inside;
    if w.lightness <= 0.14 {
      DimEdge(l0, k0, s0, x.l, x.k, x.s);
      DimBasesReach(l0, k0, s0);
      hide Lightness;
      DimFloor(x.l, x.k, x.s);
      hide DimFloors;
      DimRises(x);
      DimErrors(x, w);
    } else if w.lightness <= 0.3 {
      MiddleEdge(l0, k0, s0, x.l, x.k, x.s);
      MiddleRises(x);
      CloseErrors(x, w);
    } else {
      LightEdge(l0, k0, s0, x.l, x.k, x.s);
      LightRises(x);
      CloseErrors(x, w);
    }
  }

  /** At the edge of the gamut, from lightness 0.08 up and at any hue, a colour within one
      epsilon of chroma of a rendered one is within the JND of its clip. */
  lemma EdgeIsWithinJnd(m: Maths, c: Oklch, x: real, y: real)
    requires CubeRoots(m) && m.Pythagorean() && 0.08 <= c.lightness
    requires x <= y <= x + BISECTION_EPSILON && InGamut(m, c.(chroma := x))
    ensures WithinJnd(m, c.(chroma := y))
  {
    var v, w := ToOklab(m, c.(chroma := x)), ToOklab(m, c.(chroma := y));
    var l0, k0, s0 := LongBase(v), MediumBase(v), ShortBase(v);
    EdgeStep(m, c, x, y);
    PairOfClip(m, c.(chroma := y));
    assert Inside(l0, k0, s0, GAMUT_TOLERANCE);
    hide Power, InGamut, Pair.IsClip, Inside, Along, DistanceSquared, Clipped;
    InsideBases(l0, k0, s0);
    BasesUndone(v);
    EdgeErrors(l0, k0, s0, PairOf(m, c.(chroma := y)), w);
    SmallErrorsAreClose(w, PairOf(m, c.(chroma := y)).Got());
  }
}
