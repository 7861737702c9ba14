/** When `derive_brand_text` has to give up: which surfaces leave a text colour for every
    brand, whatever its hue, lightness and chroma. */
module BrandFallback {
  import opened BrandGrid
  import opened Colour
  import opened Cubes
  import opened Legibility

  // The square of the minimum: a text between two surfaces this far apart is 4.5:1 on both.
  const FAR_APART := 20.25

  ghost predicate Clears(m: Maths, text: Oklch, surfaces: seq<Grid>) {
    forall i :: 0 <= i < |surfaces| ==> Legible(m, text, surfaces[i].Exact())
  }

  // Two of the surfaces, one nearly black and one nearly white, are 20.25:1 apart or more.
  ghost predicate FarApart(m: Maths, surfaces: seq<Grid>) {
    exists i, j :: 0 <= i < |surfaces| && 0 <= j < |surfaces|
                   && ContrastRatio(m, surfaces[i].Exact(), surfaces[j].Exact()) >= FAR_APART
  }

  lemma ContrastByLuminance(m: Maths, x: Oklch, y: Oklch)
    ensures 0.0 <= PaintedLuminance(m, x) <= 1.0 && 0.0 <= PaintedLuminance(m, y) <= 1.0
    ensures var a, b := PaintedLuminance(m, x) + 0.05, PaintedLuminance(m, y) + 0.05;
            && (Legible(m, x, y) <==> a >= 4.5 * b || b >= 4.5 * a)
            && (ContrastRatio(m, x, y) >= FAR_APART <==> a >= 20.25 * b || b >= 20.25 * a)
  {
    PaintedChannels(m, x);
    PaintedChannels(m, y);
    hide PaintedLuminance;
    var a, b := PaintedLuminance(m, x), PaintedLuminance(m, y);
    RatioRange(a, b);
    var darker, lighter := if a <= b then a + 0.05 else b + 0.05, if a <= b then b + 0.05 else a + 0.05;
    QuotientBounds(lighter, darker, 20.25);
  }

  // ---------------------------------------------------------------------------
  // Surfaces that are not far apart
  // ---------------------------------------------------------------------------

  /** Unless two surfaces are far apart, whenever some colour is legible on all of them,
      black is or white is. */
  lemma BlackOrWhite(m: Maths, surfaces: seq<Grid>, text: Oklch, black: Oklch, white: Oklch)
    requires Clears(m, text, surfaces) && !FarApart(m, surfaces)
    requires black.lightness <= 0.0 && 1.0 <= white.lightness
    ensures Clears(m, black, surfaces) || Clears(m, white, surfaces)
  {
    WhiteAndBlack(m, black);
    WhiteAndBlack(m, white);
    hide PaintedLuminance, Legible, ContrastRatio;
    if i, j :| 0 <= i < |surfaces| && 0 <= j < |surfaces|
               && !Legible(m, black, surfaces[i].Exact()) && !Legible(m, white, surfaces[j].Exact()) {
      var dark, light := surfaces[i].Exact(), surfaces[j].Exact();
      ContrastByLuminance(m, black, dark);
      ContrastByLuminance(m, white, light);
      ContrastByLuminance(m, text, dark);
      ContrastByLuminance(m, text, light);
      ContrastByLuminance(m, dark, light);
    }
  }

  // The end of a walk is black or white, so a walk with no clearing colour rules it out.
  lemma WalkEnds(m: Maths, brand: Grid, surfaces: seq<Grid>, step: int) returns (end: Oklch)
    requires OnScale(brand) && (step == -1 || step == 1)
    ensures if step < 0 then end.lightness <= 0.0 else 1.0 <= end.lightness
    ensures NoneClears(Browser(m), brand, surfaces, step) ==> !Clears(m, end, surfaces)
  {
    BrowserIsSound(m);
    CandidateOnScale(Browser(m), brand, step, StepsToEnd(brand, step));
    hide Candidate, Legible;
    end := Candidate(Browser(m), brand, step, StepsToEnd(brand, step)).Exact();
  }

  /** The comment's claim, for every hue, brand and list of surfaces that are not far apart:
      the brand comes out legible exactly when some colour at all is legible on every surface,
      which is exactly when some lightness of the grid is at the brand's own hue and chroma. */
  lemma FallbackMeansNothingLegible(m: Maths, brand: Grid, surfaces: seq<Grid>)
    requires OnScale(brand) && !FarApart(m, surfaces)
    ensures ClearsAll(Browser(m), BrandText(Browser(m), brand, surfaces), surfaces)
            <==> exists text: Oklch :: Clears(m, text, surfaces)
    ensures ClearsAll(Browser(m), BrandText(Browser(m), brand, surfaces), surfaces)
            <==> exists l :: 0 <= l <= 100 && ClearsAll(Browser(m), PlacedAt(Browser(m), brand, l), surfaces)
  {
    var s := Browser(m);
    BrowserIsSound(m);
    BrandTextRule(s, brand, surfaces);
    var black := WalkEnds(m, brand, surfaces, -1);
    var white := WalkEnds(m, brand, surfaces, 1);
    PlacedIsLargest(s, brand, 0);
    PlacedIsLargest(s, brand, 100);
    hide BrandText, NoneClears, FirstClearing, Candidate, Snap, PlacedAt, FarApart;
    var result := BrandText(s, brand, surfaces);
    if ClearsAll(s, result, surfaces) {
      assert Clears(m, result.Exact(), surfaces);
    }
    if l :| 0 <= l <= 100 && ClearsAll(s, PlacedAt(s, brand, l), surfaces) {
      assert Clears(m, PlacedAt(s, brand, l).Exact(), surfaces);
    }
    if text: Oklch :| Clears(m, text, surfaces) {
      BlackOrWhite(m, surfaces, text, black, white);
      BlackOrWhite(m, surfaces, text, PlacedAt(s, brand, 0).Exact(), PlacedAt(s, brand, 100).Exact());
    }
  }

  // ---------------------------------------------------------------------------
  // Surfaces that are far apart
  // ---------------------------------------------------------------------------

  /** Between two surfaces far apart only a narrow band of luminances is legible on both. */
  lemma FarApartBand(m: Maths, surfaces: seq<Grid>, text: Oklch)
    requires FarApart(m, surfaces) && Clears(m, text, surfaces)
    ensures 0.175 <= PaintedLuminance(m, text) <= 0.18334
  {
    hide PaintedLuminance, Legible, ContrastRatio;
    var i, j :| 0 <= i < |surfaces| && 0 <= j < |surfaces|
                && ContrastRatio(m, surfaces[i].Exact(), surfaces[j].Exact()) >= FAR_APART;
    ContrastByLuminance(m, surfaces[i].Exact(), surfaces[j].Exact());
    ContrastByLuminance(m, text, surfaces[i].Exact());
    ContrastByLuminance(m, text, surfaces[j].Exact());
  }

  // Clipping an in-gamut colour moves each channel by the tolerance at most.
  lemma ClippedLuminance(m: Maths, c: Oklch)
    requires InGamut(m, c)
    ensures var y := Luminance(OklchToLinear(m, c)); y - 0.0001 <= Luminance(Clipped(m, c)) <= y + 0.0001
  {
    hide OklchToLinear;
  }

  // What an in-gamut colour is painted as, from the cubes of its three bases.
  lemma PaintedByCubes(m: Maths, c: Oklch)
    requires InGamut(m, c) && 0.0 < c.lightness < 1.0
    ensures var lab := ToOklab(m, c);
            var y := Weighed(Power(LongBase(lab), 3), Power(MediumBase(lab), 3), Power(ShortBase(lab), 3));
            y - 0.0001 <= PaintedLuminance(m, c) <= y + 0.0001
  {
    ClippedLuminance(m, c);
    hide Power, Clipped, InGamut;
  }

  function Weighed(long: real, medium: real, short: real): real {
    Luminance(Mix(long, medium, short))
  }

  // A faint reddish colour is outside the band below lightness 0.56 and above 0.57.
  lemma OutsideBand(m: Maths, c: Oklch)
    requires InGamut(m, c) && 0.0 < c.lightness < 1.0
    requires var lab := ToOklab(m, c); 0.0 <= lab.a <= 0.03 && 0.0 <= lab.b <= 0.03
    ensures c.lightness <= 0.55 ==> PaintedLuminance(m, c) < 0.175
    ensures 0.58 <= c.lightness ==> 0.18334 < PaintedLuminance(m, c)
  {
    var lab := ToOklab(m, c);
    var l, k, s := LongBase(lab), MediumBase(lab), ShortBase(lab);
    PaintedByCubes(m, c);
    if c.lightness <= 0.55 {
      CubeMonotone(c.lightness, l);
      CubeMonotone(k, c.lightness);
      CubeMonotone(c.lightness - 0.042, s);
      CubeSlope(c.lightness - 0.042, c.lightness, 0.55);
      CubeMonotone(c.lightness, 0.55);
      PowerExpands(0.55);
      hide Power, PaintedLuminance, InGamut;
    } else if 0.58 <= c.lightness {
      AboveBand(c.lightness, l, k, s);
      hide Power, PaintedLuminance, InGamut;
    }
  }

  lemma AboveBand(lightness: real, l: real, k: real, s: real)
    requires 0.58 <= lightness <= 1.0
    requires l <= lightness + 0.0185 && lightness - 0.0052 <= k && s <= lightness
    ensures Weighed(Power(l, 3), Power(k, 3), Power(s, 3)) > 0.1835
  {
    CubeMonotone(l, lightness + 0.0185);
    CubeMonotone(lightness - 0.0052, k);
    CubeMonotone(s, lightness);
    CubeMonotone(if lightness <= 0.65 then 0.58 else 0.65, lightness);
    CubeSlope(lightness - 0.0052, lightness, if lightness <= 0.65 then 0.65 else 1.0);
    CubeSlope(lightness, lightness + 0.0185, if lightness <= 0.65 then 0.67 else 1.02);
    PowerExpands(0.58);
    PowerExpands(0.65);
    hide Power;
  }

  // ---------------------------------------------------------------------------
  // A brand that misses the band
  // ---------------------------------------------------------------------------

  // A brand whose lightness 0.56 is just below the band, and 0.57 just above.
  const TINT := Grid(56, 1, 0)

  ghost predicate OutOfBand(m: Maths, c: Oklch) {
    PaintedLuminance(m, c) < 0.175 || 0.18334 < PaintedLuminance(m, c)
  }

  // A brand none of whose candidates is in the band is given up on surfaces far apart.
  lemma MissesTheBand(m: Maths, brand: Grid, surfaces: seq<Grid>)
    requires OnScale(brand) && FarApart(m, surfaces)
    requires forall step: int, k: nat :: (step == -1 || step == 1) && k <= StepsToEnd(brand, step) ==>
               OutOfBand(m, Candidate(Browser(m), brand, step, k).Exact())
    ensures !ClearsAll(Browser(m), BrandText(Browser(m), brand, surfaces), surfaces)
  {
    var s := Browser(m);
    BrowserIsSound(m);
    BrandTextRule(s, brand, surfaces);
    hide BrandText, Candidate, InGamut, PaintedLuminance, FirstClearing, FarApart;
    forall step: int, k: nat | (step == -1 || step == 1) && k <= StepsToEnd(brand, step)
      ensures !ClearsAll(s, Candidate(s, brand, step, k), surfaces)
    {
      var g := Candidate(s, brand, step, k);
      assert OutOfBand(m, g.Exact());
      if ClearsAll(s, g, surfaces) {
        assert Clears(m, g.Exact(), surfaces);
        FarApartBand(m, surfaces, g.Exact());
      }
    }
  }

  // The cosine and sine of the angle 0.
  ghost predicate ZeroAngle(m: Maths) { m.cos(0.0) == 1.0 && m.sin(0.0) == 0.0 }

  lemma TintBases(m: Maths, c: Oklch)
    requires ZeroAngle(m) && c.hue == 0.0 && c.chroma == 0.01
    ensures var lab := ToOklab(m, c);
            && lab == Oklab(c.lightness, 0.01, 0.0)
            && LongBase(lab) == c.lightness + 0.003963377774
            && MediumBase(lab) == c.lightness - 0.001055613458
            && ShortBase(lab) == c.lightness - 0.000894841775
  {
  }

  lemma TintBelow(m: Maths, c: Oklch)
    requires ZeroAngle(m) && c == Oklch(0.56, 0.01, 0.0)
    ensures InGamut(m, c) && OutOfBand(m, c)
  {
    hide Power, PaintedLuminance, Clipped;
    TintBases(m, c);
    var lab := ToOklab(m, c);
    CubeWithin(LongBase(lab), 0.5639, 0.5640);
    CubeWithin(MediumBase(lab), 0.5589, 0.55895);
    CubeWithin(ShortBase(lab), 0.5591, 0.5592);
    hide ToOklab, LongBase, MediumBase, ShortBase;
    assert InGamut(m, c);
    hide InGamut;
    PaintedByCubes(m, c);
  }

  lemma TintAbove(m: Maths, c: Oklch)
    requires ZeroAngle(m) && c == Oklch(0.57, 0.01, 0.0) && InGamut(m, c)
    ensures OutOfBand(m, c)
  {
    hide Power, PaintedLuminance, Clipped, InGamut;
    TintBases(m, c);
    var lab := ToOklab(m, c);
    CubeWithin(LongBase(lab), 0.5739, 0.5740);
    CubeWithin(MediumBase(lab), 0.5689, 0.5690);
    CubeWithin(ShortBase(lab), 0.5691, 0.5692);
    hide ToOklab, LongBase, MediumBase, ShortBase;
    PaintedByCubes(m, c);
  }

  lemma GreyAbove(m: Maths, c: Oklch)
    requires c.lightness == 0.57 && c.chroma == 0.0
    ensures OutOfBand(m, c)
  {
    hide Power, InGamut, OklchToLinear, Bisect;
    GreyInGamut(m, c);
    GreyChannels(m, c);
    PowerExpands(0.57);
  }

  // No colour the walks from the tint can reach is in the band.
  lemma TintMisses(m: Maths, g: Grid)
    requires ZeroAngle(m) && Emittable(Browser(m), g) && g.hue == 0 && g.chroma <= 1
    requires g.lightness == TINT.lightness ==> g == TINT
    ensures OutOfBand(m, g.Exact())
  {
    var c := g.Exact();
    assert c == Oklch(g.lightness as real / 100.0, if g.chroma == 0 then 0.0 else 0.01, 0.0);
    WhiteAndBlack(m, c);
    if 0 < g.lightness < 100 {
      if g.lightness == 56 {
        TintBelow(m, c);
      } else if g.lightness == 57 && g.chroma == 1 {
        TintAbove(m, c);
      } else if g.lightness == 57 {
        GreyAbove(m, c);
      } else {
        assert ToOklab(m, c) == Oklab(c.lightness, c.chroma, 0.0);
        hide InGamut, PaintedLuminance;
        OutsideBand(m, c);
      }
    }
  }

  lemma TintIsLost(m: Maths, surfaces: seq<Grid>)
    requires ZeroAngle(m) && FarApart(m, surfaces)
    ensures Emittable(Browser(m), TINT) && !ClearsAll(Browser(m), BrandText(Browser(m), TINT, surfaces), surfaces)
  {
    var s := Browser(m);
    BrowserIsSound(m);
    TintBelow(m, TINT.Exact());
    hide BrandText, Candidate, InGamut, PaintedLuminance, FarApart;
    forall step: int, k: nat | (step == -1 || step == 1) && k <= StepsToEnd(TINT, step)
      ensures OutOfBand(m, Candidate(s, TINT, step, k).Exact())
    {
      CandidateOnScale(s, TINT, step, k);
      var g := Candidate(s, TINT, step, k);
      assert k == 0 ==> g == TINT by { CandidateZero(s, TINT, step); }
      TintMisses(m, g);
    }
    MissesTheBand(m, TINT, surfaces);
  }

  lemma CandidateZero(s: Screen, brand: Grid, step: int)
    ensures Candidate(s, brand, step, 0) == brand
  {
  }

  /** Exactly which surfaces are safe: given that some colour is legible on all of them,
      every brand comes out legible if and only if no two of them are far apart. */
  lemma EveryBrandIsLegibleExactly(m: Maths, surfaces: seq<Grid>, text: Oklch)
    requires ZeroAngle(m) && Clears(m, text, surfaces)
    ensures (forall brand :: Emittable(Browser(m), brand) ==>
               ClearsAll(Browser(m), BrandText(Browser(m), brand, surfaces), surfaces))
            <==> !FarApart(m, surfaces)
  {
    hide BrandText, ClearsAll, FarApart, Clears;
    if FarApart(m, surfaces) {
      TintIsLost(m, surfaces);
    } else {
      forall brand | Emittable(Browser(m), brand)
        ensures ClearsAll(Browser(m), BrandText(Browser(m), brand, surfaces), surfaces)
      {
        FallbackMeansNothingLegible(m, brand, surfaces);
      }
    }
  }

  // ---------------------------------------------------------------------------
  // A brand whose own hue and chroma are given up too early
  // ---------------------------------------------------------------------------

  predicate Between(x: int, y: int, l: int) { x <= l <= y || y <= l <= x }

  lemma StepKeepsChroma(s: Screen, brand: Grid, step: int)
    requires s.RendersGreys() && OnScale(brand) && 0 <= brand.lightness + step <= 100
    requires s.renders(brand.(lightness := brand.lightness + step).Exact())
    ensures Step(s, brand, step) == brand.(lightness := brand.lightness + step)
  {
    var next := brand.(lightness := brand.lightness + step);
    PlacedIsLargest(s, brand, brand.lightness + step);
    hide Snap;
    assert next.(chroma := brand.chroma) == next;
  }

  // The chroma renders at every lightness from the brand's to another.
  ghost predicate KeepsChroma(s: Screen, brand: Grid, lightness: int) {
    forall l :: Between(brand.lightness, lightness, l) ==> s.renders(brand.(lightness := l).Exact())
  }

  lemma {:induction false} CandidateKeepsChroma(s: Screen, brand: Grid, step: int, k: nat)
    requires s.RendersGreys() && OnScale(brand) && (step == -1 || step == 1) && k <= StepsToEnd(brand, step)
    requires KeepsChroma(s, brand, Ahead(brand, step, k))
    ensures Candidate(s, brand, step, k) == brand.(lightness := Ahead(brand, step, k))
    decreases k
  {
    hide Screen.RendersGreys, Step;
    if k > 0 {
      var next := brand.(lightness := brand.lightness + step);
      assert Between(brand.lightness, Ahead(brand, step, k), brand.lightness + step);
      StepKeepsChroma(s, brand, step);
      assert forall l :: next.(lightness := l) == brand.(lightness := l);
      assert KeepsChroma(s, next, Ahead(next, step, k - 1));
      hide KeepsChroma;
      CandidateKeepsChroma(s, next, step, k - 1);
    }
  }

  /** On any surfaces, a lightness legible at the brand's own hue and chroma is not missed
      when that chroma renders all the way to it. */
  lemma KeptChromaIsFound(s: Screen, brand: Grid, surfaces: seq<Grid>, lightness: int)
    requires s.RendersGreys() && OnScale(brand) && 0 <= lightness <= 100
    requires KeepsChroma(s, brand, lightness)
    requires ClearsAll(s, brand.(lightness := lightness), surfaces)
    ensures ClearsAll(s, BrandText(s, brand, surfaces), surfaces)
  {
    hide Candidate, ClearsAll, BrandText, KeepsChroma;
    var step := if lightness <= brand.lightness then -1 else 1;
    var k: nat := if step < 0 then brand.lightness - lightness else lightness - brand.lightness;
    CandidateKeepsChroma(s, brand, step, k);
    BrandTextRule(s, brand, surfaces);
    assert !NoneClears(s, brand, surfaces, step);
  }

  // A nearly black brand, of hue 54 degrees; its chroma renders at lightness 0.00 and at
  // 0.57, and not at 0.07.
  const DIM := Grid(0, 3, 5400)

  // Enough of the cosine and sine of 54 degrees.
  ghost predicate DimAngle(m: Maths) {
    0.587 <= m.cos(54.0) <= 0.589 && 0.808 <= m.sin(54.0) <= 0.81
  }

  lemma DimBases(m: Maths, c: Oklch)
    requires DimAngle(m) && c.hue == 54.0 && (c.chroma == 0.02 || c.chroma == 0.03)
    ensures var lab := ToOklab(m, c);
            && 0.0 <= lab.a <= 0.03 && 0.0 <= lab.b <= 0.03
            && c.lightness + 0.407 * c.chroma <= LongBase(lab) <= c.lightness + 0.40826 * c.chroma
            && c.lightness - 0.1139 * c.chroma <= MediumBase(lab) <= c.lightness - 0.11355 * c.chroma
            && c.lightness - 1.09882 * c.chroma <= ShortBase(lab) <= c.lightness - 1.09604 * c.chroma
  {
    hide Along;
    AlongWithin(c.chroma, m.cos(54.0), 0.587, 0.589);
    AlongWithin(c.chroma, m.sin(54.0), 0.808, 0.81);
  }

  lemma DimThreeIsLost(m: Maths)
    requires DimAngle(m)
    ensures !InGamut(m, Oklch(0.07, 0.03, 54.0))
  {
    var c := Oklch(0.07, 0.03, 54.0);
    var lab := ToOklab(m, c);
    DimBases(m, c);
    hide Power, ToOklab, LongBase, MediumBase, ShortBase;
    CubeWithin(LongBase(lab), 0.08, 0.083);
    CubeWithin(MediumBase(lab), 0.06658, 0.0666);
    CubeWithin(ShortBase(lab), 0.037, 0.03713);
  }

  lemma DimThreeAtTheBand(m: Maths)
    requires DimAngle(m)
    ensures var c := Oklch(0.57, 0.03, 54.0); InGamut(m, c) && 0.175 <= PaintedLuminance(m, c) <= 0.18333
  {
    var c := Oklch(0.57, 0.03, 54.0);
    var lab := ToOklab(m, c);
    hide Power, PaintedLuminance, Clipped;
    DimBases(m, c);
    hide ToOklab, LongBase, MediumBase, ShortBase;
    CubeWithin(LongBase(lab), 0.5822, 0.58226);
    CubeWithin(MediumBase(lab), 0.56658, 0.5666);
    CubeWithin(ShortBase(lab), 0.53703, 0.53713);
    assert InGamut(m, c);
    hide InGamut;
    PaintedByCubes(m, c);
  }

  lemma DimTwoMisses(m: Maths, c: Oklch)
    requires DimAngle(m) && (c == Oklch(0.56, 0.02, 54.0) || c == Oklch(0.57, 0.02, 54.0)) && InGamut(m, c)
    ensures OutOfBand(m, c)
  {
    var lab := ToOklab(m, c);
    hide Power, PaintedLuminance, Clipped, InGamut;
    DimBases(m, c);
    hide ToOklab, LongBase, MediumBase, ShortBase;
    CubeWithin(LongBase(lab), c.lightness + 0.0081, c.lightness + 0.0082);
    CubeWithin(MediumBase(lab), c.lightness - 0.00228, c.lightness - 0.00227);
    CubeWithin(ShortBase(lab), c.lightness - 0.02198, c.lightness - 0.02192);
    PaintedByCubes(m, c);
  }

  // Two cubics that dip by less than the tolerance.
  lemma GreenDip(k: real)
    requires 0.0 <= k <= 0.6
    ensures -1.2684380046 * Power(k + 0.01045, 3) + 2.2684378046 * Power(k, 3) >= -0.0001
  {
    hide Power;
    CubeOfSum(k, 0.01045);
    DoubleRoot(k, 0.0266);
    PowersWithin(k, if k <= 0.1 then 0.0 else 0.1, if k <= 0.1 then 0.1 else 0.6);
  }

  lemma BlueDip(k: real)
    requires 0.0 <= k <= 0.6
    ensures 1.7076147010 * Power(k - 0.01971, 3) - 0.7034186147 * Power(k, 3)
            - 0.0041960863 * Power(k + 0.01045, 3) >= -0.0001
  {
    hide Power;
    CubeOfSum(k, 0.01045);
    CubeOfSum(k, 0.01971);
    RootAtZero(k, 0.0506);
    PowersWithin(k, if k <= 0.1 then 0.0 else 0.1, if k <= 0.1 then 0.1 else 0.6);
  }

  lemma DimTwoMix(l: real, k: real, s: real)
    requires 0.0 <= k <= l <= 0.2 && -0.000002 <= s <= k <= 0.19
    requires -1.2684380046 * l + 2.2684378046 * k >= -0.0001
    requires 1.7076147010 * s - 0.7034186147 * k - 0.0041960863 * l >= -0.0001
    ensures var rgb := Mix(l, k, s); ChannelInGamut(rgb.red) && ChannelInGamut(rgb.green) && ChannelInGamut(rgb.blue)
  {
  }

  // The cubes of three bases as far apart as those of the brand at chroma 0.02.
  lemma DimTwoCubes(l: real, k: real, s: real)
    requires 0.0 <= k <= l <= k + 0.01045 && k - 0.01971 <= s <= k
    requires l <= 0.58 && k <= 0.57 && -0.012 <= s
    ensures var rgb := Mix(Power(l, 3), Power(k, 3), Power(s, 3));
            ChannelInGamut(rgb.red) && ChannelInGamut(rgb.green) && ChannelInGamut(rgb.blue)
  {
    hide Power, Mix, ChannelInGamut;
    GreenDip(k);
    BlueDip(k);
    CubeMonotone(l, k + 0.01045);
    CubeMonotone(k, l);
    CubeMonotone(k - 0.01971, s);
    CubeMonotone(s, k);
    CubeWithin(l, 0.0, 0.58);
    CubeWithin(k, 0.0, 0.57);
    CubeWithin(s, -0.012, 0.57);
    DimTwoMix(Power(l, 3), Power(k, 3), Power(s, 3));
  }

  lemma DimTwoRenders(m: Maths, lightness: real)
    requires DimAngle(m) && 0.01 <= lightness <= 0.57
    ensures InGamut(m, Oklch(lightness, 0.02, 54.0))
  {
    hide Power, LongBase, MediumBase, ShortBase, Mix, ChannelInGamut, DimAngle, ToOklab;
    var c := Oklch(lightness, 0.02, 54.0);
    var lab := ToOklab(m, c);
    DimBases(m, c);
    DimTwoCubes(LongBase(lab), MediumBase(lab), ShortBase(lab));
  }

  lemma DimRenders(m: Maths)
    requires DimAngle(m)
    ensures Emittable(Browser(m), DIM)
  {
    var c := Oklch(0.0, 0.03, 54.0);
    var lab := ToOklab(m, c);
    DimBases(m, c);
    hide Power, ToOklab, LongBase, MediumBase, ShortBase;
    CubeWithin(LongBase(lab), 0.0, 0.013);
    CubeWithin(MediumBase(lab), -0.004, 0.0);
    CubeWithin(ShortBase(lab), -0.033, -0.032);
  }

  lemma FirstQuadrant(m: Maths, c: Oklch)
    requires 0.0 <= m.cos(c.hue) <= 1.0 && 0.0 <= m.sin(c.hue) <= 1.0 && 0.0 <= c.chroma
    ensures var lab := ToOklab(m, c); 0.0 <= lab.a <= c.chroma && 0.0 <= lab.b <= c.chroma
  {
    hide Along;
    AlongWithin(c.chroma, m.cos(c.hue), 0.0, 1.0);
    AlongWithin(c.chroma, m.sin(c.hue), 0.0, 1.0);
  }

  lemma {:induction false} CandidateLast(s: Screen, text: Grid, step: int, k: nat)
    ensures Candidate(s, text, step, k + 1) == Step(s, Candidate(s, text, step, k), step)
    decreases k
  {
    hide Step;
    if k > 0 {
      CandidateLast(s, Step(s, text, step), step, k - 1);
    } else {
      assert Candidate(s, Step(s, text, step), step, 0) == Step(s, text, step);
    }
  }

  // What makes the brand lose a hundredth of its chroma on the way to lightness 0.57.
  ghost predicate LosesOne(s: Screen) {
    && s.RendersGreys()
    && (forall l :: 0 < l <= 57 ==> s.renders(Grid(l, 2, 5400).Exact()))
    && !s.renders(Grid(7, 3, 5400).Exact())
    && s.renders(Grid(57, 3, 5400).Exact())
  }

  lemma BrowserLosesOne(m: Maths)
    requires DimAngle(m)
    ensures LosesOne(Browser(m))
  {
    BrowserIsSound(m);
    DimThreeIsLost(m);
    DimThreeAtTheBand(m);
    hide InGamut, PaintedLuminance;
    assert Grid(7, 3, 5400).Exact() == Oklch(0.07, 0.03, 54.0);
    assert Grid(57, 3, 5400).Exact() == Oklch(0.57, 0.03, 54.0);
    forall l | 0 < l <= 57 ensures InGamut(m, Grid(l, 2, 5400).Exact()) {
      DimTwoRenders(m, l as real / 100.0);
      assert Grid(l, 2, 5400).Exact() == Oklch(l as real / 100.0, 0.02, 54.0);
    }
  }

  lemma DimStep(s: Screen, before: Grid)
    requires LosesOne(s) && before.hue == 5400 && 0 <= before.lightness < 57 && 2 <= before.chroma <= 3
    ensures var g := Step(s, before, 1);
            && g == Grid(before.lightness + 1, g.chroma, 5400) && 2 <= g.chroma <= before.chroma
            && (before.lightness == 6 ==> g.chroma == 2)
  {
    var l := before.lightness + 1;
    PlacedIsLargest(s, before, l);
    hide Snap;
    assert before.(lightness := l).(chroma := 2) == Grid(l, 2, 5400);
    assert before.(lightness := l).(chroma := 3) == Grid(l, 3, 5400);
  }

  // On the way up one hundredth of chroma is lost, and not given back.
  lemma {:induction false} DimLosesOne(s: Screen, k: nat)
    requires LosesOne(s) && k <= 57
    ensures var g := Candidate(s, DIM, 1, k);
            g == Grid(k, g.chroma, 5400) && 2 <= g.chroma <= 3 && (7 <= k ==> g.chroma == 2)
    decreases k
  {
    hide Step, LosesOne;
    if k == 0 {
      CandidateZero(s, DIM, 1);
    } else {
      DimLosesOne(s, k - 1);
      hide Candidate;
      CandidateLast(s, DIM, 1, k - 1);
      DimStep(s, Candidate(s, DIM, 1, k - 1));
    }
  }

  lemma DimMisses(m: Maths, g: Grid)
    requires DimAngle(m) && Emittable(Browser(m), g) && g.hue == DIM.hue && g.chroma <= DIM.chroma
    requires g.lightness == 56 || g.lightness == 57 ==> g.chroma == 2
    ensures OutOfBand(m, g.Exact())
  {
    var c := g.Exact();
    WhiteAndBlack(m, c);
    if 0 < g.lightness < 100 {
      hide InGamut, PaintedLuminance;
      assert c.hue == 54.0;
      FirstQuadrant(m, c);
      if g.lightness == 56 || g.lightness == 57 {
        assert c == Oklch(g.lightness as real / 100.0, 0.02, 54.0);
        DimTwoMisses(m, c);
      } else {
        OutsideBand(m, c);
      }
    }
  }

  lemma DimCandidateMisses(m: Maths, step: int, k: nat)
    requires DimAngle(m) && (step == -1 || step == 1) && k <= StepsToEnd(DIM, step)
    ensures OutOfBand(m, Candidate(Browser(m), DIM, step, k).Exact())
  {
    BrowserIsSound(m);
    DimRenders(m);
    hide Candidate, InGamut, PaintedLuminance, DimAngle;
    CandidateOnScale(Browser(m), DIM, step, k);
    BrowserLosesOne(m);
    hide LosesOne;
    if 0 < k <= 57 { DimLosesOne(Browser(m), k); }
    DimMisses(m, Candidate(Browser(m), DIM, step, k));
  }

  lemma DimAtTheBand(s: Screen)
    requires LosesOne(s)
    ensures PlacedAt(s, DIM, 57) == Grid(57, 3, 5400)
  {
    PlacedIsLargest(s, DIM, 57);
    hide Snap;
    assert DIM.(lightness := 57).(chroma := 3) == Grid(57, 3, 5400);
  }

  const BLACK_AND_WHITE := [Grid(0, 0, 0), Grid(100, 0, 0)]

  lemma BlackAndWhiteLuminances(m: Maths)
    ensures PaintedLuminance(m, BLACK_AND_WHITE[0].Exact()) == 0.0
    ensures PaintedLuminance(m, BLACK_AND_WHITE[1].Exact()) == 1.0
  {
    WhiteAndBlack(m, BLACK_AND_WHITE[0].Exact());
    WhiteAndBlack(m, BLACK_AND_WHITE[1].Exact());
    hide PaintedLuminance;
  }

  lemma BlackAndWhiteAreFarApart(m: Maths, text: Oklch)
    ensures FarApart(m, BLACK_AND_WHITE)
    ensures 0.175 <= PaintedLuminance(m, text) <= 0.18333 ==> Clears(m, text, BLACK_AND_WHITE)
  {
    hide PaintedLuminance, ContrastRatio, Grid.Exact;
    BlackAndWhiteLuminances(m);
    ContrastByLuminance(m, BLACK_AND_WHITE[1].Exact(), BLACK_AND_WHITE[0].Exact());
    ContrastByLuminance(m, text, BLACK_AND_WHITE[0].Exact());
    ContrastByLuminance(m, text, BLACK_AND_WHITE[1].Exact());
  }

  /** The claim read literally, at the brand's own hue and chroma, fails on surfaces far
      apart: this brand is legible on black and on white at lightness 0.57, where its whole
      chroma renders, and the rule gives it up. */
  lemma LostChromaIsNotRegained(m: Maths)
    requires DimAngle(m)
    ensures var s := Browser(m);
            && Emittable(s, DIM)
            && PlacedAt(s, DIM, 57) == Grid(57, DIM.chroma, DIM.hue)
            && ClearsAll(s, PlacedAt(s, DIM, 57), BLACK_AND_WHITE)
            && !ClearsAll(s, BrandText(s, DIM, BLACK_AND_WHITE), BLACK_AND_WHITE)
  {
    DimRenders(m);
    BrowserLosesOne(m);
    DimAtTheBand(Browser(m));
    DimThreeAtTheBand(m);
    BlackAndWhiteAreFarApart(m, Grid(57, 3, 5400).Exact());
    hide PaintedLuminance, InGamut, Candidate, BrandText, ContrastRatio, PlacedAt, FarApart, DimAngle;
    assert Clears(m, Grid(57, 3, 5400).Exact(), BLACK_AND_WHITE);
    forall step: int, k: nat | (step == -1 || step == 1) && k <= StepsToEnd(DIM, step)
      ensures OutOfBand(m, Candidate(Browser(m), DIM, step, k).Exact())
    {
      DimCandidateMisses(m, step, k);
    }
    MissesTheBand(m, DIM, BLACK_AND_WHITE);
  }
}
