/** Real bounds on what the browser paints, at any hue: which families of colours are
    legible on which, whatever the tenant's hues are. */
module Legibility {
  import opened Colour
  import opened Cubes
  import opened BrandGrid

  // The lightness and chroma of every dark surface and near-black text of the theme.
  predicate Dark(c: Oklch) { 0.0 <= c.lightness <= 0.22 && 0.0 <= c.chroma <= 0.04 }

  // Those of the dark page, the dark card and the light scheme's body text.
  predicate Ink(c: Oklch) { 0.0 <= c.lightness <= 0.16 && 0.0 <= c.chroma <= 0.02 }

  // Those of every light surface and near-white text.
  predicate Light(c: Oklch) { 0.96 <= c.lightness && 0.0 <= c.chroma <= 0.02 }

  lemma AxesWithinChroma(m: Maths, c: Oklch)
    requires m.Pythagorean() && 0.0 <= c.chroma
    ensures var lab := ToOklab(m, c); -c.chroma <= lab.a <= c.chroma && -c.chroma <= lab.b <= c.chroma
  {
    var x, y := m.cos(c.hue), m.sin(c.hue);
    assert OnCircle(m.cos(c.hue), m.sin(c.hue));
    hide OnCircle;
    UnitCircle(x, y);
    UnitCircle(y, x);
    hide Along;
    AlongWithin(c.chroma, x, -1.0, 1.0);
    AlongWithin(c.chroma, y, -1.0, 1.0);
  }

  // Whatever their signs, three cubes no larger than `bound` mix into a dark colour.
  lemma SmallCubesAreDark(long: real, medium: real, short: real, bound: real)
    requires 0.0 <= bound && -bound <= long <= bound && -bound <= medium <= bound && -bound <= short <= bound
    ensures Luminance(Clip(Mix(long, medium, short))) <= 5.0 * bound
  {
    var rgb := Mix(long, medium, short);
    assert rgb.red <= 7.62 * bound && rgb.green <= 4.22 * bound && rgb.blue <= 2.42 * bound;
    var clipped := Clip(rgb);
    assert clipped.red <= 7.62 * bound && clipped.green <= 4.22 * bound && clipped.blue <= 2.42 * bound;
  }

  lemma SmallCube(x: real, reach: real)
    requires -reach <= x <= reach
    ensures -(reach * reach * reach) <= Power(x, 3) <= reach * reach * reach
  {
    CubeWithin(x, -reach, reach);
    assert (-reach) * (-reach) * (-reach) == -(reach * reach * reach);
  }

  lemma DarkClip(m: Maths, c: Oklch, reach: real)
    requires m.Pythagorean() && 0.0 <= c.lightness && 0.0 <= c.chroma
    requires c.lightness + 1.4 * c.chroma <= reach
    ensures 0.0 <= reach * reach * reach
    ensures Luminance(Clipped(m, c)) <= 5.0 * (reach * reach * reach)
  {
    AxesWithinChroma(m, c);
    hide Power, Mix, Luminance, Clip;
    var lab := ToOklab(m, c);
    SmallCube(0.0, reach);
    SmallCube(LongBase(lab), reach);
    SmallCube(MediumBase(lab), reach);
    SmallCube(ShortBase(lab), reach);
    SmallCubesAreDark(Power(LongBase(lab), 3), Power(MediumBase(lab), 3), Power(ShortBase(lab), 3),
                      reach * reach * reach);
  }

  lemma WhiteAndBlack(m: Maths, c: Oklch)
    ensures c.lightness >= 1.0 ==> PaintedLuminance(m, c) == 1.0
    ensures c.lightness <= 0.0 ==> PaintedLuminance(m, c) == 0.0
  {
  }

  lemma DarkPaint(m: Maths, c: Oklch, reach: real)
    requires m.Pythagorean() && 0.0 <= c.lightness < 1.0 && 0.0 <= c.chroma
    requires c.lightness + 1.4 * c.chroma <= reach
    ensures PaintedLuminance(m, c) <= 5.0 * (reach * reach * reach)
  {
    hide InGamut, WithinJnd, Clipped, Luminance, Paint;
    DarkClip(m, c, reach);
    if c.lightness <= 0.0 {
      WhiteAndBlack(m, c);
    } else {
      var chroma := PaintKeepsLightnessAndHue(m, c);
      DarkClip(m, c.(chroma := chroma), reach);
    }
  }

  lemma LightClip(m: Maths, c: Oklch)
    requires m.Pythagorean() && Light(c) && c.lightness <= 1.0
    ensures Luminance(Clipped(m, c)) >= 0.5
  {
    AxesWithinChroma(m, c);
    var lab := ToOklab(m, c);
    CubeWithin(LongBase(lab), 0.947, 1.013);
    CubeWithin(MediumBase(lab), 0.956, 1.004);
    CubeWithin(ShortBase(lab), 0.932, 1.028);
    var rgb := OklchToLinear(m, c);
    assert rgb.red >= 0.3 && rgb.green >= 0.59 && rgb.blue >= 0.6;
  }

  lemma LightPaint(m: Maths, c: Oklch)
    requires m.Pythagorean() && Light(c)
    ensures PaintedLuminance(m, c) >= 0.5
  {
    if c.lightness < 1.0 {
      var chroma := PaintKeepsLightnessAndHue(m, c);
      LightClip(m, c.(chroma := chroma));
    }
  }

  /** What the theme needs of a display, at every hue: white is legible on the dark
      colours, black on the light ones, and the light colours on ink. */
  ghost predicate Landmarks(s: Screen) {
    && s.RendersGreys()
    && s.Symmetric()
    && (forall white: Oklch, dark: Oklch :: white.lightness >= 1.0 && Dark(dark) ==> s.Legible(white, dark))
    && (forall black: Oklch, light: Oklch :: black.lightness <= 0.0 && Light(light) ==> s.Legible(black, light))
    && (forall ink: Oklch, light: Oklch :: Ink(ink) && Light(light) ==> s.Legible(ink, light))
  }

  lemma LegibleByLuminance(m: Maths, x: Oklch, y: Oklch)
    requires PaintedLuminance(m, x) + 0.05 >= 4.5 * (PaintedLuminance(m, y) + 0.05)
    ensures Legible(m, x, y) && Legible(m, y, x)
  {
    PaintedChannels(m, x);
    PaintedChannels(m, y);
    hide PaintedLuminance;
    RatioRange(PaintedLuminance(m, x), PaintedLuminance(m, y));
  }

  lemma WhiteOnDark(m: Maths, white: Oklch, dark: Oklch)
    requires m.Pythagorean() && white.lightness >= 1.0 && Dark(dark)
    ensures Legible(m, white, dark)
  {
    WhiteAndBlack(m, white);
    DarkPaint(m, dark, 0.276);
    hide PaintedLuminance, Legible;
    LegibleByLuminance(m, white, dark);
  }

  lemma BlackOnLight(m: Maths, black: Oklch, light: Oklch)
    requires m.Pythagorean() && black.lightness <= 0.0 && Light(light)
    ensures Legible(m, black, light)
  {
    WhiteAndBlack(m, black);
    LightPaint(m, light);
    hide PaintedLuminance, Legible;
    LegibleByLuminance(m, light, black);
  }

  lemma InkOnLight(m: Maths, ink: Oklch, light: Oklch)
    requires m.Pythagorean() && Ink(ink) && Light(light)
    ensures Legible(m, ink, light)
  {
    DarkPaint(m, ink, 0.188);
    LightPaint(m, light);
    hide PaintedLuminance, Legible;
    LegibleByLuminance(m, light, ink);
  }

  lemma BrowserHasLandmarks(m: Maths)
    requires m.Pythagorean()
    ensures Landmarks(Browser(m))
  {
    BrowserIsSound(m);
    hide ContrastRatio, Dark, Ink, Light, Maths.Pythagorean;
    forall white: Oklch, dark: Oklch | white.lightness >= 1.0 && Dark(dark) ensures Legible(m, white, dark) {
      WhiteOnDark(m, white, dark);
    }
    forall black: Oklch, light: Oklch | black.lightness <= 0.0 && Light(light) ensures Legible(m, black, light) {
      BlackOnLight(m, black, light);
    }
    forall ink: Oklch, light: Oklch | Ink(ink) && Light(light) ensures Legible(m, ink, light) {
      InkOnLight(m, ink, light);
    }
  }
}
