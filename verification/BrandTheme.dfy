/** `build_theme`: a stored branding object in, the two emitted schemes out. Reading a
    `#rrggbb` into OKLCH is a parameter. */
module BrandTheme {
  import opened BrandGrid
  import opened BrandScheme
  import opened Colour
  import opened Legibility
  import opened Options
  import Rounding

  predicate IsHexDigit(c: char) { '0' <= c <= '9' || 'a' <= c <= 'f' || 'A' <= c <= 'F' }

  predicate IsHexColor(v: string) {
    |v| == 7 && v[0] == '#' && forall i :: 1 <= i < 7 ==> IsHexDigit(v[i])
  }

  function Lower(c: char): char {
    if 'A' <= c <= 'Z' then c - 'A' + 'a' else c
  }

  function LowerAll(v: string): string {
    seq(|v|, i requires 0 <= i < |v| => Lower(v[i]))
  }

  type Palette = map<Key, string>

  datatype Theme =
    | Simple(primary: string, accent: string)
    | Advanced(light: Palette, dark: Option<Palette>)

  ghost predicate ValidPalette(p: Palette) {
    (forall k: Key :: k in p <==> IsAuthored(k)) && forall k :: k in p ==> IsHexColor(p[k])
  }

  // What the normalisation accepts; anything else is refused before a colour is derived.
  ghost predicate ValidTheme(theme: Theme) {
    match theme
    case Simple(primary, accent) => IsHexColor(primary) && IsHexColor(accent)
    case Advanced(light, dark) => ValidPalette(light) && (dark.Some? ==> ValidPalette(dark.value))
  }

  // The reading of a lowercased hex colour: inside the unit ranges of OKLCH.
  ghost predicate ReadsHex(read: string -> Oklch) {
    forall v :: IsHexColor(v) ==> 0.0 <= read(v).lightness <= 1.0 && 0.0 <= read(v).chroma <= 1.0
  }

  // The authored colours of a palette: rounded and snapped, never clamped.
  ghost function Authoring(s: Screen, read: string -> Oklch, p: Palette): Scheme {
    map k | k in p :: Snap(s, read(LowerAll(p[k])))
  }

  ghost function AdvancedScheme(s: Screen, read: string -> Oklch, p: Palette): Scheme
    requires ValidPalette(p)
  {
    Derived(s, Authoring(s, read, p))
  }

  ghost function LightOf(s: Screen, read: string -> Oklch, theme: Theme): Scheme
    requires ValidTheme(theme)
  {
    match theme
    case Simple(primary, accent) => SimpleScheme(s, read(LowerAll(primary)), read(LowerAll(accent)), false)
    case Advanced(light, _) => AdvancedScheme(s, read, light)
  }

  // Without an authored dark palette the dark scheme is derived from two light colours.
  ghost function DarkOf(s: Screen, read: string -> Oklch, theme: Theme): Scheme
    requires ValidTheme(theme)
  {
    match theme
    case Simple(primary, accent) => SimpleScheme(s, read(LowerAll(primary)), read(LowerAll(accent)), true)
    case Advanced(light, None) =>
      SimpleScheme(s, read(LowerAll(light[Primary])), read(LowerAll(light[Accent])), true)
    case Advanced(_, Some(dark)) => AdvancedScheme(s, read, dark)
  }

  lemma LoweringKeepsHex(v: string)
    requires IsHexColor(v)
    ensures IsHexColor(LowerAll(v)) && LowerAll(LowerAll(v)) == LowerAll(v)
  {
  }

  lemma BrandTextIsEmittable(s: Screen, primary: Grid, surfaces: seq<Grid>)
    requires s.RendersGreys() && Emittable(s, primary)
    ensures Emittable(s, BrandText(s, primary, surfaces))
  {
    BrandTextRule(s, primary, surfaces);
    hide BrandText, NoneClears, FirstClearing, ClearsAll;
  }

  lemma CopiesAreEmittable(s: Screen, colours: Scheme, text: Grid)
    requires Authored(colours) && OnlyAuthored(colours) && AllEmittable(s, colours) && Emittable(s, text)
    ensures AllEmittable(s, WithCopies(colours, text))
  {
    hide Emittable;
  }

  lemma DerivedIsEmittable(s: Screen, colours: Scheme)
    requires s.RendersGreys() && Authored(colours) && OnlyAuthored(colours) && AllEmittable(s, colours)
    ensures var d := Derived(s, colours);
            Complete(d) && AllEmittable(s, d) && forall k :: IsAuthored(k) ==> d[k] == colours[k]
  {
    var primary, surfaces := colours[Primary], TextSurfaces(colours);
    BrandTextIsEmittable(s, primary, surfaces);
    CopiesAreEmittable(s, colours, BrandText(s, primary, surfaces));
    CopiesComplete(colours, BrandText(s, primary, surfaces));
    hide WithCopies, BrandText, Emittable, AllEmittable;
  }

  /** An advanced scheme emits eighteen colours inside the gamut, each authored one at its
      rounded lightness and hue with the largest chroma that renders. */
  lemma AdvancedSchemeRenders(s: Screen, read: string -> Oklch, p: Palette)
    requires s.RendersGreys() && ReadsHex(read) && ValidPalette(p)
    ensures var scheme := AdvancedScheme(s, read, p);
            && Complete(scheme) && AllEmittable(s, scheme)
            && forall k :: IsAuthored(k) ==>
                 LargestRenderedChroma(s, Rounded(read(LowerAll(p[k]))), scheme[k])
  {
    var colours := Authoring(s, read, p);
    forall k | k in p
      ensures Emittable(s, colours[k]) && LargestRenderedChroma(s, Rounded(read(LowerAll(p[k]))), colours[k])
    {
      LoweringKeepsHex(p[k]);
      SnappedIsEmittable(s, read(LowerAll(p[k])));
    }
    hide Snap, Rounded, LargestRenderedChroma, Derived, Emittable, IsHexColor, LowerAll;
    DerivedIsEmittable(s, colours);
  }

  lemma SnappedIsEmittable(s: Screen, c: Oklch)
    requires s.RendersGreys() && 0.0 <= c.lightness <= 1.0 && 0.0 <= c.chroma <= 1.0
    ensures Emittable(s, Snap(s, c)) && LargestRenderedChroma(s, Rounded(c), Snap(s, c))
  {
    Rounding.RoundHalfEvenBounds(c.lightness, 0, 100);
    Rounding.RoundHalfEvenBounds(c.chroma, 0, 100);
    SnapIsLargestRendered(s, c);
  }

  // Eighteen strings that read back into the gamut, whose audit reports exactly the pairs
  // that fail on the scheme they were emitted from.
  ghost predicate EmittedFaithfully(s: Screen, scheme: Scheme) {
    && Complete(scheme)
    && ReadsIntoGamut(s, Emit(scheme))
    && Audit(s, Emit(scheme), MEASURED_PAIRS) == Some(Failing(s, scheme, MEASURED_PAIRS))
  }

  lemma EmittableIsFaithful(s: Screen, scheme: Scheme)
    requires Complete(scheme) && AllEmittable(s, scheme)
    ensures EmittedFaithfully(s, scheme)
  {
    hide Audit, Failing, ReadsIntoGamut, Emit, AllEmittable;
    EmittedReadsIntoGamut(s, scheme);
    AuditReadsTheScheme(s, scheme, MEASURED_PAIRS);
  }

  lemma LightIsEmittable(s: Screen, read: string -> Oklch, theme: Theme)
    requires Landmarks(s) && ReadsHex(read) && ValidTheme(theme)
    ensures var scheme := LightOf(s, read, theme); Complete(scheme) && AllEmittable(s, scheme)
  {
    hide SimpleScheme, AdvancedScheme, AllEmittable, Accessible, LargestRenderedChroma, Complete, ReadsHex;
    match theme
    case Simple(primary, accent) => SimpleHexSchemeIsLegible(s, read, primary, accent, false);
    case Advanced(light, _) => AdvancedSchemeRenders(s, read, light);
  }

  lemma DarkIsEmittable(s: Screen, read: string -> Oklch, theme: Theme)
    requires Landmarks(s) && ReadsHex(read) && ValidTheme(theme)
    ensures var scheme := DarkOf(s, read, theme); Complete(scheme) && AllEmittable(s, scheme)
  {
    hide SimpleScheme, AdvancedScheme, AllEmittable, Accessible, LargestRenderedChroma, Complete, ReadsHex;
    match theme
    case Simple(primary, accent) => SimpleHexSchemeIsLegible(s, read, primary, accent, true);
    case Advanced(light, None) => SimpleHexSchemeIsLegible(s, read, light[Primary], light[Accent], true);
    case Advanced(_, Some(dark)) => AdvancedSchemeRenders(s, read, dark);
  }

  /** For every accepted theme both schemes are emitted faithfully. */
  lemma EveryThemeIsFaithful(s: Screen, read: string -> Oklch, theme: Theme)
    requires Landmarks(s) && ReadsHex(read) && ValidTheme(theme)
    ensures EmittedFaithfully(s, LightOf(s, read, theme)) && EmittedFaithfully(s, DarkOf(s, read, theme))
  {
    LightIsEmittable(s, read, theme);
    DarkIsEmittable(s, read, theme);
    hide EmittedFaithfully, LightOf, DarkOf, Landmarks, AllEmittable;
    EmittableIsFaithful(s, LightOf(s, read, theme));
    EmittableIsFaithful(s, DarkOf(s, read, theme));
  }

  lemma SimpleHexSchemeIsLegible(s: Screen, read: string -> Oklch, primary: string, accent: string, dark: bool)
    requires Landmarks(s) && ReadsHex(read) && IsHexColor(primary) && IsHexColor(accent)
    ensures var scheme := SimpleScheme(s, read(LowerAll(primary)), read(LowerAll(accent)), dark);
            Complete(scheme) && AllEmittable(s, scheme) && Accessible(s, Emit(scheme))
  {
    LoweringKeepsHex(primary);
    LoweringKeepsHex(accent);
    SimpleSchemeIsLegible(s, read(LowerAll(primary)), read(LowerAll(accent)), dark);
    hide SimpleScheme, PairsAreLegible, BrandTextLegible, Landmarks, Accessible, AllEmittable;
    LegibleSchemeIsAccessible(s, SimpleScheme(s, read(LowerAll(primary)), read(LowerAll(accent)), dark));
  }

  /** In a browser every derived scheme is accessible: both of a simple theme, and the dark
      one an advanced theme leaves out. Authored palettes carry no such guarantee. */
  lemma DerivedSchemesAreAccessible(m: Maths, read: string -> Oklch, theme: Theme)
    requires m.Pythagorean() && ReadsHex(read) && ValidTheme(theme)
    ensures theme.Simple? ==>
              && Complete(LightOf(Browser(m), read, theme))
              && Accessible(Browser(m), Emit(LightOf(Browser(m), read, theme)))
    ensures theme.Simple? || theme.dark.None? ==>
              && Complete(DarkOf(Browser(m), read, theme))
              && Accessible(Browser(m), Emit(DarkOf(Browser(m), read, theme)))
  {
    BrowserHasLandmarks(m);
    hide Browser, Accessible, Landmarks;
    match theme
    case Simple(primary, accent) =>
      SimpleHexSchemeIsLegible(Browser(m), read, primary, accent, false);
      SimpleHexSchemeIsLegible(Browser(m), read, primary, accent, true);
    case Advanced(light, dark) =>
      if dark.None? {
        SimpleHexSchemeIsLegible(Browser(m), read, light[Primary], light[Accent], true);
      }
  }
}
