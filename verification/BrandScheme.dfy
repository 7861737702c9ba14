/** The simple-mode schemes, the emitted strings and their contrast audit. */
module BrandScheme {
  import opened BrandGrid
  import opened Colour
  import opened Css
  import opened Legibility
  import opened Options
  import opened Rounding

  // The eighteen custom properties a scheme emits: thirteen authored, four copied, and the
  // brand text.
  datatype Key =
    | Background | Foreground | Card | CardForeground | Primary | PrimaryForeground
    | Secondary | SecondaryForeground | Accent | AccentForeground | Muted | MutedForeground | Border
    | Popover | PopoverForeground | Input | Ring
    | PrimaryText

  predicate IsAuthored(k: Key) {
    !k.Popover? && !k.PopoverForeground? && !k.Input? && !k.Ring? && !k.PrimaryText?
  }

  // Each derived key with the key it copies.
  const DERIVED_FROM: seq<(Key, Key)> :=
    [(Popover, Card), (PopoverForeground, CardForeground), (Input, Border), (Ring, Primary)]

  // (foreground, background)
  const MEASURED_PAIRS: seq<(Key, Key)> :=
    [(Foreground, Background), (CardForeground, Card), (PrimaryForeground, Primary),
     (SecondaryForeground, Secondary), (AccentForeground, Accent), (MutedForeground, Muted),
     (MutedForeground, Background), (MutedForeground, Card)]

  type Scheme = map<Key, Grid>

  // ---------------------------------------------------------------------------
  // The derivation
  // ---------------------------------------------------------------------------

  function Max(x: real, y: real): real { if x >= y then x else y }

  function Min(x: real, y: real): real { if x <= y then x else y }

  const NEAR_WHITE := Grid(98, 0, 0)

  // One (lightness, chroma) constant of the table, placed at a hue.
  function At(s: Screen, lightness: int, chroma: int, hue: int): Grid {
    Snap(s, Grid(lightness, chroma, hue).Exact())
  }

  function ClampLightness(c: Oklch): real { Min(0.92, Max(0.20, c.lightness)) }

  function ClampChroma(c: Oklch): real { Min(0.22, c.chroma) }

  // The more legible of the two candidates for this surface; near-white on a tie.
  function PickForeground(s: Screen, surface: Grid): (text: Grid)
    ensures var white := s.ratio(surface.Exact(), NEAR_WHITE.Exact());
            var black := s.ratio(surface.Exact(), At(s, 15, 2, surface.hue).Exact());
            s.ratio(surface.Exact(), text.Exact()) == Max(white, black) && (white == black ==> text == NEAR_WHITE)
  {
    var black := At(s, 15, 2, surface.hue);
    if s.ratio(surface.Exact(), NEAR_WHITE.Exact()) >= s.ratio(surface.Exact(), black.Exact())
    then NEAR_WHITE else black
  }

  function RepairedSurface(s: Screen, surface: Grid, text: Grid): Grid {
    Repair(s, surface, [text], AwayFrom(surface, text), MAX_STEPS)
  }

  function BrandSurface(s: Screen, start: Oklch): (Grid, Grid) {
    var surface := Snap(s, start);
    var text := PickForeground(s, surface);
    (RepairedSurface(s, surface, text), text)
  }

  datatype Family = Family(background: Grid, card: Grid, foreground: Grid, muted: Grid,
                           mutedForeground: Grid, border: Grid, accent: Grid, accentForeground: Grid)

  // The tint of the accent: a share of its chroma, with a floor.
  function Tint(s: Screen, lightness: real, share: real, floor: real, accentChroma: real, hue: int): Grid {
    Snap(s, Oklch(lightness, Max(floor, Hundredths(RoundHalfEven(accentChroma * share))), Hundredths(hue)))
  }

  function NeutralFamily(s: Screen, hue: int, accentHue: int, accentChroma: real, dark: bool): Family {
    if dark then
      Family(At(s, 14, 1, hue), At(s, 16, 1, hue), At(s, 98, 1, hue), At(s, 22, 2, hue), At(s, 65, 2, hue),
             At(s, 25, 2, hue), Tint(s, 0.22, 0.2, 0.02, accentChroma, accentHue), At(s, 98, 1, accentHue))
    else
      Family(At(s, 99, 0, 0), At(s, 100, 0, 0), At(s, 14, 1, hue), At(s, 96, 1, hue), At(s, 55, 2, hue),
             At(s, 92, 1, hue), Tint(s, 0.96, 0.1, 0.01, accentChroma, accentHue), At(s, 20, 2, accentHue))
  }

  // A dark brand surface starts no darker than 0.62.
  function BrandStart(c: Oklch, dark: bool): Oklch {
    var lightness := ClampLightness(c);
    Oklch(if dark then Max(lightness, 0.62) else lightness, ClampChroma(c), Hundredths(RoundHalfEven(c.hue)))
  }

  // The thirteen authored keys: a family, the two brand surfaces with their texts, and the
  // two repaired colours.
  function Colours(f: Family, primary: (Grid, Grid), secondary: (Grid, Grid), accent: Grid,
                   mutedForeground: Grid): Scheme {
    map[Background := f.background,
        Foreground := f.foreground,
        Card := f.card,
        CardForeground := f.foreground,
        Primary := primary.0,
        PrimaryForeground := primary.1,
        Secondary := secondary.0,
        SecondaryForeground := secondary.1,
        Accent := accent,
        AccentForeground := f.accentForeground,
        Muted := f.muted,
        MutedForeground := mutedForeground,
        Border := f.border]
  }

  // The thirteen colours derived from the two stored ones.
  function SimpleColours(s: Screen, primary: Oklch, accent: Oklch, dark: bool): Scheme {
    var f := NeutralFamily(s, RoundHalfEven(primary.hue), RoundHalfEven(accent.hue), ClampChroma(accent), dark);
    Colours(f, BrandSurface(s, BrandStart(primary, dark)), BrandSurface(s, BrandStart(accent, dark)),
            RepairedSurface(s, f.accent, f.accentForeground),
            Repair(s, f.mutedForeground, [f.muted, f.background, f.card], if dark then 1 else -1, MAX_STEPS))
  }

  ghost predicate Authored(scheme: Scheme) {
    forall k :: IsAuthored(k) ==> k in scheme
  }

  ghost predicate OnlyAuthored(scheme: Scheme) {
    forall k :: k in scheme ==> IsAuthored(k)
  }

  // The four surfaces brand text is rendered on.
  function TextSurfaces(scheme: Scheme): seq<Grid>
    requires Authored(scheme)
  {
    [scheme[Card], scheme[Background], scheme[Muted], scheme[Accent]]
  }

  function WithCopies(scheme: Scheme, text: Grid): Scheme
    requires Authored(scheme)
  {
    scheme + map[Popover := scheme[Card], PopoverForeground := scheme[CardForeground],
                 Input := scheme[Border], Ring := scheme[Primary], PrimaryText := text]
  }

  // The scheme with its four copies and the brand text.
  function Derived(s: Screen, scheme: Scheme): Scheme
    requires Authored(scheme)
  {
    WithCopies(scheme, BrandText(s, scheme[Primary], TextSurfaces(scheme)))
  }

  /** `derive_brand_text` */
  method DeriveBrandText(s: Screen, primary: Grid, surfaces: seq<Grid>) returns (r: Grid)
    ensures r == BrandText(s, primary, surfaces)
  {
    hide Walk;
    var down := WalkToLegibleText(s, primary, surfaces, -1);
    if down.Some? { return down.value; }
    var up := WalkToLegibleText(s, primary, surfaces, 1);
    if up.Some? { return up.value; }
    return primary;
  }

  // The scheme after its first `n` copies.
  function Copied(scheme: Scheme, n: nat): (r: Scheme)
    requires Authored(scheme) && n <= |DERIVED_FROM|
    ensures Authored(r)
  {
    if n == 0 then scheme
    else
      var (target, source) := DERIVED_FROM[n - 1];
      var before := Copied(scheme, n - 1);
      assert IsAuthored(source);
      before[target := before[source]]
  }

  lemma CopiedAll(scheme: Scheme)
    requires Authored(scheme)
    ensures Copied(scheme, 4) == scheme + map[Popover := scheme[Card], PopoverForeground := scheme[CardForeground],
                                              Input := scheme[Border], Ring := scheme[Primary]]
  {
    CopiedNext(scheme, 0);
    CopiedNext(scheme, 1);
    CopiedNext(scheme, 2);
    CopiedNext(scheme, 3);
    assert Copied(scheme, 0) == scheme;
    var one := scheme[Popover := scheme[Card]];
    var two := one[PopoverForeground := scheme[CardForeground]];
    var three := two[Input := scheme[Border]];
    hide Copied, Authored, IsAuthored;
    assert Copied(scheme, 1) == one;
    assert Copied(scheme, 2) == two;
    assert Copied(scheme, 3) == three;
    assert Copied(scheme, 4) == three[Ring := scheme[Primary]];
  }

  lemma CopiedNext(scheme: Scheme, n: nat)
    requires Authored(scheme) && n < |DERIVED_FROM|
    ensures var (target, source) := DERIVED_FROM[n];
            Copied(scheme, n + 1) == Copied(scheme, n)[target := scheme[source]]
            && (IsAuthored(source) ==> Copied(scheme, n)[source] == scheme[source])
  {
    AuthoredKept(scheme, n);
  }

  lemma {:induction false} AuthoredKept(scheme: Scheme, n: nat)
    requires Authored(scheme) && n <= |DERIVED_FROM|
    ensures forall k :: IsAuthored(k) ==> Copied(scheme, n)[k] == scheme[k]
  {
    if n > 0 {
      AuthoredKept(scheme, n - 1);
      assert !IsAuthored(DERIVED_FROM[n - 1].0);
    }
  }

  /** `_with_derived`: the copies are written one by one, then the brand text. */
  method WithDerived(s: Screen, scheme: Scheme) returns (r: Scheme)
    requires Authored(scheme)
    ensures r == Derived(s, scheme)
  {
    hide BrandText;
    r := scheme;
    for i := 0 to |DERIVED_FROM|
      invariant Authored(r) && r == Copied(scheme, i)
    {
      var (target, source) := DERIVED_FROM[i];
      assert IsAuthored(source);
      r := r[target := r[source]];
    }
    CopiedAll(scheme);
    var text := DeriveBrandText(s, r[Primary], TextSurfaces(r));
    r := r[PrimaryText := text];
  }

  function SimpleScheme(s: Screen, primary: Oklch, accent: Oklch, dark: bool): Scheme {
    Derived(s, SimpleColours(s, primary, accent, dark))
  }

  // ---------------------------------------------------------------------------
  // Every pair is legible, at any hue
  // ---------------------------------------------------------------------------

  predicate DarkGrid(g: Grid) { 0 <= g.lightness <= 22 && 0 <= g.chroma <= 4 }

  predicate InkGrid(g: Grid) { 0 <= g.lightness <= 16 && 0 <= g.chroma <= 2 }

  predicate LightGrid(g: Grid) { 96 <= g.lightness && 0 <= g.chroma <= 2 }

  lemma GridFamilies(g: Grid)
    ensures DarkGrid(g) ==> Dark(g.Exact())
    ensures InkGrid(g) ==> Ink(g.Exact())
    ensures LightGrid(g) ==> Light(g.Exact())
    ensures g.lightness == 0 ==> g.Exact().lightness == 0.0
    ensures g.lightness == 100 ==> g.Exact().lightness == 1.0
  {
  }

  lemma AtIsEmittable(s: Screen, lightness: int, chroma: int, hue: int)
    requires s.RendersGreys() && 0 <= lightness <= 100 && 0 <= chroma <= 100
    ensures var g := At(s, lightness, chroma, hue);
            Emittable(s, g) && g.lightness == lightness && g.chroma <= chroma && g.hue == hue
  {
    var g := Grid(lightness, chroma, hue);
    RoundedOfGrid(g);
    SnapIsLargestRendered(s, g.Exact());
  }

  // Black ends a downward walk against light colours, white an upward one against dark.
  lemma EndIsLegible(s: Screen, others: seq<Grid>, step: int)
    requires Landmarks(s) && (step == -1 || step == 1)
    requires forall i :: 0 <= i < |others| ==> if step < 0 then LightGrid(others[i]) else DarkGrid(others[i])
    ensures EndClears(s, others, step)
  {
    forall g: Grid, i | g.lightness == End(step) && 0 <= i < |others|
      ensures s.Legible(g.Exact(), others[i].Exact())
    {
      GridFamilies(g);
      GridFamilies(others[i]);
    }
  }

  /** The input clamp puts a brand surface strictly between its two candidate texts, so the
      repair walks away from the text, the end of its walk is legible, and the budget
      reaches it: the surface that comes out is legible under its text. */
  lemma BrandSurfaceIsLegible(s: Screen, start: Oklch)
    requires Landmarks(s) && 0.20 <= start.lightness <= 0.92 && 0.0 <= start.chroma <= 0.22
    ensures var (surface, text) := BrandSurface(s, start);
            s.Legible(text.Exact(), surface.Exact()) && Emittable(s, surface) && Emittable(s, text)
  {
    var surface := Snap(s, start);
    RoundHalfEvenBounds(start.lightness, 20, 92);
    RoundHalfEvenBounds(start.chroma, 0, 22);
    SnapIsLargestRendered(s, start);
    AtIsEmittable(s, 15, 2, surface.hue);
    var text := PickForeground(s, surface);
    var away := AwayFrom(surface, text);
    GridFamilies(NEAR_WHITE);
    EndIsLegible(s, [text], away);
    RepairConverges(s, surface, [text], away, MAX_STEPS);
    var repaired := Repair(s, surface, [text], away, MAX_STEPS);
    assert s.Legible(repaired.Exact(), [text][0].Exact());
  }

  lemma BrandStartClamped(c: Oklch, dark: bool)
    requires 0.0 <= c.chroma
    ensures var start := BrandStart(c, dark);
            0.20 <= start.lightness <= 0.92 && 0.0 <= start.chroma <= 0.22 && (dark ==> 0.62 <= start.lightness)
  {
  }

  lemma TintShares(accentChroma: real)
    requires 0.0 <= accentChroma <= 0.22
    ensures 0 <= RoundHalfEven(accentChroma * 0.1) <= 2 && 0 <= RoundHalfEven(accentChroma * 0.2) <= 4
  {
    RoundHalfEvenBounds(accentChroma * 0.1, 0, 3);
    RoundHalfEvenBounds(accentChroma * 0.2, 0, 5);
  }

  lemma TintIsEmittable(s: Screen, accentChroma: real, hue: int)
    requires s.RendersGreys() && 0.0 <= accentChroma <= 0.22
    ensures var light := Tint(s, 0.96, 0.1, 0.01, accentChroma, hue);
            Emittable(s, light) && light.lightness == 96 && light.chroma <= 2
    ensures var dark := Tint(s, 0.22, 0.2, 0.02, accentChroma, hue);
            Emittable(s, dark) && dark.lightness == 22 && dark.chroma <= 4
  {
    TintShares(accentChroma);
    hide Snap, RoundHalfEven, Emittable;
    var l, d := RoundHalfEven(accentChroma * 0.1), RoundHalfEven(accentChroma * 0.2);
    var light, dark := Grid(96, if l >= 1 then l else 1, hue), Grid(22, if d >= 2 then d else 2, hue);
    AtIsEmittable(s, 96, light.chroma, hue);
    AtIsEmittable(s, 22, dark.chroma, hue);
    assert light.Exact() == Oklch(0.96, Max(0.01, Hundredths(l)), Hundredths(hue));
    assert dark.Exact() == Oklch(0.22, Max(0.02, Hundredths(d)), Hundredths(hue));
  }

  // The constants of a family are emittable, and each belongs to its legibility family.
  lemma FamilyIsEmittable(s: Screen, hue: int, accentHue: int, accentChroma: real, dark: bool)
    requires s.RendersGreys() && 0.0 <= accentChroma <= 0.22
    ensures var f := NeutralFamily(s, hue, accentHue, accentChroma, dark);
            && Emittable(s, f.background) && Emittable(s, f.card) && Emittable(s, f.foreground)
            && Emittable(s, f.muted) && Emittable(s, f.mutedForeground) && Emittable(s, f.border)
            && Emittable(s, f.accent) && Emittable(s, f.accentForeground)
            && (dark ==>
                 && InkGrid(f.background) && InkGrid(f.card) && DarkGrid(f.muted) && DarkGrid(f.accent)
                 && LightGrid(f.foreground) && LightGrid(f.accentForeground)
                 && f.accent.lightness < f.accentForeground.lightness)
            && (!dark ==>
                 && LightGrid(f.background) && LightGrid(f.card) && LightGrid(f.muted) && LightGrid(f.accent)
                 && InkGrid(f.foreground) && DarkGrid(f.accentForeground)
                 && f.accent.lightness > f.accentForeground.lightness)
  {
    TintIsEmittable(s, accentChroma, accentHue);
    hide At, Tint;
    if dark {
      AtIsEmittable(s, 14, 1, hue);
      AtIsEmittable(s, 16, 1, hue);
      AtIsEmittable(s, 98, 1, hue);
      AtIsEmittable(s, 22, 2, hue);
      AtIsEmittable(s, 65, 2, hue);
      AtIsEmittable(s, 25, 2, hue);
      AtIsEmittable(s, 98, 1, accentHue);
    } else {
      AtIsEmittable(s, 99, 0, 0);
      AtIsEmittable(s, 100, 0, 0);
      AtIsEmittable(s, 14, 1, hue);
      AtIsEmittable(s, 96, 1, hue);
      AtIsEmittable(s, 55, 2, hue);
      AtIsEmittable(s, 92, 1, hue);
      AtIsEmittable(s, 20, 2, accentHue);
    }
  }

  // The repaired tint is legible under its text and stays on its side of the scale.
  lemma AccentIsLegible(s: Screen, accent: Grid, text: Grid, dark: bool)
    requires Landmarks(s) && Emittable(s, accent)
    requires if dark then DarkGrid(accent) && LightGrid(text) else LightGrid(accent) && DarkGrid(text)
    ensures var r := RepairedSurface(s, accent, text);
            && s.Legible(text.Exact(), r.Exact()) && Emittable(s, r)
            && (if dark then DarkGrid(r) else LightGrid(r))
  {
    var away := AwayFrom(accent, text);
    EndIsLegible(s, [text], away);
    RepairConverges(s, accent, [text], away, MAX_STEPS);
    var r := RepairedSurface(s, accent, text);
    assert s.Legible(r.Exact(), [text][0].Exact());
    assert 0 <= r.chroma;
  }

  // The muted text ends legible on all three of its surfaces.
  lemma MutedTextIsLegible(s: Screen, f: Family, dark: bool)
    requires Landmarks(s) && Emittable(s, f.mutedForeground)
    requires if dark then DarkGrid(f.muted) && DarkGrid(f.background) && DarkGrid(f.card)
             else LightGrid(f.muted) && LightGrid(f.background) && LightGrid(f.card)
    ensures var r := Repair(s, f.mutedForeground, [f.muted, f.background, f.card], if dark then 1 else -1, MAX_STEPS);
            && Emittable(s, r) && s.Legible(r.Exact(), f.muted.Exact())
            && s.Legible(r.Exact(), f.background.Exact()) && s.Legible(r.Exact(), f.card.Exact())
  {
    var step := if dark then 1 else -1;
    var surfaces := [f.muted, f.background, f.card];
    EndIsLegible(s, surfaces, step);
    RepairConverges(s, f.mutedForeground, surfaces, step, MAX_STEPS);
    var r := Repair(s, f.mutedForeground, surfaces, step, MAX_STEPS);
    assert s.Legible(r.Exact(), surfaces[0].Exact()) && s.Legible(r.Exact(), surfaces[1].Exact())
           && s.Legible(r.Exact(), surfaces[2].Exact());
  }

  ghost predicate PairIsLegible(s: Screen, scheme: Scheme, foreground: Key, background: Key) {
    && foreground in scheme && background in scheme
    && s.Legible(scheme[foreground].Exact(), scheme[background].Exact())
  }

  // All eight measured pairs clear 4.5:1.
  ghost predicate PairsAreLegible(s: Screen, scheme: Scheme) {
    && PairIsLegible(s, scheme, Foreground, Background) && PairIsLegible(s, scheme, CardForeground, Card)
    && PairIsLegible(s, scheme, PrimaryForeground, Primary)
    && PairIsLegible(s, scheme, SecondaryForeground, Secondary)
    && PairIsLegible(s, scheme, AccentForeground, Accent)
    && PairIsLegible(s, scheme, MutedForeground, Muted) && PairIsLegible(s, scheme, MutedForeground, Background)
    && PairIsLegible(s, scheme, MutedForeground, Card)
  }

  ghost predicate AllEmittable(s: Screen, scheme: Scheme) {
    forall k :: k in scheme ==> Emittable(s, scheme[k])
  }

  ghost predicate SurfacesInFamily(scheme: Scheme, dark: bool)
    requires Authored(scheme)
  {
    forall i :: 0 <= i < 4 ==>
      if dark then DarkGrid(TextSurfaces(scheme)[i]) else LightGrid(TextSurfaces(scheme)[i])
  }

  // What the parts of a scheme must satisfy before they are filed under their keys.
  ghost predicate PartsAreLegible(s: Screen, f: Family, primary: (Grid, Grid), secondary: (Grid, Grid),
                                  accent: Grid, mutedForeground: Grid, dark: bool) {
    && Emittable(s, f.background) && Emittable(s, f.card) && Emittable(s, f.foreground)
    && Emittable(s, f.muted) && Emittable(s, f.border) && Emittable(s, f.accentForeground)
    && Emittable(s, primary.0) && Emittable(s, primary.1) && Emittable(s, secondary.0)
    && Emittable(s, secondary.1) && Emittable(s, accent) && Emittable(s, mutedForeground)
    && (if dark then DarkGrid(f.card) && DarkGrid(f.background) && DarkGrid(f.muted) && DarkGrid(accent)
        else LightGrid(f.card) && LightGrid(f.background) && LightGrid(f.muted) && LightGrid(accent))
    && s.Legible(f.foreground.Exact(), f.background.Exact()) && s.Legible(f.foreground.Exact(), f.card.Exact())
    && s.Legible(primary.1.Exact(), primary.0.Exact()) && s.Legible(secondary.1.Exact(), secondary.0.Exact())
    && s.Legible(f.accentForeground.Exact(), accent.Exact())
    && s.Legible(mutedForeground.Exact(), f.muted.Exact())
    && s.Legible(mutedForeground.Exact(), f.background.Exact())
    && s.Legible(mutedForeground.Exact(), f.card.Exact())
  }

  lemma ColoursKeepParts(s: Screen, f: Family, primary: (Grid, Grid), secondary: (Grid, Grid), accent: Grid,
                         mutedForeground: Grid, dark: bool)
    requires PartsAreLegible(s, f, primary, secondary, accent, mutedForeground, dark)
    ensures var c := Colours(f, primary, secondary, accent, mutedForeground);
            && Authored(c) && OnlyAuthored(c) && AllEmittable(s, c)
            && SurfacesInFamily(c, dark) && PairsAreLegible(s, c)
  {
    KeysAreFiled(f, primary, secondary, accent, mutedForeground);
    NeutralsAreFiled(f, primary, secondary, accent, mutedForeground);
    BrandsAreFiled(f, primary, secondary, accent, mutedForeground);
    var c := Colours(f, primary, secondary, accent, mutedForeground);
    hide Emittable, DarkGrid, LightGrid, Colours, Screen.Legible;
    assert SurfacesInFamily(c, dark);
    assert PairsAreLegible(s, c) by { hide SurfacesInFamily; }
    assert AllEmittable(s, c) by { hide SurfacesInFamily, PairsAreLegible; }
    hide SurfacesInFamily, PairsAreLegible, AllEmittable;
  }

  // Which colour is filed under which key.
  lemma KeysAreFiled(f: Family, primary: (Grid, Grid), secondary: (Grid, Grid), accent: Grid, muted: Grid)
    ensures var c := Colours(f, primary, secondary, accent, muted); Authored(c) && OnlyAuthored(c)
  {
  }

  lemma NeutralsAreFiled(f: Family, primary: (Grid, Grid), secondary: (Grid, Grid), accent: Grid, muted: Grid)
    ensures var c := Colours(f, primary, secondary, accent, muted);
            && Authored(c)
            && c[Background] == f.background && c[Card] == f.card && c[Muted] == f.muted && c[Border] == f.border
            && c[Foreground] == f.foreground && c[CardForeground] == f.foreground
            && c[AccentForeground] == f.accentForeground
  {
    KeysAreFiled(f, primary, secondary, accent, muted);
    hide Authored, OnlyAuthored;
  }

  lemma BrandsAreFiled(f: Family, primary: (Grid, Grid), secondary: (Grid, Grid), accent: Grid, muted: Grid)
    ensures var c := Colours(f, primary, secondary, accent, muted);
            && Authored(c)
            && c[Primary] == primary.0 && c[PrimaryForeground] == primary.1
            && c[Secondary] == secondary.0 && c[SecondaryForeground] == secondary.1
            && c[Accent] == accent && c[MutedForeground] == muted
  {
    KeysAreFiled(f, primary, secondary, accent, muted);
    hide Authored, OnlyAuthored;
  }

  lemma SimplePartsAreLegible(s: Screen, primary: Oklch, accent: Oklch, dark: bool)
    requires Landmarks(s) && 0.0 <= primary.chroma && 0.0 <= accent.chroma
    ensures var f := NeutralFamily(s, RoundHalfEven(primary.hue), RoundHalfEven(accent.hue), ClampChroma(accent), dark);
            PartsAreLegible(
              s, f, BrandSurface(s, BrandStart(primary, dark)), BrandSurface(s, BrandStart(accent, dark)),
              RepairedSurface(s, f.accent, f.accentForeground),
              Repair(s, f.mutedForeground, [f.muted, f.background, f.card], if dark then 1 else -1, MAX_STEPS), dark)
  {
    hide RoundHalfEven;
    var hue, accentHue, accentChroma := RoundHalfEven(primary.hue), RoundHalfEven(accent.hue), ClampChroma(accent);
    BrandStartClamped(primary, dark);
    BrandStartClamped(accent, dark);
    BrandSurfaceIsLegible(s, BrandStart(primary, dark));
    BrandSurfaceIsLegible(s, BrandStart(accent, dark));
    FamilyIsEmittable(s, hue, accentHue, accentChroma, dark);
    hide NeutralFamily, BrandSurface, BrandStart, Repair, RepairedSurface;
    var f := NeutralFamily(s, hue, accentHue, accentChroma, dark);
    AccentIsLegible(s, f.accent, f.accentForeground, dark);
    MutedTextIsLegible(s, f, dark);
    GridFamilies(f.foreground);
    GridFamilies(f.background);
    GridFamilies(f.card);
  }

  lemma SimpleColoursAreLegible(s: Screen, primary: Oklch, accent: Oklch, dark: bool)
    requires Landmarks(s) && 0.0 <= primary.chroma && 0.0 <= accent.chroma
    ensures var c := SimpleColours(s, primary, accent, dark);
            && Authored(c) && OnlyAuthored(c) && AllEmittable(s, c)
            && SurfacesInFamily(c, dark) && PairsAreLegible(s, c)
  {
    SimplePartsAreLegible(s, primary, accent, dark);
    hide NeutralFamily, BrandSurface, BrandStart, Repair, RepairedSurface, RoundHalfEven, PartsAreLegible,
         Colours, PairsAreLegible, AllEmittable, ClampChroma, SurfacesInFamily, Authored, OnlyAuthored;
    var f := NeutralFamily(s, RoundHalfEven(primary.hue), RoundHalfEven(accent.hue), ClampChroma(accent), dark);
    ColoursKeepParts(
      s, f, BrandSurface(s, BrandStart(primary, dark)), BrandSurface(s, BrandStart(accent, dark)),
      RepairedSurface(s, f.accent, f.accentForeground),
      Repair(s, f.mutedForeground, [f.muted, f.background, f.card], if dark then 1 else -1, MAX_STEPS), dark);
  }

  // ---------------------------------------------------------------------------
  // Brand text and the derived keys
  // ---------------------------------------------------------------------------

  lemma BrandTextIsLegible(s: Screen, primary: Grid, surfaces: seq<Grid>, dark: bool)
    requires Landmarks(s) && Emittable(s, primary)
    requires forall i :: 0 <= i < |surfaces| ==> if dark then DarkGrid(surfaces[i]) else LightGrid(surfaces[i])
    ensures var text := BrandText(s, primary, surfaces); ClearsAll(s, text, surfaces) && Emittable(s, text)
  {
    var step := if dark then 1 else -1;
    EndIsLegible(s, surfaces, step);
    CandidateOnScale(s, primary, step, StepsToEnd(primary, step));
    BrandTextRule(s, primary, surfaces);
    hide BrandText;
    assert ClearsAll(s, Candidate(s, primary, step, StepsToEnd(primary, step)), surfaces);
    assert !NoneClears(s, primary, surfaces, step);
  }

  ghost predicate Complete(scheme: Scheme) {
    forall k: Key :: k in scheme
  }

  ghost predicate BrandTextLegible(s: Screen, scheme: Scheme) {
    && PairIsLegible(s, scheme, PrimaryText, Card) && PairIsLegible(s, scheme, PrimaryText, Background)
    && PairIsLegible(s, scheme, PrimaryText, Muted) && PairIsLegible(s, scheme, PrimaryText, Accent)
  }

  lemma CopiesComplete(scheme: Scheme, text: Grid)
    requires Authored(scheme) && OnlyAuthored(scheme)
    ensures var d := WithCopies(scheme, text);
            && Complete(d)
            && (forall k :: IsAuthored(k) ==> d[k] == scheme[k])
            && d[Popover] == scheme[Card] && d[PopoverForeground] == scheme[CardForeground]
            && d[Input] == scheme[Border] && d[Ring] == scheme[Primary] && d[PrimaryText] == text
  {
    var d := WithCopies(scheme, text);
    forall k: Key ensures k in d {
      if IsAuthored(k) { assert k in scheme; }
    }
  }

  lemma CopiesKeepLegibility(s: Screen, scheme: Scheme, text: Grid)
    requires Authored(scheme) && OnlyAuthored(scheme) && AllEmittable(s, scheme) && PairsAreLegible(s, scheme)
    requires Emittable(s, text) && ClearsAll(s, text, TextSurfaces(scheme))
    ensures var d := WithCopies(scheme, text);
            Complete(d) && AllEmittable(s, d) && PairsAreLegible(s, d) && BrandTextLegible(s, d)
  {
    var surfaces := TextSurfaces(scheme);
    assert s.Legible(text.Exact(), surfaces[0].Exact()) && s.Legible(text.Exact(), surfaces[1].Exact())
           && s.Legible(text.Exact(), surfaces[2].Exact()) && s.Legible(text.Exact(), surfaces[3].Exact());
    CopiesComplete(scheme, text);
    hide Emittable, WithCopies, OnlyAuthored, ClearsAll, Screen.Legible;
    var d := WithCopies(scheme, text);
    assert AllEmittable(s, d) by { hide PairsAreLegible; }
    assert PairsAreLegible(s, d) by { hide AllEmittable; }
    hide PairsAreLegible, AllEmittable;
  }

  lemma DerivedKeepsLegibility(s: Screen, scheme: Scheme, dark: bool)
    requires Landmarks(s) && Authored(scheme) && OnlyAuthored(scheme)
    requires AllEmittable(s, scheme) && SurfacesInFamily(scheme, dark) && PairsAreLegible(s, scheme)
    ensures var d := Derived(s, scheme);
            Complete(d) && AllEmittable(s, d) && PairsAreLegible(s, d) && BrandTextLegible(s, d)
  {
    BrandTextIsLegible(s, scheme[Primary], TextSurfaces(scheme), dark);
    hide BrandText, PairsAreLegible, Landmarks, SurfacesInFamily, WithCopies, OnlyAuthored, ClearsAll,
         BrandTextLegible, AllEmittable, Complete, Emittable;
    CopiesKeepLegibility(s, scheme, BrandText(s, scheme[Primary], TextSurfaces(scheme)));
  }

  /** Both simple-mode schemes, for every pair of stored colours: every measured pair and
      the brand text on its four surfaces clear 4.5:1, and every one of the eighteen
      colours is on the scale and inside the gamut. */
  lemma SimpleSchemeIsLegible(s: Screen, primary: Oklch, accent: Oklch, dark: bool)
    requires Landmarks(s) && 0.0 <= primary.chroma && 0.0 <= accent.chroma
    ensures var scheme := SimpleScheme(s, primary, accent, dark);
            Complete(scheme) && AllEmittable(s, scheme) && PairsAreLegible(s, scheme) && BrandTextLegible(s, scheme)
  {
    SimpleColoursAreLegible(s, primary, accent, dark);
    var c := SimpleColours(s, primary, accent, dark);
    hide SimpleColours, PairsAreLegible, AllEmittable, SurfacesInFamily, Derived, BrandTextLegible, Complete,
         Landmarks, Authored, OnlyAuthored;
    DerivedKeepsLegibility(s, c, dark);
  }

  // ---------------------------------------------------------------------------
  // The derived scheme is still the tenant's brand
  // ---------------------------------------------------------------------------

  /** The clamp leaves an ordinary brand colour alone, and only a dark scheme lifts it. */
  lemma BrandStartKeepsColour(c: Oklch, dark: bool)
    requires 0.20 <= c.lightness <= 0.92 && 0.0 <= c.chroma <= 0.22
    ensures var start := BrandStart(c, dark);
            && start.chroma == c.chroma && Rounded(start).hue == RoundHalfEven(c.hue)
            && (!dark || 0.62 <= c.lightness ==> start.lightness == c.lightness)
            && (dark && c.lightness < 0.62 ==> start.lightness == 0.62)
  {
    RoundHalfEvenOnGrid(RoundHalfEven(c.hue));
  }

  /** A brand surface keeps its hue and never gains chroma, moves only away from its text,
      and is the snapped start itself when that is already legible. */
  lemma BrandSurfaceKeepsBrand(s: Screen, start: Oklch)
    requires Landmarks(s) && 0.20 <= start.lightness <= 0.92 && 0.0 <= start.chroma <= 0.22
    ensures var (surface, text) := BrandSurface(s, start); var snapped := Snap(s, start);
            && surface.hue == RoundHalfEven(start.hue) && surface.chroma <= RoundHalfEven(start.chroma)
            && (if text == NEAR_WHITE then surface.lightness <= snapped.lightness
                else snapped.lightness <= surface.lightness)
            && (s.Legible(snapped.Exact(), text.Exact()) ==> surface == snapped)
  {
    var snapped := Snap(s, start);
    RoundHalfEvenBounds(start.lightness, 20, 92);
    RoundHalfEvenBounds(start.chroma, 0, 22);
    SnapIsLargestRendered(s, start);
    AtIsEmittable(s, 15, 2, snapped.hue);
    var text := PickForeground(s, snapped);
    var away := AwayFrom(snapped, text);
    GridFamilies(NEAR_WHITE);
    EndIsLegible(s, [text], away);
    RepairConverges(s, snapped, [text], away, MAX_STEPS);
    if s.Legible(snapped.Exact(), text.Exact()) { assert ClearsAll(s, snapped, [text]); }
  }

  lemma BrandHues(s: Screen, primary: Oklch, accent: Oklch, dark: bool)
    requires Landmarks(s) && 0.0 <= primary.chroma && 0.0 <= accent.chroma
    ensures var c := SimpleColours(s, primary, accent, dark);
            && Primary in c && c[Primary].hue == RoundHalfEven(primary.hue)
            && Secondary in c && c[Secondary].hue == RoundHalfEven(accent.hue)
  {
    BrandStartClamped(primary, dark);
    BrandStartClamped(accent, dark);
    RoundHalfEvenOnGrid(RoundHalfEven(primary.hue));
    RoundHalfEvenOnGrid(RoundHalfEven(accent.hue));
    BrandSurfaceKeepsBrand(s, BrandStart(primary, dark));
    BrandSurfaceKeepsBrand(s, BrandStart(accent, dark));
    hide BrandSurface, RoundHalfEven, Landmarks, Repair, RepairedSurface, NeutralFamily;
  }

  /** Both schemes carry the tenant's hues: the brand surface, its ring and its text that of
      the primary, the second surface that of the accent. */
  lemma SimpleSchemeKeepsHues(s: Screen, primary: Oklch, accent: Oklch, dark: bool)
    requires Landmarks(s) && 0.0 <= primary.chroma && 0.0 <= accent.chroma
    ensures var scheme := SimpleScheme(s, primary, accent, dark);
            && Complete(scheme)
            && scheme[Primary].hue == scheme[Ring].hue == scheme[PrimaryText].hue == RoundHalfEven(primary.hue)
            && scheme[Secondary].hue == RoundHalfEven(accent.hue)
  {
    SimpleColoursAreLegible(s, primary, accent, dark);
    var c := SimpleColours(s, primary, accent, dark);
    BrandHues(s, primary, accent, dark);
    assert s.RendersGreys() && OnScale(c[Primary]);
    hide SimpleColours, SurfacesInFamily, PairsAreLegible, Landmarks, RoundHalfEven;
    BrandTextRule(s, c[Primary], TextSurfaces(c));
    CopiesComplete(c, BrandText(s, c[Primary], TextSurfaces(c)));
    hide WithCopies, BrandText;
  }

  // ---------------------------------------------------------------------------
  // The audit of the emitted strings
  // ---------------------------------------------------------------------------

  // The failing ratio is reported to two decimals, in hundredths.
  datatype Failure = Failure(foreground: Key, background: Key, ratio: int)

  function Emit(scheme: Scheme): map<Key, string>
    requires Complete(scheme)
  {
    map k | k in scheme :: FormatOklch(scheme[k])
  }

  // The ratio of one pair of strings; None is the parser's refusal.
  function Measure(s: Screen, foreground: string, background: string): Option<real> {
    match (ParseOklch(foreground), ParseOklch(background))
    case (Some(x), Some(y)) => Some(s.ratio(x, y))
    case _ => None
  }

  function Report(pair: (Key, Key), ratio: real): seq<Failure> {
    if ratio < MINIMUM_CONTRAST_RATIO then [Failure(pair.0, pair.1, RoundHalfEven(ratio))] else []
  }

  ghost predicate Covers(scheme: map<Key, string>, pairs: seq<(Key, Key)>) {
    forall i :: 0 <= i < |pairs| ==> pairs[i].0 in scheme && pairs[i].1 in scheme
  }

  function Audit(s: Screen, scheme: map<Key, string>, pairs: seq<(Key, Key)>): Option<seq<Failure>>
    requires Covers(scheme, pairs)
  {
    if pairs == [] then Some([])
    else
      var last := pairs[|pairs| - 1];
      match Audit(s, scheme, pairs[..|pairs| - 1])
      case None => None
      case Some(failures) =>
        match Measure(s, scheme[last.0], scheme[last.1])
        case None => None
        case Some(ratio) => Some(failures + Report(last, ratio))
  }

  // A refused prefix refuses the whole audit.
  lemma {:induction false} AuditRefusal(s: Screen, scheme: map<Key, string>, pairs: seq<(Key, Key)>, i: nat)
    requires Covers(scheme, pairs) && i <= |pairs| && Audit(s, scheme, pairs[..i]) == None
    ensures Audit(s, scheme, pairs) == None
  {
    if i == |pairs| {
      assert pairs[..i] == pairs;
    } else {
      var front := pairs[..|pairs| - 1];
      assert front[..i] == pairs[..i];
      AuditRefusal(s, scheme, front, i);
    }
  }

  /** `audit_contrast` */
  method AuditContrast(s: Screen, scheme: map<Key, string>) returns (r: Option<seq<Failure>>)
    requires Covers(scheme, MEASURED_PAIRS)
    ensures r == Audit(s, scheme, MEASURED_PAIRS)
  {
    hide Measure, Report;
    var failures := [];
    for i := 0 to |MEASURED_PAIRS|
      invariant Audit(s, scheme, MEASURED_PAIRS[..i]) == Some(failures)
    {
      var pair := MEASURED_PAIRS[i];
      assert MEASURED_PAIRS[..i + 1][..i] == MEASURED_PAIRS[..i];
      assert MEASURED_PAIRS[..i + 1][i] == pair;
      var ratio := Measure(s, scheme[pair.0], scheme[pair.1]);
      if ratio == None {
        AuditRefusal(s, scheme, MEASURED_PAIRS, i + 1);
        return None;
      }
      failures := failures + Report(pair, ratio.value);
    }
    assert MEASURED_PAIRS[..|MEASURED_PAIRS|] == MEASURED_PAIRS;
    return Some(failures);
  }

  // The pairs of the internal scheme under 4.5:1, in order.
  function Failing(s: Screen, scheme: Scheme, pairs: seq<(Key, Key)>): seq<Failure>
    requires Complete(scheme)
  {
    if pairs == [] then []
    else
      var last := pairs[|pairs| - 1];
      Failing(s, scheme, pairs[..|pairs| - 1])
      + Report(last, s.ratio(scheme[last.0].Exact(), scheme[last.1].Exact()))
  }

  lemma MeasureReadsTheScheme(s: Screen, scheme: Scheme, foreground: Key, background: Key)
    requires Complete(scheme)
    ensures Measure(s, Emit(scheme)[foreground], Emit(scheme)[background])
            == Some(s.ratio(scheme[foreground].Exact(), scheme[background].Exact()))
  {
    OklchRoundTrip(scheme[foreground]);
    OklchRoundTrip(scheme[background]);
    hide ParseOklch, FormatOklch;
  }

  /** Printing loses nothing that matters to the audit: run on the emitted strings it reports
      the pairs that fail on the internal scheme, no others, in order. */
  lemma {:induction false} AuditReadsTheScheme(s: Screen, scheme: Scheme, pairs: seq<(Key, Key)>)
    requires Complete(scheme)
    ensures Audit(s, Emit(scheme), pairs) == Some(Failing(s, scheme, pairs))
  {
    if pairs != [] {
      var last := pairs[|pairs| - 1];
      MeasureReadsTheScheme(s, scheme, last.0, last.1);
      AuditReadsTheScheme(s, scheme, pairs[..|pairs| - 1]);
      hide Measure, Report, FormatOklch;
    }
  }

  predicate IsTextSurface(k: Key) { k.Card? || k.Background? || k.Muted? || k.Accent? }

  // Every emitted string reads back as a colour of the scale that renders unmapped.
  ghost predicate ReadsIntoGamut(s: Screen, emitted: map<Key, string>) {
    forall k: Key :: k in emitted &&
      var c := ParseOklch(emitted[k]); c.Some? && s.renders(c.value) && 0.0 <= c.value.lightness <= 1.0
  }

  ghost predicate BrandTextClears(s: Screen, emitted: map<Key, string>)
    requires forall k: Key :: k in emitted
  {
    forall k: Key :: IsTextSurface(k) ==>
      var ratio := Measure(s, emitted[PrimaryText], emitted[k]); ratio.Some? && ratio.value >= MINIMUM_CONTRAST_RATIO
  }

  // No measured pair fails, and the brand text clears its four surfaces.
  ghost predicate Accessible(s: Screen, emitted: map<Key, string>) {
    && (forall k: Key :: k in emitted)
    && ReadsIntoGamut(s, emitted)
    && Audit(s, emitted, MEASURED_PAIRS) == Some([])
    && BrandTextClears(s, emitted)
  }

  lemma {:induction false} NothingFails(s: Screen, scheme: Scheme, pairs: seq<(Key, Key)>)
    requires Complete(scheme)
    requires forall i :: 0 <= i < |pairs| ==> PairIsLegible(s, scheme, pairs[i].0, pairs[i].1)
    ensures Failing(s, scheme, pairs) == []
  {
    if pairs != [] {
      NothingFails(s, scheme, pairs[..|pairs| - 1]);
      assert PairIsLegible(s, scheme, pairs[|pairs| - 1].0, pairs[|pairs| - 1].1);
    }
  }

  lemma MeasuredPairsAreLegible(s: Screen, scheme: Scheme)
    requires PairsAreLegible(s, scheme)
    ensures forall i :: 0 <= i < |MEASURED_PAIRS| ==> PairIsLegible(s, scheme, MEASURED_PAIRS[i].0, MEASURED_PAIRS[i].1)
  {
    hide PairIsLegible;
  }

  lemma EmittedReadsIntoGamut(s: Screen, scheme: Scheme)
    requires Complete(scheme) && AllEmittable(s, scheme)
    ensures ReadsIntoGamut(s, Emit(scheme))
  {
    hide ParseOklch, FormatOklch;
    forall k: Key ensures ParseOklch(Emit(scheme)[k]) == Some(scheme[k].Exact()) {
      OklchRoundTrip(scheme[k]);
    }
    forall k: Key ensures Emittable(s, scheme[k]) && 0.0 <= scheme[k].Exact().lightness <= 1.0 {
    }
  }

  lemma EmittedBrandTextClears(s: Screen, scheme: Scheme)
    requires Complete(scheme) && BrandTextLegible(s, scheme)
    ensures BrandTextClears(s, Emit(scheme))
  {
    hide Measure, FormatOklch;
    forall k: Key | IsTextSurface(k)
      ensures Measure(s, Emit(scheme)[PrimaryText], Emit(scheme)[k])
              == Some(s.ratio(scheme[PrimaryText].Exact(), scheme[k].Exact())) {
      MeasureReadsTheScheme(s, scheme, PrimaryText, k);
    }
  }

  lemma LegibleSchemeIsAccessible(s: Screen, scheme: Scheme)
    requires Complete(scheme) && AllEmittable(s, scheme) && PairsAreLegible(s, scheme) && BrandTextLegible(s, scheme)
    ensures Accessible(s, Emit(scheme))
  {
    EmittedReadsIntoGamut(s, scheme);
    EmittedBrandTextClears(s, scheme);
    MeasuredPairsAreLegible(s, scheme);
    hide PairsAreLegible, PairIsLegible, Audit, Failing, ReadsIntoGamut, BrandTextClears, BrandTextLegible,
         AllEmittable;
    AuditReadsTheScheme(s, scheme, MEASURED_PAIRS);
    NothingFails(s, scheme, MEASURED_PAIRS);
  }

  /** The whole-pipeline guarantee of simple mode: for every two stored colours, at every
      hue, both emitted schemes pass the audit with no failure, their brand text clears its
      surfaces, and every emitted string is a colour the browser paints unmapped. */
  lemma SimpleThemeIsAccessible(m: Maths, primary: Oklch, accent: Oklch, dark: bool)
    requires m.Pythagorean() && 0.0 <= primary.chroma && 0.0 <= accent.chroma
    ensures Complete(SimpleScheme(Browser(m), primary, accent, dark))
    ensures Accessible(Browser(m), Emit(SimpleScheme(Browser(m), primary, accent, dark)))
  {
    BrowserHasLandmarks(m);
    hide Browser, SimpleScheme, Accessible;
    SimpleSchemeIsLegible(Browser(m), primary, accent, dark);
    LegibleSchemeIsAccessible(Browser(m), SimpleScheme(Browser(m), primary, accent, dark));
  }
}
