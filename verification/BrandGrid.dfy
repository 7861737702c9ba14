/** The emittable grid of `branding.py`: the snap, the two repairs and the brand-text walk.
    A snapped colour has two-decimal components, kept here as integer hundredths. */
module BrandGrid {
  import opened Colour
  import opened Options
  import opened Rounding

  /** What the grid walks ask of a display: which colours it renders without mapping them,
      and the contrast ratio of two colours as painted. `Browser` is the one they get. */
  datatype Screen = Screen(renders: Oklch -> bool, ratio: (Oklch, Oklch) -> real)
  {
    predicate Legible(first: Oklch, second: Oklch) {
      ratio(first, second) >= MINIMUM_CONTRAST_RATIO
    }

    ghost predicate RendersGreys() {
      forall c: Oklch :: c.chroma == 0.0 && 0.0 <= c.lightness <= 1.0 ==> renders(c)
    }

    ghost predicate Symmetric() {
      forall x, y :: ratio(x, y) == ratio(y, x)
    }
  }

  function Browser(m: Maths): Screen {
    Screen(c => InGamut(m, c), (x, y) => ContrastRatio(m, x, y))
  }

  lemma BrowserIsSound(m: Maths)
    ensures Browser(m).RendersGreys() && Browser(m).Symmetric()
  {
    hide InGamut, PaintedLuminance, Ratio;
    forall c: Oklch | c.chroma == 0.0 && 0.0 <= c.lightness <= 1.0 ensures Browser(m).renders(c) {
      GreyInGamut(m, c);
    }
    forall x, y ensures Browser(m).ratio(x, y) == Browser(m).ratio(y, x) {
      PaintedChannels(m, x);
      PaintedChannels(m, y);
      RatioRange(PaintedLuminance(m, x), PaintedLuminance(m, y));
    }
  }

  // A colour of the emittable grid, in hundredths.
  datatype Grid = Grid(lightness: int, chroma: int, hue: int)
  {
    function Exact(): Oklch {
      Oklch(Hundredths(lightness), Hundredths(chroma), Hundredths(hue))
    }
  }

  const MAX_STEPS: nat := 100

  // ---------------------------------------------------------------------------
  // The snap
  // ---------------------------------------------------------------------------

  // Chroma lowered one hundredth at a time until the colour renders.
  function ReduceChroma(s: Screen, g: Grid, budget: nat): Grid
    decreases budget, s
  {
    if g.chroma > 0 && !s.renders(g.Exact()) && budget > 0
    then ReduceChroma(s, g.(chroma := g.chroma - 1), budget - 1)
    else g
  }

  function Rounded(c: Oklch): Grid {
    Grid(RoundHalfEven(c.lightness), RoundHalfEven(c.chroma), RoundHalfEven(c.hue))
  }

  function Snap(s: Screen, c: Oklch): Grid {
    ReduceChroma(s, Rounded(c), MAX_STEPS)
  }

  method SnapToGamut(s: Screen, c: Oklch) returns (snapped: Grid)
    ensures snapped == Snap(s, c)
  {
    snapped := Rounded(c);
    var steps := 0;
    while snapped.chroma > 0 && !s.renders(snapped.Exact()) && steps < MAX_STEPS
      invariant 0 <= steps <= MAX_STEPS
      invariant Snap(s, c) == ReduceChroma(s, snapped, MAX_STEPS - steps)
      decreases MAX_STEPS - steps
    {
      snapped := snapped.(chroma := snapped.chroma - 1);
      steps := steps + 1;
    }
  }

  // `best` is the colour of the largest grid chroma, not above the one of `wanted`, that
  // renders at the lightness and hue of `wanted`.
  ghost predicate LargestRenderedChroma(s: Screen, wanted: Grid, best: Grid) {
    && best == wanted.(chroma := best.chroma)
    && 0 <= best.chroma <= wanted.chroma
    && s.renders(best.Exact())
    && forall k :: best.chroma < k <= wanted.chroma ==> !s.renders(wanted.(chroma := k).Exact())
  }

  lemma {:induction false} ReduceChromaFindsLargest(s: Screen, g: Grid, budget: nat)
    requires s.RendersGreys()
    requires 0 <= g.lightness <= 100 && 0 <= g.chroma <= budget
    ensures LargestRenderedChroma(s, g, ReduceChroma(s, g, budget))
    decreases budget
  {
    if g.chroma > 0 && !s.renders(g.Exact()) {
      ReduceChromaFindsLargest(s, g.(chroma := g.chroma - 1), budget - 1);
      assert g.(chroma := g.chroma) == g;
    }
  }

  lemma RoundedOfGrid(g: Grid)
    ensures Rounded(g.Exact()) == g
  {
    RoundHalfEvenOnGrid(g.lightness);
    RoundHalfEvenOnGrid(g.chroma);
    RoundHalfEvenOnGrid(g.hue);
  }

  /** The snap ends in gamut, at the largest rendered grid chroma not above the rounded
      one, keeping the rounded lightness and hue; snapping again changes nothing. */
  lemma SnapIsLargestRendered(s: Screen, c: Oklch)
    requires s.RendersGreys()
    requires 0.0 <= c.lightness <= 1.0 && 0.0 <= c.chroma <= 1.0
    ensures LargestRenderedChroma(s, Rounded(c), Snap(s, c))
    ensures Snap(s, Snap(s, c).Exact()) == Snap(s, c)
  {
    RoundHalfEvenBounds(c.lightness, 0, 100);
    RoundHalfEvenBounds(c.chroma, 0, 100);
    ReduceChromaFindsLargest(s, Rounded(c), MAX_STEPS);
    RoundedOfGrid(Snap(s, c));
  }

  /** A snapped colour strictly between black and white is painted as its own clip: the
      browser's gamut mapping has nothing left to do. */
  lemma SnappedPaintsItsOwnClip(m: Maths, c: Oklch)
    requires 0.0 <= c.lightness <= 1.0 && 0.0 <= c.chroma <= 1.0
    requires 0 < Snap(Browser(m), c).lightness < 100
    ensures var snapped := Snap(Browser(m), c).Exact(); Paint(m, snapped) == Clipped(m, snapped)
  {
    BrowserIsSound(m);
    SnapIsLargestRendered(Browser(m), c);
  }

  // ---------------------------------------------------------------------------
  // The repairs
  // ---------------------------------------------------------------------------

  predicate ClearsAll(s: Screen, text: Grid, surfaces: seq<Grid>) {
    forall i :: 0 <= i < |surfaces| ==> s.Legible(text.Exact(), surfaces[i].Exact())
  }

  // One step of a walk: the lightness moves, the chroma is snapped back into the gamut.
  function Step(s: Screen, g: Grid, step: int): Grid {
    Snap(s, g.(lightness := g.lightness + step).Exact())
  }

  // At most `budget` steps, stopping at the first colour that clears every surface.
  function Repair(s: Screen, g: Grid, surfaces: seq<Grid>, step: int, budget: nat): Grid
    decreases budget, s
  {
    if budget == 0 || ClearsAll(s, g, surfaces) then g
    else Repair(s, Step(s, g, step), surfaces, step, budget - 1)
  }

  function AwayFrom(surface: Grid, text: Grid): int {
    if text.lightness > surface.lightness then -1 else 1
  }

  /** `_repair_surface`: the non-text side moves away from its text. */
  method RepairSurface(s: Screen, surface: Grid, text: Grid) returns (current: Grid)
    ensures current == Repair(s, surface, [text], AwayFrom(surface, text), MAX_STEPS)
  {
    hide Snap;
    var away := AwayFrom(surface, text);
    current := surface;
    for i := 0 to MAX_STEPS
      invariant Repair(s, surface, [text], away, MAX_STEPS) == Repair(s, current, [text], away, MAX_STEPS - i)
    {
      if s.Legible(current.Exact(), text.Exact()) { break; }
      assert !ClearsAll(s, current, [text]) by { assert [text][0] == text; }
      current := SnapToGamut(s, current.(lightness := current.lightness + away).Exact());
    }
  }

  /** `_repair_text`: the text side moves until it clears every surface. */
  method RepairText(s: Screen, text: Grid, surfaces: seq<Grid>, down: bool) returns (current: Grid)
    ensures current == Repair(s, text, surfaces, if down then -1 else 1, MAX_STEPS)
  {
    hide Snap, ClearsAll;
    var step := if down then -1 else 1;
    current := text;
    for i := 0 to MAX_STEPS
      invariant Repair(s, text, surfaces, step, MAX_STEPS) == Repair(s, current, surfaces, step, MAX_STEPS - i)
    {
      if ClearsAll(s, current, surfaces) { break; }
      current := SnapToGamut(s, current.(lightness := current.lightness + step).Exact());
    }
  }

  ghost predicate OnScale(g: Grid) {
    0 <= g.lightness <= 100 && 0 <= g.chroma <= 100
  }

  // A colour the theme may emit: on the scale and inside the gamut.
  ghost predicate Emittable(s: Screen, g: Grid) {
    OnScale(g) && s.renders(g.Exact())
  }

  lemma StepOnScale(s: Screen, g: Grid, step: int)
    requires s.RendersGreys()
    requires OnScale(g) && 0 <= g.lightness + step <= 100
    ensures var n := Step(s, g, step);
            Emittable(s, n) && n.lightness == g.lightness + step && n.chroma <= g.chroma && n.hue == g.hue
  {
    var moved := g.(lightness := g.lightness + step);
    RoundedOfGrid(moved);
    SnapIsLargestRendered(s, moved.Exact());
  }

  // The lightness at the end of a walk in the given direction.
  function End(step: int): int { if step < 0 then 0 else 100 }

  // Whatever its chroma and hue, a colour of the end lightness clears the surfaces.
  ghost predicate EndClears(s: Screen, surfaces: seq<Grid>, step: int) {
    forall g: Grid :: g.lightness == End(step) ==> ClearsAll(s, g, surfaces)
  }

  // How many unit steps separate a colour from the end of its walk.
  function StepsToEnd(g: Grid, step: int): int {
    if step < 0 then g.lightness else 100 - g.lightness
  }

  /** When the end of the walk is legible and the budget reaches it, the repair ends on a
      legible colour of the same hue and no more chroma, inside the lightness scale. */
  lemma {:induction false} RepairConverges(s: Screen, g: Grid, surfaces: seq<Grid>, step: int, budget: nat)
    requires s.RendersGreys()
    requires OnScale(g) && (step == -1 || step == 1)
    requires EndClears(s, surfaces, step) && StepsToEnd(g, step) <= budget
    ensures var r := Repair(s, g, surfaces, step, budget);
            && ClearsAll(s, r, surfaces) && OnScale(r) && r.hue == g.hue && r.chroma <= g.chroma
            && (if step < 0 then r.lightness <= g.lightness else g.lightness <= r.lightness)
            && (s.renders(g.Exact()) ==> s.renders(r.Exact()))
    decreases budget
  {
    if ClearsAll(s, g, surfaces) {
    } else {
      assert g.lightness != End(step);
      StepOnScale(s, g, step);
      RepairConverges(s, Step(s, g, step), surfaces, step, budget - 1);
    }
  }

  /** A repair stops at the first colour of its walk that clears, or at the end of its budget. */
  lemma {:induction false} RepairStopsFirst(s: Screen, g: Grid, surfaces: seq<Grid>, step: int, budget: nat)
    returns (k: nat)
    ensures k <= budget && Repair(s, g, surfaces, step, budget) == Candidate(s, g, step, k)
    ensures forall j: nat :: j < k ==> !ClearsAll(s, Candidate(s, g, step, j), surfaces)
    ensures k < budget ==> ClearsAll(s, Candidate(s, g, step, k), surfaces)
    decreases budget
  {
    hide Snap, ClearsAll;
    assert Candidate(s, g, step, 0) == g;
    if budget == 0 || ClearsAll(s, g, surfaces) {
      k := 0;
    } else {
      var next := Step(s, g, step);
      var k' := RepairStopsFirst(s, next, surfaces, step, budget - 1);
      k := k' + 1;
      assert Candidate(s, g, step, k) == Candidate(s, next, step, k');
      forall j: nat | j < k ensures !ClearsAll(s, Candidate(s, g, step, j), surfaces) {
        if j > 0 { assert Candidate(s, g, step, j) == Candidate(s, next, step, j - 1); }
      }
    }
  }

  // ---------------------------------------------------------------------------
  // Brand text
  // ---------------------------------------------------------------------------

  // A walk that tests at most `tests` values and never leaves the lightness scale.
  function Walk(s: Screen, text: Grid, surfaces: seq<Grid>, step: int, tests: nat): Option<Grid>
    decreases tests, s
  {
    if tests == 0 then None
    else if ClearsAll(s, text, surfaces) then Some(text)
    else if !(0 <= text.lightness + step <= 100) then None
    else Walk(s, Step(s, text, step), surfaces, step, tests - 1)
  }

  /** `_walk_to_legible_text` */
  method WalkToLegibleText(s: Screen, text: Grid, surfaces: seq<Grid>, step: int) returns (r: Option<Grid>)
    ensures r == Walk(s, text, surfaces, step, MAX_STEPS + 1)
  {
    hide Snap, ClearsAll;
    var current := text;
    for i := 0 to MAX_STEPS + 1
      invariant Walk(s, text, surfaces, step, MAX_STEPS + 1) == Walk(s, current, surfaces, step, MAX_STEPS + 1 - i)
    {
      if ClearsAll(s, current, surfaces) { return Some(current); }
      var lightness := current.lightness + step;
      if !(0 <= lightness <= 100) { return None; }
      current := SnapToGamut(s, current.(lightness := lightness).Exact());
    }
    return None;
  }

  function BrandText(s: Screen, primary: Grid, surfaces: seq<Grid>): Grid {
    match Walk(s, primary, surfaces, -1, MAX_STEPS + 1)
    case Some(down) => down
    case None =>
      match Walk(s, primary, surfaces, 1, MAX_STEPS + 1)
      case Some(up) => up
      case None => primary
  }

  // The colour `k` steps along a walk.
  function Candidate(s: Screen, text: Grid, step: int, k: nat): Grid
    decreases k, s
  {
    if k == 0 then text else Candidate(s, Step(s, text, step), step, k - 1)
  }

  // The lightness `k` steps along a walk.
  function Ahead(g: Grid, step: int, k: nat): int {
    if step < 0 then g.lightness - k else g.lightness + k
  }

  lemma {:induction false} CandidateOnScale(s: Screen, text: Grid, step: int, k: nat)
    requires s.RendersGreys()
    requires OnScale(text) && (step == -1 || step == 1) && k <= StepsToEnd(text, step)
    ensures var c := Candidate(s, text, step, k);
            && OnScale(c) && c.lightness == Ahead(text, step, k) && c.chroma <= text.chroma && c.hue == text.hue
            && (s.renders(text.Exact()) ==> s.renders(c.Exact()))
    decreases k
  {
    hide Screen.RendersGreys, Snap;
    if k > 0 {
      StepOnScale(s, text, step);
      CandidateOnScale(s, Step(s, text, step), step, k - 1);
    }
  }

  // The walk ends at its `k`-th candidate, the first that clears every surface.
  ghost predicate FirstClearing(s: Screen, text: Grid, surfaces: seq<Grid>, step: int, k: nat) {
    && k <= StepsToEnd(text, step)
    && ClearsAll(s, Candidate(s, text, step, k), surfaces)
    && forall j: nat :: j < k ==> !ClearsAll(s, Candidate(s, text, step, j), surfaces)
  }

  ghost predicate NoneClears(s: Screen, text: Grid, surfaces: seq<Grid>, step: int) {
    forall j: nat :: j <= StepsToEnd(text, step) ==> !ClearsAll(s, Candidate(s, text, step, j), surfaces)
  }

  // With a test for each colour up to the end of the scale, the walk finds the first
  // candidate that clears; finding none means no candidate clears.
  lemma {:induction false} WalkFindsFirst(s: Screen, text: Grid, surfaces: seq<Grid>, step: int, tests: nat)
    returns (k: nat)
    requires s.RendersGreys()
    requires OnScale(text) && (step == -1 || step == 1) && StepsToEnd(text, step) < tests
    ensures match Walk(s, text, surfaces, step, tests)
            case Some(r) => FirstClearing(s, text, surfaces, step, k) && r == Candidate(s, text, step, k)
            case None => NoneClears(s, text, surfaces, step)
    decreases tests
  {
    hide Snap, ClearsAll;
    k := 0;
    if ClearsAll(s, text, surfaces) {
      assert Candidate(s, text, step, 0) == text;
    } else if 0 <= text.lightness + step <= 100 {
      StepOnScale(s, text, step);
      var next := Step(s, text, step);
      var k' := WalkFindsFirst(s, next, surfaces, step, tests - 1);
      k := k' + 1;
      assert forall j: nat :: Candidate(s, text, step, j + 1) == Candidate(s, next, step, j);
      if Walk(s, next, surfaces, step, tests - 1).Some? {
        forall j: nat | j < k ensures !ClearsAll(s, Candidate(s, text, step, j), surfaces) {
          if j > 0 { assert Candidate(s, text, step, j) == Candidate(s, next, step, j - 1); }
        }
      } else {
        forall j: nat | j <= StepsToEnd(text, step) ensures !ClearsAll(s, Candidate(s, text, step, j), surfaces) {
          if j > 0 { assert Candidate(s, text, step, j) == Candidate(s, next, step, j - 1); }
        }
      }
    }
  }

  /** The test budget, exactly: when the first clearing colour is `k` steps away, the walk
      finds it if it may test more than `k` values and gives up otherwise. A walk across
      the whole scale therefore needs all 101 tests. */
  lemma {:induction false} WalkBudget(s: Screen, text: Grid, surfaces: seq<Grid>, step: int, tests: nat, k: nat)
    requires s.RendersGreys() && OnScale(text) && (step == -1 || step == 1)
    requires FirstClearing(s, text, surfaces, step, k)
    ensures Walk(s, text, surfaces, step, tests)
            == if k < tests then Some(Candidate(s, text, step, k)) else None
    decreases k
  {
    hide Snap, ClearsAll, Screen.RendersGreys;
    assert Candidate(s, text, step, 0) == text;
    if k > 0 && tests > 0 {
      var next := Step(s, text, step);
      assert !ClearsAll(s, Candidate(s, text, step, 0), surfaces);
      StepOnScale(s, text, step);
      assert Candidate(s, next, step, k - 1) == Candidate(s, text, step, k);
      forall j: nat | j < k - 1 ensures !ClearsAll(s, Candidate(s, next, step, j), surfaces) {
        assert Candidate(s, text, step, j + 1) == Candidate(s, next, step, j);
      }
      WalkBudget(s, next, surfaces, step, tests - 1, k - 1);
    }
  }

  /** The stop after the last of the 101 tests is never what ends a walk: any larger budget
      gives the same result. */
  lemma BudgetStopUnreachable(s: Screen, text: Grid, surfaces: seq<Grid>, step: int, tests: nat)
    requires s.RendersGreys() && OnScale(text) && (step == -1 || step == 1)
    requires MAX_STEPS + 1 <= tests
    ensures Walk(s, text, surfaces, step, tests) == Walk(s, text, surfaces, step, MAX_STEPS + 1)
  {
    var k := WalkFindsFirst(s, text, surfaces, step, MAX_STEPS + 1);
    if Walk(s, text, surfaces, step, MAX_STEPS + 1).Some? {
      WalkBudget(s, text, surfaces, step, tests, k);
    } else {
      var k' := WalkFindsFirst(s, text, surfaces, step, tests);
    }
  }

  /** Rules 1 to 3 of `derive_brand_text`: the first clearing colour of the downward walk,
      else the first of the upward walk, else the brand unchanged, and the last exactly
      when no colour of either walk clears. The hue stays and the chroma never grows. */
  lemma BrandTextRule(s: Screen, primary: Grid, surfaces: seq<Grid>)
    requires s.RendersGreys() && OnScale(primary)
    ensures var r := BrandText(s, primary, surfaces);
            && OnScale(r) && r.hue == primary.hue && r.chroma <= primary.chroma
            && (s.renders(primary.Exact()) ==> s.renders(r.Exact()))
            && (!NoneClears(s, primary, surfaces, -1) ==>
                 exists k: nat :: FirstClearing(s, primary, surfaces, -1, k) && r == Candidate(s, primary, -1, k))
            && (NoneClears(s, primary, surfaces, -1) && !NoneClears(s, primary, surfaces, 1) ==>
                 exists k: nat :: FirstClearing(s, primary, surfaces, 1, k) && r == Candidate(s, primary, 1, k))
            && (NoneClears(s, primary, surfaces, -1) && NoneClears(s, primary, surfaces, 1) ==> r == primary)
            && (ClearsAll(s, r, surfaces) <==>
                 !(NoneClears(s, primary, surfaces, -1) && NoneClears(s, primary, surfaces, 1)))
  {
    var down := WalkFindsFirst(s, primary, surfaces, -1, MAX_STEPS + 1);
    var up := WalkFindsFirst(s, primary, surfaces, 1, MAX_STEPS + 1);
    if Walk(s, primary, surfaces, -1, MAX_STEPS + 1).Some? {
      CandidateOnScale(s, primary, -1, down);
    } else if Walk(s, primary, surfaces, 1, MAX_STEPS + 1).Some? {
      CandidateOnScale(s, primary, 1, up);
    } else {
      assert Candidate(s, primary, 1, 0) == primary;
    }
  }

  /** Between them the two walks test every lightness of the grid. */
  lemma WalksCoverTheScale(s: Screen, primary: Grid, lightness: int) returns (step: int, k: nat)
    requires s.RendersGreys() && OnScale(primary) && 0 <= lightness <= 100
    ensures (step == -1 || step == 1) && k <= StepsToEnd(primary, step) && k < MAX_STEPS + 1
    ensures Candidate(s, primary, step, k).lightness == lightness
  {
    step := if lightness <= primary.lightness then -1 else 1;
    k := if step < 0 then primary.lightness - lightness else lightness - primary.lightness;
    CandidateOnScale(s, primary, step, k);
  }

  // The brand placed at a lightness: its hue, and as much of its chroma as renders there.
  function PlacedAt(s: Screen, brand: Grid, lightness: int): Grid {
    Snap(s, brand.(lightness := lightness).Exact())
  }

  lemma PlacedIsLargest(s: Screen, brand: Grid, lightness: int)
    requires s.RendersGreys() && OnScale(brand) && 0 <= lightness <= 100
    ensures LargestRenderedChroma(s, brand.(lightness := lightness), PlacedAt(s, brand, lightness))
  {
    RoundedOfGrid(brand.(lightness := lightness));
    SnapIsLargestRendered(s, brand.(lightness := lightness).Exact());
  }
}
