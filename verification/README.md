# Verified model of the condominium backend

A Dafny model of the parts of the backend whose correctness rests on more than one function:
the brand-colour derivation, tenant isolation and permission resolution, condominium slugs and
their backfill, module bundles, the inventory ledger, and purchase totals with the migration
behind them. Check the whole project with `dafny verify dfyconfig.toml`.

What each file is about:

- `Colour`, `Legibility`: OKLCH to linear sRGB, the gamut test, the CSS Color Module Level 4
  (section 13) gamut mapping by bisection, WCAG 2.1 luminance and contrast (success criterion
  1.4.3), and real bounds on what is painted at any hue.
- `ClipErrors`, `GamutFallback`: how far an out-of-gamut colour is from its clip, and which
  colours reach the return after the bisection.
- `BrandGrid`: the two-decimal grid in hundredths, the snap, the two repairs and the brand-text
  walk. They ask a display (`Screen`) two things only, whether it renders a colour and the ratio
  of two colours; `Browser` is the display defined by `Colour`.
- `BrandFallback`: on which surfaces `derive_brand_text` can fail, and for which brands.
- `Css`, `BrandScheme`, `BrandTheme`: the emitted strings and their parser, the simple and
  advanced schemes, the audit.
- `TenantState`, `TenantIsolation`, `TenantScope`, `TenantSession`: a session as a state machine
  over tenant-tagged rows, what every run keeps, nested scope blocks, and the session object
  with its two listeners.
- `Permissions`, `Bundles`, `Slug`, `SlugBackfill`, `Ledger`, `AssetService`, `Money`,
  `Purchases`, `PurchaseMigration`: one file a component.
- `Cubes`, `Rounding`, `Decimal`, `Text`, `Options`, `Uuids`: small shared vocabulary.

Floats are exact reals. `math.cos`, `math.sin` and `math.cbrt`, the Unicode tables, the reading
of a hex colour, the permission catalogue and newly generated ids are parameters; a result that
needs a fact about one says so in its `requires` (a cosine and a sine of one angle, a real
cube root, the values at a named angle, Unicode tables that leave ASCII alone, a hex colour
inside the OKLCH unit ranges, ids that are new).

Where the code does something else than its comments say, or they leave it open, the model
follows the code:

- The return after the `gamut_map` loop is called unreachable
  (`backend/app/core/branding.py:348-354`). It is reached for two reasons, both exact in
  `GamutFallback.FallbackExactly`. Near black the gamut tolerance is large beside the colour:
  up to lightness 0.02 every out-of-gamut colour is perceptibly far from its clip and reaches it
  (`GamutFallback.NearBlackFallsThrough`). And the requested chroma is never compared with the
  just-noticeable difference: from lightness 0.08 up the colours that reach it are those whose
  every midpoint is inside the gamut (`GamutFallback.JustOutsideFallsThrough`). Between the two
  the hue decides (`GamutFallback.HueDecidesBetween`), through the edge of the gamut there
  (`GamutFallback.FallbackByEdge`). What is painted is then the edge of the
  gamut (`GamutFallback.FallbackPaintsTheEdge`). No colour the theme emits or measures is one of
  these: a snapped colour is never bisected (`GamutFallback.SnappedNeverFallsThrough`).
- `derive_brand_text` is said to fall back only when no legible value exists at all at the
  brand's hue and chroma (`backend/app/core/branding.py:546-553`). That is so, and no colour of
  any hue and chroma is legible either, unless two of the surfaces are 20.25:1 apart or more
  (`BrandFallback.FallbackMeansNothingLegible`); the bound is exact
  (`BrandFallback.EveryBrandIsLegibleExactly`). On black and white surfaces the claim fails for
  the nearly black brand of `BrandFallback.LostChromaIsNotRegained`, which loses chroma on the
  way that is not given back; it holds for every brand whose chroma renders all the way
  (`BrandFallback.KeptChromaIsFound`).
- The fail-closed guard reads the entities a statement names. A statement naming none, such as a
  count over a subquery, passes it unresolved (`TenantScope.UnnamedStatementIsUnfiltered`); the
  guard's exact condition is `TenantScope.GuardExactly`.
- A flush inside a scope block refuses a changed object of another tenant
  (`TenantScope.BlockFlushRefuses`) and deletes a deleted one, which the listener does not look
  at (`TenantScope.BlockFlushDeletes`).
- Two databases that agree on a tenant's rows can be told apart by reusing the id of another
  tenant's row (`TenantIsolation.ReusedIdIsObservable`); with new ids they cannot
  (`TenantIsolation.RunsAgree`).

## Model

| member | source | states |
|---|---|---|
| Colour.GreyChannels | backend/app/core/branding.py:270-286 | at zero chroma all three linear channels are the lightness cubed, because each matrix row sums to one |
| Colour.GreyInGamut | backend/app/core/branding.py:303-308 | every grey of the unit scale is in gamut |
| Colour.GamutMap | backend/app/core/branding.py:315-357 | the loop keeps its low chroma in gamut and its high one out, halves at most logarithmically often in chroma over epsilon, and returns what `Paint` says |
| Colour.BisectPaints | backend/app/core/branding.py:331-357 | the bisection ends in the clip of one chroma of its interval that is in gamut or within the JND of its clip |
| Colour.PaintKeepsLightnessAndHue | backend/app/core/branding.py:315-329 | between black and white the painted colour is the clip of the same lightness and hue at no more chroma; an in-gamut colour is only clipped |
| Colour.HalvingsLogarithmic | backend/app/core/branding.py:331-347 | from any interval, all halvings but the last leave it wider than the epsilon, so their number is logarithmic |
| GamutFallback.FallbackExactly | backend/app/core/branding.py:331-357 | up to lightness 0.02 a colour reaches the return after the loop iff it is out of gamut; from 0.08 up iff it is and every midpoint of its chroma is inside; at any hue and chroma |
| GamutFallback.FallbackByEdge | backend/app/core/branding.py:331-357 | at any lightness and hue: where every out-of-gamut chroma is perceptibly far from its clip every such colour reaches the return, where those just outside are not only those whose midpoints are all inside |
| GamutFallback.FallbackPaintsTheEdge | backend/app/core/branding.py:331-357 | what that return paints is the clip of an in-gamut chroma within the epsilon of one that is not |
| GamutFallback.SnappedNeverFallsThrough | backend/app/core/branding.py:406-421 | no snapped colour, the only kind emitted or measured, reaches it |
| GamutFallback.HueDecidesBetween | backend/app/core/branding.py:331-357 | at lightness 0.03 two colours differing only in hue end on different returns |
| GamutFallback.NearBlackFallsThrough | backend/app/core/branding.py:348-357 | a grid colour near black, far outside the gamut, reaches the return called unreachable |
| GamutFallback.JustOutsideFallsThrough | backend/app/core/branding.py:348-357 | so does a light colour just outside the gamut |
| ClipErrors.DarkIsPerceptible | backend/app/core/branding.py:336-346 | up to lightness 0.02 an out-of-gamut colour of any hue and chroma is never within the JND of its clip |
| ClipErrors.EdgeIsWithinJnd | backend/app/core/branding.py:348-352 | from lightness 0.08 up a candidate just above the boundary is within the JND of its clip, at any hue |
| Colour.PaintedChannels | backend/app/core/branding.py:311-357 | painted channels and luminance always lie in [0, 1] |
| Colour.RatioRange | backend/app/core/branding.py:377-382 | the ratio is symmetric, between 1 and 21, and at least 4.5 exactly when one offset luminance is 4.5 times the other |
| Legibility.DarkPaint | backend/app/core/branding.py:270-286 | a real upper bound on the painted luminance of a dark colour at any hue |
| Legibility.LightPaint | backend/app/core/branding.py:270-286 | a real lower bound on the painted luminance of a light colour at any hue |
| Legibility.BrowserHasLandmarks | backend/app/core/branding.py:157-185 | at any hue white is legible on every dark colour of the theme, black on every light one, and light on ink |
| Rounding.RoundHalfEvenBounds | backend/app/core/branding.py:413-415 | rounding to two decimals moves at most half a hundredth and never crosses a hundredth |
| BrandGrid.SnapToGamut | backend/app/core/branding.py:406-421 | the loop computes `Snap` within its step bound |
| BrandGrid.SnapIsLargestRendered | backend/app/core/branding.py:406-421 | the snap ends in gamut at the largest rendered grid chroma not above the rounded one, keeps rounded lightness and hue, and is idempotent |
| BrandGrid.SnappedPaintsItsOwnClip | backend/app/core/branding.py:324-329 | a snapped colour between black and white is painted as its own clip |
| BrandGrid.BrowserIsSound | backend/app/core/branding.py:303-308 | the browser renders every grey and measures symmetrically |
| BrandGrid.RepairSurface | backend/app/core/branding.py:458-468 | the loop is the bounded repair away from the text |
| BrandGrid.RepairText | backend/app/core/branding.py:471-491 | the loop is the bounded repair of the text against every surface |
| BrandGrid.RepairStopsFirst | backend/app/core/branding.py:462-468 | a repair stops at the first colour of its walk that clears, or at the end of its budget |
| BrandGrid.RepairConverges | backend/app/core/branding.py:458-491 | when the end of the scale clears and the budget reaches it, the repair ends legible, on the scale, same hue, no more chroma, moved one way |
| BrandGrid.WalkToLegibleText | backend/app/core/branding.py:500-528 | the loop is the walk of at most 101 tests |
| BrandGrid.WalkFindsFirst | backend/app/core/branding.py:516-523 | the walk returns the first clearing candidate, and none exactly when no candidate up to the bound clears |
| BrandGrid.WalkBudget | backend/app/core/branding.py:510-514 | a candidate `k` steps away is found iff more than `k` values may be tested, so the budget has no slack |
| BrandGrid.BudgetStopUnreachable | backend/app/core/branding.py:524-528 | the stop after the last test never ends a walk |
| BrandGrid.BrandTextRule | backend/app/core/branding.py:531-572 | first clearing colour downward, else upward, else the brand unchanged; legible iff some candidate is; hue kept, chroma never grows |
| BrandGrid.WalksCoverTheScale | backend/app/core/branding.py:546-553 | the two walks together test every lightness from 0.00 to 1.00 |
| BrandFallback.FallbackMeansNothingLegible | backend/app/core/branding.py:546-553 | unless two surfaces are 20.25:1 apart, the brand text is legible iff any colour at all is legible on every surface, and iff some lightness at the brand's own hue and chroma is |
| BrandFallback.EveryBrandIsLegibleExactly | backend/app/core/branding.py:546-553 | given that some colour is legible on the surfaces, every brand comes out legible iff no two of them are 20.25:1 apart |
| BrandFallback.KeptChromaIsFound | backend/app/core/branding.py:546-553 | on any surfaces, a lightness legible at the brand's hue and chroma is found when that chroma renders all the way to it |
| BrandFallback.LostChromaIsNotRegained | backend/app/core/branding.py:546-553 | a brand and two surfaces on which the rule gives up though a lightness at the brand's own hue and chroma is legible |
| Css.OklchRoundTrip | backend/app/core/branding.py:390-403 | the parser reads back exactly every printed grid colour |
| BrandScheme.PickForeground | backend/app/core/branding.py:442-455 | the candidate with the better ratio, near-white on a tie |
| BrandScheme.BrandSurfaceIsLegible | backend/app/core/branding.py:575-583 | from a clamped start the brand surface comes out legible under its text, in gamut |
| BrandScheme.BrandSurfaceKeepsBrand | backend/app/core/branding.py:575-583 | hue kept, chroma not above the snapped start, moved only away from the text, unchanged when already legible |
| BrandScheme.BrandStartKeepsColour | backend/app/core/branding.py:434-439 | the clamp leaves ordinary inputs alone; only the dark scheme lifts a lightness, to 0.62 |
| BrandScheme.AccentIsLegible | backend/app/core/branding.py:659-660 | the repaired tint is legible under its text and stays light or dark |
| BrandScheme.MutedTextIsLegible | backend/app/core/branding.py:662-666 | the repaired muted text clears all three surfaces |
| BrandScheme.DeriveBrandText | backend/app/core/branding.py:566-572 | the two walks in order compute the brand-text rule |
| BrandScheme.WithDerived | backend/app/core/branding.py:682-694 | the loop of copies and the brand text give the derived scheme |
| BrandScheme.CopiesComplete | backend/app/core/branding.py:80-108 | the derived scheme has all eighteen keys, each copy equal to its source, authored keys unchanged |
| BrandScheme.SimpleSchemeIsLegible | backend/app/core/branding.py:629-669 | for every two input colours all eight pairs and the brand text clear 4.5:1 and all eighteen colours are in gamut |
| BrandScheme.SimpleSchemeKeepsHues | backend/app/core/branding.py:635-648 | brand surface, ring and brand text keep the primary hue, the second surface the accent hue |
| BrandScheme.AuditContrast | backend/app/core/branding.py:706-721 | the loop computes the audit of the strings, refusing an unreadable one |
| BrandScheme.AuditReadsTheScheme | backend/app/core/branding.py:697-721 | auditing the emitted strings reports exactly the pairs failing on the internal scheme, in order |
| BrandScheme.SimpleThemeIsAccessible | backend/app/core/branding.py:629-721 | in a browser both simple-mode schemes pass the audit with no failure, brand text clears its surfaces, every string reads back into the gamut |
| BrandTheme.AdvancedSchemeRenders | backend/app/core/branding.py:672-679 | each authored colour is emitted at its rounded lightness and hue with the largest rendered chroma, all eighteen in gamut |
| BrandTheme.EveryThemeIsFaithful | backend/app/core/branding.py:773-820 | for every accepted theme both schemes read back into the gamut and are audited faithfully |
| BrandTheme.DerivedSchemesAreAccessible | backend/app/core/branding.py:788-820 | every derived scheme is accessible, including the dark one an advanced theme leaves out |
| TenantIsolation.FlushStampsAndRefuses | backend/app/core/tenant_context.py:198-209 | a flush stamps every new scoped object with the acting tenant and is refused iff a changed object names another |
| TenantIsolation.StepStaysWithin | backend/app/core/tenant_context.py:173-209 | one step of a session that acts in any of several tenants leaves the scoped rows of every other tenant alone |
| TenantIsolation.StepIsolated | backend/app/core/tenant_context.py:173-209 | one step in a tenant leaves the other tenants' scoped rows alone and keeps the session invariant |
| TenantIsolation.RunIsolated | backend/app/core/tenant_context.py:173-209 | any run in a tenant leaves every other tenant's scoped rows unchanged |
| TenantIsolation.RunsAgree | backend/app/core/tenant_context.py:173-209 | two databases agreeing on a tenant's rows give the same outcomes along any run with new ids |
| TenantIsolation.FlushTellsApart | backend/app/core/tenant_context.py:198-209 | flush outcomes differ exactly when a pending id is taken in one database and free in the other |
| TenantIsolation.ReusedIdIsObservable | backend/app/core/tenant_context.py:198-209 | a concrete reused id tells two agreeing databases apart |
| TenantIsolation.BulkSetTenantKeepsForeign | backend/app/core/tenant_context.py:193-195 | a bulk update assigning `tenant_id` keeps the others' rows iff it assigns the acting tenant or reaches no scoped row |
| TenantScope.BlocksRestoreScope | backend/app/core/tenant_context.py:137-165 | scope blocks, nested or in sequence, left normally or by exception, restore acting tenant and resolved flag |
| TenantScope.BlockRunsAsItsTenant | backend/app/core/tenant_context.py:154-159 | every statement directly inside a block runs resolved and as the block's tenant |
| TenantScope.BlocksIsolate | backend/app/core/tenant_context.py:137-209 | however blocks nest, raise or flush objects from outside, the rows of every tenant neither acting at the start nor named on the way stay the same |
| TenantScope.BlockFlushDeletes | backend/app/core/tenant_context.py:198-209 | a deleted object is deleted by the flush of whatever block it is flushed in |
| TenantScope.BlockFlushRefuses | backend/app/core/tenant_context.py:207-209 | a changed scoped object of another tenant is refused there and nothing is written |
| TenantScope.GuardExactly | backend/app/core/tenant_context.py:184-191 | the guard fires exactly on unresolved request sessions naming a scoped model |
| TenantScope.ExecFailsClosed | backend/app/core/tenant_context.py:184-195 | in every run no statement naming a scoped model executes before the scope is resolved |
| TenantScope.UnnamedStatementIsUnfiltered | backend/app/core/tenant_context.py:188-195 | an unresolved statement naming no entity sees every tenant's rows |
| TenantSession.Session.SetActingTenant | backend/app/core/tenant_context.py:115-118 | the whole new state: acting tenant and resolved flag set, nothing else |
| TenantSession.Session.UseGlobalScope | backend/app/core/tenant_context.py:121-129 | the whole new state: no acting tenant, resolved |
| TenantSession.Session.EnterScope | backend/app/core/tenant_context.py:154-157 | remembers the scope it replaces and acts in the tenant |
| TenantSession.Session.LeaveScope | backend/app/core/tenant_context.py:160-165 | puts back what was remembered |
| TenantSession.Session.OptionsFor | backend/app/core/tenant_context.py:96-107 | the memo never hands one tenant the filter of another |
| TenantSession.Session.ApplyTenantFilter | backend/app/core/tenant_context.py:173-195 | raises what the guard says, otherwise reaches exactly the visible matching rows |
| TenantSession.Session.Select | backend/app/core/tenant_context.py:173-195 | a filtered select is the state machine's step |
| TenantSession.StampNew | backend/app/core/tenant_context.py:204-206 | the first loop stamps every new scoped object |
| TenantSession.NamesAnotherTenant | backend/app/core/tenant_context.py:207-209 | the second loop finds a changed object of another tenant iff there is one |
| TenantSession.Session.StampTenantOnWrite | backend/app/core/tenant_context.py:198-209 | both loops together: stamped objects and the refusal |
| TenantSession.Session.Flush | backend/app/core/tenant_context.py:198-209 | a flush is the state machine's step |
| Permissions.ResolvePermissions | backend/app/api/deps.py:219-285 | the accumulating loop is the union of the acting tenant's role bundles, with its two short-circuits |
| Permissions.ModuleOfIsPrefix | backend/app/core/permissions.py:884-886 | the module is everything before the first colon |
| Permissions.EffectiveIsGrantableMinusDisabled | backend/app/api/deps.py:288-359 | effective is grantable with the module on, core, or a superuser; two disabled sets act as their union, and disabling more only narrows |
| Permissions.TogglesRestoreAccess | backend/app/api/deps.py:300-304 | any run of toggles back to the same set restores access; grantable never moves |
| Permissions.OtherTenantsDoNotMatter | backend/app/api/deps.py:239-257 | decisions depend on no role, membership or switch of another tenant |
| Permissions.NoActingTenant | backend/app/api/deps.py:124-216 | with no acting tenant a plain user has exactly the default tenant's roles and no module is off |
| Bundles.SplitMeans | backend/alembic/versions/0008_module_bundles_backfill.py:62-63 | the cardinality test means some member in and some member out |
| Bundles.RepairDisabledRow | backend/alembic/versions/0008_module_bundles_backfill.py:72-74 | the in-place loop over bundles computes the disabled repair |
| Bundles.RepairListedRow | backend/alembic/versions/0008_module_bundles_backfill.py:89-91 | the in-place loop over bundles computes the listed repair |
| Bundles.RepairListedIsLeast | backend/alembic/versions/0008_module_bundles_backfill.py:81-91 | the listed repair is the least whole superset |
| Bundles.RepairDisabledIsGreatest | backend/alembic/versions/0008_module_bundles_backfill.py:68-74 | the disabled repair is the greatest whole subset |
| Bundles.RepairsAreClosures | backend/alembic/versions/0008_module_bundles_backfill.py:16-18 | idempotent, independent of bundle order, identity on whole sets |
| Bundles.RepairsAreDual | backend/alembic/versions/0008_module_bundles_backfill.py:9-14 | repairing the negative list is repairing its complement upward |
| Bundles.Tables.Backfill | backend/alembic/versions/0008_module_bundles_backfill.py:66-96 | each table ends as its repaired column, unsplit rows unwritten |
| Bundles.BackfillColumn | backend/alembic/versions/0008_module_bundles_backfill.py:85-96 | the row loop repairs exactly the split rows |
| Bundles.BackfillIsIdempotent | backend/alembic/versions/0008_module_bundles_backfill.py:16-18 | afterwards every list is whole and a second backfill writes nothing |
| Bundles.DeclaredBundlesAreDisjoint | backend/alembic/versions/0008_module_bundles_backfill.py:46-51 | the frozen bundles are pairwise disjoint |
| Bundles.ValidateBundles | backend/app/core/permissions.py:932-946 | accepts exactly bundles of two or more known, non-core modules, pairwise disjoint |
| Bundles.BundleOf | backend/app/core/permissions.py:952-957 | the key of the bundle holding a module, the only one when disjoint |
| Bundles.SplitBundlesEmpty | backend/app/core/permissions.py:960-967 | nothing is reported split iff the set is whole, so never after a listed repair nor for the complement of a repaired disabled list |
| Slug.PatternMeans | backend/app/core/slug.py:50-54 | the regular expression accepts exactly non-empty alphanumerics and hyphens, no hyphen leading, trailing or doubled |
| Slug.SlugifyIsValid | backend/app/core/slug.py:62-82 | every result is a valid slug of at most 60 characters |
| Slug.SlugifyIdentity | backend/app/core/slug.py:62-95 | on a valid slug it is the identity iff the slug has at most 60 characters |
| Slug.SlugifyIdempotent | backend/app/core/slug.py:62-82 | slugging twice is slugging once |
| SlugBackfill.CandidatesDiffer | backend/alembic/versions/0002_tenant_slug.py:86-92 | candidates for different numbers differ |
| SlugBackfill.FirstFreeSlug | backend/alembic/versions/0002_tenant_slug.py:81-92 | the unbounded loop ends within the number of taken slugs plus two, at the smallest free number |
| SlugBackfill.FirstFreeIsUnique | backend/alembic/versions/0002_tenant_slug.py:81-92 | the walk has one possible result |
| SlugBackfill.CandidateIsValid | backend/alembic/versions/0002_tenant_slug.py:87-89 | a candidate of a valid base is a valid slug of at most 64 characters |
| SlugBackfill.TenantTable.Backfill | backend/alembic/versions/0002_tenant_slug.py:106-117 | every selected row holds the first free slug of its walk, other rows untouched |
| SlugBackfill.BackfillIsUnique | backend/alembic/versions/0002_tenant_slug.py:110-125 | all slugs valid and distinct; a row keeps its plain slug iff no earlier row was given it |
| SlugBackfill.BackfillIsDeterministic | backend/alembic/versions/0002_tenant_slug.py:103-108 | databases holding the same rows get the same slugs |
| Ledger.ChainedAgrees | backend/app/services/asset_service.py:303-338 | last quantity, replay and sum of deltas of an asset agree and are never negative |
| Ledger.ChainLinks | backend/app/services/asset_service.py:328-338 | each previous quantity is the preceding new quantity of the same asset |
| Ledger.WithoutStaysChained | backend/app/services/asset_service.py:261-273 | deleting an asset with its movements leaves the others' chains |
| AssetService.Service.CreateAsset | backend/app/services/asset_service.py:37-82 | refusal and whole new state of a create, with its first movement |
| AssetService.Service.UpdateAsset | backend/app/services/asset_service.py:221-258 | refusal and whole new state of an update, quantity untouched |
| AssetService.Service.DeleteAsset | backend/app/services/asset_service.py:261-273 | refusal and whole new state of a delete |
| AssetService.Service.RecordMovement | backend/app/services/asset_service.py:276-340 | refusal and whole new state of a movement |
| AssetService.ApplyKeeps | backend/app/services/asset_service.py:37-340 | every operation keeps log, cached quantities and tags consistent |
| AssetService.EveryRunIsConsistent | backend/app/services/asset_service.py:59-80 | in every run the log is a chain from 0 and the cached quantity is its replay, its delta sum, and never negative |
| AssetService.OthersUntouched | backend/app/services/asset_service.py:299-341 | a refusal changes nothing and no operation touches another asset or the sequence of its movements |
| AssetService.ExitsStopAtStock | backend/app/services/asset_service.py:307-314 | an exit is accepted exactly up to the stock |
| Money.HalfAwayIsNearest | backend/app/core/money.py:45-51 | the rounding is exactly nearest with ties away from zero |
| Money.QuantizeLaws | backend/app/core/money.py:91-110 | within half a cent, odd, monotone, idempotent |
| Money.PriceTotalIsExact | backend/app/schemas/purchase.py:197-201 | a line total is the exact product of price and quantity |
| Purchases.AcceptedLines | backend/app/schemas/purchase.py:139-175 | an accepted line is linked and bare, or extra with text and quantity, never both |
| Purchases.ValidateQuoteItems | backend/app/schemas/purchase.py:203-215 | accepts iff at most 50 lines and no request line priced twice |
| Purchases.CompleteByCounting | backend/app/schemas/purchase.py:282-288 | the count equals the number of request lines iff each is priced exactly once |
| Purchases.QuoteRead.ComputeTotal | backend/app/schemas/purchase.py:306-323 | the total is the exact sum of price times quantity; the second quantize is the identity |
| Purchases.TotalIgnoresOrder | backend/app/schemas/purchase.py:320-322 | the total does not depend on line order |
| PurchaseMigration.FoldedDescriptionFits | backend/alembic/versions/0005_purchase_line_items.py:66-76 | every title folds to a description of 1 to 255 characters |
| PurchaseMigration.Database.Upgrade | backend/alembic/versions/0005_purchase_line_items.py:135-158 | every quote ends with exactly one line whose total is its old one and from which the way back gives its old price and quantity; no request line is made |
| PurchaseMigration.UpgradeThenDowngrade | backend/alembic/versions/0005_purchase_line_items.py:79-217 | run one after the other on the tables, the two methods give back every price and quantity |
| PurchaseMigration.Database.Downgrade | backend/alembic/versions/0005_purchase_line_items.py:173-217 | the whole state after the way back |
| PurchaseMigration.FirstLine | backend/alembic/versions/0005_purchase_line_items.py:186-191 | the line of the lowest (position, id) |
| PurchaseMigration.UpgradeKeepsTotals | backend/alembic/versions/0005_purchase_line_items.py:135-155 | each quote becomes one line whose total is the old price times quantity |
| PurchaseMigration.RoundTrip | backend/alembic/versions/0005_purchase_line_items.py:79-204 | downgrading after upgrading restores every price and quantity |
| PurchaseMigration.DowngradedTotal | backend/alembic/versions/0005_purchase_line_items.py:161-204 | on any database the downgraded total is the first line's, 0.00 without lines, never above the old total when nothing is negative |

## Left out

- Floating point: every number is an exact real, so the measured worst-case ratios and rounding noise are not modelled.
- The reading of `#rrggbb` into OKLCH and the sRGB transfer: a parameter; `oklch_to_hex` is a preview and is not modelled.
- BrandTheme: the shape checks on the raw stored object (its mode and key names) are not modelled; colours and palette keys are.
- Css: digits are ASCII, and a negative zero, which no grid colour has, is not distinguished from zero.
- GamutFallback.FallbackExactly: strictly between the lightnesses 0.02 and 0.08 no condition on lightness and chroma alone can hold (GamutFallback.HueDecidesBetween); there the condition is that of GamutFallback.FallbackByEdge, and which hues meet which of its two cases is not worked out.
- BrandFallback.KeptChromaIsFound: on surfaces 20.25:1 apart this is a sufficient condition; a brand that loses chroma on the way may still come out legible.
- Relationship and column loads, which the filter exempts on purpose, and child tables without `tenant_id`, which it cannot constrain.
- Autoflush before a query is an explicit flush step; bulk statements do not refresh objects the session already holds; `populate_existing` is not used.
- SlugBackfill.BackfillIsUnique: assumes fewer than 10^62 rows, beyond which the numeric suffix no longer leaves room for the base.
- Bundles: stored lists are sets, so the sorted order a repair writes is not modelled.
- AssetService: descriptive fields, timestamps, performer names, listing and the summary metrics add only easy members; an explicit null for a required column is not modelled.
- Purchases: the decimal context precision and the twelve-digit column bound are not modelled.
- The literal permission and route tables, JWT, mail, storage, the HTTP routes, the DDL statements of the migrations and the frontend.
- The voting, infraction, subscription, tenant and purchase services are not part of this model.
