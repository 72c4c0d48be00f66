# Look-MVP overlay geometry, editors and localisation — a Dafny model

This project models the core of the Look-MVP marketplace web client (a
Sharetribe-based React application for renting advertising space) and proves
properties of it.

- **Perspective overlays** (`src/util/overlayTransform.js`):
  - Gauss-Jordan elimination with partial pivoting (`LinearSystem`);
  - the homography that maps an overlay rectangle onto a four-corner quad (`OverlayTransform`);
  - its CSS `matrix3d` form and its adjugate inverse (`OverlayTransform`, `Mat3Algebra`);
  - the overlay selection, skip rules and opacity clamp of the mockup export (`MockupExport`).
- **Overlay editor** (`src/containers/ListingPage/OverlayEditor.js`, `OverlayEditor`):
  - corner updates, free and shift-constrained;
  - the corner-drag state machine with its single pending animation frame (class `CornerDrag`);
  - active-overlay resolution and reassignment;
  - the live transform map, the corner handles and the download.
- **Ad preview** (`src/containers/ListingPage/SectionAdPreview.js`, `AdPreview`):
  - the drag, resize and rotate state as transition functions;
  - a class `AdPreviewSection` whose handlers step the same state in fields.
- **Locale handling**:
  - locale paths and parameter injection (`src/context/localeContext.js`), and localized page assets (`src/util/localizedPageAssets.js`), both in `LocaleContext`;
  - translation merging (`src/translations/index.js`, `Translations`);
  - the route table (`src/routing/routeConfiguration.js`, `RouteConfiguration`).
- **Page-builder field pickers** (`src/containers/PageBuilder/Field/Field.helpers.js`, `FieldHelpers`), over a small model of JavaScript values (`JsValues`).
- **Label lookups** (`src/util/listingFieldI18n.js`, `ListingFieldI18n`; `src/util/categoryI18n.js`, `CategoryI18n`).
- **Footer block selection** (`src/containers/FooterContainer/FooterContainer.js`, `FooterContainer`).
- **The rented-listings page slice** (`src/containers/ManageRentedListingsPage/ManageRentedListingsPage.duck.js`, `RentedListingsDuck`).

Modelling conventions:
- Arithmetic is exact, over `real`, and the tolerance `1e-12` is the real constant `Eps`.
- A JavaScript `null` result is `None`, and a thrown `TypeError` is `None` or `Failed`.
- `intl`, `window`, `navigator`, the entity denormaliser and the base image's measured size are parameters.
- Where the code keeps state in React state, refs or a Redux slice, the model has a class with those fields. Each method is proved to follow a transition function, or states its new state outright.

Route matching and the test file: `src/routing/routeConfiguration.test.js:7-12` expects `/p/terms-of-service-es` to match `CMSPageLegacy`. The table places the legacy alias route with exactly that path earlier, at index 1. The model follows the table (`RouteConfiguration.LegacyAliasesBeforeCmsPage`). Matching itself is not modelled.

## Model

| member | source | states |
|---|---|---|
| LinearSystem.Augment | src/util/overlayTransform.js:5 | the augmented matrix has n rows of n+1 entries |
| LinearSystem.Solve | src/util/overlayTransform.js:3-39 | a non-null result has one value per unknown; the empty system has the empty solution |
| LinearSystem.PivotAmong | src/util/overlayTransform.js:8-13 | the pivot row chosen at step i lies in i .. n-1 |
| LinearSystem.PivotIsFirstLargest | src/util/overlayTransform.js:7-18 | the chosen row has the largest absolute value in column i, and no earlier row ties it (a strict `>` keeps the first) |
| LinearSystem.GaussJordanSound | src/util/overlayTransform.js:7-36 | when no pivot is tiny, the finished matrix has unit columns and exactly the solutions of the starting one |
| LinearSystem.SolveGivesTheUniqueSolution | src/util/overlayTransform.js:3-39 | a non-null result x is a solution of A·x = b, and the only one |
| LinearSystem.SolveSatisfiesSystem | src/util/overlayTransform.js:38 | a non-null result satisfies every equation of A·x = b |
| LinearSystem.TwoSolutionsMeanNull | src/util/overlayTransform.js:20-23 | a system with two distinct solutions gives null, because some pivot falls below 1e-12 |
| LinearSystem.FindPivotRow | src/util/overlayTransform.js:8-13 | the scan loop returns the pivot row of the specification |
| LinearSystem.NormalizePivotRow | src/util/overlayTransform.js:25-27 | dividing in place turns the array into the normalised matrix |
| LinearSystem.EliminateColumn | src/util/overlayTransform.js:29-35 | eliminating in place turns the array into the eliminated matrix |
| LinearSystem.SolveLinearSystem | src/util/overlayTransform.js:3-39 | the in-place solver returns what the specification returns, and a non-null result satisfies A·x = b |
| Mat3Algebra.AdjugateRightProduct | src/util/overlayTransform.js:154-164 | m · adj(m) = det(m) · I, with det expanded along row 0 |
| Mat3Algebra.AdjugateLeftProduct | src/util/overlayTransform.js:154-164 | adj(m) · m = det(m) · I |
| Mat3Algebra.ScaledAdjugateIsInverse | src/util/overlayTransform.js:169-174 | for det ≠ 0, adj(m)/det is a two-sided inverse |
| Mat3Algebra.Det | src/util/overlayTransform.js:164 | the row-0 expansion equals the column-0 expansion and the rule of Sarrus |
| Mat3Algebra.Adjugate | src/util/overlayTransform.js:154-174 | row k of the adjugate is the cross product of the two other columns |
| OverlayTransform.Clamp01 | src/util/overlayTransform.js:1 | the result is in [0,1] and equals the input inside [0,1] |
| OverlayTransform.ToDisplayPoint | src/util/overlayTransform.js:115-118 | a unit-square point lands inside the displayed size |
| OverlayTransform.ToNormalizedPoint | src/util/overlayTransform.js:120-123 | a normalised point always lies in the unit square |
| OverlayTransform.NormalizeAfterDisplay | src/util/overlayTransform.js:115-123 | for a positive size, normalising a displayed unit-square point gives the point back |
| OverlayTransform.Homography | src/util/overlayTransform.js:41-66 | a non-null homography has h33 = 1 |
| OverlayTransform.HomographyFromPoints | src/util/overlayTransform.js:41-66 | the loop that fills the 8×8 system returns the specification's homography |
| OverlayTransform.HomographyMapsCorrespondences | src/util/overlayTransform.js:45-65 | a non-null homography maps each of the four source points to its destination point |
| OverlayTransform.HomographyIsUnique | src/util/overlayTransform.js:41-66 | any matrix with h33 = 1 mapping the four correspondences equals the non-null result |
| OverlayTransform.AmbiguousCorrespondencesGiveNull | src/util/overlayTransform.js:56-59 | when two different matrices map the correspondences, the result is null |
| OverlayTransform.ComputeHomography | src/util/overlayTransform.js:125-141 | a non-null result has h33 = 1 |
| OverlayTransform.ComputeHomographyPairsCorners | src/util/overlayTransform.js:125-141 | the rectangle's corners (0,0), (w,0), (w,h), (0,h) go to tl, tr, br, bl scaled to the output |
| OverlayTransform.CollapsedQuadGivesNull | src/util/overlayTransform.js:125-141 | a quad whose four corners coincide has a null homography |
| OverlayTransform.FullFrameIsPureScale | src/util/overlayTransform.js:125-141 | corners at the unit square's own corners give the pure pixel scaling |
| OverlayTransform.HomographyToCssMatrix3d | src/util/overlayTransform.js:68-113 | null iff the input is null; otherwise 16 entries with the fixed 0 and 1 entries in place |
| OverlayTransform.CssMatrixActsAsHomography | src/util/overlayTransform.js:68-113 | the column-major matrix sends (x, y, 0, 1) to the homography's image divided by h33 |
| OverlayTransform.InvertHomography | src/util/overlayTransform.js:143-175 | the result is null iff \|det\| < 1e-12 |
| OverlayTransform.InverseIsTwoSided | src/util/overlayTransform.js:143-175 | a non-null inverse gives H·H⁻¹ = H⁻¹·H = I |
| MockupExport.FirstNonZero | src/util/overlayTransform.js:349-352 | the `a \|\| b \|\| c \|\| 0` chain gives the first non-zero value, else 0 |
| MockupExport.OverlayList | src/util/overlayTransform.js:308-320 | the overlays when there are any; otherwise the legacy single overlay when both image and corners are given; otherwise nothing |
| MockupExport.SafeOpacity | src/util/overlayTransform.js:340-342 | the opacity is clamped to [0,1] and defaults to 1 when it is not a number |
| MockupExport.Render | src/util/overlayTransform.js:308-365 | corrected renderer that skips a null homography: the opacity uniform is in [0,1], and nothing is drawn when the overlay list is empty |
| MockupExport.RenderAsWritten | src/util/overlayTransform.js:308-365 | as written: an empty overlay list draws nothing; only a non-empty list can throw; the opacity uniform is in [0,1] |
| MockupExport.Visible | src/util/overlayTransform.js:344-356 | an overlay reaches the homography iff it is present, not hidden, has an image, and some of size, natural size and size of the image gives a non-zero width and height |
| MockupExport.DrawAsWritten | src/util/overlayTransform.js:344-365 | as written, an iteration throws only for a visible overlay, and otherwise draws what the corrected iteration draws |
| MockupExport.DrawOf | src/util/overlayTransform.js:344-365 | a drawn overlay is visible and hands the shader a non-zero width and height |
| MockupExport.Draws | src/util/overlayTransform.js:344-365 | every draw has a non-zero width and height |
| MockupExport.DrawOfIsInverseOfHomography | src/util/overlayTransform.js:344-365 | an overlay is drawn iff it is shown, has an image, a size, a homography and an invertible one; the draw carries the two-sided inverse |
| MockupExport.DrawsOfConcat | src/util/overlayTransform.js:344 | overlays are drawn independently, in list order |
| MockupExport.DrawsAreTheDrawableOverlays | src/util/overlayTransform.js:344-390 | a draw is issued iff some overlay of the list yields it |
| MockupExport.AtMostOneDrawPerOverlay | src/util/overlayTransform.js:344-390 | there are never more draws than overlays |
| MockupExport.AsWrittenAgreesWhenItSucceeds | src/util/overlayTransform.js:357-365 | when the code as written does not throw, it draws what the corrected version draws |
| MockupExport.AsWrittenThrowsOnNullHomography | src/util/overlayTransform.js:357-363 | as written, the export throws iff some visible overlay has a null homography |
| MockupExport.CollapsedOverlayHasNoHomography | src/util/overlayTransform.js:357-361 | a visible overlay with four coincident corners has no homography and is not drawn |
| MockupExport.CollapsedOverlayBreaksExportAsWritten | src/util/overlayTransform.js:357-363 | as written, one such overlay makes the whole export throw |
| MockupExport.CollapsedOverlayIsSkipped | src/util/overlayTransform.js:362-365 | corrected, such an overlay is skipped and the others are drawn |
| MockupExport.SkippedOverlayLeavesTheOthers | src/util/overlayTransform.js:344-365 | an overlay that is not drawn leaves the draws of its neighbours unchanged |
| OverlayEditor.UpdateCorners | src/containers/ListingPage/OverlayEditor.js:147-186 | the dragged corner takes the point; free, the others are unchanged; constrained, the opposite corner stays and the two neighbours take the new y and x |
| OverlayEditor.ConstrainedDragKeepsRectangle | src/containers/ListingPage/OverlayEditor.js:152-185 | a constrained drag keeps an axis-aligned rectangle axis-aligned |
| OverlayEditor.UpdateKeepsUnitSquare | src/containers/ListingPage/OverlayEditor.js:150-186 | dragging to a unit-square point keeps every corner in the unit square |
| OverlayEditor.DefaultCornersAreInsetSquare | src/containers/ListingPage/OverlayEditor.js:17-22 | the default corners form the axis-aligned inset square 0.2–0.8 |
| OverlayEditor.CornerDrag.constructor | src/containers/ListingPage/OverlayEditor.js:37-40 | no drag, no pending frame, default corners, zero base size |
| OverlayEditor.CornerDrag.Measure | src/containers/ListingPage/OverlayEditor.js:69-74 | a box with a zero side is ignored; otherwise it becomes the base size |
| OverlayEditor.CornerDrag.Sync | src/containers/ListingPage/OverlayEditor.js:54-56 | the corners ref and the active id follow the render |
| OverlayEditor.CornerDrag.StartDrag | src/containers/ListingPage/OverlayEditor.js:230-237 | ignored while the base size is zero; otherwise the dragged corner is recorded |
| OverlayEditor.CornerDrag.PointerMove | src/containers/ListingPage/OverlayEditor.js:196-217 | a no-op without a drag, a base size or a bounding box; otherwise the pending frame is replaced by the latest normalised point |
| OverlayEditor.CornerDrag.AnimationFrame | src/containers/ListingPage/OverlayEditor.js:212-214 | the pending update is applied to the last corners and emitted only with an active id; corners stay in the unit square |
| OverlayEditor.CornerDrag.PointerUp | src/containers/ListingPage/OverlayEditor.js:219-228 | the drag ends and a frame already scheduled is kept |
| OverlayEditor.ActiveId | src/containers/ListingPage/OverlayEditor.js:49 | the stored id when it is set, else the first overlay's id, else none |
| OverlayEditor.FindIndex | src/containers/ListingPage/OverlayEditor.js:50 | the first overlay carrying the id, or none when no overlay does |
| OverlayEditor.ActiveOverlay | src/containers/ListingPage/OverlayEditor.js:50 | none iff there are no overlays; the overlay with the active id when one exists |
| OverlayEditor.ActiveCorners | src/containers/ListingPage/OverlayEditor.js:51 | the active overlay's corners, else the default ones; in the unit square whenever every stored quad is |
| OverlayEditor.Opacity | src/containers/ListingPage/OverlayEditor.js:52 | the stored opacity, or 0.8 |
| OverlayEditor.ReassignRequest | src/containers/ListingPage/OverlayEditor.js:58-63 | a reassignment to the first overlay is requested iff overlays exist and the active id is missing or not among them |
| OverlayEditor.ReassignSettles | src/containers/ListingPage/OverlayEditor.js:58-63 | once the requested id is stored, no further reassignment is requested |
| OverlayEditor.SettledActiveOverlayMatchesId | src/containers/ListingPage/OverlayEditor.js:49-63 | with no reassignment pending, the active overlay carries the active id |
| OverlayEditor.ResetRequest | src/containers/ListingPage/OverlayEditor.js:333-336 | reset sends the default corners for the active id, and nothing without one |
| OverlayEditor.OverlayTransforms | src/containers/ListingPage/OverlayEditor.js:95-98 | the transform map is empty while the base size is unknown |
| OverlayEditor.WriteEntries | src/containers/ListingPage/OverlayEditor.js:99-115 | the reduce never removes a key, and leaves the map as it was when no overlay has a transform |
| OverlayEditor.TransformsFrom | src/containers/ListingPage/OverlayEditor.js:99-115 | the reduce never removes a key, and changes nothing when no overlay has an image |
| OverlayEditor.TransformsFromKeys | src/containers/ListingPage/OverlayEditor.js:99-115 | the reduce adds an entry exactly for the overlays with an image and a non-null homography |
| OverlayEditor.TransformKeys | src/containers/ListingPage/OverlayEditor.js:95-116 | an id has a transform iff some overlay with that id has an image and a non-null homography |
| OverlayEditor.TransformsFromValue | src/containers/ListingPage/OverlayEditor.js:111-113 | the last overlay with an id writes that id's entry |
| OverlayEditor.TransformsFromUntouched | src/containers/ListingPage/OverlayEditor.js:99-115 | entries of ids that no overlay carries are left unchanged |
| OverlayEditor.WriteEntriesKeys | src/containers/ListingPage/OverlayEditor.js:99-115 | the reduce ends with a key iff it started with it or some overlay with a transform writes it |
| OverlayEditor.WriteEntriesValue | src/containers/ListingPage/OverlayEditor.js:111-113 | an entry written by the last overlay with its id keeps that overlay's matrix |
| OverlayEditor.WriteEntriesUntouched | src/containers/ListingPage/OverlayEditor.js:99-115 | keys that no overlay writes keep their value |
| OverlayEditor.TransformOfEachOverlay | src/containers/ListingPage/OverlayEditor.js:95-116 | with distinct ids, each overlay with a transform is shown with its own matrix |
| OverlayEditor.RenderedIds | src/containers/ListingPage/OverlayEditor.js:381-385 | an overlay is rendered iff it has an image and a transform entry |
| OverlayEditor.RenderedIdsConcat | src/containers/ListingPage/OverlayEditor.js:381-385 | rendering keeps the overlays' order: it distributes over concatenation |
| OverlayEditor.HandlePositions | src/containers/ListingPage/OverlayEditor.js:239-246 | the corner positions exist iff the base image has a width |
| OverlayEditor.HandlesNormaliseBack | src/containers/ListingPage/OverlayEditor.js:239-246 | a handle normalises back to the corner it shows |
| OverlayEditor.ExportEntry | src/containers/ListingPage/OverlayEditor.js:264-275 | an overlay takes part in the export iff it has an image, with its corners or the default ones |
| OverlayEditor.ExportEntries | src/containers/ListingPage/OverlayEditor.js:280 | the filtered entries are all present, at most one per overlay |
| OverlayEditor.CollapsedOverlayFailsDownload | src/containers/ListingPage/OverlayEditor.js:259-302 | as written, an overlay dragged into one point makes the download fail |
| OverlayEditor.Download | src/containers/ListingPage/OverlayEditor.js:259-302 | corrected, the download never fails on a collapsed overlay, starts iff there are overlays and a base image, and draws the overlays' draws |
| OverlayEditor.DownloadAsWritten | src/containers/ListingPage/OverlayEditor.js:259-302 | as written, the download starts iff there are overlays and a base image; an export keeps the opacity in [0,1] |
| OverlayEditor.DownloadAgreesUnlessItFails | src/containers/ListingPage/OverlayEditor.js:259-302 | wherever the download as written succeeds, it equals the corrected one |
| OverlayEditor.ExportEntriesConcat | src/containers/ListingPage/OverlayEditor.js:263-280 | entries are built overlay by overlay, in order |
| AdPreview.DraggedPosition | src/containers/ListingPage/SectionAdPreview.js:96-101 | the position is never negative, stays inside a container that fits, and follows the pointer where it fits |
| AdPreview.ResizedSize | src/containers/ListingPage/SectionAdPreview.js:138-146 | the size stays within the container, is at least 50×30 where room allows, and follows the deltas where unclamped |
| AdPreview.FileLoaded | src/containers/ListingPage/SectionAdPreview.js:30-42 | an `image/` file resets position to (50,50), size to 200×120 and rotation to 0; other files change nothing |
| AdPreview.Removed | src/containers/ListingPage/SectionAdPreview.js:49-54 | remove clears the preview image and leaves position, size, rotation and the mode flags as they were |
| AdPreview.PointerEnd | src/containers/ListingPage/SectionAdPreview.js:206-210 | pointer end clears the three mode flags and nothing else |
| AdPreview.EveryTransitionKeepsPositionNonNegative | src/containers/ListingPage/SectionAdPreview.js:96-103 | every transition keeps the position non-negative |
| AdPreview.DragStart | src/containers/ListingPage/SectionAdPreview.js:68-83 | ignored while resizing or rotating or unmounted; otherwise it sets dragging and records pointer − position, nothing else |
| AdPreview.DragMove | src/containers/ListingPage/SectionAdPreview.js:85-106 | only the position changes, and only while dragging; it stays non-negative |
| AdPreview.ResizeStart | src/containers/ListingPage/SectionAdPreview.js:113-125 | sets resizing and anchors the pointer, nothing else |
| AdPreview.ResizeMove | src/containers/ListingPage/SectionAdPreview.js:127-152 | only the size and the anchor change, the anchor moves to the pointer and the size fits right of and below the position |
| AdPreview.RotateStart | src/containers/ListingPage/SectionAdPreview.js:159-163 | sets rotating and nothing else |
| AdPreview.RotateMove | src/containers/ListingPage/SectionAdPreview.js:165-185 | only the angle changes, to the given one, while rotating in a mounted container |
| AdPreview.DragFollowsPointer | src/containers/ListingPage/SectionAdPreview.js:85-106 | where the overlay fits, the grabbed point stays under the pointer |
| AdPreview.DragStaysInside | src/containers/ListingPage/SectionAdPreview.js:100-101 | in a container that fits, the position stays in [0, W−w] × [0, H−h] |
| AdPreview.ResizeDeltasCompose | src/containers/ListingPage/SectionAdPreview.js:138-149 | deltas are incremental: two unclamped moves equal one move over the whole distance |
| AdPreview.PointerMove | src/containers/ListingPage/SectionAdPreview.js:192-203 | a move runs exactly one handler, with dragging before resizing before rotating |
| AdPreview.MovesAfterEndAreIgnored | src/containers/ListingPage/SectionAdPreview.js:192-210 | after pointer end, moves change nothing |
| AdPreview.AdPreviewSection.constructor | src/containers/ListingPage/SectionAdPreview.js:18-25 | the initial state: no image, (50,50), 200×120, no rotation, no mode |
| AdPreview.AdPreviewSection.HandleFileLoaded | src/containers/ListingPage/SectionAdPreview.js:30-42 | the fields follow the file-loaded transition |
| AdPreview.AdPreviewSection.HandleRemove | src/containers/ListingPage/SectionAdPreview.js:49-54 | the fields follow the remove transition |
| AdPreview.AdPreviewSection.HandleDragStart | src/containers/ListingPage/SectionAdPreview.js:68-83 | the fields follow the drag-start transition |
| AdPreview.AdPreviewSection.HandleDragMove | src/containers/ListingPage/SectionAdPreview.js:85-106 | the fields follow the drag-move transition |
| AdPreview.AdPreviewSection.HandleResizeStart | src/containers/ListingPage/SectionAdPreview.js:113-125 | the fields follow the resize-start transition |
| AdPreview.AdPreviewSection.HandleResizeMove | src/containers/ListingPage/SectionAdPreview.js:127-152 | the fields follow the resize-move transition |
| AdPreview.AdPreviewSection.HandleRotateStart | src/containers/ListingPage/SectionAdPreview.js:159-163 | the fields follow the rotate-start transition |
| AdPreview.AdPreviewSection.HandleRotateMove | src/containers/ListingPage/SectionAdPreview.js:165-185 | the fields follow the rotate-move transition, with the angle given |
| AdPreview.AdPreviewSection.HandlePointerMove | src/containers/ListingPage/SectionAdPreview.js:192-203 | the fields follow the combined move handler |
| AdPreview.AdPreviewSection.HandlePointerEnd | src/containers/ListingPage/SectionAdPreview.js:206-210 | the fields follow the combined end handler |
| Strings.BeforeFirst | src/util/localizedPageAssets.js:4 | `split(sep)[0]`: the longest prefix without the separator |
| Strings.Contains | src/context/localeContext.js:150 | `includes`: true iff the text occurs at some position |
| Strings.ToLower | src/containers/FooterContainer/FooterContainer.js:25 | `toLowerCase` on ASCII letters, character by character |
| LocaleContext.IsValidLocale | src/context/localeContext.js:47-49 | a locale is valid iff it is `en` or `es` |
| LocaleContext.LocalePrefix | src/context/localeContext.js:36-37 | a locale is recognised iff the path is `/xx` or starts with `/xx/` for a supported xx |
| LocaleContext.LocaleFromPath | src/context/localeContext.js:32-40 | the result is always supported: the recognised prefix, else `en` |
| LocaleContext.LongerSegmentIsNotALocale | src/context/localeContext.js:36 | `/esx` gives `en` and `/es/s` gives `es` |
| LocaleContext.BrowserLocale | src/context/localeContext.js:55-62 | the browser language before `-` when supported, else `en` |
| LocaleContext.ReplaceLocaleInPath | src/context/localeContext.js:71-90 | the result starts with `/` and the new locale, followed by the old path when it had no locale prefix |
| LocaleContext.RemoveLocaleFromPath | src/context/localeContext.js:97-102 | a prefixed path loses its `/xx` (`/xx` alone becomes `/`); an unprefixed non-empty path is returned unchanged; never empty |
| LocaleContext.AddLocaleToPath | src/context/localeContext.js:110-125 | an already prefixed path is returned unchanged, the root and the empty path become `/locale`, any other path gets `/locale` in front |
| LocaleContext.AddThenReadGivesLocale | src/context/localeContext.js:110-125 | after adding a supported locale, an unprefixed path reads as that locale and a prefixed one keeps its own |
| LocaleContext.ReplaceThenReadGivesNewLocale | src/context/localeContext.js:71-90 | after replacing, the path reads back the new locale |
| LocaleContext.ReplaceKeepsRestOfPath | src/context/localeContext.js:71-90 | replacing changes only the locale prefix: the path without locale is the same |
| LocaleContext.RemoveUndoesAdd | src/context/localeContext.js:97-125 | removing the locale undoes adding it to an unprefixed path |
| LocaleContext.AddLocaleIsIdempotent | src/context/localeContext.js:110-125 | adding a locale twice equals adding it once |
| LocaleContext.CurrentLocale | src/context/localeContext.js:131-136 | the current locale is always supported |
| LocaleContext.FindRoute | src/context/localeContext.js:149 | the first route with the name (no earlier route has it), or none when no route has it |
| LocaleContext.LocaleParams | src/context/localeContext.js:145-177 | corrected: for a `:locale` route the params always get a truthy locale, the current one unless a truthy one is given; other keys pass through unchanged |
| LocaleContext.LocaleParamsAsWritten | src/context/localeContext.js:145-177 | as written: every given param survives the spread unchanged, only `locale` can be added, and it is the current locale when the params have no `locale` key |
| LocaleContext.AsWrittenAgreesWithoutLocaleKey | src/context/localeContext.js:152-153 | without a `locale` key, the code as written injects exactly as the corrected version |
| LocaleContext.FalsyLocaleParamOverridesInjection | src/context/localeContext.js:152-153 | as written, an explicit empty `locale` param overwrites the injected locale |
| LocaleContext.LocalizedSlug | src/util/localizedPageAssets.js:3-6 | `-es` is appended iff the locale before `-` is exactly `es` |
| LocaleContext.SpanishVariantsShareThePage | src/util/localizedPageAssets.js:3-6 | `es` and `es-MX` are localized; `ES`, `en` and the empty locale are not |
| LocaleContext.PageAssetPath | src/util/localizedPageAssets.js:8 | `content/pages/` + slug + `.json` |
| LocaleContext.PageAssetPathIsInjective | src/util/localizedPageAssets.js:8 | different slugs give different asset paths |
| Translations.GetMessages | src/translations/index.js:26-48 | `en` (and unsupported locales) is en overridden by hosted; `es` is en overridden by es, hosted ignored |
| Translations.UnsupportedLocaleIsEnglish | src/translations/index.js:27 | an unsupported locale gives the English messages |
| Translations.EnglishIsTheFallback | src/translations/index.js:44-47 | every English key is present whatever the locale |
| Translations.RawMessages | src/translations/index.js:55-57 | the locale's own table, and nothing for an unknown locale |
| Translations.HasTranslation | src/translations/index.js:65-68 | true iff the locale is known and the key is in its table |
| Translations.AvailableLocales | src/translations/index.js:74 | exactly `en` and `es` |
| RouteConfiguration.WithLocale | src/routing/routeConfiguration.js:80-85 | `/` becomes `/:locale`; any other path is prefixed with `/:locale` |
| RouteConfiguration.WithLocaleIsInjective | src/routing/routeConfiguration.js:80-85 | distinct non-root paths stay distinct |
| RouteConfiguration.Routes | src/routing/routeConfiguration.js:95-513 | the table has its 56 entries in matching order |
| RouteConfiguration.PrivateFlagGatesOnlyTheSpreadRoutes | src/routing/routeConfiguration.js:103-104 | the private flag changes only the `auth` of the routes that spread it, and sets it there |
| RouteConfiguration.VariantsFollowTheLayout | src/routing/routeConfiguration.js:96-101 | the map search variant iff `map` is asked for; the carousel listing iff `carousel` |
| RouteConfiguration.UnprefixedEndpointsComeFirst | src/routing/routeConfiguration.js:150-179 | `/reset-password`, `/verify-email` and `/preview` precede the `/:locale` landing route |
| RouteConfiguration.LocalizedFromTheLandingPageOn | src/routing/routeConfiguration.js:106-179 | a route path starts with `/:locale` iff it comes at or after the landing route |
| RouteConfiguration.NewListingBeforeCanonical | src/routing/routeConfiguration.js:244-278 | `/:locale/l/new` precedes `/:locale/l/:id` and redirects to the draft listing's details tab |
| RouteConfiguration.LegacyAliasesBeforeCmsPage | src/routing/routeConfiguration.js:119-149 | the legacy aliases precede `/p/:pageId`; `-es` ones redirect with `es`, the others with `en` |
| RouteConfiguration.BasePagesRedirectToLanding | src/routing/routeConfiguration.js:202-283 | `/:locale/l` and `/:locale/u` redirect to the landing page |
| RouteConfiguration.LocaleRoutes | src/routing/routeConfiguration.js:106-512 | the names and paths of the table, in order |
| RouteConfiguration.LandingPageIsLocalized | src/routing/routeConfiguration.js:174-179 | the route named `LandingPage` has a `:locale` path |
| RouteConfiguration.LandingRedirectKeepsTheCurrentLocale | src/routing/routeConfiguration.js:61 | the landing redirect without params is filled with the current locale |
| RouteConfiguration.LocaleRedirectTarget | src/routing/routeConfiguration.js:64-73 | the root redirects to the landing page in the browser language when supported, else in `en` |
| JsValues.Spread | src/containers/FooterContainer/FooterContainer.js:33-39 | `{...base, ...overrides}`: each key reads the override when present, else the base |
| FieldHelpers.Trim | src/containers/PageBuilder/Field/Field.helpers.js:10 | the middle of the string with white space stripped from both ends |
| FieldHelpers.NormalizeLocale | src/containers/PageBuilder/Field/Field.helpers.js:8-12 | the trimmed locale, or none for a missing or blank one |
| FieldHelpers.Candidates | src/containers/PageBuilder/Field/Field.helpers.js:20-28 | the trimmed locale, its base language, then `en` when `value.en` is truthy; none of them empty |
| FieldHelpers.CandidatesComeFromLocaleOrEnglish | src/containers/PageBuilder/Field/Field.helpers.js:24-28 | no key is tried beyond those three |
| FieldHelpers.FirstAcceptableAt | src/containers/PageBuilder/Field/Field.helpers.js:30-35 | the first candidate with an acceptable string, or none when no candidate has one |
| FieldHelpers.FirstAcceptableValue | src/containers/PageBuilder/Field/Field.helpers.js:37-40 | the first acceptable value in entry order, or none |
| FieldHelpers.ResolveLocalizedString | src/containers/PageBuilder/Field/Field.helpers.js:14-41 | a string is returned when acceptable; non-objects give none; a result is never empty unless allowed |
| FieldHelpers.ObjectResolvesToOneOfItsValues | src/containers/PageBuilder/Field/Field.helpers.js:18-41 | an object resolves to one of its own acceptable values, and to none iff it has none |
| FieldHelpers.NoCandidateFallsBackToFirstValue | src/containers/PageBuilder/Field/Field.helpers.js:30-40 | when no candidate key is acceptable, the result is the first acceptable value in entry order |
| FieldHelpers.ExactLocaleWins | src/containers/PageBuilder/Field/Field.helpers.js:24-35 | the trimmed locale's entry wins when acceptable |
| FieldHelpers.BaseLanguageIsSecond | src/containers/PageBuilder/Field/Field.helpers.js:21-35 | failing that, the base language's entry wins |
| FieldHelpers.EnglishIsThird | src/containers/PageBuilder/Field/Field.helpers.js:27-35 | failing both, a non-empty English string wins |
| FieldHelpers.HasContent | src/containers/PageBuilder/Field/Field.helpers.js:43-46 | there is content iff resolving `data.content` without empty strings gives a string |
| FieldHelpers.ResolvedContent | src/containers/PageBuilder/Field/Field.helpers.js:44 | resolved content is never empty |
| FieldHelpers.ExposeContentAsChildren | src/containers/PageBuilder/Field/Field.helpers.js:54-57 | the result has at most the key `children` |
| FieldHelpers.ExposeContentString | src/containers/PageBuilder/Field/Field.helpers.js:65-68 | the result has at most the key `content` |
| FieldHelpers.ContentExposedIffHasContent | src/containers/PageBuilder/Field/Field.helpers.js:43-68 | `{children}` and `{content}` are exposed iff there is content, and hold it; otherwise `{}` |
| FieldHelpers.StringContentIsExposedAsIs | src/containers/PageBuilder/Field/Field.helpers.js:43-68 | plain string content is exposed as-is iff it is non-empty |
| FieldHelpers.HexGroupsMeaning | src/containers/PageBuilder/Field/Field.helpers.js:176 | `([0-9a-f]{3}){1,2}` matches exactly 3 or 6 hex digits |
| FieldHelpers.ExposeColorValue | src/containers/PageBuilder/Field/Field.helpers.js:175-179 | kept iff `#` and 3 or 6 hex digits of either case; kept unchanged |
| FieldHelpers.EncodeUriComponent | src/containers/PageBuilder/Field/Field.helpers.js:249 | encoding never shortens a string |
| FieldHelpers.EncodeUriComponentIdentity | src/containers/PageBuilder/Field/Field.helpers.js:249 | encoding is the identity iff every character is unreserved, which holds for video ids |
| FieldHelpers.IsAspectRatio | src/containers/PageBuilder/Field/Field.helpers.js:251 | digits, `/`, digits |
| FieldHelpers.ExposeYoutubeProps | src/containers/PageBuilder/Field/Field.helpers.js:241-260 | props iff the id has 1–11 characters of `[A-Za-z0-9_-]`; the aspect ratio only with a valid id and when it matches |
| FieldHelpers.ValidVariants | src/containers/PageBuilder/Field/Field.helpers.js:103-115 | exactly the variants with numeric width and height |
| FieldHelpers.ValidSanitizedImage | src/containers/PageBuilder/Field/Field.helpers.js:101-121 | an image iff some entry of `Object.entries(variants)` is valid (arrays by index), carrying its id, type and valid variants; string variants give none |
| FieldHelpers.ArrayVariantsAreKeyedByIndex | src/containers/PageBuilder/Field/Field.helpers.js:102-115 | an array of variants is read by index: `[{width, height}]` gives variant `0` |
| JsValues.ObjectEntries | src/containers/PageBuilder/Field/Field.helpers.js:102 | `Object.entries`: an object's properties, an array's elements and a string's characters under their decimal indices, nothing else |
| JsValues.DecimalStringIsInjective | src/containers/PageBuilder/Field/Field.helpers.js:102 | different indices give different keys |
| FieldHelpers.ExposeCustomAppearanceProps | src/containers/PageBuilder/Field/Field.helpers.js:189-231 | `{}` for a foreign image type; valid colours only; text colour only `light`/`dark`; overlay only for a string preset other than `none`, opacity default 1 |
| FieldHelpers.AppearanceAltIsLocalized | src/containers/PageBuilder/Field/Field.helpers.js:206-209 | the background alt is the localized text when there is one, else the raw value |
| FieldHelpers.NonEmptyString | src/containers/PageBuilder/Field/Field.helpers.js:270 | a non-empty string, else none |
| FieldHelpers.FindVariant | src/containers/PageBuilder/Field/Field.helpers.js:272-273 | the named variant as a one-image list, none iff it is missing |
| FieldHelpers.SocialImages | src/containers/PageBuilder/Field/Field.helpers.js:272-280 | a social image list holds one variant of the sanitized image, and is none iff there is no image or no variant of that name |
| FieldHelpers.ExposeOpenGraphData | src/containers/PageBuilder/Field/Field.helpers.js:262-281 | `{}` iff the image has a foreign type; otherwise non-empty title and description, and the `social1200` and `social600` image lists of the sanitized image |
| ListingFieldI18n.LabelId | src/util/listingFieldI18n.js:26-28 | the key table first, then the label table, else none |
| ListingFieldI18n.ListingFieldLabel | src/util/listingFieldI18n.js:26-30 | a formatted message iff there is an id and `intl`; otherwise the label unchanged |
| ListingFieldI18n.AliasesShareOneId | src/util/listingFieldI18n.js:1-16 | alias keys give the same label |
| ListingFieldI18n.KeyTableWins | src/util/listingFieldI18n.js:26-28 | a key-table hit wins over a conflicting label |
| ListingFieldI18n.IsAllowedAdTypesField | src/util/listingFieldI18n.js:32-33 | true iff the key table gives the key the allowed-ad-types label id |
| ListingFieldI18n.IsAllowedAdsField | src/util/listingFieldI18n.js:35 | neither ads spelling has a label id, and no key is both kinds of field |
| ListingFieldI18n.BothSpellingsAreRecognised | src/util/listingFieldI18n.js:32-35 | `allowedAdTypes` and `allowed_ad_types` are ad-type fields, `allowedAds` and `allowed_ads` are ads fields, and neither camel-case key is the other kind |
| ListingFieldI18n.AllowedAdTypeLabel | src/util/listingFieldI18n.js:37-41 | without `intl` the fallback label or else the value; with it `Listing.allowedAdTypes.<value>` defaulting to that text |
| ListingFieldI18n.AllowedAdsLabel | src/util/listingFieldI18n.js:43-47 | the same under `Listing.allowedAds` |
| ListingFieldI18n.FallbackOr | src/util/listingFieldI18n.js:38 | `fallbackLabel \|\| value` |
| ListingFieldI18n.OptionLabel | src/util/listingFieldI18n.js:37-47 | without `intl` the fallback; with it the id prefix.value and that default |
| ListingFieldI18n.OptionIdsAreDistinct | src/util/listingFieldI18n.js:39-40 | different option values get different message ids |
| ListingFieldI18n.AdTypesAndAdsNeverCollide | src/util/listingFieldI18n.js:39-46 | an ad type id never equals an allowed-ads id |
| CategoryI18n.CategoryLabel | src/util/categoryI18n.js:5-8 | the name without id or `intl`; otherwise the subcategory prefix for level > 1, the category prefix else, with the name as default |
| CategoryI18n.CategoryLevelsNeverCollide | src/util/categoryI18n.js:1-7 | a category id and a subcategory id never coincide |
| FooterContainer.IsSpanishLocale | src/containers/FooterContainer/FooterContainer.js:25-26 | Spanish iff the language before `-` is two letters `e`, `s` in either case |
| FooterContainer.IsSpanishBlock | src/containers/FooterContainer/FooterContainer.js:28 | Spanish iff the `blockId` string ends with `-` and `e`, `s` in either case |
| FooterContainer.SpanishBlocks | src/containers/FooterContainer/FooterContainer.js:30 | exactly the Spanish blocks |
| FooterContainer.DefaultBlocks | src/containers/FooterContainer/FooterContainer.js:29 | exactly the non-Spanish blocks |
| FooterContainer.SpanishFilterKeepsOrder | src/containers/FooterContainer/FooterContainer.js:30 | the Spanish filter keeps the original order |
| FooterContainer.DefaultFilterKeepsOrder | src/containers/FooterContainer/FooterContainer.js:29 | the default filter keeps the original order |
| FooterContainer.FiltersPartition | src/containers/FooterContainer/FooterContainer.js:29-30 | every block lands in exactly one filter |
| FooterContainer.SelectBlocks | src/containers/FooterContainer/FooterContainer.js:31 | non-Spanish locale: default blocks; Spanish: Spanish blocks if any, else all (the default ones) |
| FooterContainer.SpanishFooterIsNeverEmptied | src/containers/FooterContainer/FooterContainer.js:31 | a Spanish reader never loses a non-empty footer |
| FooterContainer.SelectedBlocksMatchTheLanguage | src/containers/FooterContainer/FooterContainer.js:28-31 | every selected block is in the reader's language or the fallback |
| FooterContainer.SpanishLocales | src/containers/FooterContainer/FooterContainer.js:25-26 | `es`, `es-MX`, `ES` are Spanish; `en`, the empty locale and `esp` are not |
| FooterContainer.SectionOverrides | src/containers/FooterContainer/FooterContainer.js:35-38 | the four keys set over the asset and their values |
| FooterContainer.Footer | src/containers/FooterContainer/FooterContainer.js:13-41 | nothing iff the asset is empty; sectionId and sectionType are `footer`, the logo link and selected blocks are set, other keys kept |
| RentedListingsDuck.ResultIds | src/containers/ManageRentedListingsPage/ManageRentedListingsPage.duck.js:92 | the transaction ids in order |
| RentedListingsDuck.RentedListingsPage.constructor | src/containers/ManageRentedListingsPage/ManageRentedListingsPage.duck.js:96-102 | the initial state |
| RentedListingsDuck.RentedListingsPage.Pending | src/containers/ManageRentedListingsPage/ManageRentedListingsPage.duck.js:107-112 | remembers the query, in progress, error and ids cleared, pagination kept |
| RentedListingsDuck.RentedListingsPage.Fulfilled | src/containers/ManageRentedListingsPage/ManageRentedListingsPage.duck.js:113-117 | the ids and pagination of the payload, not in progress, error kept |
| RentedListingsDuck.RentedListingsPage.Rejected | src/containers/ManageRentedListingsPage/ManageRentedListingsPage.duck.js:118-123 | the error, not in progress, ids and pagination kept |
| RentedListingsDuck.QueryThenSucceed | src/containers/ManageRentedListingsPage/ManageRentedListingsPage.duck.js:107-117 | a successful query leaves its own results and no error |
| RentedListingsDuck.QueryThenFail | src/containers/ManageRentedListingsPage/ManageRentedListingsPage.duck.js:107-123 | a failed query leaves no ids, the old pagination and its error |
| RentedListingsDuck.TransactionResources | src/containers/ManageRentedListingsPage/ManageRentedListingsPage.duck.js:31-34 | one transaction reference per id, in order |
| RentedListingsDuck.TransactionsById | src/containers/ManageRentedListingsPage/ManageRentedListingsPage.duck.js:23-39 | nothing without ids or stored entities; otherwise the denormalised transactions, or nothing |
| RentedListingsDuck.FixedQueryParams | src/containers/ManageRentedListingsPage/ManageRentedListingsPage.duck.js:51-67 | the seven fixed keys, in order |
| RentedListingsDuck.QueryParams | src/containers/ManageRentedListingsPage/ManageRentedListingsPage.duck.js:49-68 | the fixed keys overwrite the caller's; other caller keys are kept |
| RentedListingsDuck.QueryIsAlwaysForOrders | src/containers/ManageRentedListingsPage/ManageRentedListingsPage.duck.js:51-52 | `only` is `order` and `processNames` the supported processes, whatever the caller asks |
| RentedListingsDuck.QueryKeepsThePageRequest | src/containers/ManageRentedListingsPage/ManageRentedListingsPage.duck.js:49-50 | the caller's `page` and `perPage` pass through |
| RentedListingsDuck.LoadDataArg | src/containers/ManageRentedListingsPage/ManageRentedListingsPage.duck.js:132-142 | the requested page, 1 when falsy, and 42 per page |
| RentedListingsDuck.LoadData | src/containers/ManageRentedListingsPage/ManageRentedListingsPage.duck.js:131-142 | the query starts with that page request, which reaches the SDK params together with `only: order` |

## Left out

- The WebGL pipeline (shaders, textures, GL calls of `renderMockupToCanvas`): it is a foreign GPU API. An export is modelled as the opacity uniform and the list of draws it issues.
- MockupExport.ExportOverlay: `corners` is always a quad. A direct caller of `renderMockupToCanvas` may pass an element of `overlays` without `corners`; `computeHomography` then reads a property of undefined and throws (src/util/overlayTransform.js:357-361). The only caller in this model, the editor's download, always supplies corners (the active or default quad), so that throw is not modelled.
- IEEE floating point (rounding, NaN, Infinity): all arithmetic is exact over `real`.
- OverlayTransform.HomographyToCssMatrix3d: requires h33 ≠ 0. Every homography the code builds has h33 = 1, and a division by zero would only produce Infinity or NaN, which are floating-point values.
- The `matrix3d(...)` string formatting of the live transforms: the map holds the 16 numbers.
- Overlay ids from `Date.now()` and `Math.random()`, and the `FileReader` and `Image` decoding of uploads (`handleFileChange` in both editors): they are browser I/O. Only the state change after a file is read is modelled.
- `getBoundingClientRect`, `ResizeObserver`, the window listeners and pointer capture: the base size, bounding-box origin and pointer coordinates are parameters.
- The stale closures of React callbacks. The window listener that `startDrag` adds is the `handlePointerMove` of that render, with that render's `baseSize` and `updateCorner`, and so its `activeOverlayId`. `handlePointerUp` has no dependencies, so it removes the listener of the first render. The model's methods read the current fields instead. OverlayEditor.CornerDrag.PointerMove captures the active id when the move arrives, which is the source's value as long as no re-render happens during a drag.
- Natural image sizes that are `undefined`: they are modelled as numbers.
- The blob, object URL and link of a download: a download is described by the plan handed to the canvas.
- OverlayEditor.Download: image loading (`loadImage` rejecting), a tainted canvas and a null `toBlob` result are assumed to succeed. Each of these would end in the `catch` of `handleDownload`, so the corrected download still fails there.
- FieldHelpers.ValidSanitizedImage: the other attributes spread into the sanitized image (`{ ...attributes, variants }`) are not carried. The result holds the id, the type and the valid variants.
- `getEventPosition`'s choice between touch and mouse coordinates: the pointer arrives as one point.
- AdPreview.AdPreviewSection.HandleRotateMove: the angle is a parameter in degrees, not derived with `Math.atan2`, which is trigonometry on floats.
- The contents of `en.json` and `es.json`: the two tables are parameters.
- Object prototype keys (`toString`, ...) in the translation lookups: table membership is a map lookup.
- `sanitizeUrl`: URLs pass through unchanged.
- `intl.formatMessage`: a formatted label is the request (id and default message), not its text.
- `exposeLinkProps`, `exposeSocialMediaProps`, `exposeSearchCtaProps` and `exposeImageProps`: they are built from `sanitizeUrl` and `supportedPlatforms`, whose behaviour is not part of this model.
- FooterContainer.IsSpanishBlock: a truthy `blockId` that is not a string makes the source throw on `toLowerCase`. The model treats it as not Spanish.
- The `SectionBuilder` rendering of the footer section.
- The loaders, `extraProps` and `setInitialValues` of routes, and the React components they render: a route is its path, name, auth flags and what it renders or redirects to.
- `matchPathname` (route matching): it lives in `src/util/routes`, which is not part of this model.
- `originalPathByRouteName` and `originalCreateResourceLocatorString`: only the parameters handed to them are modelled.
- The SDK call, `addMarketplaceEntities`, `storableError`, `fetchCurrentUser`, `createAsyncThunk` and the console logging of the rented-listings slice. `parse(search)` is replaced by the page value it yields.
- Entry order of `Object.values` and `Object.entries`: entries are taken in their listed order. JavaScript lists integer-like keys first.

## Findings

| source | as written | input that shows it | evidently intended | confidence | as-written member | corrected member |
|---|---|---|---|---|---|---|
| src/util/overlayTransform.js:357-363 | a null homography from `computeHomography` goes straight to `invertHomography`, which reads `h[0][0]` and throws; the whole export aborts, and the download fails silently | one visible overlay whose four corners are dragged onto the same point | skip that overlay, as a singular inverse is skipped | not executed | MockupExport.CollapsedOverlayBreaksExportAsWritten | MockupExport.CollapsedOverlayIsSkipped |
| src/context/localeContext.js:152-153 | `{ locale: currentLocale, ...params }` lets an explicit falsy `params.locale` overwrite the injected locale | route `/:locale/s` with params `{ locale: '' }` | a `:locale` route always gets a truthy locale | not executed | LocaleContext.FalsyLocaleParamOverridesInjection | LocaleContext.LocaleParams |
