/**
 * The editing rules of src/containers/ListingPage/OverlayEditor.js: the
 * corner-update rule (free and shift-constrained), the drag state held in the
 * component's refs (`draggingRef`, `rafRef`, `cornersRef`), the choice of the
 * active overlay, the live CSS transforms and the export request.
 *
 * The browser supplies the base image's bounding box, the pointer position and
 * the animation-frame callbacks; here they are method parameters and method
 * calls.  Overlay ids are strings, with "" standing for a missing (falsy) id.
 */
module OverlayEditor {
  import opened Wrappers
  import opened OverlayTransform
  import opened MockupExport

  const DefaultOpacity: real := 0.8

  /** The inset square 0.2–0.8 a new or reset overlay starts from. */
  const DefaultCorners: Quad := Quad(Point(0.2, 0.2), Point(0.8, 0.2), Point(0.8, 0.8), Point(0.2, 0.8))

  datatype Corner = TL | TR | BR | BL

  function CornerOf(q: Quad, key: Corner): Point {
    match key
    case TL => q.tl
    case TR => q.tr
    case BR => q.br
    case BL => q.bl
  }

  /** The corner on the same horizontal edge. */
  function RowNeighbour(key: Corner): Corner {
    match key
    case TL => TR
    case TR => TL
    case BR => BL
    case BL => BR
  }

  /** The corner on the same vertical edge. */
  function ColumnNeighbour(key: Corner): Corner {
    match key
    case TL => BL
    case BL => TL
    case TR => BR
    case BR => TR
  }

  /** The diagonally opposite corner. */
  function Opposite(key: Corner): Corner {
    match key
    case TL => BR
    case BR => TL
    case TR => BL
    case BL => TR
  }

  predicate QuadInUnitSquare(q: Quad) {
    InUnitSquare(q.tl) && InUnitSquare(q.tr) && InUnitSquare(q.br) && InUnitSquare(q.bl)
  }

  /** A quad whose edges are horizontal and vertical. */
  predicate IsAxisRectangle(q: Quad) {
    q.tl.y == q.tr.y && q.bl.y == q.br.y && q.tl.x == q.bl.x && q.tr.x == q.br.x
  }

  /**
   * The corners after dragging `key` to `p`.  Unconstrained, only that corner
   * moves.  Constrained (shift held), the opposite corner stays, the corner on
   * the same horizontal edge takes `p.y` and the one on the same vertical edge
   * takes `p.x`.
   */
  function UpdateCorners(current: Quad, key: Corner, p: Point, constrain: bool): (r: Quad)
    ensures CornerOf(r, key) == p
    ensures !constrain ==> forall other: Corner :: other != key ==> CornerOf(r, other) == CornerOf(current, other)
    ensures constrain ==> CornerOf(r, Opposite(key)) == CornerOf(current, Opposite(key))
    ensures constrain ==> CornerOf(r, RowNeighbour(key)) == Point(CornerOf(current, RowNeighbour(key)).x, p.y)
    ensures constrain ==> CornerOf(r, ColumnNeighbour(key)) == Point(p.x, CornerOf(current, ColumnNeighbour(key)).y)
  {
    if !constrain then
      match key
      case TL => current.(tl := p)
      case TR => current.(tr := p)
      case BR => current.(br := p)
      case BL => current.(bl := p)
    else
      match key
      case TL => Quad(p, Point(current.tr.x, p.y), current.br, Point(p.x, current.bl.y))
      case TR => Quad(Point(current.tl.x, p.y), p, Point(p.x, current.br.y), current.bl)
      case BR => Quad(current.tl, Point(p.x, current.tr.y), p, Point(current.bl.x, p.y))
      case BL => Quad(Point(p.x, current.tl.y), current.tr, Point(current.br.x, p.y), p)
  }

  /** A shift-drag keeps an axis-aligned rectangle axis-aligned. */
  lemma ConstrainedDragKeepsRectangle(current: Quad, key: Corner, p: Point)
    requires IsAxisRectangle(current)
    ensures IsAxisRectangle(UpdateCorners(current, key, p, true))
  {
  }

  /** Dragging a corner to a point of the unit square keeps the quad in the unit square. */
  lemma UpdateKeepsUnitSquare(current: Quad, key: Corner, p: Point, constrain: bool)
    requires QuadInUnitSquare(current) && InUnitSquare(p)
    ensures QuadInUnitSquare(UpdateCorners(current, key, p, constrain))
  {
    var r := UpdateCorners(current, key, p, constrain);
    assert CornerOf(r, TL) == r.tl && CornerOf(r, TR) == r.tr && CornerOf(r, BR) == r.br && CornerOf(r, BL) == r.bl;
  }

  lemma DefaultCornersAreInsetSquare()
    ensures QuadInUnitSquare(DefaultCorners) && IsAxisRectangle(DefaultCorners)
    ensures DefaultCorners.br.x - DefaultCorners.tl.x == DefaultCorners.br.y - DefaultCorners.tl.y == 0.6
  {
  }

  // ---------------------------------------------------------------------------
  // The drag state machine
  // ---------------------------------------------------------------------------

  /** The arguments captured by a scheduled animation-frame callback. */
  datatype PendingUpdate = PendingUpdate(key: Corner, point: Point, constrain: bool, activeId: Option<string>)

  /** One call of `onOverlayCornersChange`. */
  datatype CornersChange = CornersChange(id: string, corners: Quad)

  /**
   * The editor's refs and the one state value the handlers read: the base
   * image's displayed size, the corner being dragged, the pending frame, the
   * corners of the last update and the active overlay's id, plus the changes
   * emitted so far.
   */
  class CornerDrag {
    var baseSize: Size
    var dragging: Option<Corner>
    var pending: Option<PendingUpdate>
    var corners: Quad
    var activeId: Option<string>
    var emitted: seq<CornersChange>

    /** A scheduled update always carries a point of the unit square. */
    predicate Valid()
      reads this
    {
      pending.Some? ==> InUnitSquare(pending.value.point)
    }

    constructor()
      ensures Valid()
      ensures baseSize == Size(0.0, 0.0) && dragging.None? && pending.None?
      ensures corners == DefaultCorners && activeId.None? && emitted == []
    {
      baseSize := Size(0.0, 0.0);
      dragging := None;
      pending := None;
      corners := DefaultCorners;
      activeId := None;
      emitted := [];
    }

    /** The base image was laid out again: a box with a zero side is ignored. */
    method Measure(rect: Size)
      modifies this
      ensures rect.width != 0.0 && rect.height != 0.0 ==> baseSize == rect
      ensures rect.width == 0.0 || rect.height == 0.0 ==> baseSize == old(baseSize)
      ensures dragging == old(dragging) && pending == old(pending) && corners == old(corners)
      ensures activeId == old(activeId) && emitted == old(emitted)
    {
      if rect.width != 0.0 && rect.height != 0.0 {
        baseSize := rect;
      }
    }

    /** A render with a new active overlay: its id and corners replace the refs. */
    method Sync(id: Option<string>, activeCorners: Quad)
      modifies this
      ensures activeId == id && corners == activeCorners
      ensures baseSize == old(baseSize) && dragging == old(dragging) && pending == old(pending) && emitted == old(emitted)
    {
      activeId := id;
      corners := activeCorners;
    }

    /** Pointer down on a handle: ignored until the base image has a size. */
    method StartDrag(key: Corner)
      modifies this
      ensures old(baseSize.width) == 0.0 || old(baseSize.height) == 0.0 ==> dragging == old(dragging)
      ensures old(baseSize.width) != 0.0 && old(baseSize.height) != 0.0 ==> dragging == Some(key)
      ensures baseSize == old(baseSize) && pending == old(pending) && corners == old(corners)
      ensures activeId == old(activeId) && emitted == old(emitted)
    {
      if baseSize.width == 0.0 || baseSize.height == 0.0 {
        return;
      }
      dragging := Some(key);
    }

    /**
     * Pointer move: with a drag in progress, a base size and a bounding box
     * whose top-left corner is `rectOrigin`, the pending frame is replaced by
     * one that commits the normalised pointer position.
     */
    method PointerMove(rectOrigin: Option<Point>, client: Point, shiftKey: bool)
      requires Valid()
      modifies this
      ensures Valid()
      ensures old(dragging).None? || old(baseSize.width) == 0.0 || old(baseSize.height) == 0.0 || rectOrigin.None?
              ==> pending == old(pending)
      ensures old(dragging).Some? && old(baseSize.width) != 0.0 && old(baseSize.height) != 0.0 && rectOrigin.Some?
              ==> pending == Some(PendingUpdate(old(dragging).value,
                                                ToNormalizedPoint(Point(client.x - rectOrigin.value.x, client.y - rectOrigin.value.y), old(baseSize)),
                                                shiftKey, old(activeId)))
      ensures baseSize == old(baseSize) && dragging == old(dragging) && corners == old(corners)
      ensures activeId == old(activeId) && emitted == old(emitted)
    {
      if dragging.None? || baseSize.width == 0.0 || baseSize.height == 0.0 {
        return;
      }
      if rectOrigin.None? {
        return;
      }
      var next := ToNormalizedPoint(Point(client.x - rectOrigin.value.x, client.y - rectOrigin.value.y), baseSize);
      pending := Some(PendingUpdate(dragging.value, next, shiftKey, activeId));
    }

    /**
     * The scheduled frame fires: the update it captured is applied to the
     * corners of the last update and emitted when an overlay was active.
     */
    method AnimationFrame()
      requires Valid()
      modifies this
      ensures Valid() && pending.None?
      ensures old(pending).None? ==> corners == old(corners) && emitted == old(emitted)
      ensures old(pending).Some? ==>
        var u := old(pending).value;
        corners == UpdateCorners(old(corners), u.key, u.point, u.constrain) &&
        emitted == old(emitted) + (if u.activeId.Some? then [CornersChange(u.activeId.value, corners)] else [])
      ensures QuadInUnitSquare(old(corners)) ==> QuadInUnitSquare(corners)
      ensures baseSize == old(baseSize) && dragging == old(dragging) && activeId == old(activeId)
    {
      if pending.None? {
        return;
      }
      var u := pending.value;
      if QuadInUnitSquare(corners) {
        UpdateKeepsUnitSquare(corners, u.key, u.point, u.constrain);
      }
      corners := UpdateCorners(corners, u.key, u.point, u.constrain);
      if u.activeId.Some? {
        emitted := emitted + [CornersChange(u.activeId.value, corners)];
      }
      pending := None;
    }

    /** Pointer up or cancel: the drag ends; a frame already scheduled still fires. */
    method PointerUp()
      modifies this
      ensures dragging.None?
      ensures baseSize == old(baseSize) && pending == old(pending) && corners == old(corners)
      ensures activeId == old(activeId) && emitted == old(emitted)
    {
      if dragging.None? {
        return;
      }
      dragging := None;
    }
  }

  // ---------------------------------------------------------------------------
  // The active overlay
  // ---------------------------------------------------------------------------

  /** The image metadata stored with an overlay. */
  datatype OverlayImage = OverlayImage(naturalWidth: real, naturalHeight: real)

  datatype EditorOverlay = EditorOverlay(id: string, image: Option<OverlayImage>, corners: Option<Quad>, hidden: bool)

  /** `overlayState`; a missing `overlays` is empty and a missing `activeOverlayId` is "". */
  datatype OverlayState = OverlayState(overlays: seq<EditorOverlay>, activeOverlayId: string, opacity: Option<real>)

  predicate HasId(overlays: seq<EditorOverlay>, id: string) {
    exists k :: 0 <= k < |overlays| && overlays[k].id == id
  }

  /** `activeOverlayId`: the stored id, else the first overlay's id, else none. */
  function ActiveId(state: Option<OverlayState>): (r: Option<string>)
    ensures r.Some? ==> r.value != ""
    ensures state.Some? && state.value.activeOverlayId != "" ==> r == Some(state.value.activeOverlayId)
    ensures r.Some? && (state.None? || state.value.activeOverlayId == "") ==>
      state.Some? && |state.value.overlays| > 0 && r.value == state.value.overlays[0].id
  {
    if state.None? then None
    else if state.value.activeOverlayId != "" then Some(state.value.activeOverlayId)
    else if |state.value.overlays| > 0 && state.value.overlays[0].id != "" then Some(state.value.overlays[0].id)
    else None
  }

  /** Index of the first overlay carrying `id`. */
  function FindIndex(overlays: seq<EditorOverlay>, id: string): (r: Option<nat>)
    ensures r.Some? ==> r.value < |overlays| && overlays[r.value].id == id &&
                        forall k :: 0 <= k < r.value ==> overlays[k].id != id
    ensures r.None? ==> !HasId(overlays, id)
  {
    if |overlays| == 0 then None
    else if overlays[0].id == id then Some(0)
    else match FindIndex(overlays[1..], id)
      case None => None
      case Some(k) => Some(k + 1)
  }

  /** `activeOverlay`: the first overlay with the active id, else the first overlay, else none. */
  function ActiveOverlay(overlays: seq<EditorOverlay>, activeId: Option<string>): (r: Option<EditorOverlay>)
    ensures r.None? <==> |overlays| == 0
    ensures r.Some? ==> r.value in overlays
    ensures activeId.Some? && HasId(overlays, activeId.value) ==> r.Some? && r.value.id == activeId.value
  {
    var found := if activeId.Some? then FindIndex(overlays, activeId.value) else None;
    if found.Some? then Some(overlays[found.value])
    else if |overlays| > 0 then Some(overlays[0])
    else None
  }

  function Overlays(state: Option<OverlayState>): seq<EditorOverlay> {
    if state.Some? then state.value.overlays else []
  }

  /**
   * `activeCorners`: the active overlay's corners, or the default ones.  When
   * every stored quad lies in the unit square, so do the active corners.
   */
  function ActiveCorners(state: Option<OverlayState>): (r: Quad)
    ensures (forall k :: 0 <= k < |Overlays(state)| ==> Overlays(state)[k].corners.None?) ==> r == DefaultCorners
    ensures (forall k :: 0 <= k < |Overlays(state)| && Overlays(state)[k].corners.Some? ==>
               QuadInUnitSquare(Overlays(state)[k].corners.value)) ==> QuadInUnitSquare(r)
    ensures ActiveId(state).Some? && HasId(Overlays(state), ActiveId(state).value) ==>
              var k := FindIndex(Overlays(state), ActiveId(state).value).value;
              r == Overlays(state)[k].corners.GetOr(DefaultCorners)
  {
    DefaultCornersAreInsetSquare();
    var active := ActiveOverlay(Overlays(state), ActiveId(state));
    if active.Some? && active.value.corners.Some? then active.value.corners.value else DefaultCorners
  }

  /** `opacity`: the stored number, or 0.8. */
  function Opacity(state: Option<OverlayState>): (r: real)
    ensures state.Some? && state.value.opacity.Some? ==> r == state.value.opacity.value
    ensures state.None? || state.value.opacity.None? ==> r == DefaultOpacity
  {
    if state.Some? && state.value.opacity.Some? then state.value.opacity.value else DefaultOpacity
  }

  /**
   * The reassignment effect: with overlays present and an active id that is
   * missing or names no overlay, `onOverlaySetActive` is called with the first
   * overlay's id.
   */
  function ReassignRequest(state: Option<OverlayState>): (r: Option<string>)
    ensures r.Some? <==> |Overlays(state)| > 0 && (ActiveId(state).None? || !HasId(Overlays(state), ActiveId(state).value))
    ensures r.Some? ==> r.value == Overlays(state)[0].id
  {
    var overlays := Overlays(state);
    var id := ActiveId(state);
    if |overlays| == 0 then None
    else if id.None? || FindIndex(overlays, id.value).None? then Some(overlays[0].id)
    else None
  }

  /** Once the requested id is stored, no further reassignment is requested. */
  lemma ReassignSettles(state: OverlayState)
    requires ReassignRequest(Some(state)).Some? && state.overlays[0].id != ""
    ensures ReassignRequest(Some(state.(activeOverlayId := ReassignRequest(Some(state)).value))).None?
  {
    var next := state.(activeOverlayId := state.overlays[0].id);
    assert Overlays(Some(next))[0].id == state.overlays[0].id;
  }

  /** When no reassignment is pending, the active overlay is the one the active id names. */
  lemma SettledActiveOverlayMatchesId(state: Option<OverlayState>)
    requires |Overlays(state)| > 0 && ReassignRequest(state).None?
    ensures ActiveId(state).Some?
    ensures ActiveOverlay(Overlays(state), ActiveId(state)).value.id == ActiveId(state).value
  {
  }

  /** Reset: the active overlay is sent back to the default corners; without one nothing happens. */
  function ResetRequest(activeId: Option<string>): (r: Option<CornersChange>)
    ensures r.Some? <==> activeId.Some?
    ensures r.Some? ==> r.value.id == activeId.value && QuadInUnitSquare(r.value.corners) && IsAxisRectangle(r.value.corners)
  {
    DefaultCornersAreInsetSquare();
    if activeId.Some? then Some(CornersChange(activeId.value, DefaultCorners)) else None
  }

  // ---------------------------------------------------------------------------
  // Live transforms and handles
  // ---------------------------------------------------------------------------

  /** The CSS matrix of one overlay over a base of size `baseSize`, if it has one. */
  function TransformOf(o: EditorOverlay, baseSize: Size): Option<seq<real>> {
    if o.image.None? then None
    else
      var h := ComputeHomography(Size(o.image.value.naturalWidth, o.image.value.naturalHeight),
                                 o.corners.GetOr(DefaultCorners), baseSize);
      HomographyToCssMatrix3d(h)
  }

  /** Each overlay's id paired with its CSS matrix, if it has one. */
  function TransformPairs(overlays: seq<EditorOverlay>, baseSize: Size): (r: seq<(string, Option<seq<real>>)>)
    ensures |r| == |overlays|
    ensures forall k :: 0 <= k < |r| ==> r[k] == (overlays[k].id, TransformOf(overlays[k], baseSize))
  {
    seq(|overlays|, k requires 0 <= k < |overlays| => (overlays[k].id, TransformOf(overlays[k], baseSize)))
  }

  /** The `reduce` step by step: each pair with a transform writes its entry, later ones win. */
  function WriteEntries(acc: map<string, seq<real>>, pairs: seq<(string, Option<seq<real>>)>): (r: map<string, seq<real>>)
    ensures acc.Keys <= r.Keys
    ensures (forall k :: 0 <= k < |pairs| ==> pairs[k].1.None?) ==> r == acc
    decreases |pairs|
  {
    if |pairs| == 0 then acc
    else WriteEntries(if pairs[0].1.Some? then acc[pairs[0].0 := pairs[0].1.value] else acc, pairs[1..])
  }

  /** The `reduce` of `overlayTransforms` over the overlays, starting from `acc`. */
  function TransformsFrom(acc: map<string, seq<real>>, overlays: seq<EditorOverlay>, baseSize: Size): (r: map<string, seq<real>>)
    ensures acc.Keys <= r.Keys
    ensures (forall k :: 0 <= k < |overlays| ==> overlays[k].image.None?) ==> r == acc
  {
    WriteEntries(acc, TransformPairs(overlays, baseSize))
  }

  /** `overlayTransforms`: empty until the base image has a size. */
  function OverlayTransforms(overlays: seq<EditorOverlay>, baseSize: Size): (r: map<string, seq<real>>)
    ensures baseSize.width == 0.0 || baseSize.height == 0.0 ==> r == map[]
  {
    if baseSize.width == 0.0 || baseSize.height == 0.0 then map[]
    else TransformsFrom(map[], overlays, baseSize)
  }

  /** The reduce ends with a key exactly when it started with it or some pair with a transform writes it. */
  lemma {:induction false} WriteEntriesKeys(acc: map<string, seq<real>>, pairs: seq<(string, Option<seq<real>>)>, id: string)
    ensures id in WriteEntries(acc, pairs) <==>
      id in acc || exists k :: 0 <= k < |pairs| && pairs[k].0 == id && pairs[k].1.Some?
    decreases |pairs|
  {
    if |pairs| > 0 {
      var acc' := if pairs[0].1.Some? then acc[pairs[0].0 := pairs[0].1.value] else acc;
      var rest := pairs[1..];
      WriteEntriesKeys(acc', rest, id);
      if exists k :: 0 <= k < |rest| && rest[k].0 == id && rest[k].1.Some? {
        var k :| 0 <= k < |rest| && rest[k].0 == id && rest[k].1.Some?;
        assert pairs[k + 1] == rest[k];
      }
      if exists k :: 0 <= k < |pairs| && pairs[k].0 == id && pairs[k].1.Some? {
        var k :| 0 <= k < |pairs| && pairs[k].0 == id && pairs[k].1.Some?;
        if k > 0 {
          assert rest[k - 1] == pairs[k];
        }
      }
    }
  }

  /** A pair whose id no later pair repeats leaves its own value under that id. */
  lemma {:induction false} WriteEntriesValue(acc: map<string, seq<real>>, pairs: seq<(string, Option<seq<real>>)>, k: nat)
    requires k < |pairs| && pairs[k].1.Some?
    requires forall j :: k < j < |pairs| ==> pairs[j].0 != pairs[k].0
    ensures pairs[k].0 in WriteEntries(acc, pairs) && WriteEntries(acc, pairs)[pairs[k].0] == pairs[k].1.value
    decreases |pairs|
  {
    var acc' := if pairs[0].1.Some? then acc[pairs[0].0 := pairs[0].1.value] else acc;
    if k == 0 {
      WriteEntriesUntouched(acc', pairs[1..], pairs[0].0);
    } else {
      WriteEntriesValue(acc', pairs[1..], k - 1);
    }
  }

  /** Keys that no pair carries keep the value they started with. */
  lemma {:induction false} WriteEntriesUntouched(acc: map<string, seq<real>>, pairs: seq<(string, Option<seq<real>>)>, id: string)
    requires id in acc
    requires forall j :: 0 <= j < |pairs| ==> pairs[j].0 != id
    ensures id in WriteEntries(acc, pairs) && WriteEntries(acc, pairs)[id] == acc[id]
    decreases |pairs|
  {
    if |pairs| > 0 {
      var acc' := if pairs[0].1.Some? then acc[pairs[0].0 := pairs[0].1.value] else acc;
      WriteEntriesUntouched(acc', pairs[1..], id);
    }
  }

  /** The reduce adds an entry exactly for the ids of overlays that have a transform. */
  lemma TransformsFromKeys(acc: map<string, seq<real>>, overlays: seq<EditorOverlay>, baseSize: Size, id: string)
    ensures id in TransformsFrom(acc, overlays, baseSize) <==>
      id in acc || exists k :: 0 <= k < |overlays| && overlays[k].id == id && TransformOf(overlays[k], baseSize).Some?
  {
    var pairs := TransformPairs(overlays, baseSize);
    WriteEntriesKeys(acc, pairs, id);
    if exists k :: 0 <= k < |pairs| && pairs[k].0 == id && pairs[k].1.Some? {
      var k :| 0 <= k < |pairs| && pairs[k].0 == id && pairs[k].1.Some?;
      assert overlays[k].id == id && TransformOf(overlays[k], baseSize).Some?;
    }
    if exists k :: 0 <= k < |overlays| && overlays[k].id == id && TransformOf(overlays[k], baseSize).Some? {
      var k :| 0 <= k < |overlays| && overlays[k].id == id && TransformOf(overlays[k], baseSize).Some?;
      assert pairs[k].0 == id && pairs[k].1.Some?;
    }
  }

  /**
   * With a base size, an overlay has an entry exactly when some overlay with
   * its id has an image and a non-null homography.
   */
  lemma TransformKeys(overlays: seq<EditorOverlay>, baseSize: Size, id: string)
    requires baseSize.width != 0.0 && baseSize.height != 0.0
    ensures id in OverlayTransforms(overlays, baseSize) <==>
      exists k :: 0 <= k < |overlays| && overlays[k].id == id && TransformOf(overlays[k], baseSize).Some?
  {
    TransformsFromKeys(map[], overlays, baseSize, id);
  }

  /** An overlay whose id no later overlay repeats keeps its own transform in the map. */
  lemma TransformsFromValue(acc: map<string, seq<real>>, overlays: seq<EditorOverlay>, baseSize: Size, k: nat)
    requires k < |overlays| && TransformOf(overlays[k], baseSize).Some?
    requires forall j :: k < j < |overlays| ==> overlays[j].id != overlays[k].id
    ensures overlays[k].id in TransformsFrom(acc, overlays, baseSize)
    ensures TransformsFrom(acc, overlays, baseSize)[overlays[k].id] == TransformOf(overlays[k], baseSize).value
  {
    var pairs := TransformPairs(overlays, baseSize);
    assert pairs[k] == (overlays[k].id, TransformOf(overlays[k], baseSize));
    WriteEntriesValue(acc, pairs, k);
  }

  /** Entries for ids no overlay carries are left as they were. */
  lemma TransformsFromUntouched(acc: map<string, seq<real>>, overlays: seq<EditorOverlay>, baseSize: Size, id: string)
    requires id in acc
    requires forall j :: 0 <= j < |overlays| ==> overlays[j].id != id
    ensures id in TransformsFrom(acc, overlays, baseSize) && TransformsFrom(acc, overlays, baseSize)[id] == acc[id]
  {
    WriteEntriesUntouched(acc, TransformPairs(overlays, baseSize), id);
  }

  /** With distinct ids, each overlay that has a transform is shown with it. */
  lemma TransformOfEachOverlay(overlays: seq<EditorOverlay>, baseSize: Size, k: nat)
    requires baseSize.width != 0.0 && baseSize.height != 0.0
    requires k < |overlays| && TransformOf(overlays[k], baseSize).Some?
    requires forall i, j :: 0 <= i < j < |overlays| ==> overlays[i].id != overlays[j].id
    ensures overlays[k].id in OverlayTransforms(overlays, baseSize)
    ensures OverlayTransforms(overlays, baseSize)[overlays[k].id] == TransformOf(overlays[k], baseSize).value
  {
    TransformsFromValue(map[], overlays, baseSize, k);
  }

  /** The overlays drawn on the stage: those with an image and a transform entry. */
  function RenderedIds(overlays: seq<EditorOverlay>, transforms: map<string, seq<real>>): (r: seq<string>)
    ensures |r| <= |overlays|
    ensures forall k :: 0 <= k < |overlays| && overlays[k].image.Some? && overlays[k].id in transforms ==> overlays[k].id in r
    ensures forall id :: id in r ==> id in transforms && exists k :: 0 <= k < |overlays| && overlays[k].id == id && overlays[k].image.Some?
  {
    if |overlays| == 0 then []
    else
      var rest := RenderedIds(overlays[1..], transforms);
      assert forall id :: id in rest ==> exists k :: 0 <= k < |overlays| && overlays[k].id == id && overlays[k].image.Some? by {
        forall id | id in rest
          ensures exists k :: 0 <= k < |overlays| && overlays[k].id == id && overlays[k].image.Some?
        {
          var j :| 0 <= j < |overlays[1..]| && overlays[1..][j].id == id && overlays[1..][j].image.Some?;
          assert overlays[j + 1] == overlays[1..][j];
        }
      }
      (if overlays[0].image.Some? && overlays[0].id in transforms then [overlays[0].id] else []) + rest
  }

  /** The stage keeps the overlays' order: rendering a concatenation concatenates the rendered ids. */
  lemma {:induction false} RenderedIdsConcat(a: seq<EditorOverlay>, b: seq<EditorOverlay>, transforms: map<string, seq<real>>)
    ensures RenderedIds(a + b, transforms) == RenderedIds(a, transforms) + RenderedIds(b, transforms)
  {
    if |a| == 0 {
      assert a + b == b;
    } else {
      assert (a + b)[1..] == a[1..] + b;
      RenderedIdsConcat(a[1..], b, transforms);
    }
  }

  /** The corner handles in display pixels, shown once the base image has a width. */
  function HandlePositions(baseSize: Size, activeCorners: Quad): (r: Option<Quad>)
    ensures r.Some? <==> baseSize.width != 0.0
  {
    if baseSize.width != 0.0 then
      Some(Quad(ToDisplayPoint(activeCorners.tl, baseSize), ToDisplayPoint(activeCorners.tr, baseSize),
                ToDisplayPoint(activeCorners.br, baseSize), ToDisplayPoint(activeCorners.bl, baseSize)))
    else None
  }

  /** A handle placed on the stage normalises back to the corner it shows. */
  lemma HandlesNormaliseBack(baseSize: Size, activeCorners: Quad)
    requires baseSize.width > 0.0 && baseSize.height > 0.0 && QuadInUnitSquare(activeCorners)
    ensures var h := HandlePositions(baseSize, activeCorners).value;
            ToNormalizedPoint(h.tl, baseSize) == activeCorners.tl && ToNormalizedPoint(h.tr, baseSize) == activeCorners.tr &&
            ToNormalizedPoint(h.br, baseSize) == activeCorners.br && ToNormalizedPoint(h.bl, baseSize) == activeCorners.bl
  {
    NormalizeAfterDisplay(activeCorners.tl, baseSize);
    NormalizeAfterDisplay(activeCorners.tr, baseSize);
    NormalizeAfterDisplay(activeCorners.br, baseSize);
    NormalizeAfterDisplay(activeCorners.bl, baseSize);
  }

  // ---------------------------------------------------------------------------
  // Download
  // ---------------------------------------------------------------------------

  /** What the export hands to `renderMockupToCanvas` for one stored overlay. */
  function ExportEntry(o: EditorOverlay): (r: Option<ExportOverlay>)
    ensures r.Some? <==> o.image.Some?
    ensures r.Some? ==> r.value.hidden == o.hidden && r.value.corners == o.corners.GetOr(DefaultCorners)
  {
    if o.image.None? then None
    else
      var img := o.image.value;
      Some(ExportOverlay(Some(ImageDims(img.naturalWidth, img.naturalHeight, img.naturalWidth, img.naturalHeight)),
                         o.corners.GetOr(DefaultCorners), Some(Size(img.naturalWidth, img.naturalHeight)), o.hidden))
  }

  /** `overlayAssets.filter(Boolean)`: the entries of the overlays that have an image, in order. */
  function ExportEntries(overlays: seq<EditorOverlay>): (r: seq<Option<ExportOverlay>>)
    ensures |r| <= |overlays|
    ensures forall e :: e in r ==> e.Some?
  {
    if |overlays| == 0 then []
    else
      var e := ExportEntry(overlays[0]);
      (if e.Some? then [e] else []) + ExportEntries(overlays[1..])
  }

  /** The outcome of a download click. */
  datatype DownloadOutcome = NotStarted | Failed | Exported(plan: Plan)

  /**
   * `handleDownload` as written: nothing without overlays or a base image; a
   * throwing export is caught and logged, so the download silently fails.
   */
  function DownloadAsWritten(overlays: seq<EditorOverlay>, hasBaseImage: bool, baseNatural: Size, opacity: real): (r: DownloadOutcome)
    ensures r.NotStarted? <==> |overlays| == 0 || !hasBaseImage
    ensures r.Exported? ==> r.plan.opacity.Some? ==> 0.0 <= r.plan.opacity.value <= 1.0
  {
    if |overlays| == 0 || !hasBaseImage then NotStarted
    else
      match RenderAsWritten(ExportEntries(overlays), None, None, None, Some(opacity), baseNatural)
      case None => Failed
      case Some(plan) => Exported(plan)
  }

  /** An overlay with an image whose four corners coincide makes the download fail, as written. */
  lemma CollapsedOverlayFailsDownload(before: seq<EditorOverlay>, o: EditorOverlay, after: seq<EditorOverlay>,
                                      baseNatural: Size, opacity: real)
    requires ExportEntry(o).Some? && CollapsedVisible(ExportEntry(o).value)
    ensures DownloadAsWritten(before + [o] + after, true, baseNatural, opacity) == Failed
  {
    ExportEntriesConcat(before + [o], after);
    ExportEntriesConcat(before, [o]);
    assert ExportEntries([o]) == [ExportEntry(o)] by {
      assert [o][1..] == [];
    }
    CollapsedOverlayBreaksExportAsWritten(ExportEntries(before), ExportEntry(o).value, ExportEntries(after), Some(opacity), baseNatural);
  }

  /**
   * `handleDownload` with null homographies skipped: it never fails, and
   * every overlay with an image takes part in the export.
   */
  function Download(overlays: seq<EditorOverlay>, hasBaseImage: bool, baseNatural: Size, opacity: real): (r: DownloadOutcome)
    ensures r != Failed
    ensures r.NotStarted? <==> |overlays| == 0 || !hasBaseImage
    ensures r.Exported? ==> r.plan.draws == Draws(ExportEntries(overlays), baseNatural)
  {
    if |overlays| == 0 || !hasBaseImage then NotStarted
    else Exported(Render(ExportEntries(overlays), None, None, None, Some(opacity), baseNatural))
  }

  /** Wherever the download as written does not fail, it exports what the corrected one does. */
  lemma DownloadAgreesUnlessItFails(overlays: seq<EditorOverlay>, hasBaseImage: bool, baseNatural: Size, opacity: real)
    requires DownloadAsWritten(overlays, hasBaseImage, baseNatural, opacity) != Failed
    ensures DownloadAsWritten(overlays, hasBaseImage, baseNatural, opacity) == Download(overlays, hasBaseImage, baseNatural, opacity)
  {
    var list := ExportEntries(overlays);
    if |overlays| > 0 && hasBaseImage && |list| > 0 {
      assert OverlayList(list, None, None, None) == list;
      AsWrittenAgreesWhenItSucceeds(list, baseNatural);
    }
  }

  lemma {:induction false} ExportEntriesConcat(a: seq<EditorOverlay>, b: seq<EditorOverlay>)
    ensures ExportEntries(a + b) == ExportEntries(a) + ExportEntries(b)
  {
    if |a| > 0 {
      assert (a + b)[1..] == a[1..] + b;
      ExportEntriesConcat(a[1..], b);
    } else {
      assert a + b == b;
    }
  }
}
