/**
 * The drag, resize and rotate state of src/containers/ListingPage/SectionAdPreview.js:
 * an uploaded design laid over the listing image, moved and resized with the
 * pointer inside the preview container.
 *
 * `Preview` is the component's state as a value and the functions below are
 * its transitions; `AdPreviewSection` holds the same state in fields and its
 * methods step them, each proved to follow its transition.  The container's
 * bounding box arrives as a parameter (None when the container is not
 * mounted), and the rotation angle, which the source derives with `atan2`,
 * arrives already in degrees.
 */
module AdPreview {
  import opened Wrappers
  import opened Reals

  datatype Pos = Pos(x: real, y: real)
  datatype Dim = Dim(width: real, height: real)

  /** The container's bounding client rectangle. */
  datatype Rect = Rect(left: real, top: real, width: real, height: real)

  datatype Preview = Preview(image: Option<string>, position: Pos, size: Dim, rotation: real,
                             isDragging: bool, isResizing: bool, isRotating: bool, dragStart: Pos)

  const StartPosition: Pos := Pos(50.0, 50.0)
  const StartSize: Dim := Dim(200.0, 120.0)
  const MinWidth: real := 50.0
  const MinHeight: real := 30.0

  const Initial: Preview := Preview(None, StartPosition, StartSize, 0.0, false, false, false, Pos(0.0, 0.0))

  /** The pointer relative to the container's top-left corner. */
  function EventPosition(container: Rect, client: Pos): Pos {
    Pos(client.x - container.left, client.y - container.top)
  }

  /**
   * The position a drag move gives: the pointer minus the grab offset, held
   * at or right of 0 and, where it fits, inside the container.
   */
  function DraggedPosition(pointer: Pos, offset: Pos, container: Rect, size: Dim): (r: Pos)
    ensures r.x >= 0.0 && r.y >= 0.0
    ensures container.width >= size.width ==> r.x <= container.width - size.width
    ensures container.height >= size.height ==> r.y <= container.height - size.height
    ensures 0.0 <= pointer.x - offset.x <= container.width - size.width ==> r.x == pointer.x - offset.x
    ensures 0.0 <= pointer.y - offset.y <= container.height - size.height ==> r.y == pointer.y - offset.y
  {
    Pos(Max(0.0, Min(pointer.x - offset.x, container.width - size.width)),
        Max(0.0, Min(pointer.y - offset.y, container.height - size.height)))
  }

  /**
   * The size a resize move gives: grown by the pointer's movement, at least
   * 50 by 30, then cut to the room left right of and below the position.
   */
  function ResizedSize(size: Dim, delta: Pos, position: Pos, container: Rect): (r: Dim)
    ensures r.width <= container.width - position.x && r.height <= container.height - position.y
    ensures container.width - position.x >= MinWidth ==> r.width >= MinWidth
    ensures container.height - position.y >= MinHeight ==> r.height >= MinHeight
    ensures MinWidth <= size.width + delta.x <= container.width - position.x ==> r.width == size.width + delta.x
    ensures MinHeight <= size.height + delta.y <= container.height - position.y ==> r.height == size.height + delta.y
  {
    Dim(Min(Max(MinWidth, size.width + delta.x), container.width - position.x),
        Min(Max(MinHeight, size.height + delta.y), container.height - position.y))
  }

  // ---------------------------------------------------------------------------
  // Transitions
  // ---------------------------------------------------------------------------

  /** A file was read: an image resets position, size and rotation; anything else changes nothing. */
  function FileLoaded(s: Preview, mimeType: string, dataUrl: string): (r: Preview)
    ensures "image/" <= mimeType ==>
      r.image == Some(dataUrl) && r.position == StartPosition && r.size == StartSize && r.rotation == 0.0
    ensures !("image/" <= mimeType) ==> r == s
    ensures r.isDragging == s.isDragging && r.isResizing == s.isResizing && r.isRotating == s.isRotating && r.dragStart == s.dragStart
  {
    if "image/" <= mimeType then s.(image := Some(dataUrl), position := StartPosition, size := StartSize, rotation := 0.0)
    else s
  }

  /** Remove clears the image; the position, size, rotation and mode flags stay. */
  function Removed(s: Preview): (r: Preview)
    ensures r.image.None?
    ensures r == s.(image := r.image)
  {
    s.(image := None)
  }

  /** Drag start is ignored while resizing or rotating; otherwise it records where the overlay was grabbed. */
  function DragStart(s: Preview, container: Option<Rect>, client: Pos): (r: Preview)
    ensures s.isResizing || s.isRotating || container.None? ==> r == s
    ensures !s.isResizing && !s.isRotating && container.Some? ==>
      r == s.(isDragging := true, dragStart := r.dragStart) &&
      Pos(r.dragStart.x + r.position.x, r.dragStart.y + r.position.y) == EventPosition(container.value, client)
  {
    if s.isResizing || s.isRotating || container.None? then s
    else
      var pos := EventPosition(container.value, client);
      s.(isDragging := true, dragStart := Pos(pos.x - s.position.x, pos.y - s.position.y))
  }

  /** A drag move changes only the position, and keeps it non-negative. */
  function DragMove(s: Preview, container: Option<Rect>, client: Pos): (r: Preview)
    ensures r == s.(position := r.position)
    ensures !s.isDragging || container.None? ==> r == s
    ensures s.isDragging && container.Some? ==> r.position.x >= 0.0 && r.position.y >= 0.0
  {
    if !s.isDragging || container.None? then s
    else s.(position := DraggedPosition(EventPosition(container.value, client), s.dragStart, container.value, s.size))
  }

  /** Resize start sets the resizing flag and anchors the pointer; nothing else changes. */
  function ResizeStart(s: Preview, container: Option<Rect>, client: Pos): (r: Preview)
    ensures container.None? ==> r == s
    ensures container.Some? ==> r == s.(isResizing := true, dragStart := EventPosition(container.value, client))
  {
    if container.None? then s
    else s.(isResizing := true, dragStart := EventPosition(container.value, client))
  }

  /**
   * A resize move changes only the size and the pointer anchor, which moves to
   * the pointer; the size stays within the room right of and below the position.
   */
  function ResizeMove(s: Preview, container: Option<Rect>, client: Pos): (r: Preview)
    ensures r == s.(size := r.size, dragStart := r.dragStart)
    ensures !s.isResizing || container.None? ==> r == s
    ensures s.isResizing && container.Some? ==>
      r.dragStart == EventPosition(container.value, client) &&
      r.size.width <= container.value.width - s.position.x && r.size.height <= container.value.height - s.position.y
  {
    if !s.isResizing || container.None? then s
    else
      var pos := EventPosition(container.value, client);
      var delta := Pos(pos.x - s.dragStart.x, pos.y - s.dragStart.y);
      s.(size := ResizedSize(s.size, delta, s.position, container.value), dragStart := pos)
  }

  /** Rotate start sets the rotating flag and nothing else. */
  function RotateStart(s: Preview): (r: Preview)
    ensures r.isRotating && r.(isRotating := s.isRotating) == s
  {
    s.(isRotating := true)
  }

  /** A rotate move changes only the angle, and only while rotating in a mounted container. */
  function RotateMove(s: Preview, container: Option<Rect>, degrees: real): (r: Preview)
    ensures r == s.(rotation := r.rotation)
    ensures s.isRotating && container.Some? ==> r.rotation == degrees
    ensures !s.isRotating || container.None? ==> r == s
  {
    if !s.isRotating || container.None? then s
    else s.(rotation := degrees)
  }

  /**
   * The combined move handler runs exactly one handler, by priority: a drag
   * changes only the position, a resize only the size and the pointer anchor,
   * a rotation only the angle; with no mode set nothing changes.
   */
  function PointerMove(s: Preview, container: Option<Rect>, client: Pos, degrees: real): (r: Preview)
    ensures r.image == s.image && r.isDragging == s.isDragging && r.isResizing == s.isResizing && r.isRotating == s.isRotating
    ensures s.isDragging ==> r.size == s.size && r.rotation == s.rotation && r.dragStart == s.dragStart
    ensures !s.isDragging && s.isResizing ==> r.position == s.position && r.rotation == s.rotation
    ensures !s.isDragging && !s.isResizing && s.isRotating ==>
              r.position == s.position && r.size == s.size && r.dragStart == s.dragStart &&
              (container.Some? ==> r.rotation == degrees)
    ensures !s.isDragging && !s.isResizing && !s.isRotating ==> r == s
  {
    if s.isDragging then DragMove(s, container, client)
    else if s.isResizing then ResizeMove(s, container, client)
    else if s.isRotating then RotateMove(s, container, degrees)
    else s
  }

  function PointerEnd(s: Preview): (r: Preview)
    ensures !r.isDragging && !r.isResizing && !r.isRotating
    ensures r.image == s.image && r.position == s.position && r.size == s.size && r.rotation == s.rotation && r.dragStart == s.dragStart
  {
    s.(isDragging := false, isResizing := false, isRotating := false)
  }

  // ---------------------------------------------------------------------------
  // Properties
  // ---------------------------------------------------------------------------

  /** The overlay's position is never negative. */
  predicate Valid(s: Preview) {
    s.position.x >= 0.0 && s.position.y >= 0.0
  }

  lemma EveryTransitionKeepsPositionNonNegative(s: Preview, container: Option<Rect>, client: Pos, degrees: real,
                                                mimeType: string, dataUrl: string)
    requires Valid(s)
    ensures Valid(FileLoaded(s, mimeType, dataUrl)) && Valid(Removed(s))
    ensures Valid(DragStart(s, container, client)) && Valid(ResizeStart(s, container, client)) && Valid(RotateStart(s))
    ensures Valid(PointerMove(s, container, client, degrees)) && Valid(PointerEnd(s))
  {
  }

  /**
   * A drag keeps the grab offset: while the pointer stays where the overlay
   * fits, the overlay moves with it, so the point grabbed stays under it.
   */
  lemma DragFollowsPointer(s: Preview, container: Rect, client: Pos)
    requires s.isDragging
    requires var p := EventPosition(container, client);
             0.0 <= p.x - s.dragStart.x <= container.width - s.size.width &&
             0.0 <= p.y - s.dragStart.y <= container.height - s.size.height
    ensures var r := DragMove(s, Some(container), client);
            Pos(r.position.x + r.dragStart.x, r.position.y + r.dragStart.y) == EventPosition(container, client)
  {
  }

  /** Where the overlay fits the container, a drag keeps it wholly inside. */
  lemma DragStaysInside(s: Preview, container: Rect, client: Pos)
    requires s.isDragging && container.width >= s.size.width && container.height >= s.size.height
    ensures var r := DragMove(s, Some(container), client).position;
            0.0 <= r.x <= container.width - s.size.width && 0.0 <= r.y <= container.height - s.size.height
  {
  }

  /**
   * Resize deltas are incremental: each move measures from the previous
   * pointer position, so two unclamped moves equal one move over the whole
   * distance.
   */
  lemma ResizeDeltasCompose(s: Preview, container: Rect, c1: Pos, c2: Pos)
    requires s.isResizing
    requires var p1 := EventPosition(container, c1);
             var p2 := EventPosition(container, c2);
             var w1 := s.size.width + (p1.x - s.dragStart.x);
             var h1 := s.size.height + (p1.y - s.dragStart.y);
             MinWidth <= w1 <= container.width - s.position.x && MinHeight <= h1 <= container.height - s.position.y &&
             MinWidth <= w1 + (p2.x - p1.x) <= container.width - s.position.x &&
             MinHeight <= h1 + (p2.y - p1.y) <= container.height - s.position.y
    ensures ResizeMove(ResizeMove(s, Some(container), c1), Some(container), c2).size == ResizeMove(s, Some(container), c2).size
  {
  }

  /** After the pointer is released, moves change nothing until a new start. */
  lemma MovesAfterEndAreIgnored(s: Preview, container: Option<Rect>, client: Pos, degrees: real)
    ensures PointerMove(PointerEnd(s), container, client, degrees) == PointerEnd(s)
  {
  }

  // ---------------------------------------------------------------------------
  // The component's state in fields
  // ---------------------------------------------------------------------------

  class AdPreviewSection {
    var image: Option<string>
    var position: Pos
    var size: Dim
    var rotation: real
    var isDragging: bool
    var isResizing: bool
    var isRotating: bool
    var dragStart: Pos

    function Snapshot(): Preview
      reads this
    {
      Preview(image, position, size, rotation, isDragging, isResizing, isRotating, dragStart)
    }

    constructor()
      ensures Snapshot() == Initial && Valid(Snapshot())
    {
      image := None;
      position := StartPosition;
      size := StartSize;
      rotation := 0.0;
      isDragging := false;
      isResizing := false;
      isRotating := false;
      dragStart := Pos(0.0, 0.0);
    }

    method HandleFileLoaded(mimeType: string, dataUrl: string)
      modifies this
      ensures Snapshot() == FileLoaded(old(Snapshot()), mimeType, dataUrl)
    {
      if "image/" <= mimeType {
        image := Some(dataUrl);
        position := StartPosition;
        size := StartSize;
        rotation := 0.0;
      }
    }

    method HandleRemove()
      modifies this
      ensures Snapshot() == Removed(old(Snapshot()))
    {
      image := None;
    }

    method HandleDragStart(container: Option<Rect>, client: Pos)
      modifies this
      ensures Snapshot() == DragStart(old(Snapshot()), container, client)
    {
      if isResizing || isRotating {
        return;
      }
      if container.None? {
        return;
      }
      var pos := EventPosition(container.value, client);
      isDragging := true;
      dragStart := Pos(pos.x - position.x, pos.y - position.y);
    }

    method HandleDragMove(container: Option<Rect>, client: Pos)
      modifies this
      ensures Snapshot() == DragMove(old(Snapshot()), container, client)
    {
      if !isDragging || container.None? {
        return;
      }
      var pos := EventPosition(container.value, client);
      var newX := pos.x - dragStart.x;
      var newY := pos.y - dragStart.y;
      newX := Max(0.0, Min(newX, container.value.width - size.width));
      newY := Max(0.0, Min(newY, container.value.height - size.height));
      position := Pos(newX, newY);
    }

    method HandleResizeStart(container: Option<Rect>, client: Pos)
      modifies this
      ensures Snapshot() == ResizeStart(old(Snapshot()), container, client)
    {
      if container.None? {
        return;
      }
      isResizing := true;
      dragStart := EventPosition(container.value, client);
    }

    method HandleResizeMove(container: Option<Rect>, client: Pos)
      modifies this
      ensures Snapshot() == ResizeMove(old(Snapshot()), container, client)
    {
      if !isResizing || container.None? {
        return;
      }
      var pos := EventPosition(container.value, client);
      var deltaX := pos.x - dragStart.x;
      var deltaY := pos.y - dragStart.y;
      var newWidth := Max(MinWidth, size.width + deltaX);
      var newHeight := Max(MinHeight, size.height + deltaY);
      newWidth := Min(newWidth, container.value.width - position.x);
      newHeight := Min(newHeight, container.value.height - position.y);
      size := Dim(newWidth, newHeight);
      dragStart := pos;
    }

    method HandleRotateStart()
      modifies this
      ensures Snapshot() == RotateStart(old(Snapshot()))
    {
      isRotating := true;
    }

    method HandleRotateMove(container: Option<Rect>, degrees: real)
      modifies this
      ensures Snapshot() == RotateMove(old(Snapshot()), container, degrees)
    {
      if !isRotating || container.None? {
        return;
      }
      rotation := degrees;
    }

    method HandlePointerMove(container: Option<Rect>, client: Pos, degrees: real)
      modifies this
      ensures Snapshot() == PointerMove(old(Snapshot()), container, client, degrees)
    {
      if isDragging {
        HandleDragMove(container, client);
      } else if isResizing {
        HandleResizeMove(container, client);
      } else if isRotating {
        HandleRotateMove(container, degrees);
      }
    }

    method HandlePointerEnd()
      modifies this
      ensures Snapshot() == PointerEnd(old(Snapshot()))
    {
      isDragging := false;
      isResizing := false;
      isRotating := false;
    }
  }
}
