/** The earlier window of apps/web/src/components/window.tsx, still rendered by the home page.
    It has no registry; it drags like the current window but resizes differently: a top or
    left handle clamps the new edge first and then derives the size from it, and every size is
    kept at least the minimum even when that overruns the viewport. */
module LegacyWindow {
  import opened Wrappers
  import opened Geometry
  import Current = WindowInstance

  /** Top or left handle: the new edge is the pointer, clamped to lie between 0 and `minSize`
      before the far edge; the size grows by what the edge moved, and is at least `minSize`. */
  function LegacyAnchoredEdge(start: real, size: real, pointer: real, minSize: real): (r: Span)
    ensures r.start >= 0.0 && r.size >= minSize
    ensures r.start + r.size == start + size <==> start + size >= minSize
    ensures 0.0 <= pointer <= start + size - minSize ==> r.start == pointer
    ensures pointer < 0.0 <= start + size - minSize ==> r.start == 0.0
    ensures pointer > start + size - minSize >= 0.0 ==> r.start == start + size - minSize && r.size == minSize
    ensures start + size < minSize ==> r.start == 0.0 && r.size == minSize
  {
    var newStart := Max(0.0, Min(pointer, start + size - minSize));
    Span(newStart, Max(minSize, size + (start - newStart)))
  }

  /** Right or bottom handle: the size follows the pointer, capped at the viewport's `limit`,
      then raised to `minSize`. */
  function LegacyFarEdge(start: real, pointer: real, minSize: real, limit: real): (r: Span)
    ensures r.start == start && r.size >= minSize
    ensures limit - start >= minSize ==> r.start + r.size <= limit
    ensures minSize <= pointer - start <= limit - start ==> r.size == pointer - start
    ensures pointer - start > limit - start >= minSize ==> r.size == limit - start
    ensures pointer - start <= minSize || limit - start <= minSize ==> r.size == minSize
  {
    Span(start, Max(minSize, Min(pointer - start, limit - start)))
  }

  /** The earlier resize step for handle `dir`, one axis at a time. */
  function LegacyResizeBox(dir: ResizeDir, b: Box, pointer: Coordinates, parentW: real, parentH: real): (r: Box)
    ensures dir.MovesLeft() || dir.MovesRight() ==> r.dimensions.width >= MinWidth
    ensures dir.MovesTop() || dir.MovesBottom() ==> r.dimensions.height >= MinHeight
    ensures dir.MovesLeft() ==> r.position.x >= 0.0
    ensures dir.MovesTop() ==> r.position.y >= 0.0
    ensures dir.MovesRight() ==> r.position.x == b.position.x
    ensures dir.MovesBottom() ==> r.position.y == b.position.y
    ensures !dir.MovesLeft() && !dir.MovesRight() ==> r.position.x == b.position.x && r.dimensions.width == b.dimensions.width
    ensures !dir.MovesTop() && !dir.MovesBottom() ==> r.position.y == b.position.y && r.dimensions.height == b.dimensions.height
  {
    var h := if dir.MovesLeft() then LegacyAnchoredEdge(b.position.x, b.dimensions.width, pointer.x, MinWidth)
             else if dir.MovesRight() then LegacyFarEdge(b.position.x, pointer.x, MinWidth, parentW)
             else Span(b.position.x, b.dimensions.width);
    var v := if dir.MovesTop() then LegacyAnchoredEdge(b.position.y, b.dimensions.height, pointer.y, MinHeight)
             else if dir.MovesBottom() then LegacyFarEdge(b.position.y, pointer.y, MinHeight, parentH)
             else Span(b.position.y, b.dimensions.height);
    Box(Coordinates(h.start, v.start), Dimensions(h.size, v.size))
  }

  /** The top-left handle keeps both the right and the bottom edge in place whenever the
      window reaches at least the minimum size from the viewport's origin. */
  lemma LegacyTopLeftKeepsCorner(b: Box, pointer: Coordinates, parentW: real, parentH: real)
    requires b.position.x + b.dimensions.width >= MinWidth && b.position.y + b.dimensions.height >= MinHeight
    ensures var r := LegacyResizeBox(TopLeft, b, pointer, parentW, parentH);
            r.position.x + r.dimensions.width == b.position.x + b.dimensions.width &&
            r.position.y + r.dimensions.height == b.position.y + b.dimensions.height
  {
  }

  /** On a window that fits the viewport at no less than the minimum size, the earlier and
      the current resize agree for every handle. */
  lemma VersionsAgreeOnFittingWindows(dir: ResizeDir, b: Box, pointer: Coordinates, parentW: real, parentH: real)
    requires Fits(b, parentW, parentH)
    ensures LegacyResizeBox(dir, b, pointer, parentW, parentH) == Current.ResizeBox(dir, b, pointer, parentW, parentH)
  {
  }

  /** Near the viewport's right edge they differ: a 300-wide window at x = 1800 in a 1920-wide
      viewport, resized from the right handle, keeps its 300 width and overruns the viewport
      in the earlier version, and shrinks to 120 in the current one. */
  lemma VersionsDifferNearTheEdge()
    ensures var b := Box(Coordinates(1800.0, 0.0), Dimensions(300.0, 200.0));
            var p := Coordinates(1900.0, 100.0);
            LegacyResizeBox(Right, b, p, 1920.0, 1080.0).dimensions.width == 300.0 &&
            Current.ResizeBox(Right, b, p, 1920.0, 1080.0).dimensions.width == 120.0
  {
    assert LegacyFarEdge(1800.0, 1900.0, MinWidth, 1920.0) == Span(1800.0, 300.0);
    assert Current.FarEdge(1800.0, 1900.0, MinWidth, 1920.0) == Span(1800.0, 120.0);
  }

  /** The earlier version also keeps a fitting window fitting. */
  lemma LegacyResizePreservesFit(dir: ResizeDir, b: Box, pointer: Coordinates, parentW: real, parentH: real)
    requires Fits(b, parentW, parentH)
    ensures Fits(LegacyResizeBox(dir, b, pointer, parentW, parentH), parentW, parentH)
  {
    VersionsAgreeOnFittingWindows(dir, b, pointer, parentW, parentH);
    Current.ResizePreservesFit(dir, b, pointer, parentW, parentH);
  }

  /** The statements of a top or left handle: the new edge is the pointer clamped between
      0 and `minSize` before the far edge; the size grows by what the edge moved, at least
      `minSize`. */
  method LegacyAnchoredStep(start: real, size: real, mouse: real, minSize: real) returns (newStart: real, newSize: real)
    ensures Span(newStart, newSize) == LegacyAnchoredEdge(start, size, mouse, minSize)
  {
    newStart := Max(0.0, Min(mouse, start + size - minSize));
    newSize := Max(minSize, size + (start - newStart));
  }

  /** The statement of a right or bottom handle: the size follows the pointer, capped at the
      viewport's `limit`, then raised to `minSize`. */
  method LegacyFarStep(start: real, mouse: real, minSize: real, limit: real) returns (newSize: real)
    ensures Span(start, newSize) == LegacyFarEdge(start, mouse, minSize, limit)
  {
    newSize := Max(minSize, Min(mouse - start, limit - start));
  }

  class Window {
    var position: Coordinates
    var dimensions: Dimensions
    var offset: Coordinates
    var dragging: bool
    var resizing: ResizeDir

    function Bounds(): Box
      reads this
    {
      Box(position, dimensions)
    }

    predicate Idle()
      reads this
    {
      !dragging && resizing == NoResize
    }

    /** The position is the `x`/`y` props, each defaulting to 100. */
    constructor (x: Option<real>, y: Option<real>, dims: Dimensions)
      ensures Bounds() == Box(Coordinates(x.GetOr(100.0), y.GetOr(100.0)), dims)
      ensures Idle() && offset == Coordinates(0.0, 0.0)
    {
      position := Coordinates(x.GetOr(100.0), y.GetOr(100.0));
      dimensions := dims;
      offset := Coordinates(0.0, 0.0);
      dragging, resizing := false, NoResize;
    }

    /** Pressing the title bar always enters the drag mode; there is no maximized state. */
    method OnTitleBarMouseDown(pointer: Coordinates, rectOrigin: Coordinates)
      modifies this
      ensures dragging && offset == Coordinates(pointer.x - rectOrigin.x, pointer.y - rectOrigin.y)
      ensures Bounds() == old(Bounds()) && resizing == old(resizing)
    {
      dragging := true;
      offset := Coordinates(pointer.x - rectOrigin.x, pointer.y - rectOrigin.y);
    }

    method OnResizeHandleMouseDown(dir: ResizeDir)
      requires dir != NoResize
      modifies this
      ensures resizing == dir && dragging == old(dragging) && Bounds() == old(Bounds()) && offset == old(offset)
    {
      resizing := dir;
    }

    /** A pointer move: the drag step while dragging, else the earlier resize step while a
      handle is held, else nothing. */
    method HandleMouseMove(pointer: Coordinates, parentW: real, parentH: real)
      modifies this
      ensures dragging == old(dragging) && resizing == old(resizing) && offset == old(offset)
      ensures old(dragging) ==> position == DragPosition(pointer, offset, old(dimensions), parentW, parentH)
                                && dimensions == old(dimensions)
      ensures !old(dragging) ==> Bounds() == LegacyResizeBox(resizing, old(Bounds()), pointer, parentW, parentH)
      ensures old(Idle()) ==> Bounds() == old(Bounds())
    {
      if dragging {
        var elemWidth := dimensions.width;
        var elemHeight := dimensions.height;
        var newX := pointer.x - offset.x;
        var newY := pointer.y - offset.y;
        newX := Max(0.0, Min(newX, parentW - elemWidth));
        newY := Max(0.0, Min(newY, parentH - elemHeight));
        position := Coordinates(newX, newY);
        return;
      }
      if resizing != NoResize {
        var mouseX, mouseY := pointer.x, pointer.y;
        var width, height := dimensions.width, dimensions.height;
        var x, y := position.x, position.y;
        match resizing {
          case Top =>
            y, height := LegacyAnchoredStep(y, height, mouseY, MinHeight);
          case Right =>
            width := LegacyFarStep(x, mouseX, MinWidth, parentW);
          case Bottom =>
            height := LegacyFarStep(y, mouseY, MinHeight, parentH);
          case Left =>
            x, width := LegacyAnchoredStep(x, width, mouseX, MinWidth);
          case BottomRight =>
            width := LegacyFarStep(x, mouseX, MinWidth, parentW);
            height := LegacyFarStep(y, mouseY, MinHeight, parentH);
          case BottomLeft =>
            x, width := LegacyAnchoredStep(x, width, mouseX, MinWidth);
            height := LegacyFarStep(y, mouseY, MinHeight, parentH);
          case TopRight =>
            y, height := LegacyAnchoredStep(y, height, mouseY, MinHeight);
            width := LegacyFarStep(x, mouseX, MinWidth, parentW);
          case TopLeft =>
            x, width := LegacyAnchoredStep(x, width, mouseX, MinWidth);
            y, height := LegacyAnchoredStep(y, height, mouseY, MinHeight);
          case NoResize =>
        }
        position := Coordinates(x, y);
        dimensions := Dimensions(width, height);
      }
    }

    method HandleMouseUp()
      modifies this
      ensures Idle() && Bounds() == old(Bounds()) && offset == old(offset)
    {
      dragging := false;
      resizing := NoResize;
    }
  }

  /** Mounting the earlier window: a rejected size aborts it. */
  method Create(width: Option<real>, height: Option<real>, x: Option<real>, y: Option<real>)
    returns (r: Result<Window, DimensionsError>)
    ensures r.Failure? <==> CalculateDimensionsFromAR(width, height).Failure?
    ensures r.Failure? ==> r.error == CalculateDimensionsFromAR(width, height).error
    ensures r.Success? ==> fresh(r.value) && r.value.Idle()
                           && r.value.Bounds() == Box(Coordinates(x.GetOr(100.0), y.GetOr(100.0)),
                                                      CalculateDimensionsFromAR(width, height).value)
  {
    var dims := CalculateDimensionsFromAR(width, height);
    if dims.Failure? {
      return Failure(dims.error);
    }
    var w := new Window(x, y, dims.value);
    return Success(w);
  }
}
