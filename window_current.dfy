/** One window of apps/web/src/components/windows/window.tsx: its own position and size, the
    drag and eight-handle resize it performs on pointer moves, its interaction mode, and the
    calls it makes into the shared registry. The viewport size and the pointer position are
    parameters; the offset captured when the title bar is pressed is an input. */
module WindowInstance {
  import opened Wrappers
  import opened Geometry
  import WM = WindowManager

  /** Top or left handle: the moved edge follows the pointer, the size is first kept at least
      `minSize`, the edge is then clamped to 0 and the size re-derived from it, so that the
      opposite edge (`anchor`) stays where it was. */
  function AnchoredEdge(anchor: real, pointer: real, minSize: real): (r: Span)
    ensures r.start >= 0.0 && r.start + r.size == anchor
    ensures anchor >= minSize ==> r.size >= minSize
    ensures 0.0 <= pointer <= anchor - minSize ==> r.start == pointer
    ensures pointer > anchor - minSize >= 0.0 ==> r.size == minSize
    ensures pointer < 0.0 <= anchor - minSize ==> r.start == 0.0 && r.size == anchor
    ensures anchor < minSize ==> r.start == 0.0 && r.size == anchor
  {
    var size := Max(minSize, anchor - pointer);
    var start := Max(0.0, anchor - size);
    Span(start, anchor - start)
  }

  /** Right or bottom handle: the start stays, the size follows the pointer, at least
      `minSize`, then capped so that the far edge does not pass the viewport's `limit`. */
  function FarEdge(start: real, pointer: real, minSize: real, limit: real): (r: Span)
    ensures r.start == start && r.start + r.size <= limit
    ensures limit - start >= minSize ==> r.size >= minSize
    ensures minSize <= pointer - start <= limit - start ==> r.size == pointer - start
    ensures pointer - start < minSize <= limit - start ==> r.size == minSize
    ensures pointer - start > limit - start >= minSize ==> r.size == limit - start
    ensures limit - start < minSize ==> r.size == limit - start
  {
    Span(start, Min(Max(minSize, pointer - start), limit - start))
  }

  /** The resize step for handle `dir`, one axis at a time: the horizontal extent by the left
      or right rule, the vertical one by the top or bottom rule, an axis no handle of `dir`
      touches unchanged. */
  function ResizeBox(dir: ResizeDir, b: Box, pointer: Coordinates, parentW: real, parentH: real): (r: Box)
    ensures dir.MovesLeft() ==> r.position.x >= 0.0 && r.position.x + r.dimensions.width == b.position.x + b.dimensions.width
    ensures dir.MovesRight() ==> r.position.x == b.position.x && r.position.x + r.dimensions.width <= parentW
    ensures dir.MovesTop() ==> r.position.y >= 0.0 && r.position.y + r.dimensions.height == b.position.y + b.dimensions.height
    ensures dir.MovesBottom() ==> r.position.y == b.position.y && r.position.y + r.dimensions.height <= parentH
    ensures !dir.MovesLeft() && !dir.MovesRight() ==> r.position.x == b.position.x && r.dimensions.width == b.dimensions.width
    ensures !dir.MovesTop() && !dir.MovesBottom() ==> r.position.y == b.position.y && r.dimensions.height == b.dimensions.height
  {
    var h := if dir.MovesLeft() then AnchoredEdge(b.position.x + b.dimensions.width, pointer.x, MinWidth)
             else if dir.MovesRight() then FarEdge(b.position.x, pointer.x, MinWidth, parentW)
             else Span(b.position.x, b.dimensions.width);
    var v := if dir.MovesTop() then AnchoredEdge(b.position.y + b.dimensions.height, pointer.y, MinHeight)
             else if dir.MovesBottom() then FarEdge(b.position.y, pointer.y, MinHeight, parentH)
             else Span(b.position.y, b.dimensions.height);
    Box(Coordinates(h.start, v.start), Dimensions(h.size, v.size))
  }

  /** A window that fits the viewport and is at least the minimum size still does after a
      resize from any handle. */
  lemma ResizePreservesFit(dir: ResizeDir, b: Box, pointer: Coordinates, parentW: real, parentH: real)
    requires Fits(b, parentW, parentH)
    ensures Fits(ResizeBox(dir, b, pointer, parentW, parentH), parentW, parentH)
  {
  }

  /** Each corner handle is its horizontal edge rule applied after its vertical one. */
  lemma CornerIsTwoEdges(b: Box, pointer: Coordinates, parentW: real, parentH: real)
    ensures ResizeBox(TopLeft, b, pointer, parentW, parentH)
            == ResizeBox(Left, ResizeBox(Top, b, pointer, parentW, parentH), pointer, parentW, parentH)
    ensures ResizeBox(TopRight, b, pointer, parentW, parentH)
            == ResizeBox(Right, ResizeBox(Top, b, pointer, parentW, parentH), pointer, parentW, parentH)
    ensures ResizeBox(BottomLeft, b, pointer, parentW, parentH)
            == ResizeBox(Left, ResizeBox(Bottom, b, pointer, parentW, parentH), pointer, parentW, parentH)
    ensures ResizeBox(BottomRight, b, pointer, parentW, parentH)
            == ResizeBox(Right, ResizeBox(Bottom, b, pointer, parentW, parentH), pointer, parentW, parentH)
  {
  }

  /** The top-left handle of a 400 x 300 window at (100, 100) dragged to (150, 150) gives a
      350 x 250 window at (150, 150), whose bottom-right corner stays at (500, 400). */
  lemma TopLeftExample()
    ensures ResizeBox(TopLeft, Box(Coordinates(100.0, 100.0), Dimensions(400.0, 300.0)),
                      Coordinates(150.0, 150.0), 1920.0, 1080.0)
            == Box(Coordinates(150.0, 150.0), Dimensions(350.0, 250.0))
  {
  }

  /** The position before any spawn animation: the spawn point, or else the viewport centre
      (the window's top-left corner sits at the centre). */
  function InitialPosition(spawnCoordinates: Option<Coordinates>, screenCenter: Coordinates): Coordinates
  {
    spawnCoordinates.GetOr(screenCenter)
  }

  /** Where the spawn animation ends: the `x`/`y` props when present (including 0), else the
      position that centres the window on the viewport. */
  function TargetCoordinates(x: Option<real>, y: Option<real>, screenCenter: Coordinates, dims: Dimensions): (r: Coordinates)
    ensures x.Some? ==> r.x == x.value
    ensures y.Some? ==> r.y == y.value
    ensures x.None? ==> r.x + dims.width / 2.0 == screenCenter.x
    ensures y.None? ==> r.y + dims.height / 2.0 == screenCenter.y
  {
    Coordinates(x.GetOr(screenCenter.x - dims.width / 2.0), y.GetOr(screenCenter.y - dims.height / 2.0))
  }

  /** The window's id: the `id` prop unless it is absent or empty, else the generated one. */
  function WindowId(providedId: Option<string>, generatedId: string): string
  {
    if providedId.Some? && providedId.value != "" then providedId.value else generatedId
  }

  /** The window shows only while its record exists and is not minimized. */
  predicate Renders(s: WM.RegistryState, id: string) {
    id in s.windows && !s.windows[id].minimized
  }

  /** What a rendered window occupies and its stacking order. */
  datatype Frame = Frame(bounds: Box, zIndex: int)

  /** The render: nothing without a record or while minimized; the whole viewport while
      maximized; else the window's own geometry. The `z` prop overrides the registry's z-index. */
  function Render(s: WM.RegistryState, id: string, z: Option<int>, own: Box, parentW: real, parentH: real): (r: Option<Frame>)
    ensures r.Some? <==> Renders(s, id)
    ensures r.Some? && WM.IsWindowMaximized(s, id) ==> r.value.bounds == Box(Coordinates(0.0, 0.0), Dimensions(parentW, parentH))
    ensures r.Some? && !WM.IsWindowMaximized(s, id) ==> r.value.bounds == own
    ensures r.Some? ==> r.value.zIndex == if z.Some? then z.value else WM.GetWindowZIndex(s, id)
  {
    if !Renders(s, id) then None
    else
      var bounds := if WM.IsWindowMaximized(s, id) then Box(Coordinates(0.0, 0.0), Dimensions(parentW, parentH)) else own;
      Some(Frame(bounds, z.GetOr(WM.GetWindowZIndex(s, id))))
  }

  /** The statements of a top or left handle: the size from the pointer, at least
      `minSize`; the edge derived from it, then clamped to 0; the size derived back. */
  method AnchoredStep(anchor: real, mouse: real, minSize: real) returns (newStart: real, newSize: real)
    ensures Span(newStart, newSize) == AnchoredEdge(anchor, mouse, minSize)
  {
    newSize := Max(minSize, anchor - mouse);
    newStart := anchor - newSize;
    newStart := Max(0.0, newStart);
    newSize := anchor - newStart;
  }

  /** The statements of a right or bottom handle: the size from the pointer, at least
      `minSize`, then capped at the viewport's `limit`. */
  method FarStep(start: real, mouse: real, minSize: real, limit: real) returns (newSize: real)
    ensures Span(start, newSize) == FarEdge(start, mouse, minSize, limit)
  {
    newSize := Max(minSize, mouse - start);
    newSize := Min(newSize, limit - start);
  }

  class Window {
    const id: string
    const title: Option<string>
    const onClose: Option<WM.CallbackId>
    var position: Coordinates
    var dimensions: Dimensions
    var offset: Coordinates
    var dragging: bool
    var resizing: ResizeDir

    function Bounds(): Box
      reads this
    {
      Box(position, dimensions)
    }

    /** The mode is idle: neither dragging nor resizing. */
    predicate Idle()
      reads this
    {
      !dragging && resizing == NoResize
    }

    constructor (id: string, title: Option<string>, onClose: Option<WM.CallbackId>,
                 dims: Dimensions, spawnCoordinates: Option<Coordinates>, screenCenter: Coordinates)
      ensures this.id == id && this.title == title && this.onClose == onClose
      ensures Bounds() == Box(InitialPosition(spawnCoordinates, screenCenter), dims)
      ensures Idle() && offset == Coordinates(0.0, 0.0)
    {
      this.id, this.title, this.onClose := id, title, onClose;
      position := spawnCoordinates.GetOr(screenCenter);
      dimensions := dims;
      offset := Coordinates(0.0, 0.0);
      dragging, resizing := false, NoResize;
    }

    /** On mount the window registers itself, which focuses it and puts it on top. */
    method OnMount(registry: WM.WindowRegistry) returns (zIndex: int)
      requires registry.Valid()
      modifies registry
      ensures registry.Valid() && registry.State() == WM.Register(old(registry.State()), id, title, onClose)
      ensures WM.IsTop(registry.State(), id) && Renders(registry.State(), id)
    {
      zIndex := registry.RegisterWindow(id, title, onClose);
    }

    method OnUnmount(registry: WM.WindowRegistry)
      requires registry.Valid()
      modifies registry
      ensures registry.Valid() && registry.State() == WM.Unregister(old(registry.State()), id)
      ensures !Renders(registry.State(), id)
    {
      registry.UnregisterWindow(id);
    }

    /** Pressing anywhere in the window focuses it. */
    method OnWindowMouseDown(registry: WM.WindowRegistry)
      requires registry.Valid() && Renders(registry.State(), id)
      modifies registry
      ensures registry.Valid() && registry.State() == WM.Focus(old(registry.State()), id)
      ensures WM.IsTop(registry.State(), id)
    {
      registry.FocusWindow(id);
    }

    /** Pressing the title bar focuses the window and, unless it is maximized, enters the drag
      mode with the pointer's offset from the window's top-left corner (`rectOrigin`). The
      press then bubbles to the window's own handler, which focuses it a second time. */
    method OnTitleBarMouseDown(registry: WM.WindowRegistry, pointer: Coordinates, rectOrigin: Coordinates)
      requires registry.Valid() && Renders(registry.State(), id)
      modifies this, registry
      ensures registry.Valid() && registry.State() == WM.Focus(WM.Focus(old(registry.State()), id), id)
      ensures WM.IsTop(registry.State(), id)
      ensures dragging == (old(dragging) || !WM.IsWindowMaximized(old(registry.State()), id))
      ensures !WM.IsWindowMaximized(old(registry.State()), id) ==> offset == Coordinates(pointer.x - rectOrigin.x, pointer.y - rectOrigin.y)
      ensures WM.IsWindowMaximized(old(registry.State()), id) ==> offset == old(offset)
      ensures Bounds() == old(Bounds()) && resizing == old(resizing)
    {
      ghost var before := registry.State();
      var isMaximized := WM.IsWindowMaximized(registry.State(), id);
      registry.FocusWindow(id);
      WM.FocusTwiceIsTop(before, id);
      if !isMaximized {
        StartDrag(pointer, rectOrigin);
      }
      registry.FocusWindow(id);
    }

    /** Entering the drag mode records the pointer's offset from the window's corner. */
    method StartDrag(pointer: Coordinates, rectOrigin: Coordinates)
      modifies this
      ensures dragging && offset == Coordinates(pointer.x - rectOrigin.x, pointer.y - rectOrigin.y)
      ensures Bounds() == old(Bounds()) && resizing == old(resizing)
    {
      dragging := true;
      offset := Coordinates(pointer.x - rectOrigin.x, pointer.y - rectOrigin.y);
    }

    /** Pressing a resize handle focuses the window and enters the resize mode for that
      handle. The handles exist only while the window shows and is not maximized. */
    method OnResizeHandleMouseDown(registry: WM.WindowRegistry, dir: ResizeDir)
      requires registry.Valid() && Renders(registry.State(), id) && !WM.IsWindowMaximized(registry.State(), id)
      requires dir != NoResize
      modifies this, registry
      ensures registry.Valid() && registry.State() == WM.Focus(old(registry.State()), id)
      ensures resizing == dir && dragging == old(dragging) && Bounds() == old(Bounds())
    {
      registry.FocusWindow(id);
      resizing := dir;
    }

    /** The red control closes the window through the registry. */
    method OnCloseClick(registry: WM.WindowRegistry)
      requires registry.Valid()
      modifies registry
      ensures registry.Valid() && registry.State() == WM.Close(old(registry.State()), id)
      ensures !Renders(registry.State(), id)
    {
      registry.CloseWindow(id);
    }

    /** The yellow control restores a minimized window and minimizes any other. */
    method OnMinimizeClick(registry: WM.WindowRegistry)
      requires registry.Valid()
      modifies registry
      ensures registry.Valid()
      ensures registry.State() == if WM.IsWindowMinimized(old(registry.State()), id)
                                  then WM.Restore(old(registry.State()), id)
                                  else WM.Minimize(old(registry.State()), id)
    {
      if WM.IsWindowMinimized(registry.State(), id) {
        registry.RestoreWindow(id);
      } else {
        registry.MinimizeWindow(id);
      }
    }

    /** The green control toggles maximized through the registry. */
    method OnMaximizeClick(registry: WM.WindowRegistry)
      requires registry.Valid()
      modifies registry
      ensures registry.Valid() && registry.State() == WM.Maximize(old(registry.State()), id)
    {
      registry.MaximizeWindow(id);
    }

    /** A pointer move: while dragging, the drag step; else, while a handle is held, the
      resize step for that handle; while idle, nothing. The mode is left as it was. */
    method HandleMouseMove(pointer: Coordinates, parentW: real, parentH: real)
      modifies this
      ensures dragging == old(dragging) && resizing == old(resizing) && offset == old(offset)
      ensures old(dragging) ==> position == DragPosition(pointer, offset, old(dimensions), parentW, parentH)
                                && dimensions == old(dimensions)
      ensures !old(dragging) ==> Bounds() == ResizeBox(resizing, old(Bounds()), pointer, parentW, parentH)
      ensures old(Idle()) ==> Bounds() == old(Bounds())
    {
      if dragging {
        var elemWidth := dimensions.width;
        var elemHeight := dimensions.height;
        var newX := pointer.x - offset.x;
        var newY := pointer.y - offset.y;
        newX := Max(0.0, Min(newX, parentW - elemWidth));
        newY := Max(0.0, Min(newY, parentH - elemHeight));
        position := Coordinates(newX, newY);
        return;
      }
      if resizing != NoResize {
        var mouseX, mouseY := pointer.x, pointer.y;
        var newWidth := dimensions.width;
        var newHeight := dimensions.height;
        var newX := position.x;
        var newY := position.y;
        var rightAnchor := position.x + dimensions.width;
        var bottomAnchor := position.y + dimensions.height;
        match resizing {
          case Top =>
            newY, newHeight := AnchoredStep(bottomAnchor, mouseY, MinHeight);
          case Right =>
            newWidth := FarStep(newX, mouseX, MinWidth, parentW);
          case Bottom =>
            newHeight := FarStep(newY, mouseY, MinHeight, parentH);
          case Left =>
            newX, newWidth := AnchoredStep(rightAnchor, mouseX, MinWidth);
          case BottomRight =>
            newWidth := FarStep(newX, mouseX, MinWidth, parentW);
            newHeight := FarStep(newY, mouseY, MinHeight, parentH);
          case BottomLeft =>
            newX, newWidth := AnchoredStep(rightAnchor, mouseX, MinWidth);
            newHeight := FarStep(newY, mouseY, MinHeight, parentH);
          case TopRight =>
            newY, newHeight := AnchoredStep(bottomAnchor, mouseY, MinHeight);
            newWidth := FarStep(newX, mouseX, MinWidth, parentW);
          case TopLeft =>
            newX, newWidth := AnchoredStep(rightAnchor, mouseX, MinWidth);
            newY, newHeight := AnchoredStep(bottomAnchor, mouseY, MinHeight);
          case NoResize =>
        }
        assert Box(Coordinates(newX, newY), Dimensions(newWidth, newHeight)) == ResizeBox(resizing, Bounds(), pointer, parentW, parentH);
        position := Coordinates(newX, newY);
        dimensions := Dimensions(newWidth, newHeight);
      }
    }

    /** Releasing the pointer anywhere returns the window to idle. */
    method HandleMouseUp()
      modifies this
      ensures Idle() && Bounds() == old(Bounds()) && offset == old(offset)
    {
      dragging := false;
      resizing := NoResize;
    }
  }

  /** Mounting a window: its size comes from the `width`/`height` props, and a rejected size
      aborts the mount. */
  method Create(providedId: Option<string>, generatedId: string, title: Option<string>, onClose: Option<WM.CallbackId>,
                width: Option<real>, height: Option<real>,
                spawnCoordinates: Option<Coordinates>, screenCenter: Coordinates)
    returns (r: Result<Window, DimensionsError>)
    ensures r.Failure? <==> CalculateDimensionsFromAR(width, height).Failure?
    ensures r.Failure? ==> r.error == CalculateDimensionsFromAR(width, height).error
    ensures r.Success? ==> fresh(r.value) && r.value.id == WindowId(providedId, generatedId)
                           && r.value.Bounds() == Box(InitialPosition(spawnCoordinates, screenCenter),
                                                      CalculateDimensionsFromAR(width, height).value)
                           && r.value.Idle()
  {
    var dims := CalculateDimensionsFromAR(width, height);
    if dims.Failure? {
      return Failure(dims.error);
    }
    var w := new Window(WindowId(providedId, generatedId), title, onClose, dims.value, spawnCoordinates, screenCenter);
    return Success(w);
  }
}
