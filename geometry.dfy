/** Box geometry shared by both window components (apps/web/src/components/window.tsx and
    apps/web/src/components/windows/window.tsx): the `Dimensions` and `Coordinates` records,
    the size constants, the size derived from the `width`/`height` props and the clamped
    drag step, which both components compute with the same code.

    Pixels are `real`: the components compute with JavaScript numbers, which are not
    integers (a width of 301 derives a height of 361.2), and every formula here is linear. */
module Geometry {
  import opened Wrappers

  datatype Dimensions = Dimensions(width: real, height: real)
  datatype Coordinates = Coordinates(x: real, y: real)

  /** A window's top-left corner together with its size. */
  datatype Box = Box(position: Coordinates, dimensions: Dimensions)

  /** An extent along one axis: the left (or top) coordinate and the width (or height). */
  datatype Span = Span(start: real, size: real)

  /** The interaction mode's resize direction: which handle is held, if any. */
  datatype ResizeDir = NoResize | Top | Right | Bottom | Left | TopLeft | TopRight | BottomLeft | BottomRight {
    predicate MovesTop() { this == Top || this == TopLeft || this == TopRight }
    predicate MovesBottom() { this == Bottom || this == BottomLeft || this == BottomRight }
    predicate MovesLeft() { this == Left || this == TopLeft || this == BottomLeft }
    predicate MovesRight() { this == Right || this == TopRight || this == BottomRight }
  }

  const MinWidth: real := 300.0
  const MinHeight: real := 200.0
  const InitialDimensions: Dimensions := Dimensions(600.0, 500.0)
  /** The width : height ratio of the initial dimensions, 600 / 500. */
  const AspectRatio: real := 1.2

  function Max(a: real, b: real): real { if a >= b then a else b }
  function Min(a: real, b: real): real { if a <= b then a else b }

  /** The box lies inside a `parentW` x `parentH` viewport and is at least the minimum size. */
  ghost predicate Fits(b: Box, parentW: real, parentH: real) {
    && 0.0 <= b.position.x && b.position.x + b.dimensions.width <= parentW
    && 0.0 <= b.position.y && b.position.y + b.dimensions.height <= parentH
    && b.dimensions.width >= MinWidth && b.dimensions.height >= MinHeight
  }

  /** The drag step: the top-left corner follows the pointer minus the offset captured when
      the title bar was pressed, clamped so that the window stays inside the viewport. */
  function DragPosition(pointer: Coordinates, offset: Coordinates, dims: Dimensions,
                        parentW: real, parentH: real): (r: Coordinates)
    ensures r.x >= 0.0 && r.y >= 0.0
    ensures parentW >= dims.width ==> r.x + dims.width <= parentW
    ensures parentH >= dims.height ==> r.y + dims.height <= parentH
    ensures 0.0 <= pointer.x - offset.x <= parentW - dims.width ==> r.x == pointer.x - offset.x
    ensures 0.0 <= pointer.y - offset.y <= parentH - dims.height ==> r.y == pointer.y - offset.y
    ensures pointer.x - offset.x < 0.0 ==> r.x == 0.0
    ensures pointer.y - offset.y < 0.0 ==> r.y == 0.0
    ensures parentW >= dims.width && pointer.x - offset.x > parentW - dims.width ==> r.x == parentW - dims.width
    ensures parentH >= dims.height && pointer.y - offset.y > parentH - dims.height ==> r.y == parentH - dims.height
    ensures parentW < dims.width ==> r.x == 0.0
    ensures parentH < dims.height ==> r.y == 0.0
  {
    Coordinates(Max(0.0, Min(pointer.x - offset.x, parentW - dims.width)),
                Max(0.0, Min(pointer.y - offset.y, parentH - dims.height)))
  }

  /** Dragging never changes the size and keeps a box that fits the viewport fitting. */
  lemma DragPreservesFit(b: Box, pointer: Coordinates, offset: Coordinates, parentW: real, parentH: real)
    requires Fits(b, parentW, parentH)
    ensures Fits(Box(DragPosition(pointer, offset, b.dimensions, parentW, parentH), b.dimensions), parentW, parentH)
  {
  }

  /** A 600 x 500 window dragged far outside a 1920 x 1080 viewport ends in a corner. */
  lemma DragClampExample()
    ensures DragPosition(Coordinates(-500.0, -500.0), Coordinates(0.0, 0.0), InitialDimensions, 1920.0, 1080.0)
            == Coordinates(0.0, 0.0)
    ensures DragPosition(Coordinates(100000.0, 100000.0), Coordinates(0.0, 0.0), InitialDimensions, 1920.0, 1080.0)
            == Coordinates(1320.0, 580.0)
  {
  }

  datatype DimensionsError = WidthTooSmall | HeightTooSmall

  /** A size prop counts as given when JavaScript's truthiness test accepts it: absent and 0
      both fall through to the next case. */
  predicate Given(p: Option<real>) {
    p.Some? && p.value != 0.0
  }

  /** `calculateDimensionsFromAR`, the size a window starts with, from its optional `width`
      and `height` props: a given width below 300 or (without a width) a given height below
      200 is rejected, and neither gives 600 x 500. A given width wins over the height and,
      as written, derives a height `AspectRatio` times the width, the inverse of the 6 : 5
      shape that the defaults and the height-only case have (see
      `CalculateDimensionsIntended`). */
  function CalculateDimensionsFromAR(width: Option<real>, height: Option<real>): (r: Result<Dimensions, DimensionsError>)
    ensures r == Failure(WidthTooSmall) <==> Given(width) && width.value < MinWidth
    ensures r == Failure(HeightTooSmall) <==> !Given(width) && Given(height) && height.value < MinHeight
    ensures Given(width) && width.value >= MinWidth ==>
              r.Success? && r.value.width == width.value && r.value.height * 5.0 == r.value.width * 6.0
              && r.value.height >= 360.0
    ensures !Given(width) && Given(height) && height.value >= MinHeight ==>
              r.Success? && r.value.height == height.value && r.value.width * 5.0 == r.value.height * 6.0
              && r.value.width >= 240.0
    ensures !Given(width) && !Given(height) ==> r == Success(InitialDimensions)
  {
    if Given(width) then
      if width.value < MinWidth then Failure(WidthTooSmall)
      else Success(Dimensions(width.value, width.value * AspectRatio))
    else if Given(height) then
      if height.value < MinHeight then Failure(HeightTooSmall)
      else Success(Dimensions(height.value * AspectRatio, height.value))
    else Success(InitialDimensions)
  }

  /** The width-only case as written does not keep the 6 : 5 shape of the defaults and of the
      height-only case: the launchers' default props 600 and 500 give 600 x 720, and so does
      a width of 600 alone, while a height of 500 alone gives 600 x 500. */
  lemma AsWrittenWidthOnlyInvertsRatio()
    ensures CalculateDimensionsFromAR(Some(600.0), Some(500.0)) == Success(Dimensions(600.0, 720.0))
    ensures CalculateDimensionsFromAR(Some(600.0), None) == Success(Dimensions(600.0, 720.0))
    ensures CalculateDimensionsFromAR(Some(600.0), None) != Success(InitialDimensions)
    ensures CalculateDimensionsFromAR(None, Some(500.0)) == Success(InitialDimensions)
  {
  }

  /** The size as evidently intended: the width-only case divides by the ratio, so that every
      derived size has the 6 : 5 shape of the defaults. */
  function CalculateDimensionsIntended(width: Option<real>, height: Option<real>): (r: Result<Dimensions, DimensionsError>)
    ensures r == Failure(WidthTooSmall) <==> Given(width) && width.value < MinWidth
    ensures r == Failure(HeightTooSmall) <==> !Given(width) && Given(height) && height.value < MinHeight
    ensures r.Success? ==> r.value.width * 5.0 == r.value.height * 6.0
    ensures r.Success? && Given(width) ==> r.value.width == width.value && r.value.height >= 250.0
    ensures r.Success? && !Given(width) && Given(height) ==> r.value.height == height.value && r.value.width >= 240.0
    ensures !Given(width) && !Given(height) ==> r == Success(InitialDimensions)
  {
    if Given(width) then
      if width.value < MinWidth then Failure(WidthTooSmall)
      else Success(Dimensions(width.value, width.value / AspectRatio))
    else if Given(height) then
      if height.value < MinHeight then Failure(HeightTooSmall)
      else Success(Dimensions(height.value * AspectRatio, height.value))
    else Success(InitialDimensions)
  }

  /** The two definitions differ only in the width-only case. */
  lemma CorrectionOnlyChangesWidthOnlyCase(width: Option<real>, height: Option<real>)
    requires !Given(width) || width.value < MinWidth
    ensures CalculateDimensionsIntended(width, height) == CalculateDimensionsFromAR(width, height)
  {
  }
}
