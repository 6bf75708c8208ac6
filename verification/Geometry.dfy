/**
 The two letterboxes a pointer position crosses, in exact arithmetic: the viewer's
 `object-fit: contain` rectangle and the agent's integer capture letterbox.
 */
module Geometry {
  import opened Basics

  const ABSOLUTE_MAX := 65535
  const EDGE_EPSILON := 0.000000001

  /** Python's `round`: to the nearest integer, halves to the even neighbour. */
  function RoundHalfEven(x: real): int {
    var low := x.Floor;
    var part := x - low as real;
    if part < 0.5 then low
    else if part > 0.5 then low + 1
    else if low % 2 == 0 then low else low + 1
  }

  function MinReal(a: real, b: real): real { if b < a then b else a }

  function MaxReal(a: real, b: real): real { if b > a then b else a }

  function MinInt(a: int, b: int): int { if b < a then b else a }

  function MaxInt(a: int, b: int): int { if b > a then b else a }

  datatype FitBox = FitBox(width: int, height: int, offsetX: int, offsetY: int)

  datatype GeometryError = NonPositiveSource | NonPositiveDestination | NonPositiveDimension

  function LetterboxScale(srcWidth: int, srcHeight: int, dstWidth: int, dstHeight: int): real
    requires srcWidth > 0 && srcHeight > 0
  {
    MinReal(dstWidth as real / srcWidth as real, dstHeight as real / srcHeight as real)
  }

  function FittedExtent(src: int, dst: int, scale: real): int {
    MaxInt(1, MinInt(dst, RoundHalfEven(src as real * scale)))
  }

  /** Where the captured desktop lies inside the encoded frame. */
  function ComputeLetterboxFit(srcWidth: int, srcHeight: int, dstWidth: int, dstHeight: int)
    : Result<FitBox, GeometryError>
  {
    if srcWidth <= 0 || srcHeight <= 0 then Err(NonPositiveSource)
    else if dstWidth <= 0 || dstHeight <= 0 then Err(NonPositiveDestination)
    else
      var scale := LetterboxScale(srcWidth, srcHeight, dstWidth, dstHeight);
      var width := FittedExtent(srcWidth, dstWidth, scale);
      var height := FittedExtent(srcHeight, dstHeight, scale);
      Ok(FitBox(width, height, (dstWidth - width) / 2, (dstHeight - height) / 2))
  }

  /** The point a fraction `part` of the way along a segment. */
  function Along(offset: real, part: real, extent: real): real { offset + part * extent }

  /** The inverse of `Along`. */
  function PartOf(pixel: real, offset: real, extent: real): real
    requires extent > 0.0
  {
    (pixel - offset) / extent
  }

  datatype AbsolutePoint = AbsolutePoint(x: int, y: int)

  function ClampUnit(value: real): Option<real> {
    if value < -EDGE_EPSILON || value > 1.0 + EDGE_EPSILON then None
    else Some(MinReal(1.0, MaxReal(0.0, value)))
  }

  /** Inverts the capture letterbox: a frame point in 0..1 to a desktop coordinate in 0..65535. */
  function FrameToDesktopAbsolute(frameX: real, frameY: real, sourceWidth: int, sourceHeight: int,
                                  frameWidth: int, frameHeight: int)
    : Result<Option<AbsolutePoint>, GeometryError>
  {
    if !(0.0 <= frameX <= 1.0 && 0.0 <= frameY <= 1.0) then Ok(None)
    else
      var fitted := ComputeLetterboxFit(sourceWidth, sourceHeight, frameWidth, frameHeight);
      if fitted.Err? then Err(fitted.error)
      else
        var fit := fitted.value;
        FitBoxBounds(sourceWidth, sourceHeight, frameWidth, frameHeight);
        var desktopX := ClampUnit(PartOf(Along(0.0, frameX, frameWidth as real), fit.offsetX as real,
                                         fit.width as real));
        var desktopY := ClampUnit(PartOf(Along(0.0, frameY, frameHeight as real), fit.offsetY as real,
                                         fit.height as real));
        if desktopX.None? || desktopY.None? then Ok(None)
        else
          Ok(Some(AbsolutePoint(RoundHalfEven(desktopX.value * ABSOLUTE_MAX as real),
                                RoundHalfEven(desktopY.value * ABSOLUTE_MAX as real))))
  }

  datatype ContainRect = ContainRect(width: real, height: real, offsetX: real, offsetY: real)

  function ComputeContainRect(containerWidth: real, containerHeight: real, contentWidth: real, contentHeight: real)
    : Result<ContainRect, GeometryError>
  {
    if containerWidth <= 0.0 || containerHeight <= 0.0 || contentWidth <= 0.0 || contentHeight <= 0.0
    then Err(NonPositiveDimension)
    else
      var scale := MinReal(containerWidth / contentWidth, containerHeight / contentHeight);
      var width := contentWidth * scale;
      var height := contentHeight * scale;
      Ok(ContainRect(width, height, (containerWidth - width) / 2.0, (containerHeight - height) / 2.0))
  }

  datatype NormalizedPoint = NormalizedPoint(x: real, y: real)

  /** A pointer position on the video element to a frame point in 0..1; None on the element's bars. */
  function NormalizePointerToContent(pointerX: real, pointerY: real, containerWidth: real, containerHeight: real,
                                     contentWidth: real, contentHeight: real)
    : Result<Option<NormalizedPoint>, GeometryError>
  {
    var contained := ComputeContainRect(containerWidth, containerHeight, contentWidth, contentHeight);
    if contained.Err? then Err(contained.error)
    else
      var rect := contained.value;
      var relativeX := pointerX - rect.offsetX;
      var relativeY := pointerY - rect.offsetY;
      if relativeX < 0.0 || relativeY < 0.0 || relativeX > rect.width || relativeY > rect.height then Ok(None)
      else
        ContainRectPositive(containerWidth, containerHeight, contentWidth, contentHeight);
        Ok(Some(NormalizedPoint(PartOf(pointerX, rect.offsetX, rect.width),
                                PartOf(pointerY, rect.offsetY, rect.height))))
  }

  /** The whole path of one pointer event: viewer element, encoded frame, desktop. */
  function PointerToDesktop(pointerX: real, pointerY: real, containerWidth: real, containerHeight: real,
                            frameWidth: int, frameHeight: int, sourceWidth: int, sourceHeight: int)
    : Result<Option<AbsolutePoint>, GeometryError>
  {
    var normalized := NormalizePointerToContent(pointerX, pointerY, containerWidth, containerHeight,
                                                frameWidth as real, frameHeight as real);
    if normalized.Err? then Err(normalized.error)
    else if normalized.value.None? then Ok(None)
    else FrameToDesktopAbsolute(normalized.value.value.x, normalized.value.value.y,
                                sourceWidth, sourceHeight, frameWidth, frameHeight)
  }

  // ---------------------------------------------------------------- rounding and scaling

  lemma RoundHalfEvenNear(x: real)
    ensures x - 0.5 <= RoundHalfEven(x) as real <= x + 0.5
  {
  }

  lemma RoundHalfEvenMonotone(x: real, y: real)
    requires x <= y
    ensures RoundHalfEven(x) <= RoundHalfEven(y)
  {
    assert x.Floor <= y.Floor;
  }

  lemma RoundHalfEvenInteger(n: int)
    ensures RoundHalfEven(n as real) == n
  {
  }

  lemma ProductMonotone(a: real, b: real, c: real)
    requires a <= b && c >= 0.0
    ensures a * c <= b * c && c * a <= c * b
  {
  }

  lemma ProductStrict(a: real, b: real, c: real)
    requires a < b && c > 0.0
    ensures a * c < b * c
  {
  }

  lemma PartAlong(offset: real, part: real, extent: real)
    requires extent > 0.0
    ensures PartOf(Along(offset, part, extent), offset, extent) == part
    ensures 0.0 <= part <= 1.0 ==> offset <= Along(offset, part, extent) <= offset + extent
  {
    assert (part * extent) / extent == part;
    if 0.0 <= part <= 1.0 {
      ProductMonotone(part, 1.0, extent);
      ProductMonotone(0.0, part, extent);
    }
  }

  lemma AlongPart(pixel: real, offset: real, extent: real)
    requires extent > 0.0
    ensures Along(offset, PartOf(pixel, offset, extent), extent) == pixel
  {
  }

  /** Comparing a part with a bound is comparing the pixel with the scaled bound. */
  lemma PartBound(pixel: real, offset: real, extent: real, bound: real)
    requires extent > 0.0
    ensures PartOf(pixel, offset, extent) < bound <==> pixel - offset < bound * extent
    ensures PartOf(pixel, offset, extent) > bound <==> pixel - offset > bound * extent
  {
    AlongPart(pixel, offset, extent);
    var part := PartOf(pixel, offset, extent);
    if part < bound {
      ProductStrict(part, bound, extent);
    } else if part > bound {
      ProductStrict(bound, part, extent);
    }
  }

  lemma PartMonotone(p1: real, p2: real, offset: real, extent: real)
    requires p1 <= p2 && extent > 0.0
    ensures PartOf(p1, offset, extent) <= PartOf(p2, offset, extent)
  {
    AlongPart(p2, offset, extent);
    PartBound(p1, offset, extent, PartOf(p2, offset, extent));
  }

  lemma AlongMonotone(offset: real, a: real, b: real, extent: real)
    requires a <= b && extent > 0.0
    ensures Along(offset, a, extent) <= Along(offset, b, extent)
  {
    ProductMonotone(a, b, extent);
  }

  // ---------------------------------------------------------------- the capture letterbox

  ghost predicate CentredWithinOne(extent: int, offset: int, canvas: int) {
    canvas - extent - 1 <= 2 * offset <= canvas - extent
  }

  /** An extent is the nearest integer to the exact scaling, unless that would be empty. */
  ghost predicate NearExact(extent: int, exact: real) {
    (exact - 0.5 <= extent as real <= exact + 0.5) || (extent == 1 && exact <= 0.5)
  }

  /** One axis of the fit. */
  lemma FitAxis(src: int, dst: int, scale: real)
    requires src > 0 && dst > 0 && 0.0 < scale <= dst as real / src as real
    ensures var extent := FittedExtent(src, dst, scale);
            && 1 <= extent <= dst
            && NearExact(extent, src as real * scale)
            && CentredWithinOne(extent, (dst - extent) / 2, dst)
            && (scale == dst as real / src as real ==> extent == dst)
  {
    var exact := src as real * scale;
    assert exact <= dst as real && (scale == dst as real / src as real ==> exact == dst as real) by {
      ProductMonotone(scale, dst as real / src as real, src as real);
      assert src as real * (dst as real / src as real) == dst as real;
    }
    hide RoundHalfEven;
    RoundHalfEvenNear(exact);
    RoundHalfEvenMonotone(exact, dst as real);
    RoundHalfEvenInteger(dst);
  }

  lemma FitBoxBounds(srcWidth: int, srcHeight: int, dstWidth: int, dstHeight: int)
    requires srcWidth > 0 && srcHeight > 0 && dstWidth > 0 && dstHeight > 0
    ensures var fit := ComputeLetterboxFit(srcWidth, srcHeight, dstWidth, dstHeight).value;
            && 1 <= fit.width && 0 <= fit.offsetX && fit.offsetX + fit.width <= dstWidth
            && 1 <= fit.height && 0 <= fit.offsetY && fit.offsetY + fit.height <= dstHeight
  {
  }

  lemma LetterboxScalePositive(srcWidth: int, srcHeight: int, dstWidth: int, dstHeight: int)
    requires srcWidth > 0 && srcHeight > 0 && dstWidth > 0 && dstHeight > 0
    ensures LetterboxScale(srcWidth, srcHeight, dstWidth, dstHeight) > 0.0
  {
    QuotientPositive(dstWidth as real, srcWidth as real);
    QuotientPositive(dstHeight as real, srcHeight as real);
  }

  lemma QuotientPositive(a: real, b: real)
    requires a > 0.0 && b > 0.0
    ensures a / b > 0.0
  {
  }

  /** The letterbox is inside the canvas, touches both edges of one axis, is centred, and
      preserves the aspect ratio to half a pixel per axis. */
  lemma LetterboxFitIsTight(srcWidth: int, srcHeight: int, dstWidth: int, dstHeight: int)
    requires srcWidth > 0 && srcHeight > 0 && dstWidth > 0 && dstHeight > 0
    ensures var fit := ComputeLetterboxFit(srcWidth, srcHeight, dstWidth, dstHeight).value;
            var scale := LetterboxScale(srcWidth, srcHeight, dstWidth, dstHeight);
            && 1 <= fit.width <= dstWidth && 1 <= fit.height <= dstHeight
            && (fit.width == dstWidth || fit.height == dstHeight)
            && CentredWithinOne(fit.width, fit.offsetX, dstWidth)
            && CentredWithinOne(fit.height, fit.offsetY, dstHeight)
            && NearExact(fit.width, srcWidth as real * scale)
            && NearExact(fit.height, srcHeight as real * scale)
  {
    var scale := LetterboxScale(srcWidth, srcHeight, dstWidth, dstHeight);
    hide FittedExtent, NearExact, CentredWithinOne;
    LetterboxScalePositive(srcWidth, srcHeight, dstWidth, dstHeight);
    FitAxis(srcWidth, dstWidth, scale);
    FitAxis(srcHeight, dstHeight, scale);
  }

  // ---------------------------------------------------------------- the viewer's rectangle

  lemma ContainRectPositive(containerWidth: real, containerHeight: real, contentWidth: real, contentHeight: real)
    requires containerWidth > 0.0 && containerHeight > 0.0 && contentWidth > 0.0 && contentHeight > 0.0
    ensures var rect := ComputeContainRect(containerWidth, containerHeight, contentWidth, contentHeight).value;
            rect.width > 0.0 && rect.height > 0.0
  {
    QuotientPositive(containerWidth, contentWidth);
    QuotientPositive(containerHeight, contentHeight);
  }

  // ---------------------------------------------------------------- round trip

  /** One axis placed through the capture letterbox stays in the frame and comes back exactly. */
  lemma FrameAxisRoundTrip(u: real, extent: int, offset: int, frame: int)
    requires 0.0 <= u <= 1.0
    requires 1 <= extent && 0 <= offset && offset + extent <= frame
    ensures var f := PartOf(Along(offset as real, u, extent as real), 0.0, frame as real);
            && 0.0 <= f <= 1.0
            && ClampUnit(PartOf(Along(0.0, f, frame as real), offset as real, extent as real)) == Some(u)
  {
    hide Along, PartOf;
    var px := Along(offset as real, u, extent as real);
    PartAlong(offset as real, u, extent as real);
    AlongPart(px, 0.0, frame as real);
    PartBound(px, 0.0, frame as real, 0.0);
    PartBound(px, 0.0, frame as real, 1.0);
  }

  /** A desktop point shown to the viewer and clicked there arrives as the same desktop point. */
  lemma PointerRoundTrip(u: real, v: real, containerWidth: real, containerHeight: real,
                         frameWidth: int, frameHeight: int, sourceWidth: int, sourceHeight: int)
    requires 0.0 <= u <= 1.0 && 0.0 <= v <= 1.0
    requires containerWidth > 0.0 && containerHeight > 0.0
    requires frameWidth > 0 && frameHeight > 0 && sourceWidth > 0 && sourceHeight > 0
    ensures var fit := ComputeLetterboxFit(sourceWidth, sourceHeight, frameWidth, frameHeight).value;
            var rect := ComputeContainRect(containerWidth, containerHeight, frameWidth as real,
                                           frameHeight as real).value;
            var frameX := PartOf(Along(fit.offsetX as real, u, fit.width as real), 0.0, frameWidth as real);
            var frameY := PartOf(Along(fit.offsetY as real, v, fit.height as real), 0.0, frameHeight as real);
            PointerToDesktop(Along(rect.offsetX, frameX, rect.width), Along(rect.offsetY, frameY, rect.height),
                             containerWidth, containerHeight, frameWidth, frameHeight, sourceWidth, sourceHeight)
            == Ok(Some(AbsolutePoint(RoundHalfEven(u * 65535.0), RoundHalfEven(v * 65535.0))))
  {
    var fit := ComputeLetterboxFit(sourceWidth, sourceHeight, frameWidth, frameHeight).value;
    var rect := ComputeContainRect(containerWidth, containerHeight, frameWidth as real, frameHeight as real).value;
    FitBoxBounds(sourceWidth, sourceHeight, frameWidth, frameHeight);
    ContainRectPositive(containerWidth, containerHeight, frameWidth as real, frameHeight as real);
    hide Along, PartOf, RoundHalfEven, ComputeLetterboxFit, ComputeContainRect, ClampUnit;
    FrameAxisRoundTrip(u, fit.width, fit.offsetX, frameWidth);
    FrameAxisRoundTrip(v, fit.height, fit.offsetY, frameHeight);
    PartAlong(rect.offsetX, PartOf(Along(fit.offsetX as real, u, fit.width as real), 0.0, frameWidth as real),
              rect.width);
    PartAlong(rect.offsetY, PartOf(Along(fit.offsetY as real, v, fit.height as real), 0.0, frameHeight as real),
              rect.height);
  }

  // ---------------------------------------------------------------- bars and order

  /** A pixel along one axis that is over the fitted extent, up to the edge epsilon. */
  ghost predicate OverExtent(pixel: real, offset: int, extent: int) {
    && pixel - offset as real >= -EDGE_EPSILON * extent as real
    && pixel - offset as real <= (1.0 + EDGE_EPSILON) * extent as real
  }

  lemma AxisMapsIffOver(pixel: real, offset: int, extent: int)
    requires extent >= 1
    ensures var c := ClampUnit(PartOf(pixel, offset as real, extent as real));
            && (c.Some? <==> OverExtent(pixel, offset, extent))
            && (c.Some? ==> 0 <= RoundHalfEven(c.value * ABSOLUTE_MAX as real) <= ABSOLUTE_MAX)
  {
    hide PartOf, RoundHalfEven;
    PartBound(pixel, offset as real, extent as real, -EDGE_EPSILON);
    PartBound(pixel, offset as real, extent as real, 1.0 + EDGE_EPSILON);
    var c := ClampUnit(PartOf(pixel, offset as real, extent as real));
    if c.Some? {
      RoundHalfEvenMonotone(0.0, c.value * ABSOLUTE_MAX as real);
      RoundHalfEvenMonotone(c.value * ABSOLUTE_MAX as real, ABSOLUTE_MAX as real);
      RoundHalfEvenInteger(0);
      RoundHalfEvenInteger(ABSOLUTE_MAX);
    }
  }

  /** A frame point maps to the desktop exactly when it lies over captured content: on the
      capture bars, farther out than the epsilon, nothing is ever injected. */
  lemma FramePointMapsIffOverContent(frameX: real, frameY: real, sourceWidth: int, sourceHeight: int,
                                     frameWidth: int, frameHeight: int)
    requires sourceWidth > 0 && sourceHeight > 0 && frameWidth > 0 && frameHeight > 0
    ensures var fit := ComputeLetterboxFit(sourceWidth, sourceHeight, frameWidth, frameHeight).value;
            var r := FrameToDesktopAbsolute(frameX, frameY, sourceWidth, sourceHeight, frameWidth, frameHeight);
            && r.Ok?
            && (r.value.Some? <==>
                  && 0.0 <= frameX <= 1.0 && 0.0 <= frameY <= 1.0
                  && OverExtent(Along(0.0, frameX, frameWidth as real), fit.offsetX, fit.width)
                  && OverExtent(Along(0.0, frameY, frameHeight as real), fit.offsetY, fit.height))
            && (r.value.Some? ==> 0 <= r.value.value.x <= ABSOLUTE_MAX && 0 <= r.value.value.y <= ABSOLUTE_MAX)
  {
    var fit := ComputeLetterboxFit(sourceWidth, sourceHeight, frameWidth, frameHeight).value;
    FitBoxBounds(sourceWidth, sourceHeight, frameWidth, frameHeight);
    hide Along, PartOf, RoundHalfEven, ComputeLetterboxFit, ClampUnit, OverExtent;
    AxisMapsIffOver(Along(0.0, frameX, frameWidth as real), fit.offsetX, fit.width);
    AxisMapsIffOver(Along(0.0, frameY, frameHeight as real), fit.offsetY, fit.height);
  }

  /** A pointer on the element's own bars is dropped, and only there. */
  lemma PointerDroppedIffOnBars(pointerX: real, pointerY: real, containerWidth: real, containerHeight: real,
                                contentWidth: real, contentHeight: real)
    requires containerWidth > 0.0 && containerHeight > 0.0 && contentWidth > 0.0 && contentHeight > 0.0
    ensures var rect := ComputeContainRect(containerWidth, containerHeight, contentWidth, contentHeight).value;
            var r := NormalizePointerToContent(pointerX, pointerY, containerWidth, containerHeight, contentWidth,
                                               contentHeight);
            && r.Ok?
            && (r.value.Some? <==>
                  && rect.offsetX <= pointerX <= rect.offsetX + rect.width
                  && rect.offsetY <= pointerY <= rect.offsetY + rect.height)
            && (r.value.Some? ==> 0.0 <= r.value.value.x <= 1.0 && 0.0 <= r.value.value.y <= 1.0)
  {
    var rect := ComputeContainRect(containerWidth, containerHeight, contentWidth, contentHeight).value;
    ContainRectPositive(containerWidth, containerHeight, contentWidth, contentHeight);
    hide PartOf, ComputeContainRect;
    PartBound(pointerX, rect.offsetX, rect.width, 0.0);
    PartBound(pointerX, rect.offsetX, rect.width, 1.0);
    PartBound(pointerY, rect.offsetY, rect.height, 0.0);
    PartBound(pointerY, rect.offsetY, rect.height, 1.0);
  }

  lemma AxisMonotone(f1: real, f2: real, frame: int, offset: int, extent: int)
    requires f1 <= f2 && frame >= 1 && extent >= 1
    ensures var c1 := ClampUnit(PartOf(Along(0.0, f1, frame as real), offset as real, extent as real));
            var c2 := ClampUnit(PartOf(Along(0.0, f2, frame as real), offset as real, extent as real));
            c1.Some? && c2.Some? ==>
              RoundHalfEven(c1.value * ABSOLUTE_MAX as real) <= RoundHalfEven(c2.value * ABSOLUTE_MAX as real)
  {
    hide Along, PartOf, RoundHalfEven;
    var px1, px2 := Along(0.0, f1, frame as real), Along(0.0, f2, frame as real);
    AlongMonotone(0.0, f1, f2, frame as real);
    PartMonotone(px1, px2, offset as real, extent as real);
    var c1 := ClampUnit(PartOf(px1, offset as real, extent as real));
    var c2 := ClampUnit(PartOf(px2, offset as real, extent as real));
    if c1.Some? && c2.Some? {
      RoundHalfEvenMonotone(c1.value * ABSOLUTE_MAX as real, c2.value * ABSOLUTE_MAX as real);
    }
  }

  /** One axis of the whole path, given the two letterboxes it crosses. */
  function DesktopAxis(pointer: real, rectOffset: real, rectExtent: real, frame: int, offset: int, extent: int)
    : Option<real>
    requires rectExtent > 0.0 && extent >= 1
  {
    ClampUnit(PartOf(Along(0.0, PartOf(pointer, rectOffset, rectExtent), frame as real), offset as real,
                     extent as real))
  }

  lemma PointerPathAxes(x: real, y: real, containerWidth: real, containerHeight: real,
                        frameWidth: int, frameHeight: int, sourceWidth: int, sourceHeight: int)
    requires containerWidth > 0.0 && containerHeight > 0.0
    requires frameWidth > 0 && frameHeight > 0 && sourceWidth > 0 && sourceHeight > 0
    ensures var rect := ComputeContainRect(containerWidth, containerHeight, frameWidth as real,
                                           frameHeight as real).value;
            var fit := ComputeLetterboxFit(sourceWidth, sourceHeight, frameWidth, frameHeight).value;
            var p := PointerToDesktop(x, y, containerWidth, containerHeight, frameWidth, frameHeight, sourceWidth,
                                      sourceHeight);
            && rect.width > 0.0 && rect.height > 0.0 && fit.width >= 1 && fit.height >= 1
            && (p.Ok? && p.value.Some? ==>
                  var ax := DesktopAxis(x, rect.offsetX, rect.width, frameWidth, fit.offsetX, fit.width);
                  var ay := DesktopAxis(y, rect.offsetY, rect.height, frameHeight, fit.offsetY, fit.height);
                  ax.Some? && ay.Some?
                  && p.value.value == AbsolutePoint(RoundHalfEven(ax.value * ABSOLUTE_MAX as real),
                                                    RoundHalfEven(ay.value * ABSOLUTE_MAX as real)))
  {
    ContainRectPositive(containerWidth, containerHeight, frameWidth as real, frameHeight as real);
    FitBoxBounds(sourceWidth, sourceHeight, frameWidth, frameHeight);
    hide Along, PartOf, RoundHalfEven, ComputeLetterboxFit, ComputeContainRect, ClampUnit;
  }

  lemma DesktopAxisMonotone(p1: real, p2: real, rectOffset: real, rectExtent: real, frame: int, offset: int,
                            extent: int)
    requires p1 <= p2 && rectExtent > 0.0 && extent >= 1 && frame >= 1
    ensures var c1 := DesktopAxis(p1, rectOffset, rectExtent, frame, offset, extent);
            var c2 := DesktopAxis(p2, rectOffset, rectExtent, frame, offset, extent);
            c1.Some? && c2.Some? ==>
              RoundHalfEven(c1.value * ABSOLUTE_MAX as real) <= RoundHalfEven(c2.value * ABSOLUTE_MAX as real)
  {
    hide Along, PartOf, RoundHalfEven, ClampUnit;
    PartMonotone(p1, p2, rectOffset, rectExtent);
    AxisMonotone(PartOf(p1, rectOffset, rectExtent), PartOf(p2, rectOffset, rectExtent), frame, offset, extent);
  }

  /** Moving the pointer right (down) never moves the remote cursor left (up). */
  lemma PointerPathMonotone(x1: real, y1: real, x2: real, y2: real, containerWidth: real, containerHeight: real,
                            frameWidth: int, frameHeight: int, sourceWidth: int, sourceHeight: int)
    requires containerWidth > 0.0 && containerHeight > 0.0
    requires frameWidth > 0 && frameHeight > 0 && sourceWidth > 0 && sourceHeight > 0
    ensures var p1 := PointerToDesktop(x1, y1, containerWidth, containerHeight, frameWidth, frameHeight, sourceWidth,
                                       sourceHeight);
            var p2 := PointerToDesktop(x2, y2, containerWidth, containerHeight, frameWidth, frameHeight, sourceWidth,
                                       sourceHeight);
            p1.Ok? && p2.Ok? && p1.value.Some? && p2.value.Some? ==>
              && (x1 <= x2 ==> p1.value.value.x <= p2.value.value.x)
              && (y1 <= y2 ==> p1.value.value.y <= p2.value.value.y)
  {
    var rect := ComputeContainRect(containerWidth, containerHeight, frameWidth as real, frameHeight as real).value;
    var fit := ComputeLetterboxFit(sourceWidth, sourceHeight, frameWidth, frameHeight).value;
    hide ComputeContainRect, ComputeLetterboxFit, PointerToDesktop, DesktopAxis, RoundHalfEven;
    PointerPathAxes(x1, y1, containerWidth, containerHeight, frameWidth, frameHeight, sourceWidth, sourceHeight);
    PointerPathAxes(x2, y2, containerWidth, containerHeight, frameWidth, frameHeight, sourceWidth, sourceHeight);
    if x1 <= x2 {
      DesktopAxisMonotone(x1, x2, rect.offsetX, rect.width, frameWidth, fit.offsetX, fit.width);
    }
    if y1 <= y2 {
      DesktopAxisMonotone(y1, y2, rect.offsetY, rect.height, frameHeight, fit.offsetY, fit.height);
    }
  }

  // ---------------------------------------------------------------- what the functions compute

  /** Python's rounding, pinned: no integer is nearer, and of two equally near the even one. */
  lemma RoundHalfEvenIsNearest(x: real, n: int)
    ensures var r := RoundHalfEven(x);
            && AbsReal(x - r as real) <= AbsReal(x - n as real)
            && (n != r && AbsReal(x - r as real) == AbsReal(x - n as real) ==> r % 2 == 0)
  {
    RoundHalfEvenNear(x);
  }

  function AbsReal(x: real): real { if x < 0.0 then -x else x }

  /** The contain rectangle exists for positive sizes only; it lies inside the element, fills one
      axis, is centred, and keeps the content's proportions. */
  lemma ContainRectIsTight(containerWidth: real, containerHeight: real, contentWidth: real, contentHeight: real)
    ensures var r := ComputeContainRect(containerWidth, containerHeight, contentWidth, contentHeight);
            && (r.Ok? <==> containerWidth > 0.0 && containerHeight > 0.0 && contentWidth > 0.0 && contentHeight > 0.0)
            && (r.Ok? ==>
                  && r.value.width <= containerWidth && r.value.height <= containerHeight
                  && (r.value.width == containerWidth || r.value.height == containerHeight)
                  && r.value.width * contentHeight == r.value.height * contentWidth
                  && 2.0 * r.value.offsetX + r.value.width == containerWidth
                  && 2.0 * r.value.offsetY + r.value.height == containerHeight)
  {
    if containerWidth > 0.0 && containerHeight > 0.0 && contentWidth > 0.0 && contentHeight > 0.0 {
      var byWidth, byHeight := containerWidth / contentWidth, containerHeight / contentHeight;
      var scale := MinReal(byWidth, byHeight);
      ProductMonotone(scale, byWidth, contentWidth);
      ProductMonotone(scale, byHeight, contentHeight);
      Proportional(contentWidth, contentHeight, scale);
    }
  }

  lemma Proportional(a: real, b: real, scale: real)
    ensures a * scale * b == b * scale * a
  {
  }

  /** The errors: a pointer is never mapped through a missing size, and the capture letterbox says
      which of its two sizes is at fault. */
  lemma SizesMustBePositive(pointerX: real, pointerY: real, containerWidth: real, containerHeight: real,
                            contentWidth: real, contentHeight: real,
                            srcWidth: int, srcHeight: int, dstWidth: int, dstHeight: int)
    ensures NormalizePointerToContent(pointerX, pointerY, containerWidth, containerHeight, contentWidth,
                                      contentHeight).Ok?
            <==> containerWidth > 0.0 && containerHeight > 0.0 && contentWidth > 0.0 && contentHeight > 0.0
    ensures var fit := ComputeLetterboxFit(srcWidth, srcHeight, dstWidth, dstHeight);
            && (fit.Ok? <==> srcWidth > 0 && srcHeight > 0 && dstWidth > 0 && dstHeight > 0)
            && (fit.Err? ==> (fit.error == NonPositiveSource <==> srcWidth <= 0 || srcHeight <= 0))
  {
    ContainRectIsTight(containerWidth, containerHeight, contentWidth, contentHeight);
    hide ComputeContainRect, FittedExtent;
  }
}
