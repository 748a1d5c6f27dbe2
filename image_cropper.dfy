/**
 * The crop tool (`ImageCropper`): a crop rectangle over the image canvas that
 * is moved by dragging its inside and resized by grabbing one of its corner
 * handles, optionally locked to an aspect ratio. Coordinates are canvas
 * coordinates, modelled as exact reals.
 */
module ImageCropper {
  import opened Common

  datatype Point = Point(x: real, y: real)

  datatype Rect = Rect(x: real, y: real, width: real, height: real)

  /** The four resize handles, in the order the hit-test tries them. */
  datatype Handle = TopLeft | TopRight | BottomLeft | BottomRight

  /** The aspect buttons: Free, 1:1, 4:3 and 16:9. */
  datatype AspectChoice = Free | Square | FourByThree | SixteenByNine

  /** Half-width of a handle's hit area, on each axis. */
  const HandleSize: real := 8.0

  /** The smallest width and height a resize gesture leaves. */
  const MinSize: real := 50.0

  /** The width and height of a fresh canvas element before an image is drawn on it. */
  const DefaultCanvasWidth: real := 300.0
  const DefaultCanvasHeight: real := 150.0

  function Abs(r: real): real { if r < 0.0 then -r else r }

  function RatioOf(choice: AspectChoice): (r: Option<real>)
    ensures r.None? <==> choice == Free
    ensures r.Some? ==> r.value >= 1.0
  {
    match choice
    case Free => None
    case Square => Some(1.0)
    case FourByThree => Some(4.0 / 3.0)
    case SixteenByNine => Some(16.0 / 9.0)
  }

  /** The rectangle lies within [0, w] × [0, h]. */
  predicate Inside(b: Rect, w: real, h: real)
  {
    0.0 <= b.x && b.x + b.width <= w && 0.0 <= b.y && b.y + b.height <= h
  }

  /** The closed rectangle contains the point; a box of negative width or height contains none. */
  predicate Contains(b: Rect, p: Point)
    ensures Contains(b, p) ==> b.width >= 0.0 && b.height >= 0.0
  {
    b.x <= p.x <= b.x + b.width && b.y <= p.y <= b.y + b.height
  }

  /**
   * The box placed when an image loads and on reset: 80% of the image on each
   * axis, with equal margins on both sides, so it is centred and inside.
   */
  function InitialBox(w: real, h: real): (b: Rect)
    requires w >= 0.0 && h >= 0.0
    ensures b.width == 0.8 * w && b.height == 0.8 * h
    ensures b.x == w - (b.x + b.width) && b.y == h - (b.y + b.height)
    ensures Inside(b, w, h)
  {
    var initialWidth := w * 0.8;
    var initialHeight := h * 0.8;
    Rect((w - initialWidth) / 2.0, (h - initialHeight) / 2.0, initialWidth, initialHeight)
  }

  function Corner(b: Rect, which: Handle): Point
  {
    match which
    case TopLeft => Point(b.x, b.y)
    case TopRight => Point(b.x + b.width, b.y)
    case BottomLeft => Point(b.x, b.y + b.height)
    case BottomRight => Point(b.x + b.width, b.y + b.height)
  }

  /** The point is within the handle tolerance of the corner on both axes. */
  predicate NearCorner(b: Rect, which: Handle, p: Point)
  {
    Abs(p.x - Corner(b, which).x) <= HandleSize && Abs(p.y - Corner(b, which).y) <= HandleSize
  }

  function Rank(which: Handle): nat
  {
    match which
    case TopLeft => 0
    case TopRight => 1
    case BottomLeft => 2
    case BottomRight => 3
  }

  /**
   * `isInResizeHandle`: the first handle, in the order top-left, top-right,
   * bottom-left, bottom-right, whose corner is near the point; none when no
   * corner is.
   */
  function HitHandle(b: Rect, p: Point): (r: Option<Handle>)
    ensures r.None? <==> forall which :: !NearCorner(b, which, p)
    ensures r.Some? ==> NearCorner(b, r.value, p)
    ensures r.Some? ==> forall which :: Rank(which) < Rank(r.value) ==> !NearCorner(b, which, p)
  {
    if Abs(p.x - b.x) <= HandleSize && Abs(p.y - b.y) <= HandleSize then
      assert NearCorner(b, TopLeft, p);
      Some(TopLeft)
    else if Abs(p.x - (b.x + b.width)) <= HandleSize && Abs(p.y - b.y) <= HandleSize then
      assert NearCorner(b, TopRight, p);
      Some(TopRight)
    else if Abs(p.x - b.x) <= HandleSize && Abs(p.y - (b.y + b.height)) <= HandleSize then
      assert NearCorner(b, BottomLeft, p);
      Some(BottomLeft)
    else if Abs(p.x - (b.x + b.width)) <= HandleSize && Abs(p.y - (b.y + b.height)) <= HandleSize then
      assert NearCorner(b, BottomRight, p);
      Some(BottomRight)
    else None
  }

  /**
   * A drag along one axis: `max(0, min(limit - size, pos + delta))`. The result
   * is never negative and keeps the box inside when it fits.
   */
  function DragAxis(pos: real, size: real, limit: real, delta: real): (p: real)
    ensures p >= 0.0
    ensures size <= limit ==> p + size <= limit
    ensures 0.0 <= pos + delta <= limit - size ==> p == pos + delta
    ensures pos + delta < 0.0 ==> p == 0.0
    ensures 0.0 <= limit - size < pos + delta ==> p == limit - size
    ensures size > limit ==> p == 0.0
  {
    MaxReal(0.0, MinReal(limit - size, pos + delta))
  }

  /** When the box fits, the dragged position is the allowed one nearest the unclamped target. */
  lemma DragIsNearest(pos: real, size: real, limit: real, delta: real, q: real)
    requires 0.0 <= q <= limit - size
    ensures Abs(DragAxis(pos, size, limit, delta) - (pos + delta)) <= Abs(q - (pos + delta))
  {
  }

  /**
   * A resize along one axis: `max(50, min(limit - pos, size + delta))`. The
   * result is at least 50; it stays within the canvas only when at least 50
   * of room remains past `pos`, and otherwise is exactly 50. A request past
   * the canvas edge stops at the edge, one below 50 stops at 50.
   */
  function ResizeAxis(size: real, pos: real, limit: real, delta: real): (s: real)
    ensures s >= MinSize
    ensures limit - pos >= MinSize ==> pos + s <= limit
    ensures limit - pos < MinSize ==> s == MinSize
    ensures MinSize <= size + delta <= limit - pos ==> s == size + delta
    ensures MinSize <= limit - pos < size + delta ==> s == limit - pos
    ensures size + delta < MinSize ==> s == MinSize
  {
    MaxReal(MinSize, MinReal(limit - pos, size + delta))
  }

  /** The resized side is the allowed size nearest the requested one, allowed sizes running from 50 to the room left. */
  lemma ResizeIsNearest(size: real, pos: real, limit: real, delta: real, q: real)
    requires MinSize <= q <= MaxReal(MinSize, limit - pos)
    ensures Abs(ResizeAxis(size, pos, limit, delta) - (size + delta)) <= Abs(q - (size + delta))
  {
  }

  /**
   * The box after a resize step by (dx, dy) on a canvas of w × h: position
   * unchanged, whichever corner was grabbed. Under an aspect lock the clamped
   * width decides the height when that height fits below the box, and the
   * clamped height decides the width otherwise; either way width = height · ratio.
   */
  function ResizedBox(b: Rect, w: real, h: real, dx: real, dy: real, ratio: Option<real>): (r: Rect)
    requires ratio.Some? ==> ratio.value > 0.0
    ensures r.x == b.x && r.y == b.y
    ensures ratio.None? ==> r.width == ResizeAxis(b.width, b.x, w, dx) && r.height == ResizeAxis(b.height, b.y, h, dy)
    ensures ratio.Some? ==> r.width == r.height * ratio.value
    ensures ratio.Some? && ResizeAxis(b.width, b.x, w, dx) / ratio.value <= h - b.y ==>
              r.width == ResizeAxis(b.width, b.x, w, dx) && r.y + r.height <= h
    ensures ratio.Some? && ResizeAxis(b.width, b.x, w, dx) / ratio.value > h - b.y ==>
              r.height == ResizeAxis(b.height, b.y, h, dy)
  {
    var clampedWidth := ResizeAxis(b.width, b.x, w, dx);
    var clampedHeight := ResizeAxis(b.height, b.y, h, dy);
    if ratio.None? then b.(width := clampedWidth, height := clampedHeight)
    else if clampedWidth / ratio.value <= h - b.y then b.(width := clampedWidth, height := clampedWidth / ratio.value)
    else b.(width := clampedHeight * ratio.value, height := clampedHeight)
  }

  /**
   * The box after choosing aspect ratio `ratio` on a canvas of height h: the
   * height follows from the width, unless that overflows the bottom edge, in
   * which case the height fills the room left and the width follows from it,
   * which makes the box strictly narrower than before.
   */
  function FitToRatio(b: Rect, h: real, ratio: real): (r: Rect)
    requires ratio > 0.0
    ensures r.x == b.x && r.y == b.y && r.width == r.height * ratio
    ensures b.y + b.width / ratio <= h ==> r.width == b.width && r.y + r.height <= h
    ensures b.y + b.width / ratio > h ==> r.height == h - b.y && r.width < b.width
  {
    if b.y + b.width / ratio > h then b.(width := (h - b.y) * ratio, height := h - b.y)
    else b.(height := b.width / ratio)
  }

  /** A locked resize step can leave the box lower than the 50 minimum. */
  lemma LockedResizeCanUndercutMinimum()
    ensures ResizedBox(Rect(0.0, 0.0, 50.0, 50.0), 800.0, 600.0, 0.0, 0.0, Some(16.0 / 9.0)).height < MinSize
  {
  }

  /** With less than 50 of room past the box, a free resize pushes it over the canvas edge. */
  lemma ResizeCanLeaveCanvas()
    ensures !Inside(ResizedBox(Rect(770.0, 0.0, 30.0, 100.0), 800.0, 600.0, 0.0, 0.0, None), 800.0, 600.0)
  {
  }

  /** A drag step keeps a box that fits the canvas inside it, at the same size. */
  lemma DragStaysInside(b: Rect, w: real, h: real, dx: real, dy: real)
    requires 0.0 <= b.width <= w && 0.0 <= b.height <= h
    ensures var moved := b.(x := DragAxis(b.x, b.width, w, dx), y := DragAxis(b.y, b.height, h, dy));
            Inside(moved, w, h) && moved.width == b.width && moved.height == b.height
  {
  }

  /**
   * The crop tool's session. `croppedFrom` stands for the cropped result: when
   * it is set, the result image is displayed in place of the canvas, so the
   * canvas element is not mounted.
   */
  class CropSession {
    var canvasWidth: real
    var canvasHeight: real
    var imageLoaded: bool
    var imageWidth: real
    var imageHeight: real
    var cropBox: Rect
    var isDragging: bool
    var dragStart: Point
    var isResizing: bool
    var resizeStart: Point
    var aspectRatio: Option<real>
    var croppedFrom: Option<Rect>

    ghost predicate Valid()
      reads this
    {
      && (aspectRatio.Some? ==> aspectRatio.value >= 1.0)
      && canvasWidth >= 0.0 && canvasHeight >= 0.0
      && imageWidth >= 0.0 && imageHeight >= 0.0
    }

    /** The canvas is rendered only while no cropped result is displayed. */
    predicate CanvasMounted()
      reads this
    {
      croppedFrom.None?
    }

    /** A fresh tool: empty box, no image yet, idle, free aspect, no result. */
    constructor ()
      ensures Valid() && CanvasMounted() && !imageLoaded
      ensures cropBox == Rect(0.0, 0.0, 0.0, 0.0) && aspectRatio.None?
      ensures !isDragging && !isResizing
      ensures canvasWidth == DefaultCanvasWidth && canvasHeight == DefaultCanvasHeight
    {
      canvasWidth, canvasHeight := DefaultCanvasWidth, DefaultCanvasHeight;
      imageLoaded := false;
      imageWidth, imageHeight := 0.0, 0.0;
      cropBox := Rect(0.0, 0.0, 0.0, 0.0);
      isDragging, isResizing := false, false;
      dragStart, resizeStart := Point(0.0, 0.0), Point(0.0, 0.0);
      aspectRatio := None;
      croppedFrom := None;
    }

    /**
     * The image finished loading: it is remembered, and when the canvas is
     * mounted the canvas takes the image's size and the initial box is placed.
     */
    method ImageLoaded(w: nat, h: nat)
      requires Valid()
      modifies this
      ensures Valid()
      ensures imageLoaded && imageWidth == w as real && imageHeight == h as real
      ensures old(CanvasMounted()) ==>
                canvasWidth == w as real && canvasHeight == h as real && cropBox == InitialBox(w as real, h as real)
      ensures !old(CanvasMounted()) ==>
                canvasWidth == old(canvasWidth) && canvasHeight == old(canvasHeight) && cropBox == old(cropBox)
      ensures isDragging == old(isDragging) && isResizing == old(isResizing)
      ensures dragStart == old(dragStart) && resizeStart == old(resizeStart)
      ensures aspectRatio == old(aspectRatio) && croppedFrom == old(croppedFrom)
    {
      imageLoaded := true;
      imageWidth, imageHeight := w as real, h as real;
      if CanvasMounted() {
        canvasWidth, canvasHeight := w as real, h as real;
        cropBox := InitialBox(w as real, h as real);
      }
    }

    /**
     * `handleMouseDown`: a press on a handle starts a resize, a press inside
     * the box starts a drag, anything else changes nothing.
     */
    method MouseDown(p: Point)
      requires CanvasMounted()
      modifies this
      ensures HitHandle(old(cropBox), p).Some? ==>
                isResizing && resizeStart == p && isDragging == old(isDragging) && dragStart == old(dragStart)
      ensures HitHandle(old(cropBox), p).None? && Contains(old(cropBox), p) ==>
                isDragging && dragStart == p && isResizing == old(isResizing) && resizeStart == old(resizeStart)
      ensures HitHandle(old(cropBox), p).None? && !Contains(old(cropBox), p) ==>
                isDragging == old(isDragging) && isResizing == old(isResizing)
                && dragStart == old(dragStart) && resizeStart == old(resizeStart)
      ensures cropBox == old(cropBox) && aspectRatio == old(aspectRatio) && croppedFrom == old(croppedFrom)
      ensures canvasWidth == old(canvasWidth) && canvasHeight == old(canvasHeight)
      ensures imageLoaded == old(imageLoaded) && imageWidth == old(imageWidth) && imageHeight == old(imageHeight)
    {
      var handle := HitHandle(cropBox, p);
      if handle.Some? {
        isResizing := true;
        resizeStart := p;
        return;
      }
      if p.x >= cropBox.x && p.x <= cropBox.x + cropBox.width &&
         p.y >= cropBox.y && p.y <= cropBox.y + cropBox.height {
        isDragging := true;
        dragStart := p;
      }
    }

    /**
     * `handleMouseMove`: a drag moves the box by the pointer's displacement,
     * clamped to the canvas; a resize changes only width and height. Without
     * a mounted canvas, or with no gesture in progress, nothing changes.
     */
    method MouseMove(p: Point)
      requires Valid()
      modifies this
      ensures Valid()
      ensures !old(CanvasMounted()) || (!old(isDragging) && !old(isResizing)) ==>
                cropBox == old(cropBox) && dragStart == old(dragStart) && resizeStart == old(resizeStart)
      ensures old(CanvasMounted()) && old(isDragging) ==>
                && cropBox == old(cropBox).(x := DragAxis(old(cropBox).x, old(cropBox).width, canvasWidth, p.x - old(dragStart).x),
                                            y := DragAxis(old(cropBox).y, old(cropBox).height, canvasHeight, p.y - old(dragStart).y))
                && dragStart == p && resizeStart == old(resizeStart)
      ensures old(CanvasMounted()) && old(isDragging) &&
              old(cropBox).width <= canvasWidth && old(cropBox).height <= canvasHeight ==>
                Inside(cropBox, canvasWidth, canvasHeight)
      ensures old(CanvasMounted()) && !old(isDragging) && old(isResizing) ==>
                && cropBox == ResizedBox(old(cropBox), canvasWidth, canvasHeight,
                                         p.x - old(resizeStart).x, p.y - old(resizeStart).y, aspectRatio)
                && resizeStart == p && dragStart == old(dragStart)
      ensures isDragging == old(isDragging) && isResizing == old(isResizing)
      ensures aspectRatio == old(aspectRatio) && croppedFrom == old(croppedFrom)
      ensures canvasWidth == old(canvasWidth) && canvasHeight == old(canvasHeight)
      ensures imageLoaded == old(imageLoaded) && imageWidth == old(imageWidth) && imageHeight == old(imageHeight)
    {
      if !CanvasMounted() {
        return;
      }
      if isDragging {
        var deltaX := p.x - dragStart.x;
        var deltaY := p.y - dragStart.y;
        var newX := MaxReal(0.0, MinReal(canvasWidth - cropBox.width, cropBox.x + deltaX));
        var newY := MaxReal(0.0, MinReal(canvasHeight - cropBox.height, cropBox.y + deltaY));
        assert newX == DragAxis(cropBox.x, cropBox.width, canvasWidth, deltaX);
        assert newY == DragAxis(cropBox.y, cropBox.height, canvasHeight, deltaY);
        cropBox := cropBox.(x := newX, y := newY);
        dragStart := p;
      } else if isResizing {
        var deltaX := p.x - resizeStart.x;
        var deltaY := p.y - resizeStart.y;
        var newWidth := MaxReal(MinSize, MinReal(canvasWidth - cropBox.x, cropBox.width + deltaX));
        var newHeight := MaxReal(MinSize, MinReal(canvasHeight - cropBox.y, cropBox.height + deltaY));
        if aspectRatio.Some? {
          var widthBasedHeight := newWidth / aspectRatio.value;
          var heightBasedWidth := newHeight * aspectRatio.value;
          if widthBasedHeight <= canvasHeight - cropBox.y {
            newHeight := widthBasedHeight;
          } else {
            newWidth := heightBasedWidth;
          }
        }
        assert Rect(cropBox.x, cropBox.y, newWidth, newHeight) ==
               ResizedBox(cropBox, canvasWidth, canvasHeight, deltaX, deltaY, aspectRatio);
        cropBox := cropBox.(width := newWidth, height := newHeight);
        resizeStart := p;
      }
      // otherwise only the cursor shape changes
    }

    /** `handleMouseUp`: every gesture ends. Like every pointer handler, it sits on the canvas element. */
    method MouseUp()
      requires CanvasMounted()
      modifies this
      ensures !isDragging && !isResizing
      ensures cropBox == old(cropBox) && dragStart == old(dragStart) && resizeStart == old(resizeStart)
      ensures aspectRatio == old(aspectRatio) && croppedFrom == old(croppedFrom)
      ensures canvasWidth == old(canvasWidth) && canvasHeight == old(canvasHeight)
      ensures imageLoaded == old(imageLoaded) && imageWidth == old(imageWidth) && imageHeight == old(imageHeight)
    {
      isDragging := false;
      isResizing := false;
    }

    /** `handleMouseLeave`: leaving the canvas ends every gesture, like a release. */
    method MouseLeave()
      requires CanvasMounted()
      modifies this
      ensures !isDragging && !isResizing
      ensures cropBox == old(cropBox) && dragStart == old(dragStart) && resizeStart == old(resizeStart)
      ensures aspectRatio == old(aspectRatio) && croppedFrom == old(croppedFrom)
      ensures canvasWidth == old(canvasWidth) && canvasHeight == old(canvasHeight)
      ensures imageLoaded == old(imageLoaded) && imageWidth == old(imageWidth) && imageHeight == old(imageHeight)
    {
      isDragging := false;
      isResizing := false;
    }

    /**
     * `handleAspectRatioChange`: the choice is recorded; when it is a ratio
     * and the canvas is mounted, the box is fitted to it at the same position.
     */
    method ChangeAspectRatio(choice: AspectChoice)
      requires Valid()
      modifies this
      ensures Valid()
      ensures aspectRatio == RatioOf(choice)
      ensures aspectRatio.Some? && old(CanvasMounted()) ==>
                cropBox == FitToRatio(old(cropBox), canvasHeight, aspectRatio.value)
      ensures aspectRatio.None? || !old(CanvasMounted()) ==> cropBox == old(cropBox)
      ensures isDragging == old(isDragging) && isResizing == old(isResizing)
      ensures dragStart == old(dragStart) && resizeStart == old(resizeStart) && croppedFrom == old(croppedFrom)
      ensures canvasWidth == old(canvasWidth) && canvasHeight == old(canvasHeight)
      ensures imageLoaded == old(imageLoaded) && imageWidth == old(imageWidth) && imageHeight == old(imageHeight)
    {
      var ratio := RatioOf(choice);
      aspectRatio := ratio;
      if ratio.Some? && CanvasMounted() {
        var newWidth := cropBox.width;
        var newHeight := cropBox.height;
        newHeight := newWidth / ratio.value;
        if cropBox.y + newHeight > canvasHeight {
          newHeight := canvasHeight - cropBox.y;
          newWidth := newHeight * ratio.value;
        }
        cropBox := cropBox.(width := newWidth, height := newHeight);
      }
    }

    /**
     * `applyCrop`: with the canvas mounted and an image loaded, the current
     * box becomes the cropped result, which then replaces the canvas.
     */
    method ApplyCrop()
      modifies this
      ensures old(CanvasMounted()) && imageLoaded ==> croppedFrom == Some(old(cropBox)) && !CanvasMounted()
      ensures !old(CanvasMounted()) || !imageLoaded ==> croppedFrom == old(croppedFrom)
      ensures cropBox == old(cropBox) && aspectRatio == old(aspectRatio)
      ensures isDragging == old(isDragging) && isResizing == old(isResizing)
      ensures dragStart == old(dragStart) && resizeStart == old(resizeStart)
      ensures canvasWidth == old(canvasWidth) && canvasHeight == old(canvasHeight)
      ensures imageLoaded == old(imageLoaded) && imageWidth == old(imageWidth) && imageHeight == old(imageHeight)
    {
      if !CanvasMounted() || !imageLoaded {
        return;
      }
      croppedFrom := Some(cropBox);
    }

    /**
     * `resetCrop` as written: it returns early unless the canvas is mounted,
     * and the canvas is unmounted exactly while a cropped result is shown, so
     * it never clears a result. Otherwise the box goes back to its initial
     * placement; the aspect choice is kept.
     */
    method ResetCropAsWritten()
      requires Valid()
      modifies this
      ensures Valid()
      ensures old(CanvasMounted()) && imageLoaded ==>
                cropBox == InitialBox(imageWidth, imageHeight) && croppedFrom.None?
      ensures !old(CanvasMounted()) || !imageLoaded ==> cropBox == old(cropBox) && croppedFrom == old(croppedFrom)
      ensures aspectRatio == old(aspectRatio)
      ensures isDragging == old(isDragging) && isResizing == old(isResizing)
      ensures dragStart == old(dragStart) && resizeStart == old(resizeStart)
      ensures canvasWidth == old(canvasWidth) && canvasHeight == old(canvasHeight)
      ensures imageLoaded == old(imageLoaded) && imageWidth == old(imageWidth) && imageHeight == old(imageHeight)
    {
      if !CanvasMounted() || !imageLoaded {
        return;
      }
      cropBox := InitialBox(imageWidth, imageHeight);
      croppedFrom := None;
    }

    /**
     * `resetCrop` as evidently intended: with an image loaded the box goes
     * back to its initial placement and any cropped result is cleared, so the
     * canvas is shown again, sized to the image (a canvas element mounted
     * afresh would start at 300 × 150, so the fix has to size it again); the
     * aspect choice is kept.
     */
    method ResetCrop()
      requires Valid()
      modifies this
      ensures Valid()
      ensures imageLoaded ==> cropBox == InitialBox(imageWidth, imageHeight) && CanvasMounted()
      ensures imageLoaded ==> canvasWidth == imageWidth && canvasHeight == imageHeight
      ensures !imageLoaded ==> cropBox == old(cropBox) && croppedFrom == old(croppedFrom)
      ensures !imageLoaded ==> canvasWidth == old(canvasWidth) && canvasHeight == old(canvasHeight)
      ensures aspectRatio == old(aspectRatio)
      ensures isDragging == old(isDragging) && isResizing == old(isResizing)
      ensures dragStart == old(dragStart) && resizeStart == old(resizeStart)
      ensures imageLoaded == old(imageLoaded) && imageWidth == old(imageWidth) && imageHeight == old(imageHeight)
    {
      if !imageLoaded {
        return;
      }
      canvasWidth, canvasHeight := imageWidth, imageHeight;
      cropBox := InitialBox(imageWidth, imageHeight);
      croppedFrom := None;
    }
  }

  /**
   * Load an 800 × 600 image, apply the crop, press Reset: with the guard as
   * written the cropped result is still displayed afterwards.
   */
  method ResetAfterCropAsWritten() returns (stillCropped: bool)
    ensures stillCropped
  {
    var session := new CropSession();
    session.ImageLoaded(800, 600);
    session.ApplyCrop();
    session.ResetCropAsWritten();
    stillCropped := session.croppedFrom.Some?;
  }

  /**
   * The same steps with the corrected reset: the result is cleared and the
   * canvas is back, 800 × 600, with the initial box.
   */
  method ResetAfterCrop() returns (cleared: bool, box: Rect, canvasWidth: real, canvasHeight: real)
    ensures cleared && box == Rect(80.0, 60.0, 640.0, 480.0) && canvasWidth == 800.0 && canvasHeight == 600.0
  {
    var session := new CropSession();
    session.ImageLoaded(800, 600);
    session.ApplyCrop();
    session.ResetCrop();
    cleared := session.CanvasMounted();
    box := session.cropBox;
    canvasWidth, canvasHeight := session.canvasWidth, session.canvasHeight;
  }

  /**
   * A drag gesture on an 800 × 600 image: press inside the initial box, move
   * far past the right edge, release. The box stops at the edge with its size
   * unchanged and the tool is idle again.
   */
  method DragToEdge() returns (box: Rect, idle: bool)
    ensures box == Rect(160.0, 60.0, 640.0, 480.0) && idle
  {
    var session := new CropSession();
    session.ImageLoaded(800, 600);
    session.MouseDown(Point(400.0, 300.0));
    session.MouseMove(Point(1400.0, 300.0));
    session.MouseUp();
    box := session.cropBox;
    idle := !session.isDragging && !session.isResizing;
  }
}
