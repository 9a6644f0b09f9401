/**
 * The manual corrector (frontend/src/components/DocumentEditor.jsx): four draggable
 * corner handles over the image; confirming crops the axis-aligned bounding box of the
 * corners (no perspective warp) and hands the encoded blob on.
 */
module DocumentEditor {
  import opened Base
  import opened Media

  /** The editor shows its handles only when it is given exactly four corners. */
  predicate Ready(initial: Option<seq<Corner>>)
  {
    initial.Some? && |initial.value| == 4
  }

  /** What the editor renders: the waiting message, the loading message, or the stage. */
  datatype View = WaitingForCorners | LoadingImage | Stage

  /**
   * The render choice: without exactly four `initialCorners` the waiting message, else
   * until the image has loaded the loading message, and only then the handles.
   */
  function ViewOf(initial: Option<seq<Corner>>, imageLoaded: bool): (v: View)
    ensures v == WaitingForCorners <==> !Ready(initial)
    ensures v == LoadingImage <==> Ready(initial) && !imageLoaded
    ensures v == Stage <==> Ready(initial) && imageLoaded
  {
    if initial.None? || |initial.value| != 4 then WaitingForCorners
    else if !imageLoaded then LoadingImage
    else Stage
  }

  /** `c.map((pt, i) => i === idx ? p : pt)`: the corners with the one at `idx` moved to `p`. */
  function MoveCorner(cs: seq<Corner>, idx: int, p: Corner): (r: seq<Corner>)
    ensures |r| == |cs|
    ensures 0 <= idx < |cs| ==> r[idx] == p
    ensures forall i :: 0 <= i < |cs| && i != idx ==> r[i] == cs[i]
  {
    seq(|cs|, i requires 0 <= i < |cs| => if i == idx then p else cs[i])
  }

  /** Dragging the same handle twice leaves it where the second drag put it. */
  lemma MoveCornerTwice(cs: seq<Corner>, idx: int, p: Corner, p': Corner)
    ensures MoveCorner(MoveCorner(cs, idx, p), idx, p') == MoveCorner(cs, idx, p')
  {
  }

  /** Drags of two different handles commute. */
  lemma MoveCornersCommute(cs: seq<Corner>, i: int, j: int, p: Corner, q: Corner)
    requires i != j
    ensures MoveCorner(MoveCorner(cs, i, p), j, q) == MoveCorner(MoveCorner(cs, j, q), i, p)
  {
  }

  /** Dragging a handle back to where it was changes nothing. */
  lemma MoveCornerInPlace(cs: seq<Corner>, idx: int)
    requires 0 <= idx < |cs|
    ensures MoveCorner(cs, idx, cs[idx]) == cs
  {
  }

  function MinX(cs: seq<Corner>): (m: real)
    requires |cs| > 0
    ensures exists i :: 0 <= i < |cs| && cs[i].x == m
    ensures forall i :: 0 <= i < |cs| ==> m <= cs[i].x
  {
    if |cs| == 1 then cs[0].x
    else
      var t := MinX(cs[1..]);
      assert forall i :: 1 <= i < |cs| ==> cs[1..][i - 1] == cs[i];
      if cs[0].x <= t then cs[0].x else t
  }

  function MaxX(cs: seq<Corner>): (m: real)
    requires |cs| > 0
    ensures exists i :: 0 <= i < |cs| && cs[i].x == m
    ensures forall i :: 0 <= i < |cs| ==> cs[i].x <= m
  {
    if |cs| == 1 then cs[0].x
    else
      var t := MaxX(cs[1..]);
      assert forall i :: 1 <= i < |cs| ==> cs[1..][i - 1] == cs[i];
      if cs[0].x >= t then cs[0].x else t
  }

  function MinY(cs: seq<Corner>): (m: real)
    requires |cs| > 0
    ensures exists i :: 0 <= i < |cs| && cs[i].y == m
    ensures forall i :: 0 <= i < |cs| ==> m <= cs[i].y
  {
    if |cs| == 1 then cs[0].y
    else
      var t := MinY(cs[1..]);
      assert forall i :: 1 <= i < |cs| ==> cs[1..][i - 1] == cs[i];
      if cs[0].y <= t then cs[0].y else t
  }

  function MaxY(cs: seq<Corner>): (m: real)
    requires |cs| > 0
    ensures exists i :: 0 <= i < |cs| && cs[i].y == m
    ensures forall i :: 0 <= i < |cs| ==> cs[i].y <= m
  {
    if |cs| == 1 then cs[0].y
    else
      var t := MaxY(cs[1..]);
      assert forall i :: 1 <= i < |cs| ==> cs[1..][i - 1] == cs[i];
      if cs[0].y >= t then cs[0].y else t
  }

  /** An axis-aligned rectangle: its top-left corner, width and height. */
  datatype Box = Box(x: real, y: real, w: real, h: real)

  predicate Contains(b: Box, c: Corner)
  {
    b.x <= c.x <= b.x + b.w && b.y <= c.y <= b.y + b.h
  }

  /**
   * The bounding box of the corners: it has a non-negative size, contains every corner,
   * and each of its four sides touches a corner.
   */
  function BoundingBox(cs: seq<Corner>): (b: Box)
    requires |cs| > 0
    ensures b.w >= 0.0 && b.h >= 0.0
    ensures forall i :: 0 <= i < |cs| ==> Contains(b, cs[i])
    ensures exists i :: 0 <= i < |cs| && cs[i].x == b.x
    ensures exists i :: 0 <= i < |cs| && cs[i].y == b.y
    ensures exists i :: 0 <= i < |cs| && cs[i].x == b.x + b.w
    ensures exists i :: 0 <= i < |cs| && cs[i].y == b.y + b.h
  {
    var minX, maxX, minY, maxY := MinX(cs), MaxX(cs), MinY(cs), MaxY(cs);
    Box(minX, minY, maxX - minX, maxY - minY)
  }

  /** No box that contains every corner is smaller than the bounding box. */
  lemma BoundingBoxSmallest(cs: seq<Corner>, b: Box)
    requires |cs| > 0
    requires forall i :: 0 <= i < |cs| ==> Contains(b, cs[i])
    ensures var bb := BoundingBox(cs);
            b.x <= bb.x && b.y <= bb.y && bb.x + bb.w <= b.x + b.w && bb.y + bb.h <= b.y + b.h
  {
    var bb := BoundingBox(cs);
    var i0 :| 0 <= i0 < |cs| && cs[i0].x == bb.x;
    var i1 :| 0 <= i1 < |cs| && cs[i1].y == bb.y;
    var i2 :| 0 <= i2 < |cs| && cs[i2].x == bb.x + bb.w;
    var i3 :| 0 <= i3 < |cs| && cs[i3].y == bb.y + bb.h;
    assert Contains(b, cs[i0]) && Contains(b, cs[i1]) && Contains(b, cs[i2]) && Contains(b, cs[i3]);
  }

  /** The manual crop of the untouched start corners is the central 80% of the image. */
  lemma InsetCrop(w: real, h: real)
    requires w >= 0.0 && h >= 0.0
    ensures BoundingBox(InsetCorners(w, h)) == Box(w * 0.1, h * 0.1, 0.8 * w, 0.8 * h)
  {
    var cs := InsetCorners(w, h);
    var bb := BoundingBox(cs);
    assert Contains(bb, cs[0]) && Contains(bb, cs[2]);
    BoundingBoxSmallest(cs, Box(w * 0.1, h * 0.1, 0.8 * w, 0.8 * h));
  }

  /**
   * The drawing the confirm handler makes: an offscreen canvas of `canvasW` x `canvasH`
   * and one `drawImage(img, sx, sy, sw, sh, dx, dy, dw, dh)`.
   */
  datatype Crop = Crop(canvasW: nat, canvasH: nat, source: Box, dest: Box)

  /** A canvas's width and height when they are not set to an allowed value. */
  const DefaultCanvasWidth: nat := 300
  const DefaultCanvasHeight: nat := 150

  /**
   * A canvas dimension set from a number: the `unsigned long` conversion takes the
   * integer part modulo 2^32, and the reflected attribute then keeps that only when it is
   * below 2^31, storing the default `dflt` otherwise.
   */
  function CanvasDimension(v: real, dflt: nat): (d: nat)
    requires v >= 0.0
    ensures d < 0x8000_0000 || d == dflt
    ensures v < 2147483648.0 ==> d as real <= v < d as real + 1.0
    ensures 2147483648.0 <= v < 4294967296.0 ==> d == dflt
  {
    var n := v.Floor % 0x1_0000_0000;
    if n <= 0x7FFF_FFFF then n else dflt
  }

  /** `onConfirm` is called with the encoded blob only when there is one and it is a function. */
  function Confirmed(blob: Option<Blob>, onConfirmIsFunction: bool): (r: Option<Blob>)
    ensures r.Some? <==> blob.Some? && onConfirmIsFunction
    ensures r.Some? ==> r == blob
  {
    if blob.Some? && onConfirmIsFunction then blob else None
  }

  /**
   * The display scale: the smaller of what fits `viewportWidth - 200` pixels, what fits
   * 700 pixels, and 1.
   */
  function ScaleFactor(viewportWidth: real, imageWidth: real): (s: real)
    requires imageWidth > 0.0
    ensures s <= 1.0
    ensures s <= 700.0 / imageWidth && s <= (viewportWidth - 200.0) / imageWidth
    ensures s == 1.0 || s == 700.0 / imageWidth || s == (viewportWidth - 200.0) / imageWidth
  {
    var a, b := (viewportWidth - 200.0) / imageWidth, 700.0 / imageWidth;
    var m := if a <= b then a else b;
    if m <= 1.0 then m else 1.0
  }

  /** The image is never shown enlarged, nor wider than 700 pixels or the viewport less 200. */
  lemma DisplayedWidthBounded(viewportWidth: real, imageWidth: real)
    requires imageWidth > 0.0
    ensures var shown := imageWidth * ScaleFactor(viewportWidth, imageWidth);
            shown <= imageWidth && shown <= 700.0 && shown <= viewportWidth - 200.0
  {
    var s := ScaleFactor(viewportWidth, imageWidth);
    assert imageWidth * (700.0 / imageWidth) == 700.0;
    assert imageWidth * ((viewportWidth - 200.0) / imageWidth) == viewportWidth - 200.0;
    MulMonotone(imageWidth, s, 1.0);
    MulMonotone(imageWidth, s, 700.0 / imageWidth);
    MulMonotone(imageWidth, s, (viewportWidth - 200.0) / imageWidth);
  }

  lemma MulMonotone(k: real, a: real, b: real)
    requires k > 0.0 && a <= b
    ensures k * a <= k * b
  {
    assert k * b - k * a == k * (b - a);
  }

  /** The corner state of a mounted editor. */
  class Editor {
    var corners: seq<Corner>

    /** `useState(initialCorners || [])`. */
    constructor (initial: Option<seq<Corner>>)
      ensures corners == (if initial.Some? then initial.value else [])
      ensures Ready(initial) ==> |corners| == 4
    {
      corners := if initial.Some? then initial.value else [];
    }

    /** The effect on a new `initialCorners`: it replaces the corners wholesale when set. */
    method SyncInitialCorners(initial: Option<seq<Corner>>)
      modifies this
      ensures corners == (if initial.Some? then initial.value else old(corners))
    {
      if initial.Some? {
        corners := initial.value;
      }
    }

    /** `handleDrag`: the handle `idx` is now at `(x, y)`; every other corner stays. */
    method HandleDrag(idx: int, x: real, y: real)
      modifies this
      ensures corners == MoveCorner(old(corners), idx, Corner(x, y))
    {
      corners := MoveCorner(corners, idx, Corner(x, y));
    }

    /**
     * `handleOK`: the bounding box of the corners is copied unscaled into the top-left of
     * a canvas whose size is the box's, cut down to whole pixels.
     */
    method HandleOK() returns (crop: Crop)
      requires |corners| > 0
      ensures crop.source == BoundingBox(corners)
      ensures crop.dest == Box(0.0, 0.0, crop.source.w, crop.source.h)
      ensures crop.canvasW == CanvasDimension(crop.source.w, DefaultCanvasWidth)
      ensures crop.canvasH == CanvasDimension(crop.source.h, DefaultCanvasHeight)
      ensures crop.source.w < 2147483648.0 ==>
                crop.canvasW as real <= crop.source.w < crop.canvasW as real + 1.0
      ensures crop.source.h < 2147483648.0 ==>
                crop.canvasH as real <= crop.source.h < crop.canvasH as real + 1.0
    {
      var b := BoundingBox(corners);
      crop := Crop(CanvasDimension(b.w, DefaultCanvasWidth), CanvasDimension(b.h, DefaultCanvasHeight), b, Box(0.0, 0.0, b.w, b.h));
    }
  }
}
