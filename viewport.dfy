/*
 * Zoom factor arithmetic and the scroll placement that goes with a zoom.
 * Zoom and offsets are exact reals; canvas sizes, the scroll position and
 * the scroll region are the values the canvas reports.
 */
module Viewport {
  import opened Shapes

  const MinZoom: real := 0.1
  const MaxZoom: real := 10.0
  /** The factor of the Zoom In / Zoom Out buttons. */
  const ButtonStep: real := 1.25
  /** The factor of one mouse-wheel notch. */
  const WheelStep: real := 1.2

  /** zoom_in: multiply by 1.25, capped at the maximum (no lower clamp). */
  function ZoomInValue(z: real): (r: real)
    requires z > 0.0
    ensures 0.0 < r <= MaxZoom
    ensures r == z * ButtonStep || r == MaxZoom
    ensures z <= MaxZoom ==> z <= r
    ensures MinZoom <= z ==> MinZoom <= r
    ensures z * ButtonStep <= MaxZoom ==> r == z * ButtonStep
    ensures z * ButtonStep > MaxZoom ==> r == MaxZoom
  {
    var n := z * ButtonStep;
    if n > MaxZoom then MaxZoom else n
  }

  /** zoom_out: divide by 1.25, raised to the minimum (no upper clamp). */
  function ZoomOutValue(z: real): (r: real)
    requires z > 0.0
    ensures MinZoom <= r
    ensures r * ButtonStep == z || r == MinZoom
    ensures MinZoom <= z ==> r <= z
    ensures z <= MaxZoom ==> r <= MaxZoom
    ensures MinZoom <= z / ButtonStep ==> r == z / ButtonStep
    ensures z / ButtonStep < MinZoom ==> r == MinZoom
  {
    var n := z / ButtonStep;
    if n < MinZoom then MinZoom else n
  }

  /** zoom (mouse wheel): multiply or divide by 1.2, then clamp both ways. */
  function WheelValue(z: real, zoomIn: bool): (r: real)
    requires z > 0.0
    ensures MinZoom <= r <= MaxZoom
    ensures r == MinZoom || r == MaxZoom || (if zoomIn then r == z * WheelStep else r * WheelStep == z)
    ensures zoomIn && z <= MaxZoom ==> z <= r
    ensures !zoomIn && MinZoom <= z ==> r <= z
    ensures var n := if zoomIn then z * WheelStep else z / WheelStep;
            && (MinZoom <= n <= MaxZoom ==> r == n)
            && (n < MinZoom ==> r == MinZoom)
            && (n > MaxZoom ==> r == MaxZoom)
  {
    var n := if zoomIn then z * WheelStep else z / WheelStep;
    if n < MinZoom then MinZoom else if n > MaxZoom then MaxZoom else n
  }

  /** The zoom actions a user can take with buttons and the wheel. */
  datatype ZoomAction = ButtonIn | ButtonOut | WheelIn | WheelOut

  function ApplyZoom(z: real, a: ZoomAction): real
    requires z > 0.0
  {
    match a
    case ButtonIn => ZoomInValue(z)
    case ButtonOut => ZoomOutValue(z)
    case WheelIn => WheelValue(z, true)
    case WheelOut => WheelValue(z, false)
  }

  function ApplyZooms(z: real, actions: seq<ZoomAction>): (r: real)
    requires z > 0.0
    ensures r > 0.0
    decreases |actions|
  {
    if actions == [] then z else ApplyZooms(ApplyZoom(z, actions[0]), actions[1..])
  }

  /** Starting inside [MinZoom, MaxZoom], no sequence of zoom actions leaves it. */
  lemma {:induction false} ZoomsStayInRange(z: real, actions: seq<ZoomAction>)
    requires MinZoom <= z <= MaxZoom
    ensures MinZoom <= ApplyZooms(z, actions) <= MaxZoom
    decreases |actions|
  {
    if actions != [] {
      ZoomsStayInRange(ApplyZoom(z, actions[0]), actions[1..]);
    }
  }

  /** A sequence that ends with a wheel notch ends in range, whatever came before. */
  lemma {:induction false} WheelEndsInRange(z: real, actions: seq<ZoomAction>)
    requires z > 0.0
    requires actions != [] && (actions[|actions| - 1] == WheelIn || actions[|actions| - 1] == WheelOut)
    ensures MinZoom <= ApplyZooms(z, actions) <= MaxZoom
    decreases |actions|
  {
    if |actions| > 1 {
      WheelEndsInRange(ApplyZoom(z, actions[0]), actions[1..]);
    }
  }

  /** fit_to_canvas: the largest zoom at which the whole image fits the canvas. */
  function FitZoom(canvasWidth: real, canvasHeight: real, imageWidth: int, imageHeight: int): (r: real)
    requires canvasWidth > 0.0 && canvasHeight > 0.0 && imageWidth > 0 && imageHeight > 0
    ensures r > 0.0
    ensures r * imageWidth as real <= canvasWidth && r * imageHeight as real <= canvasHeight
    ensures r * imageWidth as real == canvasWidth || r * imageHeight as real == canvasHeight
  {
    var sx := canvasWidth / imageWidth as real;
    var sy := canvasHeight / imageHeight as real;
    if sx <= sy then sx else sy
  }

  /** No zoom larger than FitZoom lets the image fit. */
  lemma FitZoomIsLargest(canvasWidth: real, canvasHeight: real, imageWidth: int, imageHeight: int, z: real)
    requires canvasWidth > 0.0 && canvasHeight > 0.0 && imageWidth > 0 && imageHeight > 0
    requires z * imageWidth as real <= canvasWidth && z * imageHeight as real <= canvasHeight
    ensures z <= FitZoom(canvasWidth, canvasHeight, imageWidth, imageHeight)
  {
    var r := FitZoom(canvasWidth, canvasHeight, imageWidth, imageHeight);
    if r * imageWidth as real == canvasWidth {
      assert (z - r) * imageWidth as real <= 0.0;
    } else {
      assert (z - r) * imageHeight as real <= 0.0;
    }
  }

  /** max(0, min(1, v)) */
  function Clamp01(v: real): (r: real)
    ensures 0.0 <= r <= 1.0
    ensures 0.0 <= v <= 1.0 ==> r == v
    ensures v < 0.0 ==> r == 0.0
    ensures v > 1.0 ==> r == 1.0
  {
    if v < 0.0 then 0.0 else if v > 1.0 then 1.0 else v
  }

  /** The fraction handed to xview_moveto / yview_moveto for a wanted scroll offset,
      or None when the content is not larger than the canvas on that axis. */
  function ScrollFraction(target: real, region: real, canvas: real): (f: Option<real>)
    ensures f.Some? <==> region > canvas
    ensures f.Some? ==> 0.0 <= f.value <= 1.0
    ensures f.Some? && 0.0 <= target <= region - canvas ==> f.value * (region - canvas) == target
    ensures f.Some? && target < 0.0 ==> f.value == 0.0
    ensures f.Some? && target > region - canvas ==> f.value == 1.0
  {
    if region > canvas then
      FractionScales(target, region - canvas);
      Some(Clamp01(target / (region - canvas)))
    else None
  }

  lemma FractionScales(target: real, span: real)
    requires span > 0.0
    ensures (target / span) * span == target
    ensures 0.0 <= target <= span ==> 0.0 <= target / span <= 1.0
    ensures target < 0.0 ==> target / span < 0.0
    ensures target > span ==> target / span > 1.0
  {
    var v := target / span;
    assert v * span == target;
    if v > 1.0 {
      assert (v - 1.0) * span > 0.0;
    }
    if v < 0.0 {
      assert v * span < 0.0;
    }
    if target > span {
      assert (v - 1.0) * span > 0.0;
    }
  }

  /** The extent of the canvas scroll region (x2 - x1, y2 - y1). The image is drawn
      with its top-left corner at canvas position (0, 0), so the region starts there. */
  datatype Region = Region(width: real, height: real)

  /** A window extent as winfo_width / winfo_height report it: at least one pixel. */
  type Extent = r: real | r > 0.0 witness 1.0

  /** What the canvas reports when a zoom is applied: its size, the scroll position
      of its top-left corner, and the scroll region after the redraw (None when
      the canvas holds no item and so has no region). The button zooms read the
      scroll position after the redraw; the wheel reads it before the redraw. Either
      way it is handed in here as scrollX, scrollY. */
  datatype CanvasView = CanvasView(width: Extent, height: Extent, scrollX: real, scrollY: real, region: Option<Region>)

  /** The fractions moved to on each axis; None leaves that axis where it is. */
  datatype ScrollMove = ScrollMove(x: Option<real>, y: Option<real>)

  const NoMove: ScrollMove := ScrollMove(None, None)

  /** The moves for wanted offsets (targetX, targetY); none without a scroll region. */
  function ScrollMoveFor(targetX: real, targetY: real, view: CanvasView): ScrollMove {
    match view.region
    case None => NoMove
    case Some(r) => ScrollMove(ScrollFraction(targetX, r.width, view.width), ScrollFraction(targetY, r.height, view.height))
  }

  /** Where xview_moveto(f) puts the left edge of the view, measured from the start
      of the scroll region: the fraction f of the whole region, held within the
      scroll range so that the view stays inside the region. */
  function MovetoEdge(f: real, region: real, canvas: real): (e: real)
    requires region > canvas
    ensures 0.0 <= e <= region - canvas
    ensures 0.0 <= f * region <= region - canvas ==> e == f * region
    ensures f * region < 0.0 ==> e == 0.0
    ensures f * region > region - canvas ==> e == region - canvas
  {
    var e := f * region;
    if e < 0.0 then 0.0 else if e > region - canvas then region - canvas else e
  }

  /** ScrollFraction divides by the scroll range, but moveto multiplies by the whole
      region: the view lands on a target inside the range only at the two ends of it,
      and past the target everywhere between them. */
  lemma AsWrittenFractionOvershoots(target: real, region: real, canvas: Extent)
    requires region > canvas
    requires 0.0 <= target <= region - canvas
    ensures MovetoEdge(ScrollFraction(target, region, canvas).value, region, canvas) == target
            <==> target == 0.0 || target == region - canvas
    ensures 0.0 < target < region - canvas ==>
            MovetoEdge(ScrollFraction(target, region, canvas).value, region, canvas) > target
  {
    var span := region - canvas;
    var f := ScrollFraction(target, region, canvas).value;
    assert f * span == target;
    assert f * region == target + f * canvas;
    if 0.0 < target {
      assert f > 0.0;
      assert f * canvas > 0.0;
    }
  }

  /** The fraction that makes moveto land on target: the target over the whole region. */
  function IntendedFraction(target: real, region: real, canvas: Extent): (f: Option<real>)
    ensures f.Some? <==> region > canvas
    ensures f.Some? ==> 0.0 <= f.value <= 1.0
  {
    if region > canvas then Some(Clamp01(target / region)) else None
  }

  /** With the intended fraction, moveto puts the left edge on the target, or on the
      nearer end of the scroll range when the target lies outside it. */
  lemma IntendedFractionLandsOnTarget(target: real, region: real, canvas: Extent)
    ensures region > canvas ==>
              var e := MovetoEdge(IntendedFraction(target, region, canvas).value, region, canvas);
              && (0.0 <= target <= region - canvas ==> e == target)
              && (target < 0.0 ==> e == 0.0)
              && (target > region - canvas ==> e == region - canvas)
  {
    if region > canvas {
      FractionScales(target, region);
      var f := IntendedFraction(target, region, canvas).value;
      if target > region {
        assert f == 1.0;
      } else if target >= 0.0 {
        assert f * region == target;
      }
    }
  }

  /** The scroll offset that keeps the content under the screen position `anchor`
      in place when the content is scaled by `ratio`. */
  function AnchoredScrollTarget(scroll: real, anchor: real, ratio: real): (r: real)
    ensures r + anchor == (scroll + anchor) * ratio
    ensures ratio == 1.0 ==> r == scroll
  {
    (scroll + anchor) * ratio - anchor
  }

  /** With the anchored offset, the image point under the anchor is the same
      before and after the zoom. */
  lemma AnchoredZoomKeepsImagePoint(scroll: real, anchor: real, oldZoom: real, newZoom: real)
    requires oldZoom > 0.0 && newZoom > 0.0
    ensures (AnchoredScrollTarget(scroll, anchor, newZoom / oldZoom) + anchor) / newZoom == (scroll + anchor) / oldZoom
  {
    var c := scroll + anchor;
    var ratio := newZoom / oldZoom;
    assert AnchoredScrollTarget(scroll, anchor, ratio) + anchor == c * ratio;
    assert ratio * oldZoom == newZoom;
    assert (c * ratio / newZoom) * oldZoom == c;
  }

  /** _center_zoom's fractions for a zoom anchored at screen position (ax, ay): the
      anchored offsets over the scroll range. The button zoom anchors at the centre. */
  function AnchoredZoomMove(view: CanvasView, ax: real, ay: real, ratio: real): (m: ScrollMove)
    ensures m.x.Some? <==> view.region.Some? && view.region.value.width > view.width
    ensures m.y.Some? <==> view.region.Some? && view.region.value.height > view.height
    ensures m.x.Some? ==> 0.0 <= m.x.value <= 1.0
    ensures m.y.Some? ==> 0.0 <= m.y.value <= 1.0
    ensures m.x.Some? && 0.0 <= AnchoredScrollTarget(view.scrollX, ax, ratio) <= view.region.value.width - view.width ==>
            m.x.value * (view.region.value.width - view.width) == AnchoredScrollTarget(view.scrollX, ax, ratio)
    ensures m.y.Some? && 0.0 <= AnchoredScrollTarget(view.scrollY, ay, ratio) <= view.region.value.height - view.height ==>
            m.y.value * (view.region.value.height - view.height) == AnchoredScrollTarget(view.scrollY, ay, ratio)
    ensures m.x.Some? && AnchoredScrollTarget(view.scrollX, ax, ratio) < 0.0 ==> m.x.value == 0.0
    ensures m.x.Some? && AnchoredScrollTarget(view.scrollX, ax, ratio) > view.region.value.width - view.width ==> m.x.value == 1.0
    ensures m.y.Some? && AnchoredScrollTarget(view.scrollY, ay, ratio) < 0.0 ==> m.y.value == 0.0
    ensures m.y.Some? && AnchoredScrollTarget(view.scrollY, ay, ratio) > view.region.value.height - view.height ==> m.y.value == 1.0
  {
    ScrollMoveFor(AnchoredScrollTarget(view.scrollX, ax, ratio), AnchoredScrollTarget(view.scrollY, ay, ratio), view)
  }

  /** Region 1200 wide, canvas 500, scrolled to 100, Zoom In from 1 to 1.25: the
      fraction 15/56 lands the left edge at 2250/7, not at the offset 187.5, so the
      image point at the centre of the canvas moves from 350 to 3200/7 (about 457.1). */
  lemma CenterZoomDriftsAsWritten()
    ensures var view := CanvasView(500.0, 500.0, 100.0, 0.0, Some(Region(1200.0, 1200.0)));
            var m := AnchoredZoomMove(view, 250.0, 250.0, 1.25);
            && AnchoredScrollTarget(100.0, 250.0, 1.25) == 187.5
            && m.x == Some(15.0 / 56.0)
            && MovetoEdge(m.x.value, 1200.0, 500.0) == 2250.0 / 7.0
            && (MovetoEdge(m.x.value, 1200.0, 500.0) + 250.0) / 1.25 == 3200.0 / 7.0
            && 3200.0 / 7.0 != (100.0 + 250.0) / 1.0
  {
    var view := CanvasView(500.0, 500.0, 100.0, 0.0, Some(Region(1200.0, 1200.0)));
    assert ScrollFraction(187.5, 1200.0, 500.0) == Some(15.0 / 56.0);
  }

  /** The anchored zoom with the intended fractions: on each axis that scrolls, moveto
      puts the view on the anchored offset, or on the nearer end of the scroll range
      when the offset lies outside it. */
  function IntendedZoomMove(view: CanvasView, ax: real, ay: real, ratio: real): (m: ScrollMove)
    ensures m.x.Some? <==> view.region.Some? && view.region.value.width > view.width
    ensures m.y.Some? <==> view.region.Some? && view.region.value.height > view.height
    ensures m.x.Some? ==> 0.0 <= m.x.value <= 1.0
    ensures m.y.Some? ==> 0.0 <= m.y.value <= 1.0
    ensures m.x.Some? ==>
              var t := AnchoredScrollTarget(view.scrollX, ax, ratio);
              var span := view.region.value.width - view.width;
              var e := MovetoEdge(m.x.value, view.region.value.width, view.width);
              && (0.0 <= t <= span ==> e == t)
              && (t < 0.0 ==> e == 0.0)
              && (t > span ==> e == span)
    ensures m.y.Some? ==>
              var t := AnchoredScrollTarget(view.scrollY, ay, ratio);
              var span := view.region.value.height - view.height;
              var e := MovetoEdge(m.y.value, view.region.value.height, view.height);
              && (0.0 <= t <= span ==> e == t)
              && (t < 0.0 ==> e == 0.0)
              && (t > span ==> e == span)
  {
    match view.region
    case None => NoMove
    case Some(r) =>
      var tx := AnchoredScrollTarget(view.scrollX, ax, ratio);
      var ty := AnchoredScrollTarget(view.scrollY, ay, ratio);
      IntendedFractionLandsOnTarget(tx, r.width, view.width);
      IntendedFractionLandsOnTarget(ty, r.height, view.height);
      ScrollMove(IntendedFraction(tx, r.width, view.width), IntendedFraction(ty, r.height, view.height))
  }

  /** Whenever the anchored offsets are within the scroll range, the intended move
      lands the view on them, so the image point under the anchor stays put on both axes. */
  lemma IntendedZoomMoveKeepsAnchor(view: CanvasView, ax: real, ay: real, oldZoom: real, newZoom: real)
    requires oldZoom > 0.0 && newZoom > 0.0 && view.region.Some?
    requires view.region.value.width > view.width && view.region.value.height > view.height
    requires 0.0 <= AnchoredScrollTarget(view.scrollX, ax, newZoom / oldZoom) <= view.region.value.width - view.width
    requires 0.0 <= AnchoredScrollTarget(view.scrollY, ay, newZoom / oldZoom) <= view.region.value.height - view.height
    ensures var m := IntendedZoomMove(view, ax, ay, newZoom / oldZoom);
            && m.x.Some? && m.y.Some?
            && (MovetoEdge(m.x.value, view.region.value.width, view.width) + ax) / newZoom == (view.scrollX + ax) / oldZoom
            && (MovetoEdge(m.y.value, view.region.value.height, view.height) + ay) / newZoom == (view.scrollY + ay) / oldZoom
  {
    var ratio := newZoom / oldZoom;
    var r := view.region.value;
    IntendedFractionLandsOnTarget(AnchoredScrollTarget(view.scrollX, ax, ratio), r.width, view.width);
    IntendedFractionLandsOnTarget(AnchoredScrollTarget(view.scrollY, ay, ratio), r.height, view.height);
    AnchoredZoomKeepsImagePoint(view.scrollX, ax, oldZoom, newZoom);
    AnchoredZoomKeepsImagePoint(view.scrollY, ay, oldZoom, newZoom);
  }

  /** The offset the wheel handler computes: it scales only the cursor's screen
      position, not the scroll position already in effect. */
  function WheelScrollTargetAsWritten(scroll: real, anchor: real, ratio: real): (r: real)
    ensures ratio == 1.0 || anchor == 0.0 ==> r == scroll
    ensures scroll == 0.0 ==> r == AnchoredScrollTarget(scroll, anchor, ratio)
  {
    scroll + (anchor * ratio - anchor)
  }

  /** The wheel handler's fractions: its offsets over the scroll range. */
  function WheelZoomMoveAsWritten(view: CanvasView, ax: real, ay: real, ratio: real): (m: ScrollMove)
    ensures m.x.Some? <==> view.region.Some? && view.region.value.width > view.width
    ensures m.y.Some? <==> view.region.Some? && view.region.value.height > view.height
    ensures m.x.Some? && 0.0 <= WheelScrollTargetAsWritten(view.scrollX, ax, ratio) <= view.region.value.width - view.width ==>
            m.x.value * (view.region.value.width - view.width) == WheelScrollTargetAsWritten(view.scrollX, ax, ratio)
    ensures m.y.Some? && 0.0 <= WheelScrollTargetAsWritten(view.scrollY, ay, ratio) <= view.region.value.height - view.height ==>
            m.y.value * (view.region.value.height - view.height) == WheelScrollTargetAsWritten(view.scrollY, ay, ratio)
    ensures m.x.Some? && WheelScrollTargetAsWritten(view.scrollX, ax, ratio) < 0.0 ==> m.x.value == 0.0
    ensures m.x.Some? && WheelScrollTargetAsWritten(view.scrollX, ax, ratio) > view.region.value.width - view.width ==> m.x.value == 1.0
    ensures m.y.Some? && WheelScrollTargetAsWritten(view.scrollY, ay, ratio) < 0.0 ==> m.y.value == 0.0
    ensures m.y.Some? && WheelScrollTargetAsWritten(view.scrollY, ay, ratio) > view.region.value.height - view.height ==> m.y.value == 1.0
  {
    ScrollMoveFor(WheelScrollTargetAsWritten(view.scrollX, ax, ratio), WheelScrollTargetAsWritten(view.scrollY, ay, ratio), view)
  }

  /** The handler's offset equals the anchored one only when the view is not
      scrolled or the zoom did not change. */
  lemma WheelTargetAgreesOnlyUnscrolled(scroll: real, anchor: real, ratio: real)
    ensures WheelScrollTargetAsWritten(scroll, anchor, ratio) == AnchoredScrollTarget(scroll, anchor, ratio)
            <==> scroll == 0.0 || ratio == 1.0
  {
    assert AnchoredScrollTarget(scroll, anchor, ratio) - WheelScrollTargetAsWritten(scroll, anchor, ratio)
           == scroll * (ratio - 1.0);
  }

  /** Scrolled 100 to the right at zoom 1.0, one wheel notch in at cursor x = 50: the
      handler asks for the offset 110, while the offset that keeps the image point
      under the cursor is 130; at 110 that point would be 800/6 (about 133.3), not 150. */
  lemma WheelAnchorDriftsAsWritten()
    ensures WheelValue(1.0, true) == 1.2
    ensures WheelScrollTargetAsWritten(100.0, 50.0, 1.2) == 110.0
    ensures AnchoredScrollTarget(100.0, 50.0, 1.2) == 130.0
    ensures (110.0 + 50.0) / 1.2 == 800.0 / 6.0 && 800.0 / 6.0 != (100.0 + 50.0) / 1.0
  {
  }
}
