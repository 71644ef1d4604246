/*
 * Selecting a point by clicking: the click is taken to image space by
 * dividing by the zoom factor, and the nearest selectable record strictly
 * closer than the click threshold wins. Distances are compared squared,
 * which orders them exactly as the square roots do.
 */
module Selection {
  import opened Shapes

  /** The click threshold, in image-space units. */
  const ClickThreshold: real := 30.0

  /** A canvas coordinate in image space; an unusable zoom leaves it as it is. */
  function ToImage(c: real, zoom: real): (r: real)
    ensures zoom > 0.0 ==> r * zoom == c
    ensures zoom <= 0.0 ==> r == c
  {
    if zoom > 0.0 then c / zoom else c
  }

  /** Rendering scales image space by the zoom; ToImage undoes it. */
  lemma ImageViewRoundTrip(p: real, zoom: real)
    requires zoom > 0.0
    ensures ToImage(p * zoom, zoom) == p
  {
    var r := ToImage(p * zoom, zoom);
    assert (r - p) * zoom == 0.0;
  }

  function SqDist(x: real, y: real, p: Point): real {
    (x - p.x) * (x - p.x) + (y - p.y) * (y - p.y)
  }

  /** Squared distance from the click to a selectable record's first point. */
  function DistTo(shapes: seq<Shape>, x: real, y: real, j: nat): real
    requires j < |shapes| && IsSelectable(shapes[j])
  {
    SqDist(x, y, FirstPoint(shapes[j]))
  }

  /** A record that a click at (x, y) may select. */
  predicate InReach(shapes: seq<Shape>, x: real, y: real, j: nat)
    requires j < |shapes|
  {
    IsSelectable(shapes[j]) && DistTo(shapes, x, y, j) < ClickThreshold * ClickThreshold
  }

  /** best is the selectable record nearest to (x, y) within the threshold, the
      earliest one among equally near records; or -1 when none is within it. */
  predicate IsNearestOrNone(shapes: seq<Shape>, x: real, y: real, best: int) {
    && -1 <= best < |shapes|
    && (best < 0 <==> forall j :: 0 <= j < |shapes| ==> !InReach(shapes, x, y, j))
    && (best >= 0 ==> InReach(shapes, x, y, best))
    && (best >= 0 ==> forall j :: 0 <= j < |shapes| && IsSelectable(shapes[j]) ==>
         DistTo(shapes, x, y, best) <= DistTo(shapes, x, y, j))
    && (best >= 0 ==> forall j :: 0 <= j < best && IsSelectable(shapes[j]) ==>
         DistTo(shapes, x, y, best) < DistTo(shapes, x, y, j))
  }

  /** The description leaves no choice: at most one index satisfies it. */
  lemma NearestIsUnique(shapes: seq<Shape>, x: real, y: real, a: int, b: int)
    requires IsNearestOrNone(shapes, x, y, a) && IsNearestOrNone(shapes, x, y, b)
    ensures a == b
  {
  }

  /** The scan of handle_point_selection: a running minimum over the records.
      Returns -1 when no selectable record is within the threshold. */
  method FindNearest(shapes: seq<Shape>, x: real, y: real) returns (best: int)
    ensures IsNearestOrNone(shapes, x, y, best)
  {
    best := -1;
    var minDist := 0.0;
    var i := 0;
    while i < |shapes|
      invariant 0 <= i <= |shapes|
      invariant -1 <= best < i
      invariant best < 0 <==> forall j :: 0 <= j < i ==> !InReach(shapes, x, y, j)
      invariant best < 0 ==> forall j :: 0 <= j < i && IsSelectable(shapes[j]) ==>
        ClickThreshold * ClickThreshold <= DistTo(shapes, x, y, j)
      invariant best >= 0 ==> InReach(shapes, x, y, best) && minDist == DistTo(shapes, x, y, best)
      invariant best >= 0 ==> forall j :: 0 <= j < i && IsSelectable(shapes[j]) ==>
        minDist <= DistTo(shapes, x, y, j)
      invariant best >= 0 ==> forall j :: 0 <= j < best && IsSelectable(shapes[j]) ==>
        minDist < DistTo(shapes, x, y, j)
    {
      var s := shapes[i];
      if IsPointType(s) && "points" in s {
        if s["points"].Coords? && |s["points"].points| > 0 {
          var d := SqDist(x, y, s["points"].points[0]);
          assert IsSelectable(shapes[i]) && d == DistTo(shapes, x, y, i);
          if (best < 0 || d < minDist) && d < ClickThreshold * ClickThreshold {
            minDist := d;
            best := i;
          }
        }
      }
      assert best >= 0 ==> InReach(shapes, x, y, best);
      assert best < 0 ==> !InReach(shapes, x, y, i);
      i := i + 1;
    }
  }
}
