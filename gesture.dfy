/*
 * Telling a click from a drag. A press records where it happened; a
 * motion farther than the drag threshold from that point latches
 * panning; a release selects only if panning never latched.
 */
module Gesture {

  /** A pointer position in window pixels, as the event reports it. */
  datatype ScreenPoint = ScreenPoint(x: int, y: int)

  /** The drag threshold, in window pixels. */
  const DragThreshold: int := 5

  /** The motion to p is farther than the drag threshold from the press at start
      (squared, which orders distances as their square roots do). */
  predicate BeyondThreshold(start: ScreenPoint, p: ScreenPoint) {
    PressSqDist(start, p) > DragThreshold * DragThreshold
  }

  function PressSqDist(a: ScreenPoint, b: ScreenPoint): int {
    (b.x - a.x) * (b.x - a.x) + (b.y - a.y) * (b.y - a.y)
  }

  /** Whether panning has latched after the motions `moves` since the press at start:
      each motion sets the latch when it is beyond the threshold, none clears it. */
  function Latched(start: ScreenPoint, moves: seq<ScreenPoint>): bool {
    if moves == [] then false
    else Latched(start, moves[..|moves| - 1]) || BeyondThreshold(start, moves[|moves| - 1])
  }

  /** Panning has latched exactly when some motion went beyond the threshold. */
  lemma {:induction false} LatchedIffSomeMotionBeyond(start: ScreenPoint, moves: seq<ScreenPoint>)
    ensures Latched(start, moves) <==> exists j :: 0 <= j < |moves| && BeyondThreshold(start, moves[j])
  {
    if moves != [] {
      var init := moves[..|moves| - 1];
      LatchedIffSomeMotionBeyond(start, init);
      if Latched(start, init) {
        var j :| 0 <= j < |init| && BeyondThreshold(start, init[j]);
        assert moves[j] == init[j];
      } else {
        assert forall j :: 0 <= j < |init| ==> moves[j] == init[j];
      }
    }
  }

  /** Once latched, later motions, however close to the press, do not unlatch. */
  lemma {:induction false} LatchStays(start: ScreenPoint, moves: seq<ScreenPoint>, more: seq<ScreenPoint>)
    requires Latched(start, moves)
    ensures Latched(start, moves + more)
    decreases |more|
  {
    if more == [] {
      assert moves + more == moves;
    } else {
      var all := moves + more;
      var shorter := more[..|more| - 1];
      assert all[..|all| - 1] == moves + shorter;
      LatchStays(start, moves, shorter);
      assert Latched(start, all[..|all| - 1]);
    }
  }

  /** A click: a press at (10, 10) and a motion to (11, 11) do not latch;
      a drag: a motion to (30, 10) does. */
  lemma ClickAndDragExamples()
    ensures !Latched(ScreenPoint(10, 10), [ScreenPoint(11, 11)])
    ensures Latched(ScreenPoint(10, 10), [ScreenPoint(30, 10)])
  {
    assert [ScreenPoint(11, 11)][..0] == [];
    assert [ScreenPoint(30, 10)][..0] == [];
  }

  /** Python's int() of a float: truncation toward zero. */
  function Truncate(r: real): (n: int)
    ensures 0.0 <= r ==> n as real <= r < n as real + 1.0
    ensures r < 0.0 ==> n as real - 1.0 < r <= n as real
  {
    if r >= 0.0 then r.Floor else -((-r).Floor)
  }

  /** One pan request to the canvas: scan_mark at the press point, then
      scan_dragto the current point, both truncated to integers. */
  datatype PanStep = PanStep(markX: int, markY: int, dragX: int, dragY: int)
}
