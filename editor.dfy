/*
 * The editor's state and its event handlers, with the widgets taken away:
 * what the canvas, the list box and the entry field report or display is
 * passed in or kept as a plain field.
 */
module Editor {
  import opened Shapes
  import opened Rows
  import opened Selection
  import opened Viewport
  import opened Gesture
  import opened Labels

  type Pixels = n: int | n > 0 witness 1

  datatype ImageSize = ImageSize(width: Pixels, height: Pixels)

  /** What loading the current image/annotation pair yields: the image could not
      be opened; the image opened but the annotation file could not be read; or
      both loaded (shapes is None when the file has no "shapes" list). */
  datatype LoadOutcome =
    | ImageUnreadable
    | AnnotationUnreadable(image: ImageSize)
    | Loaded(image: ImageSize, shapes: Option<seq<Shape>>)

  class LabelEditor {
    /** current_json_data['shapes'], or None when no annotation with shapes is loaded. */
    var shapes: Option<seq<Shape>>
    var image: Option<ImageSize>
    /** The number of image/annotation pairs found and the index of the one shown. */
    var pairCount: nat
    var pairIndex: nat
    var zoom: real
    /** selected_point_index; -1 when nothing is selected. */
    var selected: int
    /** The text of the label entry field. */
    var entry: string
    /** The rows of the label list, and the row highlighted in it. */
    var rows: seq<ListEntry>
    var highlighted: Option<nat>
    /** The press/drag state. */
    var isPanning: bool
    var clickStart: ScreenPoint
    var panStartX: real
    var panStartY: real
    /** The motions reported since the last press. */
    ghost var moves: seq<ScreenPoint>

    ghost predicate Valid()
      reads this
    {
      && zoom > 0.0
      && (pairCount > 0 ==> pairIndex < pairCount)
      && rows == ListFor(shapes)
      && (highlighted.Some? ==> highlighted.value < |rows|)
      && isPanning == Latched(clickStart, moves)
    }

    constructor ()
      ensures Valid()
      ensures shapes == None && image == None && pairCount == 0 && pairIndex == 0
      ensures zoom == 1.0 && selected == -1 && entry == [] && rows == [] && highlighted == None
      ensures !isPanning && clickStart == ScreenPoint(0, 0) && moves == []
    {
      shapes := None;
      image := None;
      pairCount := 0;
      pairIndex := 0;
      zoom := 1.0;
      selected := -1;
      entry := [];
      rows := [];
      highlighted := None;
      isPanning := false;
      clickStart := ScreenPoint(0, 0);
      panStartX := 0.0;
      panStartY := 0.0;
      moves := [];
    }

    /** load_current_pair, given what the loader produced for the current pair. */
    method LoadCurrentPair(outcome: LoadOutcome)
      requires Valid()
      modifies this
      ensures Valid()
      ensures pairCount == old(pairCount) && pairIndex == old(pairIndex)
      ensures selected == old(selected) && entry == old(entry)
      ensures isPanning == old(isPanning) && clickStart == old(clickStart) && moves == old(moves)
      ensures panStartX == old(panStartX) && panStartY == old(panStartY)
      ensures old(pairCount) == 0 || outcome.ImageUnreadable? ==>
        image == old(image) && shapes == old(shapes) && zoom == old(zoom)
        && rows == old(rows) && highlighted == old(highlighted)
      ensures old(pairCount) > 0 && outcome.AnnotationUnreadable? ==>
        image == Some(outcome.image) && shapes == old(shapes) && zoom == old(zoom)
        && rows == old(rows) && highlighted == old(highlighted)
      ensures old(pairCount) > 0 && outcome.Loaded? ==>
        image == Some(outcome.image) && shapes == outcome.shapes && zoom == 1.0
        && rows == ListFor(outcome.shapes) && highlighted == None
    {
      if pairCount == 0 || pairIndex >= pairCount {
        return;
      }
      match outcome
      case ImageUnreadable =>
      case AnnotationUnreadable(img) =>
        image := Some(img);
      case Loaded(img, s) =>
        image := Some(img);
        shapes := s;
        zoom := 1.0;
        rows := ListRows(shapes);
        highlighted := None;
    }

    /** select_folder, given the number of pairs found and the load of the first one. */
    method SelectFolder(count: nat, outcome: LoadOutcome)
      requires Valid()
      modifies this
      ensures Valid()
      ensures pairCount == count
      ensures pairIndex == if count > 0 then 0 else old(pairIndex)
      ensures count == 0 ==>
        && shapes == old(shapes) && image == old(image) && zoom == old(zoom)
        && selected == old(selected) && entry == old(entry)
        && rows == old(rows) && highlighted == old(highlighted)
        && isPanning == old(isPanning) && clickStart == old(clickStart) && moves == old(moves)
        && panStartX == old(panStartX) && panStartY == old(panStartY)
      ensures count > 0 ==>
        && selected == old(selected) && entry == old(entry)
        && isPanning == old(isPanning) && clickStart == old(clickStart) && moves == old(moves)
        && panStartX == old(panStartX) && panStartY == old(panStartY)
      ensures count > 0 && outcome.ImageUnreadable? ==>
        image == old(image) && shapes == old(shapes) && zoom == old(zoom)
        && rows == old(rows) && highlighted == old(highlighted)
      ensures count > 0 && outcome.AnnotationUnreadable? ==>
        image == Some(outcome.image) && shapes == old(shapes) && zoom == old(zoom)
        && rows == old(rows) && highlighted == old(highlighted)
      ensures count > 0 && outcome.Loaded? ==>
        image == Some(outcome.image) && shapes == outcome.shapes && zoom == 1.0
        && rows == ListFor(outcome.shapes) && highlighted == None
    {
      pairCount := count;
      if count > 0 {
        pairIndex := 0;
        LoadCurrentPair(outcome);
      }
    }

    /** previous_file: step back unless already at the first pair. */
    method PreviousFile(outcome: LoadOutcome) returns (moved: bool)
      requires Valid()
      modifies this
      ensures Valid()
      ensures moved <==> old(pairCount) > 0 && old(pairIndex) > 0
      ensures !moved ==> unchanged(this)
      ensures pairCount == old(pairCount)
      ensures pairIndex == if moved then old(pairIndex) - 1 else old(pairIndex)
      ensures moved ==>
        && selected == old(selected) && entry == old(entry)
        && isPanning == old(isPanning) && clickStart == old(clickStart) && moves == old(moves)
        && panStartX == old(panStartX) && panStartY == old(panStartY)
      ensures moved && outcome.ImageUnreadable? ==>
        image == old(image) && shapes == old(shapes) && zoom == old(zoom)
        && rows == old(rows) && highlighted == old(highlighted)
      ensures moved && outcome.AnnotationUnreadable? ==>
        image == Some(outcome.image) && shapes == old(shapes) && zoom == old(zoom)
        && rows == old(rows) && highlighted == old(highlighted)
      ensures moved && outcome.Loaded? ==>
        image == Some(outcome.image) && shapes == outcome.shapes && zoom == 1.0
        && rows == ListFor(outcome.shapes) && highlighted == None
    {
      moved := pairCount > 0 && pairIndex > 0;
      if moved {
        pairIndex := pairIndex - 1;
        LoadCurrentPair(outcome);
      }
    }

    /** next_file: step forward unless already at the last pair. */
    method NextFile(outcome: LoadOutcome) returns (moved: bool)
      requires Valid()
      modifies this
      ensures Valid()
      ensures moved <==> old(pairCount) > 0 && old(pairIndex) < old(pairCount) - 1
      ensures !moved ==> unchanged(this)
      ensures pairCount == old(pairCount)
      ensures pairIndex == if moved then old(pairIndex) + 1 else old(pairIndex)
      ensures moved ==>
        && selected == old(selected) && entry == old(entry)
        && isPanning == old(isPanning) && clickStart == old(clickStart) && moves == old(moves)
        && panStartX == old(panStartX) && panStartY == old(panStartY)
      ensures moved && outcome.ImageUnreadable? ==>
        image == old(image) && shapes == old(shapes) && zoom == old(zoom)
        && rows == old(rows) && highlighted == old(highlighted)
      ensures moved && outcome.AnnotationUnreadable? ==>
        image == Some(outcome.image) && shapes == old(shapes) && zoom == old(zoom)
        && rows == old(rows) && highlighted == old(highlighted)
      ensures moved && outcome.Loaded? ==>
        image == Some(outcome.image) && shapes == outcome.shapes && zoom == 1.0
        && rows == ListFor(outcome.shapes) && highlighted == None
    {
      moved := pairCount > 0 && pairIndex < pairCount - 1;
      if moved {
        pairIndex := pairIndex + 1;
        LoadCurrentPair(outcome);
      }
    }

    /** The user types into the label entry. */
    method EditEntry(text: string)
      modifies this`entry
      ensures entry == text
    {
      entry := text;
    }

    /** current_json_data.get('shapes', []) */
    function Records(): seq<Shape>
      reads this
    {
      if shapes.Some? then shapes.value else []
    }

    /** handle_point_selection for a click at canvas position (canvasX, canvasY).
        Returns the record found, or -1; on a miss nothing changes. The row to
        highlight is counted over the point-type records, as the handler counts it;
        the list box ignores a row past its end. */
    method SelectAt(canvasX: real, canvasY: real) returns (found: int)
      requires Valid()
      modifies this`selected, this`entry, this`highlighted
      ensures Valid()
      ensures shapes.None? ==> found == -1
      ensures shapes.Some? ==> IsNearestOrNone(shapes.value, ToImage(canvasX, zoom), ToImage(canvasY, zoom), found)
      ensures found < 0 ==> selected == old(selected) && entry == old(entry) && highlighted == old(highlighted)
      ensures found >= 0 ==> shapes.Some? && selected == found && entry == LabelOf(shapes.value[found])
      ensures found >= 0 ==>
        var row := Count(shapes.value, PointType, found);
        highlighted == if row < |rows| then Some(row) else None
    {
      found := -1;
      if shapes.None? {
        return;
      }
      var s := shapes.value;
      var x := ToImage(canvasX, zoom);
      var y := ToImage(canvasY, zoom);
      found := FindNearest(s, x, y);
      if found >= 0 {
        selected := found;
        var row := RowOf(s, PointType, found);
        highlighted := if row.Some? && row.value < |rows| then row else None;
        entry := LabelOf(s[found]);
      }
    }

    /** SelectAt with the row counted over the listed records, so the row
        highlighted is the one that shows the record found. */
    method SelectAtCorrected(canvasX: real, canvasY: real) returns (found: int)
      requires Valid()
      modifies this`selected, this`entry, this`highlighted
      ensures Valid()
      ensures shapes.None? ==> found == -1
      ensures shapes.Some? ==> IsNearestOrNone(shapes.value, ToImage(canvasX, zoom), ToImage(canvasY, zoom), found)
      ensures found < 0 ==> selected == old(selected) && entry == old(entry) && highlighted == old(highlighted)
      ensures found >= 0 ==> shapes.Some? && selected == found && entry == LabelOf(shapes.value[found])
      ensures found >= 0 ==> (highlighted.Some? <==> IsListed(shapes.value[found]))
      ensures found >= 0 && highlighted.Some? ==> rows[highlighted.value].index == found
    {
      found := -1;
      if shapes.None? {
        return;
      }
      var s := shapes.value;
      var x := ToImage(canvasX, zoom);
      var y := ToImage(canvasY, zoom);
      found := FindNearest(s, x, y);
      if found >= 0 {
        selected := found;
        highlighted := RowOf(s, Listed, found);
        if highlighted.Some? {
          ListedRecordHasRow(s, found);
        }
        entry := LabelOf(s[found]);
      }
    }

    /** on_label_select for the list box selection (None when it is empty). The
        list box highlights the row chosen; the handler maps row k to the k-th
        point-type record, and does nothing more when there is none. */
    method SelectRow(selection: Option<nat>)
      requires Valid()
      requires selection.Some? ==> selection.value < |rows|
      modifies this`selected, this`entry, this`highlighted
      ensures Valid()
      ensures selection.None? ==> selected == old(selected) && entry == old(entry) && highlighted == old(highlighted)
      ensures selection.Some? ==> highlighted == selection
      ensures selection.Some? && Count(Records(), PointType, |Records()|) <= selection.value ==>
        selected == old(selected) && entry == old(entry)
      ensures selection.Some? && selection.value < Count(Records(), PointType, |Records()|) ==>
        && 0 <= selected < |Records()| && IsPointType(Records()[selected])
        && Count(Records(), PointType, selected) == selection.value
        && entry == LabelOf(Records()[selected])
    {
      if selection.None? {
        return;
      }
      highlighted := selection;
      var s := Records();
      var index := ShapeAtRow(s, PointType, selection.value);
      if index >= 0 {
        selected := index;
        entry := LabelOf(s[index]);
      }
    }

    /** SelectRow with the row looked up among the listed records, so the record
        selected is the one the row shows. */
    method SelectRowCorrected(selection: Option<nat>)
      requires Valid()
      requires selection.Some? ==> selection.value < |rows|
      modifies this`selected, this`entry, this`highlighted
      ensures Valid()
      ensures selection.None? ==> selected == old(selected) && entry == old(entry) && highlighted == old(highlighted)
      ensures selection.Some? ==>
        var row := rows[selection.value];
        selected == row.index && entry == row.caption && highlighted == selection
    {
      if selection.None? {
        return;
      }
      var k := selection.value;
      var s := Records();
      var index := ShapeAtRow(s, Listed, k);
      if index >= 0 {
        selected := index;
        entry := LabelOf(s[index]);
        highlighted := Some(k);
        RowsAreDistinct(s, Listed, index, rows[k].index);
      }
    }

    /** update_label: check, then write the stripped entry into the selected record. */
    method UpdateLabel() returns (outcome: Outcome)
      requires Valid()
      modifies this`shapes, this`rows, this`highlighted
      ensures Valid()
      ensures outcome == CheckUpdate(old(shapes), selected, entry)
      ensures outcome.Rejected? ==> shapes == old(shapes) && rows == old(rows) && highlighted == old(highlighted)
      ensures outcome.Updated? ==>
        && 0 <= selected < |old(shapes).value|
        && shapes == Some(SetLabel(old(shapes).value, selected, outcome.newLabel))
      ensures outcome.Updated? ==>
        var row := Count(shapes.value, PointType, selected);
        highlighted == if IsPointType(old(shapes).value[selected]) && row < |rows| then Some(row) else None
    {
      outcome := CheckUpdate(shapes, selected, entry);
      if outcome.Updated? {
        WriteLabel(outcome.newLabel);
      }
    }

    /** The write at the end of update_label: the label of the selected record
        becomes text and the list is rebuilt (which clears its highlight); then
        the row counted over the point-type records is highlighted, when the
        record is point-type and the list has that row. */
    method WriteLabel(text: string)
      requires Valid()
      requires shapes.Some? && 0 <= selected < |shapes.value|
      modifies this`shapes, this`rows, this`highlighted
      ensures Valid()
      ensures shapes == Some(SetLabel(old(shapes).value, selected, text))
      ensures
        var row := Count(shapes.value, PointType, selected);
        highlighted == if IsPointType(old(shapes).value[selected]) && row < |rows| then Some(row) else None
    {
      var s := SetLabel(shapes.value, selected, text);
      assert IsPointType(s[selected]) <==> IsPointType(shapes.value[selected]) by {
        assert "shape_type" != "label";
        assert ("shape_type" in s[selected]) == ("shape_type" in shapes.value[selected]);
      }
      shapes := Some(s);
      rows := ListRows(shapes);
      var row := RowOf(s, PointType, selected);
      highlighted := if row.Some? && row.value < |rows| then row else None;
    }

    /** UpdateLabel with the highlight counted over the listed records. */
    method UpdateLabelCorrected() returns (outcome: Outcome)
      requires Valid()
      modifies this`shapes, this`rows, this`highlighted
      ensures Valid()
      ensures outcome == CheckUpdate(old(shapes), selected, entry)
      ensures outcome.Rejected? ==> shapes == old(shapes) && rows == old(rows) && highlighted == old(highlighted)
      ensures outcome.Updated? ==>
        && 0 <= selected < |old(shapes).value|
        && shapes == Some(SetLabel(old(shapes).value, selected, outcome.newLabel))
      ensures outcome.Updated? ==> (highlighted.Some? <==> IsSelectable(old(shapes).value[selected]))
      ensures outcome.Updated? && highlighted.Some? ==> rows[highlighted.value].index == selected
    {
      outcome := CheckUpdate(shapes, selected, entry);
      if outcome.Updated? {
        WriteLabelCorrected(outcome.newLabel);
      }
    }

    /** WriteLabel highlighting the row that shows the edited record, which it has
        exactly when the record is selectable. */
    method WriteLabelCorrected(text: string)
      requires Valid()
      requires shapes.Some? && 0 <= selected < |shapes.value|
      modifies this`shapes, this`rows, this`highlighted
      ensures Valid()
      ensures shapes == Some(SetLabel(old(shapes).value, selected, text))
      ensures highlighted.Some? <==> IsSelectable(old(shapes).value[selected])
      ensures highlighted.Some? ==> rows[highlighted.value].index == selected
    {
      var s := SetLabel(shapes.value, selected, text);
      SetLabelListsSelectable(shapes.value, selected, text);
      shapes := Some(s);
      rows := ListRows(shapes);
      assert |rows| == Count(s, Listed, |s|);
      highlighted := RowOf(s, Listed, selected);
      if highlighted.Some? {
        ListedRecordHasRow(s, selected);
      }
    }

    /** zoom_in: one button step in, re-centred on the middle of the canvas. The
        view's scroll position is the one _center_zoom reads after the redraw. */
    method ZoomIn(view: CanvasView) returns (move: ScrollMove)
      requires Valid()
      modifies this`zoom
      ensures Valid()
      ensures zoom == ZoomInValue(old(zoom)) && zoom <= MaxZoom
      ensures move == if zoom != old(zoom)
        then AnchoredZoomMove(view, view.width / 2.0, view.height / 2.0, zoom / old(zoom)) else NoMove
    {
      var before := zoom;
      zoom := ZoomInValue(zoom);
      var ratio := zoom / before;
      move := NoMove;
      if ratio != 1.0 {
        move := CenterZoom(view, ratio);
      }
    }

    /** zoom_out: one button step out, re-centred on the middle of the canvas. The
        view's scroll position is the one _center_zoom reads after the redraw. */
    method ZoomOut(view: CanvasView) returns (move: ScrollMove)
      requires Valid()
      modifies this`zoom
      ensures Valid()
      ensures zoom == ZoomOutValue(old(zoom)) && MinZoom <= zoom
      ensures move == if zoom != old(zoom)
        then AnchoredZoomMove(view, view.width / 2.0, view.height / 2.0, zoom / old(zoom)) else NoMove
    {
      var before := zoom;
      zoom := ZoomOutValue(zoom);
      var ratio := zoom / before;
      move := NoMove;
      if ratio != 1.0 {
        move := CenterZoom(view, ratio);
      }
    }

    /** _center_zoom: keep the content at the middle of the canvas in place. */
    method CenterZoom(view: CanvasView, ratio: real) returns (move: ScrollMove)
      ensures move == AnchoredZoomMove(view, view.width / 2.0, view.height / 2.0, ratio)
    {
      var centerX := view.scrollX + view.width / 2.0;
      var centerY := view.scrollY + view.height / 2.0;
      var scrollX := centerX * ratio - view.width / 2.0;
      var scrollY := centerY * ratio - view.height / 2.0;
      assert scrollX == AnchoredScrollTarget(view.scrollX, view.width / 2.0, ratio);
      assert scrollY == AnchoredScrollTarget(view.scrollY, view.height / 2.0, ratio);
      move := NoMove;
      if view.region.Some? {
        var region := view.region.value;
        var fx := ScrollFraction(scrollX, region.width, view.width);
        var fy := ScrollFraction(scrollY, region.height, view.height);
        move := ScrollMove(fx, fy);
      }
    }

    /** zoom (mouse wheel) at the cursor: the handler's offset is the scroll position
        plus the shift of the cursor's screen position under the zoom. The view's
        scroll position is the one read before the redraw; its region is the one
        there after it. */
    method Wheel(zoomIn: bool, cursor: ScreenPoint, view: CanvasView) returns (move: ScrollMove)
      requires Valid()
      modifies this`zoom
      ensures Valid()
      ensures image.None? ==> zoom == old(zoom) && move == NoMove
      ensures image.Some? ==> zoom == WheelValue(old(zoom), zoomIn) && MinZoom <= zoom <= MaxZoom
      ensures image.Some? ==> move == if zoom != old(zoom)
        then WheelZoomMoveAsWritten(view, cursor.x as real, cursor.y as real, zoom / old(zoom)) else NoMove
    {
      move := NoMove;
      if image.None? {
        return;
      }
      var before := zoom;
      zoom := WheelValue(zoom, zoomIn);
      var ratio := zoom / before;
      if ratio != 1.0 {
        var mouseX := cursor.x as real;
        var mouseY := cursor.y as real;
        var scrollX := mouseX * ratio - mouseX;
        var scrollY := mouseY * ratio - mouseY;
        assert view.scrollX + scrollX == WheelScrollTargetAsWritten(view.scrollX, mouseX, ratio);
        assert view.scrollY + scrollY == WheelScrollTargetAsWritten(view.scrollY, mouseY, ratio);
        move := ScrollMoveFor(view.scrollX + scrollX, view.scrollY + scrollY, view);
      }
    }

    /** Wheel with the anchored offsets and the intended fractions, so that the
        cursor stays over the same image point. The view is read as in Wheel: the
        scroll position before the redraw, the region after it. */
    method WheelCorrected(zoomIn: bool, cursor: ScreenPoint, view: CanvasView) returns (move: ScrollMove)
      requires Valid()
      modifies this`zoom
      ensures Valid()
      ensures image.None? ==> zoom == old(zoom) && move == NoMove
      ensures image.Some? ==> zoom == WheelValue(old(zoom), zoomIn) && MinZoom <= zoom <= MaxZoom
      ensures image.Some? ==> move == if zoom != old(zoom)
        then IntendedZoomMove(view, cursor.x as real, cursor.y as real, zoom / old(zoom)) else NoMove
    {
      move := NoMove;
      if image.None? {
        return;
      }
      var before := zoom;
      zoom := WheelValue(zoom, zoomIn);
      var ratio := zoom / before;
      if ratio != 1.0 {
        move := IntendedZoomMove(view, cursor.x as real, cursor.y as real, ratio);
      }
    }

    /** fit_to_canvas: only when an image is shown and the canvas is larger than 1x1. */
    method FitToCanvas(canvasWidth: real, canvasHeight: real) returns (fitted: bool)
      requires Valid()
      modifies this`zoom
      ensures Valid()
      ensures fitted <==> image.Some? && canvasWidth > 1.0 && canvasHeight > 1.0
      ensures fitted ==> zoom == FitZoom(canvasWidth, canvasHeight, image.value.width, image.value.height)
      ensures !fitted ==> zoom == old(zoom)
    {
      fitted := false;
      if image.None? {
        return;
      }
      if canvasWidth > 1.0 && canvasHeight > 1.0 {
        zoom := FitZoom(canvasWidth, canvasHeight, image.value.width, image.value.height);
        fitted := true;
      }
    }

    /** start_pan_or_select: a press at window position p, canvas position (canvasX, canvasY). */
    method Press(p: ScreenPoint, canvasX: real, canvasY: real)
      requires Valid()
      modifies this`isPanning, this`clickStart, this`panStartX, this`panStartY, this`moves
      ensures Valid()
      ensures !isPanning && clickStart == p && moves == []
      ensures panStartX == canvasX && panStartY == canvasY
    {
      isPanning := false;
      clickStart := p;
      panStartX := canvasX;
      panStartY := canvasY;
      moves := [];
    }

    /** do_pan_or_drag: a motion beyond the threshold latches panning and asks the
        canvas to drag from the press point to the current one. */
    method Motion(p: ScreenPoint, canvasX: real, canvasY: real) returns (pan: Option<PanStep>)
      requires Valid()
      modifies this`isPanning, this`moves
      ensures Valid()
      ensures moves == old(moves) + [p]
      ensures isPanning == (old(isPanning) || BeyondThreshold(clickStart, p))
      ensures old(isPanning) ==> isPanning
      ensures pan.Some? <==> BeyondThreshold(clickStart, p)
      ensures pan.Some? ==> pan.value == PanStep(Truncate(panStartX), Truncate(panStartY), Truncate(canvasX), Truncate(canvasY))
    {
      pan := None;
      var dx := p.x - clickStart.x;
      var dy := p.y - clickStart.y;
      if dx * dx + dy * dy > DragThreshold * DragThreshold {
        isPanning := true;
        pan := Some(PanStep(Truncate(panStartX), Truncate(panStartY), Truncate(canvasX), Truncate(canvasY)));
      }
      moves := moves + [p];
      assert moves[..|moves| - 1] == old(moves);
    }

    /** end_pan_or_select: a release selects at (canvasX, canvasY) exactly when no
        motion since the press went beyond the threshold; panning is then reset. */
    method Release(canvasX: real, canvasY: real) returns (clicked: bool, found: int)
      requires Valid()
      modifies this`isPanning, this`moves, this`selected, this`entry, this`highlighted
      ensures Valid()
      ensures clicked <==> forall j :: 0 <= j < |old(moves)| ==> !BeyondThreshold(clickStart, old(moves)[j])
      ensures !isPanning && moves == []
      ensures !clicked ==> found == -1
      ensures found < 0 ==> selected == old(selected) && entry == old(entry) && highlighted == old(highlighted)
      ensures clicked && shapes.Some? ==>
        IsNearestOrNone(shapes.value, ToImage(canvasX, zoom), ToImage(canvasY, zoom), found)
      ensures found >= 0 ==> shapes.Some? && selected == found && entry == LabelOf(shapes.value[found])
      ensures found >= 0 ==>
        var row := Count(shapes.value, PointType, found);
        highlighted == if row < |rows| then Some(row) else None
    {
      LatchedIffSomeMotionBeyond(clickStart, moves);
      clicked := !isPanning;
      found := -1;
      if clicked {
        found := SelectAt(canvasX, canvasY);
      }
      isPanning := false;
      moves := [];
    }
  }
}
