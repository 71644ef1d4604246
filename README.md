# Label point editor — verified model of the editing core

`label_editor.py` is a Tk application. It opens image/annotation pairs whose
annotation file holds a list of shape records, and it shows the point
records on the image. Clicking near a point selects it, and the point's label
can then be rewritten. The editor also zooms (buttons, mouse wheel, fit to
canvas) and pans by dragging.

This project models the editor's state and event handlers as the Dafny
class `Editor.LabelEditor`. Its fields are:
- the loaded records;
- the image size;
- the pair index;
- the zoom factor;
- the selected index;
- the label entry text;
- the rows of the label list and the highlighted row;
- the press/drag state.

The handlers are methods. What the widgets report is passed in as
parameters: the canvas size, the scroll position, the scroll region, the
pointer position and the outcome of loading a pair. What the handlers ask of
the widgets is returned: the scroll fractions to move to and the pan
request.

The logic the handlers share lives in value-level modules:

- `Shapes`: a shape record as a map from key to JSON value, the predicates
  the handlers test, and Python's `str.strip`.
- `Rows`: the scans that turn a shape index into a list row and back, and
  the label list itself.
- `Selection`: the nearest-point search of a click.
- `Viewport`: zoom values and their clamps, fit to canvas, and scroll
  fractions.
- `Gesture`: the drag threshold and the latch that tells a click from a pan.
- `Labels`: the checks of a label update and the write itself.

The class invariant `LabelEditor.Valid` keeps these facts:
- the zoom is positive;
- the pair index is in range;
- the list rows are exactly the listed records;
- the highlighted row exists;
- panning is latched exactly when some motion since the press went beyond
  the threshold.

## Model

| member | source | states |
|---|---|---|
| Shapes.TrimStart | label_editor.py:406 | the result is a suffix of the input; every dropped character is whitespace; the result does not start with whitespace |
| Shapes.TrimEnd | label_editor.py:406 | the result is a prefix of the input; every dropped character is whitespace; the result does not end with whitespace |
| Shapes.Strip | label_editor.py:406 | the stripped label has no whitespace at either end; it is empty exactly when the entry is all whitespace; it holds only characters of the entry |
| Shapes.StripIsSlice | label_editor.py:406 | the stripped label is the contiguous slice of the entry between its leading and its trailing whitespace |
| Rows.CountBounds | label_editor.py:419-425 | the row counter never decreases, grows by at most one per record, and grows past every qualifying record |
| Rows.RowsAreDistinct | label_editor.py:750-757 | two qualifying records never get the same row |
| Rows.RowInRange | label_editor.py:750-757 | a qualifying record's row is below the number of qualifying records |
| Rows.RowOf | label_editor.py:750-757 | the row scan finds a row exactly when the target is a qualifying record; the row found is the count of qualifying records before it |
| Rows.ShapeAtRow | label_editor.py:378-385 | the index scan returns a qualifying record whose row is k, or -1 exactly when there are at most k qualifying records |
| Rows.RowRoundTrip | label_editor.py:378-385 | shape index to row and back gives the same index |
| Rows.ShapeRoundTrip | label_editor.py:750-757 | row to shape index and back gives the same row |
| Rows.ListedUpTo | label_editor.py:290-297 | the list has one row per listed record, in record order; each row carries that record's index, label and first point |
| Rows.ListedRecordHasRow | label_editor.py:290-297 | every listed record appears in the list, at the row equal to the number of listed records before it |
| Rows.ListRows | label_editor.py:284-297 | rebuilding the list yields exactly the listed rows; the list is empty when no records are loaded |
| Rows.CountsAgreeWhenAllListed | label_editor.py:378-385 | when every point-type record has a label and points, counting point-type records gives the same rows as the list |
| Rows.RowMismatchAsWritten | label_editor.py:378-385 | a point-type record without points before a listed one: the listed record shows in row 0, but the point-type scan maps row 0 to record 0 |
| Selection.ToImage | label_editor.py:725-726 | a canvas coordinate divided by a positive zoom; unchanged when the zoom is not positive |
| Selection.ImageViewRoundTrip | label_editor.py:725-726 | scaling an image coordinate by the zoom and converting it back gives the coordinate |
| Selection.NearestIsUnique | label_editor.py:728-742 | at most one index is the nearest point with earliest-wins tie-breaking, or the miss -1 |
| Selection.FindNearest | label_editor.py:728-742 | the scan returns -1 exactly when no selectable record is strictly within 30 units; otherwise the record nearest the click, and the first one among equally near records |
| Viewport.ZoomInValue | label_editor.py:513-516 | the zoom times 1.25 when that is at most 10, and 10 otherwise; it never decreases a zoom within the cap; it applies no lower clamp |
| Viewport.ZoomOutValue | label_editor.py:529-532 | the zoom divided by 1.25 when that is at least 0.1, and 0.1 otherwise; it never increases a zoom above the floor; it applies no upper clamp |
| Viewport.WheelValue | label_editor.py:616-626 | the zoom times (in) or divided by (out) 1.2 when that lies in [0.1, 10], and otherwise the bound it passes |
| Viewport.ApplyZooms | label_editor.py:511-541 | any sequence of button and wheel zooms keeps the zoom positive |
| Viewport.ZoomsStayInRange | label_editor.py:511-541 | starting inside [0.1, 10], no sequence of button or wheel zooms leaves that range |
| Viewport.WheelEndsInRange | label_editor.py:616-626 | after a wheel notch the zoom is in [0.1, 10], however the zoom was reached |
| Viewport.FitZoom | label_editor.py:592-597 | the fitted zoom makes the image fit the canvas on both axes and fill it on one |
| Viewport.FitZoomIsLargest | label_editor.py:592-597 | no larger zoom lets the image fit |
| Viewport.Clamp01 | label_editor.py:578 | max(0, min(1, v)) is in [0, 1], is v inside that range, and is the bound that v passes |
| Viewport.ScrollFraction | label_editor.py:574-582 | a fraction exists exactly when the region is wider than the canvas; it lies in [0, 1]; for a target within the scroll range, fraction × (region − canvas) is the target; it is 0 below the range and 1 above it |
| Viewport.MovetoEdge | label_editor.py:579 | xview_moveto(f) puts the left edge at f × the whole region, held within the scroll range [0, region − canvas] |
| Viewport.AsWrittenFractionOvershoots | label_editor.py:576-578 | with the handlers' fraction, moveto lands on a target within the scroll range only at its two ends, and past the target everywhere between them |
| Viewport.IntendedFraction | label_editor.py:575-583 | the fraction target / region, clamped to [0, 1], exists under the same guard as the handlers' fraction |
| Viewport.IntendedFractionLandsOnTarget | label_editor.py:575-583 | with the intended fraction, moveto lands on the target, or on the nearer end of the scroll range when the target lies outside it |
| Viewport.AnchoredScrollTarget | label_editor.py:553-563 | the offset _center_zoom computes; a ratio of 1 keeps the scroll position; that it keeps the image point under the anchor is proved by AnchoredZoomKeepsImagePoint |
| Viewport.AnchoredZoomKeepsImagePoint | label_editor.py:553-562 | with the offset (scroll + anchor) * ratio - anchor, the image point under the anchor is the same before and after the zoom |
| Viewport.AnchoredZoomMove | label_editor.py:553-584 | _center_zoom's move: a fraction on an axis exactly when the region is larger than the canvas there; each fraction in [0, 1]; fraction × (region − canvas) is the anchored offset when that offset is within range; the fraction is 0 when the offset is below the range and 1 when it is past it |
| Viewport.CenterZoomDriftsAsWritten | label_editor.py:553-584 | region 1200, canvas 500, scrolled to 100, Zoom In from 1 to 1.25: the offset is 187.5 and the fraction 15/56, moveto lands at 2250/7, and the image point at the centre moves from 350 to 3200/7 |
| Viewport.IntendedZoomMove | label_editor.py:553-584 | the anchored offsets with the intended fractions: a fraction on an axis exactly when the region is larger than the canvas there, each in [0, 1]; on each axis moveto then puts the view on the anchored offset when it is within the scroll range, and otherwise on the nearer end of that range |
| Viewport.IntendedZoomMoveKeepsAnchor | label_editor.py:553-584 | when the anchored offsets are within the scroll range, the intended move keeps the image point under the anchor on both axes |
| Viewport.WheelScrollTargetAsWritten | label_editor.py:637-646 | the wheel handler's offset: it keeps the scroll position when the ratio is 1 or the cursor is at the window's left edge, and equals the anchored offset when the view is unscrolled |
| Viewport.WheelZoomMoveAsWritten | label_editor.py:654-671 | the wheel handler's move: a fraction on an axis exactly when the region is larger than the canvas there; on each axis, fraction × (region − canvas) is the handler's offset when that offset is within range; the fraction is 0 when the offset is below the range and 1 when it is past it |
| Viewport.WheelTargetAgreesOnlyUnscrolled | label_editor.py:637-666 | the wheel handler's offset equals the anchored one exactly when the view is unscrolled or the zoom did not change |
| Viewport.WheelAnchorDriftsAsWritten | label_editor.py:637-646 | scrolled to 100 at zoom 1, a notch in at cursor 50: the handler asks for offset 110 where 130 keeps the cursor's image point; at 110 that point is 800/6, not 150 |
| Gesture.LatchedIffSomeMotionBeyond | label_editor.py:685-691 | panning is latched exactly when some motion since the press was more than 5 pixels from it |
| Gesture.LatchStays | label_editor.py:690-691 | once latched, later motions never unlatch before the release |
| Gesture.ClickAndDragExamples | label_editor.py:685-691 | a 1-pixel diagonal jitter stays a click; a 20-pixel drag latches |
| Gesture.Truncate | label_editor.py:703-704 | int() of a coordinate truncates toward zero |
| Labels.CheckUpdate | label_editor.py:398-409 | "no point selected" exactly when the index is negative or no records are loaded; "invalid selection" exactly when the index is past the end; "empty" exactly when the entry is all whitespace; otherwise the new label is the stripped entry |
| Labels.SetLabel | label_editor.py:412 | the selected record's "label" becomes the text; every other record and every other key is kept |
| Labels.SetLabelKeepsGeometry | label_editor.py:412 | writing a label changes no record's point-type, its selectability or its first point, and whether any other record is listed |
| Labels.SetLabelListsSelectable | label_editor.py:412-415 | after the write the edited record is listed exactly when it is selectable |
| Editor.LabelEditor.constructor | label_editor.py:14-41 | no records, no image, zoom 1, nothing selected, not panning |
| Editor.LabelEditor.LoadCurrentPair | label_editor.py:252-282 | nothing changes without a pair; a failed image load changes nothing; a failed annotation load changes only the image; a full load sets the records, zoom 1 and a fresh list with no highlight; the selected index is kept |
| Editor.LabelEditor.SelectFolder | label_editor.py:213-220 | the pair count is set; with no pairs nothing else changes; otherwise the first pair is loaded, with load_current_pair's effect for each outcome, and the selection, the entry and the press state are kept |
| Editor.LabelEditor.PreviousFile | label_editor.py:495-499 | steps back exactly when not at the first pair, and then reloads with load_current_pair's effect for each outcome, keeping the selection, the entry and the press state; otherwise nothing changes |
| Editor.LabelEditor.NextFile | label_editor.py:501-505 | steps forward exactly when not at the last pair, and then reloads with load_current_pair's effect for each outcome, keeping the selection, the entry and the press state; otherwise nothing changes |
| Editor.LabelEditor.EditEntry | label_editor.py:406 | the entry holds what the user typed |
| Editor.LabelEditor.SelectAt | label_editor.py:715-764 | a click selects the nearest record within reach at the zoom-corrected position and shows its label; the highlighted row is the number of point-type records before it, or none when the list has no such row; a miss changes nothing |
| Editor.LabelEditor.SelectAtCorrected | label_editor.py:715-764 | as SelectAt, but the highlighted row is the row that shows the record found, and there is one exactly when the record is listed |
| Editor.LabelEditor.SelectRow | label_editor.py:369-392 | choosing row k highlights it; when there are more than k point-type records, the k-th of them is selected and its label is put in the entry; otherwise the selection and the entry are kept; no selection changes nothing |
| Editor.LabelEditor.SelectRowCorrected | label_editor.py:369-392 | choosing a list row selects the record the row shows, puts its label in the entry and highlights that row |
| Editor.LabelEditor.UpdateLabel | label_editor.py:394-427 | the outcome is the checks' verdict; a rejection changes nothing; an update writes the stripped entry into the selected record only and rebuilds the list; when the record is point-type, the row counted over point-type records is highlighted if the list has it |
| Editor.LabelEditor.WriteLabel | label_editor.py:411-425 | the write at the end of an accepted update: the record's new label, the rebuilt list, and the point-type-count row highlighted when the record is point-type and the row exists |
| Editor.LabelEditor.UpdateLabelCorrected | label_editor.py:394-427 | as UpdateLabel, but the row highlighted is the one showing the edited record, and there is one exactly when the record is selectable |
| Editor.LabelEditor.WriteLabelCorrected | label_editor.py:411-425 | the write with the highlight on the row that shows the edited record |
| Editor.LabelEditor.ZoomIn | label_editor.py:511-525 | the zoom becomes the zoom-in value; when it changed, the fractions handed over are _center_zoom's for the canvas centre |
| Editor.LabelEditor.ZoomOut | label_editor.py:527-541 | the zoom becomes the zoom-out value; when it changed, the fractions handed over are _center_zoom's for the canvas centre |
| Editor.LabelEditor.CenterZoom | label_editor.py:543-584 | the scroll move is the anchored move about the canvas centre; it does not move without a scroll region, nor on an axis where the region is not larger than the canvas |
| Editor.LabelEditor.Wheel | label_editor.py:602-673 | without an image nothing changes; otherwise the zoom becomes the wheel value and, when it changed, the fractions handed over are the handler's offsets over the scroll range |
| Editor.LabelEditor.WheelCorrected | label_editor.py:602-673 | as Wheel, but the move is the anchored offsets with the intended fractions, which keep the cursor's image point |
| Editor.LabelEditor.FitToCanvas | label_editor.py:586-600 | the zoom becomes the fitting zoom exactly when an image is shown and the canvas is larger than 1x1; otherwise it is kept |
| Editor.LabelEditor.Press | label_editor.py:675-681 | a press clears the latch and records the press point in window and canvas coordinates |
| Editor.LabelEditor.Motion | label_editor.py:683-704 | a motion more than 5 pixels from the press latches panning and requests a drag from the press to the current point; a closer motion requests nothing and leaves the latch as it was |
| Editor.LabelEditor.Release | label_editor.py:706-713 | a release selects at the pointer exactly when no motion since the press went beyond the threshold, with SelectAt's selection, entry and highlighted row; it always clears the latch |

## Left out

- Tk widgets, dialogs, the status bar and the file label: the values the handlers read from the widgets are parameters, and what they ask of the widgets is returned.
- The redraw: the image, the point markers and the label text are not modelled. This covers update_display, get_styled_font and every PIL call.
- File access: listing the folder, pairing files by extension, reading images and JSON, and save_changes. The loader's result is a `LoadOutcome` parameter.
- A top-level JSON value that is not an object, and keys other than "shapes": the model keeps only the optional list of records.
- A shape record that is not a JSON object, or a "shapes" value that is not a list: the model's records are always maps in a sequence, so it cannot express these. The source then raises AttributeError or TypeError at its loops over the records and their `shape.get` calls (label_editor.py:292, 317, 381, 421, 734, 752).
- Rows.ListRows: stores each row's index, label and first point, not the formatted caption text with its number widths and one decimal place.
- A non-text "label" value reads as the empty string. The source would show that value itself.
- A "points" value that is not a list of coordinate pairs is not selectable. The source would accept any non-empty value, or fail on it.
- Floating point: zoom factors, coordinates and fractions are exact reals, so rounding in `*= 1.25` and the like is ignored. sqrt comparisons become comparisons of squares, which order distances the same way.
- Truncation of the resized image size is ignored, because the redraw is not modelled.
- Viewport.MovetoEdge: Tk's moveto is taken as fraction × region limited to the scroll range. The canvas border, scroll increments and a region that does not start at 0 are not modelled.
- The selected index lives in a Tk variable that loading does not reset. The model keeps it across loads, as the source does.
- The fitted zoom is not clamped to [0.1, 10], as in the source. So the class invariant keeps only zoom > 0.
- An update does not check that the selected record is point-type, and the source does not either.
- Choosing a list row assumes the row exists, because the list box only reports its own rows.
- Highlighting a row past the end of the list does nothing, as Tk's selection_set does with an index past the last row.

## Findings

| source | as written | input that shows it | evidently intended | confidence | as-written member | corrected member |
|---|---|---|---|---|---|---|
| label_editor.py:378-385 | on_label_select, and the highlight loops at 419-425 and 750-757, count every record with shape_type 'point' as a list row. The list shows only point records that have a label and non-empty points (290-297). | [{shape_type: point}, {shape_type: point, label: "b", points: [[1, 2]]}]: list row 0 shows record 1, but choosing row 0 selects record 0. | count exactly the records the list shows | not executed | Rows.RowMismatchAsWritten | Rows.ListedRecordHasRow |
| label_editor.py:637-646 | the wheel zoom scrolls to x_scroll + (m * ratio - m), where m is the cursor position in the window | scrolled to 100 at zoom 1.0, one notch in at cursor x = 50: the handler asks for offset 110, where 130 keeps the image point under the cursor | (x_scroll + m) * ratio - m, the anchored offset _center_zoom uses | not executed | Viewport.WheelAnchorDriftsAsWritten | Viewport.AnchoredZoomKeepsImagePoint |
| label_editor.py:576-578 | the fractions handed to xview_moveto and yview_moveto divide the offset by region − canvas (also at 581-583, 663-671). moveto multiplies by the whole region. | region 1200, canvas 500, scrolled to 100, Zoom In from 1 to 1.25: the offset is 187.5, but the view lands at 2250/7 (about 321.4) | divide by the whole region, so that the view lands on the offset | not executed | Viewport.CenterZoomDriftsAsWritten | Viewport.IntendedFractionLandsOnTarget |

The class handlers follow the code as written. `SelectAtCorrected`, `SelectRowCorrected`, `UpdateLabelCorrected` and `WriteLabelCorrected` count rows over the listed records instead. `WheelCorrected` moves the view by the anchored offsets, with the intended fractions; `Viewport.IntendedZoomMoveKeepsAnchor` proves that this keeps the cursor's image point.

`Rows.RowOf` and `Rows.ShapeAtRow` take the record filter as a parameter. With `RowFilter.PointType` they are the loops as written.
