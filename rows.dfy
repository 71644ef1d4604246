/*
 * The label list shows some of the shape records, one per row. These are
 * the scans that turn a shape index into a list row and back: a row is the
 * number of qualifying records before a shape, and a row k is found again
 * by scanning for the k-th qualifying record.
 */
module Rows {
  import opened Shapes

  /** Which records a scan counts: the record kind the row loops test
      (shape_type == 'point'), or exactly the records the list shows. */
  datatype RowFilter = PointType | Listed

  predicate Passes(f: RowFilter, s: Shape) {
    match f
    case PointType => IsPointType(s)
    case Listed => IsListed(s)
  }

  /** The number of records among shapes[..i] that pass f. */
  function Count(shapes: seq<Shape>, f: RowFilter, i: nat): nat
    requires i <= |shapes|
  {
    if i == 0 then 0 else Count(shapes, f, i - 1) + (if Passes(f, shapes[i - 1]) then 1 else 0)
  }

  lemma {:induction false} CountBounds(shapes: seq<Shape>, f: RowFilter, i: nat, j: nat)
    requires i <= j <= |shapes|
    ensures Count(shapes, f, i) <= Count(shapes, f, j) <= Count(shapes, f, i) + (j - i)
    ensures i < j && Passes(f, shapes[i]) ==> Count(shapes, f, i) < Count(shapes, f, j)
    decreases j
  {
    if i < j {
      CountBounds(shapes, f, i, j - 1);
    }
  }

  /** Two qualifying records never share a row: the row determines the record. */
  lemma RowsAreDistinct(shapes: seq<Shape>, f: RowFilter, i: nat, j: nat)
    requires i < |shapes| && j < |shapes|
    requires Passes(f, shapes[i]) && Passes(f, shapes[j])
    requires Count(shapes, f, i) == Count(shapes, f, j)
    ensures i == j
  {
    if i < j {
      CountBounds(shapes, f, i, j);
    } else if j < i {
      CountBounds(shapes, f, j, i);
    }
  }

  /** The row of a qualifying record exists in the list. */
  lemma RowInRange(shapes: seq<Shape>, f: RowFilter, i: nat)
    requires i < |shapes| && Passes(f, shapes[i])
    ensures Count(shapes, f, i) < Count(shapes, f, |shapes|)
  {
    CountBounds(shapes, f, i, |shapes|);
  }

  /** Shape index -> list row: the counter loop that ends when it reaches target.
      None when the record at target does not qualify, as the loop then selects nothing. */
  method RowOf(shapes: seq<Shape>, f: RowFilter, target: nat) returns (row: Option<nat>)
    ensures row.Some? <==> target < |shapes| && Passes(f, shapes[target])
    ensures row.Some? ==> row.value == Count(shapes, f, target) < Count(shapes, f, |shapes|)
  {
    var index := 0;
    var i := 0;
    row := None;
    while i < |shapes|
      invariant 0 <= i <= |shapes|
      invariant index == Count(shapes, f, i)
      invariant i <= target
      invariant row == None
    {
      if Passes(f, shapes[i]) {
        if i == target {
          row := Some(index);
          RowInRange(shapes, f, i);
          return;
        }
        index := index + 1;
      } else if i == target {
        return;
      }
      i := i + 1;
    }
  }

  /** List row -> shape index: scan for the k-th qualifying record, -1 when there is none. */
  method ShapeAtRow(shapes: seq<Shape>, f: RowFilter, k: nat) returns (index: int)
    ensures -1 <= index < |shapes|
    ensures index >= 0 ==> Passes(f, shapes[index]) && Count(shapes, f, index) == k
    ensures index < 0 <==> Count(shapes, f, |shapes|) <= k
  {
    var seen := 0;
    index := -1;
    var i := 0;
    while i < |shapes|
      invariant 0 <= i <= |shapes|
      invariant seen == Count(shapes, f, i) <= k
      invariant index == -1
    {
      if Passes(f, shapes[i]) {
        if seen == k {
          index := i;
          RowInRange(shapes, f, i);
          return;
        }
        seen := seen + 1;
      }
      i := i + 1;
    }
  }

  /** The two scans are inverse: the row of a qualifying record leads back to it. */
  method RowRoundTrip(shapes: seq<Shape>, f: RowFilter, i: nat) returns (row: nat, back: int)
    requires i < |shapes| && Passes(f, shapes[i])
    ensures row < Count(shapes, f, |shapes|) && back == i
  {
    var r := RowOf(shapes, f, i);
    row := r.value;
    back := ShapeAtRow(shapes, f, row);
    RowsAreDistinct(shapes, f, i, back);
  }

  /** ... and every row of the list leads to a record whose row it is. */
  method ShapeRoundTrip(shapes: seq<Shape>, f: RowFilter, k: nat) returns (index: int, row: Option<nat>)
    requires k < Count(shapes, f, |shapes|)
    ensures 0 <= index < |shapes| && row == Some(k)
  {
    index := ShapeAtRow(shapes, f, k);
    row := RowOf(shapes, f, index);
  }

  /** One row of the label list: the shape index, its label and its first point. */
  datatype ListEntry = ListEntry(index: nat, caption: string, at: Point)

  /** The rows the list shows for the records shapes[..i], in order. */
  function ListedUpTo(shapes: seq<Shape>, i: nat): (rows: seq<ListEntry>)
    requires i <= |shapes|
    ensures |rows| == Count(shapes, Listed, i)
    ensures forall k :: 0 <= k < |rows| ==>
      rows[k].index < i && IsListed(shapes[rows[k].index])
      && Count(shapes, Listed, rows[k].index) == k
      && rows[k].caption == LabelOf(shapes[rows[k].index])
      && rows[k].at == FirstPoint(shapes[rows[k].index])
  {
    if i == 0 then []
    else
      var s := shapes[i - 1];
      ListedUpTo(shapes, i - 1) + (if IsListed(s) then [ListEntry(i - 1, LabelOf(s), FirstPoint(s))] else [])
  }

  /** The label list for a whole record sequence. */
  function ListedRows(shapes: seq<Shape>): seq<ListEntry> {
    ListedUpTo(shapes, |shapes|)
  }

  /** Every listed record appears in the list, at the row counting listed records before it. */
  lemma ListedRecordHasRow(shapes: seq<Shape>, i: nat)
    requires i < |shapes| && IsListed(shapes[i])
    ensures Count(shapes, Listed, i) < |ListedRows(shapes)|
    ensures ListedRows(shapes)[Count(shapes, Listed, i)].index == i
  {
    var rows := ListedRows(shapes);
    RowInRange(shapes, Listed, i);
    var k := Count(shapes, Listed, i);
    RowsAreDistinct(shapes, Listed, rows[k].index, i);
  }

  /** The list for the loaded records; empty when none are loaded. */
  function ListFor(shapes: Option<seq<Shape>>): seq<ListEntry> {
    if shapes.None? then [] else ListedRows(shapes.value)
  }

  /** The update_label_list loop: rebuild the list from the current records. */
  method ListRows(shapes: Option<seq<Shape>>) returns (rows: seq<ListEntry>)
    ensures rows == ListFor(shapes)
  {
    rows := [];
    if shapes.None? {
      return;
    }
    var s := shapes.value;
    var i := 0;
    while i < |s|
      invariant 0 <= i <= |s|
      invariant rows == ListedUpTo(s, i)
    {
      if IsPointType(s[i]) && "label" in s[i] {
        if HasPoints(s[i]) {
          rows := rows + [ListEntry(i, LabelOf(s[i]), FirstPoint(s[i]))];
        }
      }
      i := i + 1;
    }
  }

  /** When every point-type record is listed, counting point-type records and
      counting listed records give the same rows. */
  lemma {:induction false} CountsAgreeWhenAllListed(shapes: seq<Shape>, i: nat)
    requires i <= |shapes|
    requires forall j :: 0 <= j < |shapes| && IsPointType(shapes[j]) ==> IsListed(shapes[j])
    ensures Count(shapes, PointType, i) == Count(shapes, Listed, i)
  {
    if i > 0 {
      CountsAgreeWhenAllListed(shapes, i - 1);
    }
  }

  /** A point-type record without points comes first: the list's row 0 shows
      record 1, but the point-type scan maps row 0 to record 0. */
  lemma RowMismatchAsWritten()
    ensures var shapes := [map["shape_type" := Text("point")],
                           map["shape_type" := Text("point"), "label" := Text("b"), "points" := Coords([Point(1.0, 2.0)])]];
            ListedRows(shapes)[0].index == 1
            && Passes(PointType, shapes[0]) && Count(shapes, PointType, 0) == 0
  {
    var shapes := [map["shape_type" := Text("point")],
                   map["shape_type" := Text("point"), "label" := Text("b"), "points" := Coords([Point(1.0, 2.0)])]];
    assert !IsListed(shapes[0]) && IsListed(shapes[1]);
    assert Count(shapes, Listed, 1) == 0;
    ListedRecordHasRow(shapes, 1);
  }
}
