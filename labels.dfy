/*
 * Editing the label of the selected record: three checks, then a write of
 * the "label" key of that one record.
 */
module Labels {
  import opened Shapes

  datatype UpdateError =
    | NoPointSelected    // no index selected, or no record list loaded
    | InvalidSelection   // the selected index is past the end of the list
    | EmptyLabel         // the entry holds only whitespace

  datatype Outcome = Updated(newLabel: string) | Rejected(error: UpdateError)

  /** The checks update_label makes before it writes, in their order. */
  function CheckUpdate(shapes: Option<seq<Shape>>, selected: int, entry: string): (r: Outcome)
    ensures r == Rejected(NoPointSelected) <==> selected < 0 || shapes.None?
    ensures r == Rejected(InvalidSelection) <==> 0 <= selected && shapes.Some? && selected >= |shapes.value|
    ensures r == Rejected(EmptyLabel) <==>
      0 <= selected && shapes.Some? && selected < |shapes.value|
      && forall i :: 0 <= i < |entry| ==> IsSpace(entry[i])
    ensures r.Updated? ==>
      && r.newLabel == Strip(entry) && r.newLabel != []
      && !IsSpace(r.newLabel[0]) && !IsSpace(r.newLabel[|r.newLabel| - 1])
  {
    if selected < 0 || shapes.None? then Rejected(NoPointSelected)
    else if selected >= |shapes.value| then Rejected(InvalidSelection)
    else
      var stripped := Strip(entry);
      if stripped == [] then Rejected(EmptyLabel) else Updated(stripped)
  }

  /** shapes[i]['label'] = text: that one key of that one record changes. */
  function SetLabel(shapes: seq<Shape>, i: nat, text: string): (r: seq<Shape>)
    requires i < |shapes|
    ensures |r| == |shapes|
    ensures forall j :: 0 <= j < |r| && j != i ==> r[j] == shapes[j]
    ensures r[i].Keys == shapes[i].Keys + {"label"}
    ensures forall k :: k in shapes[i] && k != "label" ==> r[i][k] == shapes[i][k]
    ensures r[i]["label"] == Text(text) && LabelOf(r[i]) == text
  {
    shapes[i := shapes[i]["label" := Text(text)]]
  }

  /** Writing a label changes neither which records are point-type nor which
      are selectable, nor where their points are, nor whether another record is listed. */
  lemma SetLabelKeepsGeometry(shapes: seq<Shape>, i: nat, text: string)
    requires i < |shapes|
    ensures var r := SetLabel(shapes, i, text);
      forall j :: 0 <= j < |r| ==>
        (IsPointType(r[j]) <==> IsPointType(shapes[j]))
        && (IsSelectable(r[j]) <==> IsSelectable(shapes[j]))
        && (IsSelectable(r[j]) ==> FirstPoint(r[j]) == FirstPoint(shapes[j]))
        && (j != i ==> (IsListed(r[j]) <==> IsListed(shapes[j])))
  {
    var r := SetLabel(shapes, i, text);
    assert "shape_type" != "label" && "points" != "label";
    forall j | 0 <= j < |r|
      ensures IsPointType(r[j]) <==> IsPointType(shapes[j])
      ensures IsSelectable(r[j]) <==> IsSelectable(shapes[j])
    {
      if j == i {
        assert ("shape_type" in r[j]) == ("shape_type" in shapes[j]);
        assert ("points" in r[j]) == ("points" in shapes[j]);
      }
    }
  }

  /** The edited record is listed afterwards exactly when it is selectable. */
  lemma SetLabelListsSelectable(shapes: seq<Shape>, i: nat, text: string)
    requires i < |shapes|
    ensures IsListed(SetLabel(shapes, i, text)[i]) <==> IsSelectable(shapes[i])
  {
    var r := SetLabel(shapes, i, text);
    assert ("shape_type" in r[i]) == ("shape_type" in shapes[i]);
    assert ("points" in r[i]) == ("points" in shapes[i]);
  }
}
