/*
 * The annotation records the editor works on. An annotation file holds a
 * list of shape records; each record is a JSON object, modelled here as a
 * map from key to value. Only three keys are interpreted ("shape_type",
 * "points", "label"); every other key is carried along untouched.
 */
module Shapes {

  datatype Option<+T> = None | Some(value: T)

  /** An image-space coordinate pair, as stored under "points". */
  datatype Point = Point(x: real, y: real)

  /** The JSON values the editor distinguishes; anything else is Other. */
  datatype Value = Text(text: string) | Coords(points: seq<Point>) | Other(code: nat)

  type Shape = map<string, Value>

  /** shape.get('shape_type') == 'point' */
  predicate IsPointType(s: Shape) {
    "shape_type" in s && s["shape_type"] == Text("point")
  }

  /** 'points' in shape and the list is non-empty */
  predicate HasPoints(s: Shape) {
    "points" in s && s["points"].Coords? && |s["points"].points| > 0
  }

  /** A record the click selection considers (label_editor.py:734-736). */
  predicate IsSelectable(s: Shape) {
    IsPointType(s) && HasPoints(s)
  }

  /** A record the label list shows (label_editor.py:292-295). */
  predicate IsListed(s: Shape) {
    IsPointType(s) && "label" in s && HasPoints(s)
  }

  function FirstPoint(s: Shape): Point
    requires HasPoints(s)
  {
    s["points"].points[0]
  }

  /** shape.get('label', '') for a textual label. */
  function LabelOf(s: Shape): string {
    if "label" in s && s["label"].Text? then s["label"].text else ""
  }

  /** The characters Python's str.isspace() accepts, which str.strip() removes. */
  predicate IsSpace(c: char) {
    ('\t' <= c <= '\r') || ('\U{1C}' <= c <= ' ') || c == '\U{85}' || c == '\U{A0}'
    || c == '\U{1680}' || ('\U{2000}' <= c <= '\U{200A}') || c == '\U{2028}' || c == '\U{2029}'
    || c == '\U{202F}' || c == '\U{205F}' || c == '\U{3000}'
  }

  /** s.lstrip(): drops the leading whitespace and nothing else. */
  function TrimStart(s: string): (r: string)
    ensures |r| <= |s| && r == s[|s| - |r|..]
    ensures forall i :: 0 <= i < |s| - |r| ==> IsSpace(s[i])
    ensures r != [] ==> !IsSpace(r[0])
  {
    if s != [] && IsSpace(s[0]) then TrimStart(s[1..]) else s
  }

  /** s.rstrip(): drops the trailing whitespace and nothing else. */
  function TrimEnd(s: string): (r: string)
    ensures |r| <= |s| && r == s[..|r|]
    ensures forall i :: |r| <= i < |s| ==> IsSpace(s[i])
    ensures r != [] ==> !IsSpace(r[|r| - 1])
  {
    if s != [] && IsSpace(s[|s| - 1]) then TrimEnd(s[..|s| - 1]) else s
  }

  /** s.strip(): the longest slice of s with no whitespace at either end. */
  function Strip(s: string): (r: string)
    ensures |r| <= |s|
    ensures r != [] ==> !IsSpace(r[0]) && !IsSpace(r[|r| - 1])
    ensures r == [] <==> forall i :: 0 <= i < |s| ==> IsSpace(s[i])
    ensures forall c :: c in r ==> c in s
  {
    var t := TrimStart(s);
    var r := TrimEnd(t);
    assert forall i :: 0 <= i < |r| ==> r[i] == s[|s| - |t| + i];
    r
  }

  /** Strip keeps exactly the part between the leading and trailing whitespace. */
  lemma StripIsSlice(s: string)
    ensures var a := |s| - |TrimStart(s)|;
            a + |Strip(s)| <= |s| && Strip(s) == s[a..a + |Strip(s)|]
            && (forall i :: 0 <= i < a ==> IsSpace(s[i]))
            && (forall i :: a + |Strip(s)| <= i < |s| ==> IsSpace(s[i]))
  {
    var t := TrimStart(s);
    var r := TrimEnd(t);
    SliceOfSuffix(s, |s| - |t|, t, r);
  }

  /** When t is the suffix of s from a and r a prefix of t followed only by
      whitespace, r is the slice of s from a and the rest of s is whitespace. */
  lemma SliceOfSuffix(s: string, a: nat, t: string, r: string)
    requires a <= |s| && t == s[a..] && |r| <= |t| && r == t[..|r|]
    requires forall i :: |r| <= i < |t| ==> IsSpace(t[i])
    ensures a + |r| <= |s| && r == s[a..a + |r|]
    ensures forall i :: a + |r| <= i < |s| ==> IsSpace(s[i])
  {
    forall i | a + |r| <= i < |s|
      ensures IsSpace(s[i])
    {
      assert s[i] == t[i - a];
    }
  }
}
