/**
  The stroke list as a value: the `paths` state of the drawing canvas. Each
  stroke holds its segments and a colour; addNewPath appends a stroke that
  starts with a move-to, updateCurrentPath appends a line-to to the last one.
 */
module Strokes {
  import opened Wrappers
  import opened Segments

  /** The one colour every new stroke gets. */
  const StrokeColor: string := "#06d6a0"

  datatype Stroke = Stroke(segments: seq<Segment>, color: string)

  /** The strokes in insertion order (which is also drawing order). */
  type Drawing = seq<Stroke>

  /** addNewPath: a copy of the list with one new stroke `M x y` at the end. */
  function AddPath(d: Drawing, x: Coord, y: Coord): (r: Drawing)
    ensures |r| == |d| + 1
    ensures r[..|d|] == d
    ensures r[|d|].segments == [M(x, y)] && r[|d|].color == "#06d6a0"
  {
    d + [Stroke([M(x, y)], StrokeColor)]
  }

  /**
    updateCurrentPath: `L x y` appended to the last stroke's segments; an empty
    list is returned as it is.
   */
  function UpdatePath(d: Drawing, x: Coord, y: Coord): (r: Drawing)
    ensures |r| == |d|
    ensures |d| == 0 ==> r == []
    ensures |d| > 0 ==> r[..|d| - 1] == d[..|d| - 1]
    ensures |d| > 0 ==> r[|d| - 1].segments == d[|d| - 1].segments + [L(x, y)]
    ensures forall i :: 0 <= i < |d| ==> r[i].color == d[i].color
  {
    if |d| == 0 then d
    else
      var last := d[|d| - 1];
      d[|d| - 1 := Stroke(last.segments + [L(x, y)], last.color)]
  }

  /** A stroke is one move-to followed by line-tos only. */
  predicate StrokeShape(segs: seq<Segment>) {
    |segs| >= 1 && segs[0].M? && forall i :: 1 <= i < |segs| ==> segs[i].L?
  }

  /** Every stroke has the stroke shape and the canvas colour. */
  predicate WellFormed(d: Drawing) {
    forall i :: 0 <= i < |d| ==> StrokeShape(d[i].segments) && d[i].color == StrokeColor
  }

  // ---------------------------------------------------------------------------
  // addNewPath

  lemma AddPathWellFormed(d: Drawing, x: Coord, y: Coord)
    requires WellFormed(d)
    ensures WellFormed(AddPath(d, x, y))
  {
  }

  // ---------------------------------------------------------------------------
  // updateCurrentPath

  lemma UpdatePathWellFormed(d: Drawing, x: Coord, y: Coord)
    requires WellFormed(d)
    ensures WellFormed(UpdatePath(d, x, y))
  {
  }

  // ---------------------------------------------------------------------------
  // Rendering: one path element per stroke, `path={p.segments.join(' ')}`

  datatype PathElement = PathElement(path: string, color: string)

  function Render(d: Drawing): (r: seq<PathElement>)
    ensures |r| == |d|
  {
    seq(|d|, i requires 0 <= i < |d| => PathElement(PathString(d[i].segments), d[i].color))
  }

  /**
    The rendered elements carry everything about the strokes: each path string
    reads back as its stroke's segments, in drawing order, with its colour;
    for a well-formed drawing each path string starts with a move-to.
   */
  lemma RenderFaithful(d: Drawing, i: nat)
    requires i < |d|
    ensures ParsePath(Render(d)[i].path) == Some(d[i].segments)
    ensures Render(d)[i].color == d[i].color
    ensures WellFormed(d) ==> |Render(d)[i].path| >= 2 && Render(d)[i].path[..2] == "M "
  {
    PathRoundTrip(d[i].segments);
    if WellFormed(d) {
      PathStringStartsWithMove(d[i].segments);
    }
  }

  /** Two drawings that render alike are the same drawing. */
  lemma RenderInjective(a: Drawing, b: Drawing)
    requires Render(a) == Render(b)
    ensures a == b
  {
    forall i | 0 <= i < |a|
      ensures a[i] == b[i]
    {
      RenderFaithful(a, i);
      RenderFaithful(b, i);
    }
  }
}
