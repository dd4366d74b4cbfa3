/**
  The drawing canvas's stroke state as the component holds it: `paths` is a
  list of references to stroke objects `{segments, color}`. addNewPath copies
  the list and appends a fresh stroke object; updateCurrentPath copies the list
  and pushes a segment into the LAST stroke object in place. The copy is
  shallow, so that stroke object is the one the previous list refers to too.
 */
module Canvas {
  import opened Segments
  import opened Strokes
  import opened PanGesture

  /** One stroke object of the `paths` list; its `segments` array grows in place. */
  class MutableStroke {
    var segments: seq<Segment>
    const color: string

    /** The object literal `{segments: [`M ${x} ${y}`], color: '#06d6a0'}`. */
    constructor (x: Coord, y: Coord)
      ensures segments == [M(x, y)] && color == StrokeColor
    {
      segments := [M(x, y)];
      color := StrokeColor;
    }

    function Value(): Stroke
      reads this
    {
      Stroke(segments, color)
    }
  }

  /** The stroke values the references in `ss` currently hold. */
  function Values(ss: seq<MutableStroke>): (d: Drawing)
    reads set s | s in ss
    ensures |d| == |ss|
  {
    seq(|ss|, i reads set s | s in ss requires 0 <= i < |ss| => ss[i].Value())
  }

  class DrawingCanvas {
    /** The `paths` state: stroke objects in drawing order. */
    var paths: seq<MutableStroke>

    function Contents(): Drawing
      reads this, set s | s in paths
    {
      Values(paths)
    }

    /** No stroke object is listed twice, and every stroke is well formed. */
    ghost predicate Valid()
      reads this, set s | s in paths
    {
      && (forall i, j :: 0 <= i < j < |paths| ==> paths[i] != paths[j])
      && WellFormed(Contents())
    }

    /** `useState([])`: the canvas starts with no strokes. */
    constructor ()
      ensures Valid() && paths == [] && Contents() == []
    {
      paths := [];
    }

    /** addNewPath(x, y): the list gains one fresh stroke `M x y` at its end. */
    method AddNewPath(x: Coord, y: Coord)
      requires Valid()
      modifies this
      ensures Valid()
      ensures |paths| == |old(paths)| + 1 && paths[..|old(paths)|] == old(paths)
      ensures fresh(paths[|paths| - 1])
      ensures Contents() == AddPath(old(Contents()), x, y)
    {
      var stroke := new MutableStroke(x, y);
      paths := paths + [stroke];
      assert Contents() == old(Contents()) + [stroke.Value()];
    }

    /**
      updateCurrentPath(x, y): `L x y` is pushed into the last stroke object;
      with no stroke nothing happens. The list keeps the very same references
      (`paths == old(paths)`), so any earlier copy of it sees the new segment.
     */
    method UpdateCurrentPath(x: Coord, y: Coord)
      requires Valid()
      modifies if |paths| > 0 then {paths[|paths| - 1]} else {}
      ensures Valid()
      ensures paths == old(paths)
      ensures Contents() == UpdatePath(old(Contents()), x, y)
    {
      if |paths| > 0 {
        ghost var before := Contents();
        var last := paths[|paths| - 1];
        last.segments := last.segments + [L(x, y)];
        forall i | 0 <= i < |paths| - 1
          ensures Contents()[i] == before[i]
        {
          assert paths[i] != last;
        }
        assert Contents() == before[|paths| - 1 := last.Value()];
        UpdatePathWellFormed(before, x, y);
      }
    }

    /** The pan gesture's handlers: onStart -> addNewPath, onUpdate -> updateCurrentPath. */
    method HandlePan(e: PanEvent)
      requires Valid()
      modifies this, if |paths| > 0 then {paths[|paths| - 1]} else {}
      ensures Valid()
      ensures e.Start? ==> |paths| == |old(paths)| + 1 && paths[..|old(paths)|] == old(paths)
                           && fresh(paths[|paths| - 1])
      ensures e.Update? ==> paths == old(paths)
      ensures Contents() == Step(old(Contents()), e)
    {
      match e
      case Start(x, y) => AddNewPath(x, y);
      case Update(x, y) => UpdateCurrentPath(x, y);
    }
  }

  /**
    A pan gesture Start then Update on a fresh canvas. The list a previous
    render held (`previous`, the `prevPaths` of the update) holds the same
    stroke object as the list after it, so the pushed `L` shows through it too.
   */
  method SharedLastStroke(x0: Coord, y0: Coord, x1: Coord, y1: Coord)
    returns (previous: seq<MutableStroke>, current: seq<MutableStroke>)
    ensures previous == current && |previous| == 1
    ensures Values(previous) == [Stroke([M(x0, y0), L(x1, y1)], StrokeColor)]
  {
    var canvas := new DrawingCanvas();
    canvas.HandlePan(Start(x0, y0));
    assert canvas.Contents() == [Stroke([M(x0, y0)], StrokeColor)];
    previous := canvas.paths;
    canvas.HandlePan(Update(x1, y1));
    current := canvas.paths;
    assert [M(x0, y0)] + [L(x1, y1)] == [M(x0, y0), L(x1, y1)];
    assert canvas.Contents() == [Stroke([M(x0, y0), L(x1, y1)], StrokeColor)];
  }
}
