/**
  The pan gesture's wiring: `onStart` calls addNewPath and every `onUpdate`
  calls updateCurrentPath with the gesture's local coordinates. The calls run
  one after another, so the stroke list after a run of events is a left fold
  of the two updates over the events.
 */
module PanGesture {
  import opened Wrappers
  import opened Decimal
  import opened Segments
  import opened Strokes

  datatype PanEvent = Start(x: Coord, y: Coord) | Update(x: Coord, y: Coord)

  /** One handler call: onStart -> addNewPath, onUpdate -> updateCurrentPath. */
  function Step(d: Drawing, e: PanEvent): (r: Drawing)
    ensures |r| == |d| + (if e.Start? then 1 else 0)
    ensures e.Start? ==> r[..|d|] == d
    ensures e.Update? && |d| > 0 ==> r[..|d| - 1] == d[..|d| - 1]
  {
    match e
      case Start(x, y) => AddPath(d, x, y)
      case Update(x, y) => UpdatePath(d, x, y)
  }

  /** The number of Start events. */
  function Starts(evs: seq<PanEvent>): nat
    decreases |evs|
  {
    if |evs| == 0 then 0
    else Starts(evs[..|evs| - 1]) + (if evs[|evs| - 1].Start? then 1 else 0)
  }

  /** The stroke list after handling `evs` in order, starting from `d`. */
  function Replay(d: Drawing, evs: seq<PanEvent>): (r: Drawing)
    ensures |r| == |d| + Starts(evs)
    decreases |evs|
  {
    if |evs| == 0 then d else Step(Replay(d, evs[..|evs| - 1]), evs[|evs| - 1])
  }

  /** The update events of a drag through the points `pts`. */
  function Updates(pts: seq<(Coord, Coord)>): (evs: seq<PanEvent>)
    ensures |evs| == |pts|
  {
    seq(|pts|, i requires 0 <= i < |pts| => Update(pts[i].0, pts[i].1))
  }

  /** The line-to segments through the points `pts`. */
  function Lines(pts: seq<(Coord, Coord)>): (segs: seq<Segment>)
    ensures |segs| == |pts|
  {
    seq(|pts|, i requires 0 <= i < |pts| => L(pts[i].0, pts[i].1))
  }

  // ---------------------------------------------------------------------------

  /** Handling `a` then `b` is handling `a + b`. */
  lemma {:induction false} ReplayAppend(d: Drawing, a: seq<PanEvent>, b: seq<PanEvent>)
    ensures Replay(d, a + b) == Replay(Replay(d, a), b)
    decreases |b|
  {
    if |b| == 0 {
      assert a + b == a;
    } else {
      assert (a + b)[..|a + b| - 1] == a + b[..|b| - 1];
      ReplayAppend(d, a, b[..|b| - 1]);
    }
  }

  /** Every stroke stays one move-to followed by line-tos, whatever the events. */
  lemma {:induction false} ReplayWellFormed(d: Drawing, evs: seq<PanEvent>)
    requires WellFormed(d)
    ensures WellFormed(Replay(d, evs))
    decreases |evs|
  {
    if |evs| > 0 {
      var prev := Replay(d, evs[..|evs| - 1]);
      ReplayWellFormed(d, evs[..|evs| - 1]);
      var e := evs[|evs| - 1];
      if e.Start? {
        AddPathWellFormed(prev, e.x, e.y);
      } else {
        UpdatePathWellFormed(prev, e.x, e.y);
      }
    }
  }

  /** Update events with no stroke begun are dropped and create nothing. */
  lemma {:induction false} UpdatesWithoutStartIgnored(pts: seq<(Coord, Coord)>)
    ensures Replay([], Updates(pts)) == []
    decreases |pts|
  {
    if |pts| > 0 {
      assert Updates(pts)[..|pts| - 1] == Updates(pts[..|pts| - 1]);
      UpdatesWithoutStartIgnored(pts[..|pts| - 1]);
    }
  }

  /**
    A Start at (x0, y0) followed by updates through `pts` adds exactly one
    stroke: `M x0 y0` then one `L` per update, in update order; the strokes
    that were there before are untouched.
   */
  lemma {:induction false} ReplayGesture(d: Drawing, x0: Coord, y0: Coord, pts: seq<(Coord, Coord)>)
    ensures |Replay(d, [Start(x0, y0)] + Updates(pts))| == |d| + 1
    ensures Replay(d, [Start(x0, y0)] + Updates(pts))[..|d|] == d
    ensures Replay(d, [Start(x0, y0)] + Updates(pts))[|d|]
         == Stroke([M(x0, y0)] + Lines(pts), StrokeColor)
    decreases |pts|
  {
    var evs := [Start(x0, y0)] + Updates(pts);
    if |pts| == 0 {
      assert evs[..0] == [];
    } else {
      var n := |pts| - 1;
      assert evs[..|evs| - 1] == [Start(x0, y0)] + Updates(pts[..n]);
      ReplayGesture(d, x0, y0, pts[..n]);
      assert Lines(pts) == Lines(pts[..n]) + [L(pts[n].0, pts[n].1)];
      assert [M(x0, y0)] + Lines(pts) == ([M(x0, y0)] + Lines(pts[..n])) + [L(pts[n].0, pts[n].1)];
    }
  }

  /** Events that begin with a Start never change the strokes already there. */
  lemma {:induction false} GestureKeepsEarlierStrokes(d: Drawing, evs: seq<PanEvent>)
    requires |evs| > 0 && evs[0].Start?
    ensures |Replay(d, evs)| > |d|
    ensures Replay(d, evs)[..|d|] == d
    decreases |evs|
  {
    if |evs| > 1 {
      GestureKeepsEarlierStrokes(d, evs[..|evs| - 1]);
      var prev := Replay(d, evs[..|evs| - 1]);
      assert prev[..|d|] == d;
      assert Replay(d, evs)[..|d|] == prev[..|d|];
    }
  }

  /**
    Two gestures one after the other: the second appends after the strokes of
    the first and leaves every one of them as it was.
   */
  lemma TwoGesturesIsolated(d: Drawing, g1: seq<PanEvent>, g2: seq<PanEvent>)
    requires |g2| > 0 && g2[0].Start?
    ensures |Replay(d, g1 + g2)| > |Replay(d, g1)|
    ensures Replay(d, g1 + g2)[..|Replay(d, g1)|] == Replay(d, g1)
  {
    ReplayAppend(d, g1, g2);
    GestureKeepsEarlierStrokes(Replay(d, g1), g2);
  }

  /**
    The path string rendered for a gesture's stroke starts with its move-to and
    reads back as the move-to followed by one line-to per update, in order.
   */
  lemma RenderedGesture(d: Drawing, x0: Coord, y0: Coord, pts: seq<(Coord, Coord)>)
    ensures var r := Replay(d, [Start(x0, y0)] + Updates(pts));
      |r| > |d| && |PathString(r[|d|].segments)| >= 2 && PathString(r[|d|].segments)[..2] == "M "
    ensures var r := Replay(d, [Start(x0, y0)] + Updates(pts));
      |r| > |d| && ParsePath(PathString(r[|d|].segments)) == Some([M(x0, y0)] + Lines(pts))
  {
    ReplayGesture(d, x0, y0, pts);
    var segs := [M(x0, y0)] + Lines(pts);
    PathStringStartsWithMove(segs);
    PathRoundTrip(segs);
  }

  /** A drag from (10,10) through (12,10), (20,10), (20,20) renders as expected. */
  lemma ExampleDrag()
    ensures var r := Replay([], [Start(10, 10), Update(12, 10), Update(20, 10), Update(20, 20)]);
      |r| == 1 && PathString(r[0].segments) == "M 10 10 L 12 10 L 20 10 L 20 20"
  {
    var pts := [(12, 10), (20, 10), (20, 20)];
    assert [Start(10, 10), Update(12, 10), Update(20, 10), Update(20, 20)]
        == [Start(10, 10)] + Updates(pts);
    ReplayGesture([], 10, 10, pts);
    assert [M(10, 10)] + Lines(pts) == [M(10, 10), L(12, 10), L(20, 10), L(20, 20)];
    ExampleDragText();
  }

  lemma ExampleDragText()
    ensures PathString([M(10, 10), L(12, 10), L(20, 10), L(20, 20)]) == "M 10 10 L 12 10 L 20 10 L 20 20"
  {
    var s0, s1, s2, s3 := M(10, 10), L(12, 10), L(20, 10), L(20, 20);
    ExampleSegmentTexts();
    ExampleDragPrefix();
    PathStringSnoc([s0, s1, s2], s3);
    assert [s0, s1, s2] + [s3] == [s0, s1, s2, s3];
  }

  lemma ExampleDragPrefix()
    ensures PathString([M(10, 10), L(12, 10), L(20, 10)]) == "M 10 10 L 12 10 L 20 10"
  {
    var s0, s1, s2 := M(10, 10), L(12, 10), L(20, 10);
    ExampleSegmentTexts();
    assert PathString([s0]) == "M 10 10";
    PathStringSnoc([s0], s1);
    assert [s0] + [s1] == [s0, s1];
    PathStringSnoc([s0, s1], s2);
    assert [s0, s1] + [s2] == [s0, s1, s2];
  }

  lemma ExampleSegmentTexts()
    ensures SegmentText(M(10, 10)) == "M 10 10"
    ensures SegmentText(L(12, 10)) == "L 12 10"
    ensures SegmentText(L(20, 10)) == "L 20 10"
    ensures SegmentText(L(20, 20)) == "L 20 20"
  {
    assert IntToString(10) == "10" && IntToString(12) == "12" && IntToString(20) == "20";
  }
}
