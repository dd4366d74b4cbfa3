/**
  Path segments and their text. A stroke's segments are strings built as
  `M ${x} ${y}` (move to) or `L ${x} ${y}` (line to); the canvas hands the
  renderer `segments.join(' ')`. Here a segment is a tagged value, its text is
  computed from it, and a parser reads a rendered path back.
 */
module Segments {
  import opened Wrappers
  import opened Decimal

  /** Coordinates in the canvas's local space (integral values only). */
  type Coord = int

  datatype Segment = M(x: Coord, y: Coord) | L(x: Coord, y: Coord)

  /** The segment string the template literal builds. */
  function SegmentText(s: Segment): (r: string)
    ensures |r| >= 5 && r[..2] == if s.M? then "M " else "L "
  {
    match s
      case M(x, y) => "M " + IntToString(x) + " " + IntToString(y)
      case L(x, y) => "L " + IntToString(x) + " " + IntToString(y)
  }

  /** `words.join(' ')`: the words separated by single spaces. */
  function Join(words: seq<string>): (r: string)
    ensures |words| == 0 ==> r == ""
    ensures |words| > 0 ==> |words[0]| <= |r| && r[..|words[0]|] == words[0]
  {
    if |words| == 0 then ""
    else if |words| == 1 then words[0]
    else words[0] + " " + Join(words[1..])
  }

  function Texts(segs: seq<Segment>): (r: seq<string>)
    ensures |r| == |segs|
    ensures forall i :: 0 <= i < |segs| ==> r[i] == SegmentText(segs[i])
  {
    if |segs| == 0 then [] else [SegmentText(segs[0])] + Texts(segs[1..])
  }

  /** The path string the renderer receives: `p.segments.join(' ')`. */
  function PathString(segs: seq<Segment>): (r: string)
    ensures |segs| == 0 ==> r == ""
    ensures |segs| > 0 ==> |SegmentText(segs[0])| <= |r| && r[..|SegmentText(segs[0])|] == SegmentText(segs[0])
  {
    Join(Texts(segs))
  }

  // ---------------------------------------------------------------------------
  // Reading a path string back

  predicate NoSpace(w: string) {
    forall k :: 0 <= k < |w| ==> w[k] != ' '
  }

  /** Splits a string at every single space (the inverse of Join). */
  function Split(s: string): (r: seq<string>)
    ensures |r| >= 1
  {
    if |s| == 0 then [""]
    else
      var rest := Split(s[1..]);
      if s[0] == ' ' then [""] + rest else [[s[0]] + rest[0]] + rest[1..]
  }

  /** The three words of a segment's text. */
  function Tokens(s: Segment): seq<string> {
    [if s.M? then "M" else "L", IntToString(s.x), IntToString(s.y)]
  }

  function AllTokens(segs: seq<Segment>): (r: seq<string>)
    ensures |r| == 3 * |segs|
  {
    if |segs| == 0 then [] else Tokens(segs[0]) + AllTokens(segs[1..])
  }

  /** Reads consecutive triples `tag x y` as segments. */
  function ParseTokens(ts: seq<string>): (r: Option<seq<Segment>>)
    decreases |ts|
  {
    if |ts| == 0 then Some([])
    else if |ts| < 3 || (ts[0] != "M" && ts[0] != "L") then None
    else match (ParseInt(ts[1]), ParseInt(ts[2]), ParseTokens(ts[3..]))
      case (Some(x), Some(y), Some(rest)) =>
        Some([if ts[0] == "M" then M(x, y) else L(x, y)] + rest)
      case _ => None
  }

  function ParsePath(s: string): Option<seq<Segment>> {
    if s == "" then Some([]) else ParseTokens(Split(s))
  }

  // ---------------------------------------------------------------------------
  // Properties of the rendered path

  lemma {:induction false} JoinAppend(a: seq<string>, b: seq<string>)
    requires |a| > 0 && |b| > 0
    ensures Join(a + b) == Join(a) + " " + Join(b)
  {
    if |a| > 1 {
      assert (a + b)[1..] == a[1..] + b;
      JoinAppend(a[1..], b);
    }
  }

  /** A path with at least one segment renders to a non-empty string. */
  lemma {:induction false} PathStringNonEmpty(segs: seq<Segment>)
    requires |segs| > 0
    ensures |PathString(segs)| > 0
  {
    if |segs| > 1 {
      PathStringNonEmpty(segs[1..]);
    }
  }

  /** Rendering one more segment appends a space and that segment's text. */
  lemma {:induction false} PathStringSnoc(segs: seq<Segment>, s: Segment)
    requires |segs| > 0
    ensures PathString(segs + [s]) == PathString(segs) + " " + SegmentText(s)
  {
    assert Texts(segs + [s]) == Texts(segs) + [SegmentText(s)];
    JoinAppend(Texts(segs), [SegmentText(s)]);
  }

  /** The path string of a stroke, which opens with a move-to, starts with "M ". */
  lemma PathStringStartsWithMove(segs: seq<Segment>)
    requires |segs| > 0 && segs[0].M?
    ensures |PathString(segs)| >= 2 && PathString(segs)[..2] == "M "
  {
    var t, p := SegmentText(segs[0]), PathString(segs);
    assert p[..2] == p[..|t|][..2];
  }

  lemma PrefixOfConcat(a: string, b: string)
    ensures (a + b)[..|a|] == a
  {
  }

  lemma SegmentTextWords(s: Segment)
    ensures SegmentText(s) == Join(Tokens(s))
  {
    var a, b := IntToString(s.x), IntToString(s.y);
    var tag := if s.M? then "M" else "L";
    JoinThree(tag, a, b);
    assert Tokens(s) == [tag, a, b];
    assert tag + " " == if s.M? then "M " else "L ";
    assert SegmentText(s) == (tag + " ") + a + " " + b;
  }

  lemma JoinThree(t: string, a: string, b: string)
    ensures Join([t, a, b]) == t + " " + a + " " + b
  {
    assert [t, a, b][1..] == [a, b] && [a, b][1..] == [b];
    assert Join([a, b]) == a + " " + b;
    assert Join([t, a, b]) == t + " " + (a + " " + b);
    assert t + " " + (a + " " + b) == t + " " + a + " " + b;
  }

  /** Rendering segment by segment equals joining all their words. */
  lemma {:induction false} PathStringWords(segs: seq<Segment>)
    ensures PathString(segs) == Join(AllTokens(segs))
  {
    if |segs| > 0 {
      SegmentTextWords(segs[0]);
      if |segs| > 1 {
        PathStringWords(segs[1..]);
        assert Texts(segs)[1..] == Texts(segs[1..]);
        JoinAppend(Tokens(segs[0]), AllTokens(segs[1..]));
      } else {
        assert AllTokens(segs) == Tokens(segs[0]);
      }
    }
  }

  lemma {:induction false} SplitPrefix(w: string, t: string)
    requires NoSpace(w)
    ensures Split(w + t) == [w + Split(t)[0]] + Split(t)[1..]
  {
    if |w| > 0 {
      assert (w + t)[0] == w[0] != ' ';
      assert (w + t)[1..] == w[1..] + t;
      SplitPrefix(w[1..], t);
      var r := Split(t);
      assert Split(w[1..] + t) == [w[1..] + r[0]] + r[1..];
      assert [w[0]] + (w[1..] + r[0]) == w + r[0];
    } else {
      assert w + t == t;
      assert w + Split(t)[0] == Split(t)[0];
      assert [Split(t)[0]] + Split(t)[1..] == Split(t);
    }
  }

  /** Splitting joined space-free words gives the words back. */
  lemma {:induction false} SplitJoin(words: seq<string>)
    requires |words| > 0
    requires forall i :: 0 <= i < |words| ==> NoSpace(words[i])
    ensures Split(Join(words)) == words
  {
    if |words| == 1 {
      SplitPrefix(words[0], "");
      assert words[0] + "" == words[0];
    } else {
      var rest := " " + Join(words[1..]);
      assert Join(words) == words[0] + rest;
      SplitPrefix(words[0], rest);
      assert rest[1..] == Join(words[1..]);
      SplitJoin(words[1..]);
      assert Split(rest) == [""] + words[1..];
      assert words[0] + "" == words[0];
      assert Split(Join(words)) == [words[0]] + words[1..];
    }
  }

  lemma {:induction false} ParseAllTokens(segs: seq<Segment>)
    ensures ParseTokens(AllTokens(segs)) == Some(segs)
  {
    if |segs| > 0 {
      var ts := AllTokens(segs);
      assert ts[..3] == Tokens(segs[0]);
      assert ts[3..] == AllTokens(segs[1..]);
      IntRoundTrip(segs[0].x);
      IntRoundTrip(segs[0].y);
      ParseAllTokens(segs[1..]);
      assert [segs[0]] + segs[1..] == segs;
    }
  }

  /** Reading a rendered path gives back exactly its segments, in order. */
  lemma PathRoundTrip(segs: seq<Segment>)
    ensures ParsePath(PathString(segs)) == Some(segs)
  {
    PathStringWords(segs);
    if |segs| > 0 {
      PathStringNonEmpty(segs);
      var ts := AllTokens(segs);
      forall i | 0 <= i < |ts| ensures NoSpace(ts[i]) {
        AllTokensNoSpace(segs, i);
      }
      SplitJoin(ts);
      ParseAllTokens(segs);
    }
  }

  lemma {:induction false} AllTokensNoSpace(segs: seq<Segment>, i: nat)
    requires i < 3 * |segs|
    ensures NoSpace(AllTokens(segs)[i])
  {
    if i >= 3 {
      AllTokensNoSpace(segs[1..], i - 3);
    }
  }

  /** Distinct segment lists render to distinct path strings. */
  lemma PathStringInjective(a: seq<Segment>, b: seq<Segment>)
    requires PathString(a) == PathString(b)
    ensures a == b
  {
    PathRoundTrip(a);
    PathRoundTrip(b);
  }
}
