/** The stroke-5 encoding used by the drawing widget: absolute pointer
    positions, the five-number tuples [dx, dy, pen_down, pen_up, pen_end]
    recorded from them, and the line segments painted on the surface.
    Coordinates are exact reals. */
module Strokes {

  /** A position on the drawing surface, or a displacement between two. */
  datatype Point = Point(x: real, y: real) {
    function Plus(v: Point): Point { Point(x + v.x, y + v.y) }
    function Minus(q: Point): Point { Point(x - q.x, y - q.y) }
  }

  const Zero := Point(0.0, 0.0)

  /** One stroke-5 tuple. The three flags are numbers, read as set when non-zero. */
  datatype Stroke = Stroke(dx: real, dy: real, penDown: real, penUp: real, penEnd: real) {
    function Offset(): Point { Point(dx, dy) }
  }

  /** A straight line painted from one point to another. */
  datatype Segment = Segment(from: Point, to: Point) {
    function Shift(v: Point): Segment { Segment(from.Plus(v), to.Plus(v)) }
  }

  /** Appended when the pointer goes down: a new stroke starts here. */
  const StartMarker := Stroke(0.0, 0.0, 1.0, 0.0, 0.0)
  /** Appended when the pointer goes up: the pen is lifted. */
  const EndMarker := Stroke(0.0, 0.0, 0.0, 1.0, 0.0)

  /** The tuple a pointer move from p to q appends; decoding it from p gives q back. */
  function Delta(p: Point, q: Point): (s: Stroke)
    ensures p.Plus(s.Offset()) == q
    ensures s.penDown == 1.0 && s.penUp == 0.0 && s.penEnd == 0.0
  {
    Stroke(q.x - p.x, q.y - p.y, 1.0, 0.0, 0.0)
  }

  function Last(ps: seq<Point>): Point
    requires ps != []
  {
    ps[|ps| - 1]
  }

  /** The move tuples of a drag through ps: the k-th encodes ps[k+1] relative to ps[k]. */
  function Deltas(ps: seq<Point>): seq<Stroke>
    requires ps != []
  {
    seq(|ps| - 1, k requires 0 <= k < |ps| - 1 => Delta(ps[k], ps[k + 1]))
  }

  /** The segments painted one by one while dragging through ps. */
  function Incremental(ps: seq<Point>): seq<Segment>
    requires ps != []
  {
    seq(|ps| - 1, k requires 0 <= k < |ps| - 1 => Segment(ps[k], ps[k + 1]))
  }

  /** Everything one pointer gesture down(ps[0]), move(ps[1]) .. move(ps[n]), up appends. */
  function Recorded(ps: seq<Point>): seq<Stroke>
    requires ps != []
  {
    [StartMarker] + Deltas(ps) + [EndMarker]
  }

  /** Every segment translated by v. */
  function Shifted(segs: seq<Segment>, v: Point): (r: seq<Segment>)
    ensures |r| == |segs|
    ensures forall i :: 0 <= i < |r| ==> r[i].from == segs[i].from.Plus(v) && r[i].to == segs[i].to.Plus(v)
  {
    seq(|segs|, i requires 0 <= i < |segs| => segs[i].Shift(v))
  }

  /** The sums of the dx and of the dy columns. */
  function Sum(s: seq<Stroke>): Point
  {
    if s == [] then Zero else Sum(s[..|s| - 1]).Plus(s[|s| - 1].Offset())
  }

  lemma RecordedShape(ps: seq<Point>)
    requires ps != []
    ensures |Recorded(ps)| == |ps| + 1
    ensures Recorded(ps)[0] == StartMarker && Recorded(ps)[|ps|] == EndMarker
    ensures forall k :: 1 <= k < |ps| ==> Recorded(ps)[k] == Delta(ps[k - 1], ps[k])
  {
    var d := Deltas(ps);
    assert |d| == |ps| - 1;
    forall k | 1 <= k < |ps|
      ensures Recorded(ps)[k] == Delta(ps[k - 1], ps[k])
    {
      assert Recorded(ps)[k] == d[k - 1];
    }
  }

  /** Extending a drag by one point extends its tuples and its segments by one. */
  lemma DeltasSnoc(ps: seq<Point>)
    requires |ps| >= 2
    ensures var n := |ps| - 1;
      Deltas(ps) == Deltas(ps[..n]) + [Delta(ps[n - 1], ps[n])] &&
      Incremental(ps) == Incremental(ps[..n]) + [Segment(ps[n - 1], ps[n])]
  {
    var n := |ps| - 1;
    assert Deltas(ps) == Deltas(ps[..n]) + [Delta(ps[n - 1], ps[n])];
    assert Incremental(ps) == Incremental(ps[..n]) + [Segment(ps[n - 1], ps[n])];
  }

  lemma {:induction false} SumConcat(a: seq<Stroke>, b: seq<Stroke>)
    ensures Sum(a + b) == Sum(a).Plus(Sum(b))
    decreases |b|
  {
    if b == [] {
      assert a + b == a;
    } else {
      var n := |b| - 1;
      assert (a + b)[..|a + b| - 1] == a + b[..n];
      SumConcat(a, b[..n]);
    }
  }

  /** The dx and dy sums over a drag telescope to last point minus first point. */
  lemma {:induction false} DeltasTelescope(ps: seq<Point>)
    requires ps != []
    ensures Sum(Deltas(ps)) == Last(ps).Minus(ps[0])
  {
    if |ps| == 1 {
      assert Deltas(ps) == [];
    } else {
      var n := |ps| - 1;
      DeltasSnoc(ps);
      DeltasTelescope(ps[..n]);
      var d := Deltas(ps[..n]) + [Delta(ps[n - 1], ps[n])];
      assert d[..|d| - 1] == Deltas(ps[..n]);
    }
  }

  /** A whole recorded gesture displaces the pen by exactly last point minus first point. */
  lemma RecordedTelescopes(ps: seq<Point>)
    requires ps != []
    ensures Sum(Recorded(ps)) == Last(ps).Minus(ps[0])
  {
    var d := Deltas(ps);
    assert Sum([StartMarker]) == Zero by { assert [StartMarker][..0] == []; }
    assert Sum([EndMarker]) == Zero by { assert [EndMarker][..0] == []; }
    SumConcat([StartMarker], d);
    SumConcat([StartMarker] + d, [EndMarker]);
    DeltasTelescope(ps);
    assert Recorded(ps) == [StartMarker] + d + [EndMarker];
  }
}
