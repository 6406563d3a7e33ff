/** Replay of a stroke-5 sequence onto the drawing surface (the `redraw` loop):
    the pen starts at the centre of the surface, every element moves it by
    (dx, dy), and some elements paint the segment they move along. */
module Renderer {
  import opened Strokes

  /** The replay loop's state: where the pen is and what it has painted. */
  datatype Pen = Pen(at: Point, painted: seq<Segment>)

  /** Where replay starts: the centre of a width by height surface. */
  function Centre(width: real, height: real): (c: Point)
    ensures c.x + c.x == width && c.y + c.y == height
  {
    Point(width / 2.0, height / 2.0)
  }

  /** Element i moves the pen without painting: the first element, and any
      element with pen_up set, whatever its pen_down says. */
  predicate Jumps(i: nat, s: Stroke)
  {
    i == 0 || s.penUp != 0.0
  }

  /** Element i paints the segment it moves along. */
  predicate Paints(i: nat, s: Stroke)
  {
    !Jumps(i, s) && s.penDown != 0.0
  }

  /** One iteration of the replay loop on element i; pen_end is never read. */
  function Step(i: nat, s: Stroke, pen: Pen): Pen
  {
    var next := pen.at.Plus(s.Offset());
    if Jumps(i, s) then Pen(next, pen.painted)
    else if s.penDown != 0.0 then Pen(next, pen.painted + [Segment(pen.at, next)])
    else pen
  }

  /** The pen after replaying every element of strokes from start. */
  function Replay(strokes: seq<Stroke>, start: Point): Pen
  {
    if strokes == [] then Pen(start, [])
    else
      var n := |strokes| - 1;
      Step(n, strokes[n], Replay(strokes[..n], start))
  }

  /** The redraw loop: walks strokes once from the centre and returns the
      segments it hands to drawLine, in order. */
  method Redraw(strokes: seq<Stroke>, width: real, height: real) returns (painted: seq<Segment>)
    ensures painted == Replay(strokes, Centre(width, height)).painted
    ensures |painted| == |PaintingIndices(strokes)|
  {
    var x := width / 2.0;
    var y := height / 2.0;
    painted := [];
    for i := 0 to |strokes|
      invariant Replay(strokes[..i], Centre(width, height)) == Pen(Point(x, y), painted)
    {
      var s := strokes[i];
      if i == 0 || s.penUp != 0.0 {
        x := x + s.dx;
        y := y + s.dy;
      } else if s.penDown != 0.0 {
        var newX := x + s.dx;
        var newY := y + s.dy;
        painted := painted + [Segment(Point(x, y), Point(newX, newY))];
        x := newX;
        y := newY;
      }
      assert strokes[..i + 1][..i] == strokes[..i];
    }
    assert strokes[..|strokes|] == strokes;
    ReplayReference(strokes, Centre(width, height));
  }

  /** The replay rules for one more element x after the elements s. */
  lemma ReplayRules(s: seq<Stroke>, x: Stroke, start: Point)
    ensures var before, after := Replay(s, start), Replay(s + [x], start);
      && ((s == [] || x.penUp != 0.0) ==>
            after == Pen(before.at.Plus(x.Offset()), before.painted))
      && (s != [] && x.penUp == 0.0 && x.penDown != 0.0 ==>
            after == Pen(before.at.Plus(x.Offset()), before.painted + [Segment(before.at, before.at.Plus(x.Offset()))]))
      && (s != [] && x.penUp == 0.0 && x.penDown == 0.0 ==> after == before)
  {
    assert (s + [x])[..|s|] == s;
  }

  // ----- An independent, absolute-position description of replay -----

  /** How far element i moves the pen. */
  function Motion(i: nat, s: Stroke): Point
  {
    if Jumps(i, s) || s.penDown != 0.0 then s.Offset() else Zero
  }

  /** The absolute pen position after strokes: start plus all motions. */
  function PenAt(strokes: seq<Stroke>, start: Point): Point
  {
    if strokes == [] then start
    else
      var n := |strokes| - 1;
      PenAt(strokes[..n], start).Plus(Motion(n, strokes[n]))
  }

  /** The segment element i paints: from the pen position before it to the one after it. */
  function PaintedAt(strokes: seq<Stroke>, start: Point, i: nat): Segment
    requires i < |strokes|
  {
    Segment(PenAt(strokes[..i], start), PenAt(strokes[..i + 1], start))
  }

  /** The indices of the elements that paint, in increasing order: exactly
      those i > 0 with pen_up zero and pen_down non-zero. */
  function PaintingIndices(strokes: seq<Stroke>): (r: seq<nat>)
    ensures forall j :: 0 <= j < |r| ==> r[j] < |strokes| && Paints(r[j], strokes[r[j]])
    ensures forall i :: 0 <= i < |strokes| && Paints(i, strokes[i]) ==> i in r
    ensures forall j, k :: 0 <= j < k < |r| ==> r[j] < r[k]
  {
    if strokes == [] then []
    else
      var n := |strokes| - 1;
      PaintingIndices(strokes[..n]) + (if Paints(n, strokes[n]) then [n] else [])
  }

  /** Replay paints one segment per painting index, in index order, each
      between the absolute positions around that element, and leaves the
      pen at the absolute end position. */
  lemma {:induction false} ReplayReference(strokes: seq<Stroke>, start: Point)
    ensures Replay(strokes, start).at == PenAt(strokes, start)
    ensures |Replay(strokes, start).painted| == |PaintingIndices(strokes)|
    ensures forall j :: 0 <= j < |PaintingIndices(strokes)| ==>
      Replay(strokes, start).painted[j] == PaintedAt(strokes, start, PaintingIndices(strokes)[j])
  {
    if strokes != [] {
      var n := |strokes| - 1;
      var front := strokes[..n];
      ReplayReference(front, start);
      var indices := PaintingIndices(front);
      forall j | 0 <= j < |indices|
        ensures PaintedAt(front, start, indices[j]) == PaintedAt(strokes, start, indices[j])
      {
        var i := indices[j];
        assert front[..i] == strokes[..i];
        assert front[..i + 1] == strokes[..i + 1];
      }
      assert strokes[..n + 1] == strokes;
    }
  }

  /** Two sequences that differ at most in their pen_end columns. */
  predicate SameButPenEnd(a: seq<Stroke>, b: seq<Stroke>)
  {
    |a| == |b| && forall i :: 0 <= i < |a| ==> a[i].(penEnd := b[i].penEnd) == b[i]
  }

  /** pen_end has no effect on replay. */
  lemma {:induction false} PenEndIgnored(a: seq<Stroke>, b: seq<Stroke>, start: Point)
    requires SameButPenEnd(a, b)
    ensures Replay(a, start) == Replay(b, start)
  {
    if a != [] {
      var n := |a| - 1;
      PenEndIgnored(a[..n], b[..n], start);
    }
  }

  // ----- Replaying what the recorder produced -----

  /** After elements pre that leave the pen at ps[0] + off, the move tuples of
      a drag through ps paint that drag's incremental segments shifted by off. */
  lemma {:induction false} ReplayDeltas(pre: seq<Stroke>, ps: seq<Point>, start: Point, off: Point)
    requires pre != [] && ps != []
    requires Replay(pre, start).at == ps[0].Plus(off)
    ensures Replay(pre + Deltas(ps), start)
         == Pen(Last(ps).Plus(off), Replay(pre, start).painted + Shifted(Incremental(ps), off))
  {
    var goal := Pen(Last(ps).Plus(off), Replay(pre, start).painted + Shifted(Incremental(ps), off));
    if |ps| == 1 {
      assert Replay(pre + Deltas(ps), start) == goal by {
        assert pre + Deltas(ps) == pre;
        assert Shifted(Incremental(ps), off) == [];
      }
    } else {
      var n := |ps| - 1;
      var front := ps[..n];
      assert Replay(pre + Deltas(ps), start) == goal by {
        DeltasSnoc(ps);
        ReplayDeltas(pre, front, start, off);
        var d := Delta(ps[n - 1], ps[n]);
        var prior := pre + Deltas(front);
        assert pre + Deltas(ps) == prior + [d];
        ReplayRules(prior, d, start);
        ShiftedSnoc(Incremental(front), Segment(ps[n - 1], ps[n]), off);
      }
    }
  }

  lemma ShiftedSnoc(segs: seq<Segment>, g: Segment, v: Point)
    ensures Shifted(segs + [g], v) == Shifted(segs, v) + [g.Shift(v)]
  {
  }

  /** A gesture recorded at the head of the sequence replays as the segments
      painted while drawing it, translated so that its first point lands on
      start. */
  lemma ReplayFirstRecording(ps: seq<Point>, start: Point)
    requires ps != []
    ensures var off := start.Minus(ps[0]);
      Replay(Recorded(ps), start) == Pen(Last(ps).Plus(off), Shifted(Incremental(ps), off))
  {
    var off := start.Minus(ps[0]);
    var body := [StartMarker] + Deltas(ps);
    assert Replay([StartMarker], start) == Pen(start, []) by {
      ReplayRules([], StartMarker, start);
      assert [] + [StartMarker] == [StartMarker];
    }
    ReplayDeltas([StartMarker], ps, start, off);
    assert Recorded(ps) == body + [EndMarker];
    ReplayRules(body, EndMarker, start);
  }

  /** A gesture recorded after earlier elements replays from wherever those
      left the pen e: a zero-length segment at e for its start marker, then
      its incremental segments translated so that its first point lands on e. */
  lemma ReplayLaterRecording(pre: seq<Stroke>, ps: seq<Point>, start: Point)
    requires pre != [] && ps != []
    ensures var e := Replay(pre, start).at;
            var off := e.Minus(ps[0]);
      Replay(pre + Recorded(ps), start)
        == Pen(Last(ps).Plus(off), Replay(pre, start).painted + [Segment(e, e)] + Shifted(Incremental(ps), off))
  {
    var e := Replay(pre, start).at;
    var off := e.Minus(ps[0]);
    var withStart := pre + [StartMarker];
    assert Replay(withStart, start) == Pen(e, Replay(pre, start).painted + [Segment(e, e)]) by {
      ReplayRules(pre, StartMarker, start);
    }
    ReplayDeltas(withStart, ps, start, off);
    var body := withStart + Deltas(ps);
    assert pre + Recorded(ps) == body + [EndMarker];
    ReplayRules(body, EndMarker, start);
  }
}
