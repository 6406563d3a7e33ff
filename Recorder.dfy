/** The stroke recorder of the drawing widget: the pointer handlers as a state
    machine over `drawing`, `lastPos` and the append-only `strokes` list, first
    as pure transition functions, then as the component class whose handler
    methods update those fields in place. Painting (drawLine, clearRect) and
    the onStrokesChange callback are recorded in two logs. */
module Recorder {
  import opened Strokes
  import Renderer

  datatype Option<T> = None | Some(value: T)

  /** Surface size used when the width or height property is not given. */
  const DefaultWidth := 600.0
  const DefaultHeight := 400.0

  /** Everything a handler reads or changes: the three state variables, the
      segments painted since the surface was last cleared, and the arguments
      of every onStrokesChange call so far. */
  datatype State = State(
    drawing: bool,
    lastPos: Option<Point>,
    strokes: seq<Stroke>,
    canvas: seq<Segment>,
    published: seq<seq<Stroke>>)

  const Initial := State(false, None, [], [], [])

  /** A pointer event with its surface position, None when none could be read;
      mouse-leave is dispatched to the same handler as Up. */
  datatype Event = Down(pos: Option<Point>) | Move(pos: Option<Point>) | Up | Reset

  /** handlePointerDown: no check of `drawing`; a down inside an open stroke
      appends another start marker. */
  function OnDown(st: State, pos: Option<Point>): State
  {
    if pos.None? then st
    else st.(drawing := true, lastPos := pos, strokes := st.strokes + [StartMarker])
  }

  /** handlePointerMove: ignored unless a stroke is open with a known last position. */
  function OnMove(st: State, pos: Option<Point>): State
  {
    if !st.drawing || st.lastPos.None? || pos.None? then st
    else
      var p, q := st.lastPos.value, pos.value;
      st.(strokes := st.strokes + [Delta(p, q)], canvas := st.canvas + [Segment(p, q)], lastPos := pos)
  }

  /** handlePointerUp: ignored unless a stroke is open. */
  function OnUp(st: State): State
  {
    if !st.drawing then st
    else
      var updated := st.strokes + [EndMarker];
      st.(drawing := false, lastPos := None, strokes := updated, published := st.published + [updated])
  }

  /** handleReset: `drawing` and `lastPos` are kept as they are. */
  function OnReset(st: State): State
  {
    st.(strokes := [], canvas := [], published := st.published + [[]])
  }

  function Handle(st: State, e: Event): State
  {
    match e
    case Down(pos) => OnDown(st, pos)
    case Move(pos) => OnMove(st, pos)
    case Up => OnUp(st)
    case Reset => OnReset(st)
  }

  /** The state after handling events in order, each to completion. */
  function Run(st: State, events: seq<Event>): State
  {
    if events == [] then st
    else
      var n := |events| - 1;
      Handle(Run(st, events[..n]), events[n])
  }

  /** Down at ps[0], then a move to each later point. */
  function Drag(ps: seq<Point>): seq<Event>
    requires ps != []
  {
    [Down(Some(ps[0]))] + seq(|ps| - 1, k requires 0 <= k < |ps| - 1 => Move(Some(ps[k + 1])))
  }

  /** The events of one gesture: the drag through ps, then up. */
  function Gesture(ps: seq<Point>): seq<Event>
    requires ps != []
  {
    Drag(ps) + [Up]
  }

  lemma RunSnoc(st: State, events: seq<Event>, e: Event)
    ensures Run(st, events + [e]) == Handle(Run(st, events), e)
  {
    assert (events + [e])[..|events|] == events;
  }

  lemma {:induction false} RunConcat(st: State, a: seq<Event>, b: seq<Event>)
    ensures Run(st, a + b) == Run(Run(st, a), b)
    decreases |b|
  {
    if b == [] {
      assert a + b == a;
    } else {
      var n := |b| - 1;
      RunConcat(st, a, b[..n]);
      assert a + b == (a + b[..n]) + [b[n]];
      RunSnoc(st, a + b[..n], b[n]);
      RunSnoc(Run(st, a), b[..n], b[n]);
      assert b == b[..n] + [b[n]];
    }
  }

  /** Down followed by moves through ps: the stroke is open at the last point,
      the start marker and one delta per move are appended, and one segment per
      move is painted. */
  lemma {:induction false} OpenGesture(st: State, ps: seq<Point>)
    requires ps != []
    ensures Run(st, Drag(ps)) == st.(drawing := true, lastPos := Some(Last(ps)),
                             strokes := st.strokes + [StartMarker] + Deltas(ps),
                             canvas := st.canvas + Incremental(ps))
  {
    var goal := st.(drawing := true, lastPos := Some(Last(ps)),
                    strokes := st.strokes + [StartMarker] + Deltas(ps),
                    canvas := st.canvas + Incremental(ps));
    if |ps| == 1 {
      assert Run(st, Drag(ps)) == goal by {
        assert Drag(ps) == [] + [Down(Some(ps[0]))];
        RunSnoc(st, [], Down(Some(ps[0])));
        assert Deltas(ps) == [] && Incremental(ps) == [];
        assert st.strokes + [StartMarker] + Deltas(ps) == st.strokes + [StartMarker];
        assert st.canvas + Incremental(ps) == st.canvas;
      }
    } else {
      var n := |ps| - 1;
      var front := ps[..n];
      assert Run(st, Drag(ps)) == goal by {
        OpenGesture(st, front);
        DeltasSnoc(ps);
        assert Drag(ps) == Drag(front) + [Move(Some(ps[n]))];
        RunSnoc(st, Drag(front), Move(Some(ps[n])));
        var mid := Run(st, Drag(front));
        assert mid.lastPos == Some(ps[n - 1]) && mid.drawing;
        assert Run(st, Drag(ps)) == OnMove(mid, Some(ps[n]));
        assert mid.strokes + [Delta(ps[n - 1], ps[n])] == st.strokes + [StartMarker] + Deltas(ps);
        assert mid.canvas + [Segment(ps[n - 1], ps[n])] == st.canvas + Incremental(ps);
      }
    }
  }

  /** One whole gesture, from any state, appends exactly Recorded(ps), paints
      the incremental segments, closes the stroke and publishes the new list. */
  lemma GestureRecording(st: State, ps: seq<Point>)
    requires ps != []
    ensures var added := st.strokes + Recorded(ps);
      Run(st, Gesture(ps)) == st.(drawing := false, lastPos := None, strokes := added,
                                  canvas := st.canvas + Incremental(ps),
                                  published := st.published + [added])
  {
    OpenGesture(st, ps);
    RunSnoc(st, Drag(ps), Up);
    var mid := Run(st, Drag(ps));
    assert Run(st, Gesture(ps)) == OnUp(mid);
    assert mid.strokes + [EndMarker] == st.strokes + Recorded(ps);
  }

  /** The dx and dy columns a gesture appends sum to its last point minus its first. */
  lemma GestureTelescopes(st: State, ps: seq<Point>)
    requires ps != []
    ensures var after := Run(st, Gesture(ps)).strokes;
      |after| == |st.strokes| + |ps| + 1 && Sum(after[|st.strokes|..]) == Last(ps).Minus(ps[0])
  {
    GestureRecording(st, ps);
    var after := st.strokes + Recorded(ps);
    assert after[|st.strokes|..] == Recorded(ps);
    RecordedShape(ps);
    RecordedTelescopes(ps);
  }

  /** Two gestures in a row concatenate into one list with two start markers. */
  lemma TwoGestures(st: State, ps: seq<Point>, qs: seq<Point>)
    requires ps != [] && qs != []
    ensures Run(st, Gesture(ps) + Gesture(qs)).strokes == st.strokes + Recorded(ps) + Recorded(qs)
  {
    RunConcat(st, Gesture(ps), Gesture(qs));
    GestureRecording(st, ps);
    GestureRecording(Run(st, Gesture(ps)), qs);
  }

  /** Redrawing after the first gesture on a fresh widget paints exactly the
      segments painted live while drawing it, moved so that its first point
      sits at the centre of the surface. */
  lemma FirstGestureRedraw(ps: seq<Point>, width: real, height: real)
    requires ps != []
    ensures var st := Run(Initial, Gesture(ps));
            var centre := Renderer.Centre(width, height);
      Renderer.Replay(st.strokes, centre).painted == Shifted(st.canvas, centre.Minus(ps[0]))
  {
    GestureRecording(Initial, ps);
    assert Initial.strokes + Recorded(ps) == Recorded(ps);
    assert Initial.canvas + Incremental(ps) == Incremental(ps);
    Renderer.ReplayFirstRecording(ps, Renderer.Centre(width, height));
  }

  /** Begin at (100,100), move to (110,100) and to (110,120), end. */
  lemma SquareCornerExample()
    ensures Run(Initial, Gesture([Point(100.0, 100.0), Point(110.0, 100.0), Point(110.0, 120.0)])).strokes
         == [StartMarker, Stroke(10.0, 0.0, 1.0, 0.0, 0.0), Stroke(0.0, 20.0, 1.0, 0.0, 0.0), EndMarker]
  {
    var ps := [Point(100.0, 100.0), Point(110.0, 100.0), Point(110.0, 120.0)];
    GestureRecording(Initial, ps);
    assert Deltas(ps) == [Delta(ps[0], ps[1]), Delta(ps[1], ps[2])];
  }

  /** Mouse-leave then mouse-up: the second call finds no open stroke, so
      only one end marker is appended and only one list is published. */
  lemma LeaveThenUp(st: State)
    ensures Run(st, [Up, Up]) == Run(st, [Up])
    ensures |Run(st, [Up]).strokes| == |st.strokes| + (if st.drawing then 1 else 0)
  {
    RunSnoc(st, [], Up);
    RunSnoc(st, [Up], Up);
    assert [Up] + [Up] == [Up, Up];
    assert [] + [Up] == [Up];
  }

  /** Without Reset events the stroke list and the published log only grow,
      and every accepted event appends at most one tuple. */
  lemma {:induction false} AppendOnly(st: State, events: seq<Event>)
    requires forall i :: 0 <= i < |events| ==> !events[i].Reset?
    ensures var after := Run(st, events);
      |st.strokes| <= |after.strokes| <= |st.strokes| + |events| &&
      after.strokes[..|st.strokes|] == st.strokes &&
      |st.published| <= |after.published| &&
      after.published[..|st.published|] == st.published
  {
    if events != [] {
      var n := |events| - 1;
      AppendOnly(st, events[..n]);
      var mid := Run(st, events[..n]);
      var next := Handle(mid, events[n]);
      assert next.strokes[..|mid.strokes|] == mid.strokes;
      assert next.strokes[..|st.strokes|] == mid.strokes[..|st.strokes|];
      assert next.published[..|st.published|] == mid.published[..|st.published|];
    }
  }

  // ----- The shape of the stroke list -----

  /** A tuple the recorder can append: a start marker, a move, or an end marker. */
  predicate Recordable(s: Stroke)
  {
    s == EndMarker || (s.penDown == 1.0 && s.penUp == 0.0 && s.penEnd == 0.0)
  }

  /** The recorder's invariant: an open stroke has a last position and a
      non-empty list, the list starts with a start marker, and every tuple is
      recordable. */
  predicate WellFormed(st: State)
  {
    && (st.drawing <==> st.lastPos.Some?)
    && (st.drawing ==> st.strokes != [])
    && (st.strokes != [] ==> st.strokes[0] == StartMarker)
    && forall i :: 0 <= i < |st.strokes| ==> Recordable(st.strokes[i])
  }

  /** Every event keeps the invariant, except a Reset while a stroke is open. */
  lemma HandleKeepsWellFormed(st: State, e: Event)
    requires WellFormed(st)
    requires !(e.Reset? && st.drawing)
    ensures WellFormed(Handle(st, e))
  {
  }

  /** Every run from a fresh widget in which no reset arrives while a stroke
      is open ends in a well-formed state. */
  lemma {:induction false} RunKeepsWellFormed(events: seq<Event>)
    requires forall i :: 0 <= i < |events| && events[i].Reset? ==> !Run(Initial, events[..i]).drawing
    ensures WellFormed(Run(Initial, events))
  {
    if events != [] {
      var n := |events| - 1;
      forall i | 0 <= i < n && events[..n][i].Reset?
        ensures !Run(Initial, events[..n][..i]).drawing
      {
        assert events[..n][..i] == events[..i];
      }
      RunKeepsWellFormed(events[..n]);
      HandleKeepsWellFormed(Run(Initial, events[..n]), events[n]);
    }
  }

  /** Reset does not close an open stroke, so a move right after it appends a
      delta as the first tuple of the new list instead of a start marker. */
  lemma ResetDuringStroke(p: Point, q: Point)
    requires p != q
    ensures var after := Run(Initial, [Down(Some(p)), Reset, Move(Some(q))]);
      after.drawing && after.strokes == [Delta(p, q)] && after.strokes[0] != StartMarker
      && !WellFormed(after)
  {
    RunSnoc(Initial, [], Down(Some(p)));
    assert [] + [Down(Some(p))] == [Down(Some(p))];
    RunSnoc(Initial, [Down(Some(p))], Reset);
    assert [Down(Some(p))] + [Reset] == [Down(Some(p)), Reset];
    RunSnoc(Initial, [Down(Some(p)), Reset], Move(Some(q)));
    assert [Down(Some(p)), Reset] + [Move(Some(q))] == [Down(Some(p)), Reset, Move(Some(q))];
  }

  // ----- The component, updating its fields in place -----

  class DrawingCanvas {
    const width: real
    const height: real
    var drawing: bool
    var lastPos: Option<Point>
    var strokes: seq<Stroke>
    /** Segments painted since the surface was last cleared. */
    ghost var canvas: seq<Segment>
    /** Every list passed to onStrokesChange, oldest first. */
    ghost var published: seq<seq<Stroke>>

    ghost function Snapshot(): State
      reads this
    {
      State(drawing, lastPos, strokes, canvas, published)
    }

    constructor (width: Option<real>, height: Option<real>)
      ensures this.width == (if width.Some? then width.value else DefaultWidth)
      ensures this.height == (if height.Some? then height.value else DefaultHeight)
      ensures Snapshot() == Initial
    {
      this.width := if width.Some? then width.value else DefaultWidth;
      this.height := if height.Some? then height.value else DefaultHeight;
      drawing := false;
      lastPos := None;
      strokes := [];
      canvas := [];
      published := [];
    }

    method PointerDown(pos: Option<Point>)
      modifies this
      ensures Snapshot() == OnDown(old(Snapshot()), pos)
      ensures pos.None? ==> unchanged(this)
      ensures pos.Some? ==> drawing && lastPos == pos && strokes == old(strokes) + [StartMarker]
      ensures canvas == old(canvas) && published == old(published)
    {
      if pos.None? {
        return;
      }
      drawing := true;
      lastPos := pos;
      strokes := strokes + [StartMarker];
    }

    method PointerMove(pos: Option<Point>)
      modifies this
      ensures Snapshot() == OnMove(old(Snapshot()), pos)
      ensures !old(drawing) || old(lastPos).None? || pos.None? ==> unchanged(this)
      ensures old(drawing) && old(lastPos).Some? && pos.Some? ==>
        var p, q := old(lastPos).value, pos.value;
        && strokes == old(strokes) + [Delta(p, q)]
        && canvas == old(canvas) + [Segment(p, q)]
        && lastPos == pos && drawing
      ensures published == old(published)
    {
      if !drawing || lastPos.None? {
        return;
      }
      if pos.None? {
        return;
      }
      var p, q := lastPos.value, pos.value;
      strokes := strokes + [Stroke(q.x - p.x, q.y - p.y, 1.0, 0.0, 0.0)];
      canvas := canvas + [Segment(p, q)];
      lastPos := pos;
    }

    method PointerUp()
      modifies this
      ensures Snapshot() == OnUp(old(Snapshot()))
      ensures !old(drawing) ==> unchanged(this)
      ensures old(drawing) ==>
        && !drawing && lastPos.None?
        && strokes == old(strokes) + [EndMarker]
        && published == old(published) + [strokes]
      ensures canvas == old(canvas)
    {
      if !drawing {
        return;
      }
      drawing := false;
      lastPos := None;
      var updated := strokes + [EndMarker];
      published := published + [updated];
      strokes := updated;
    }

    method Reset()
      modifies this
      ensures Snapshot() == OnReset(old(Snapshot()))
      ensures strokes == [] && canvas == [] && published == old(published) + [[]]
      ensures drawing == old(drawing) && lastPos == old(lastPos)
    {
      strokes := [];
      canvas := [];
      published := published + [[]];
    }

    /** Clears the surface and replays the stroke list from its centre; the
        result depends on strokes, width and height only, so a second call
        paints the same segments again. */
    method Redraw() returns (painted: seq<Segment>)
      modifies this`canvas
      ensures painted == Renderer.Replay(strokes, Renderer.Centre(width, height)).painted
      ensures canvas == painted
    {
      painted := Renderer.Redraw(strokes, width, height);
      canvas := painted;
    }
  }
}
