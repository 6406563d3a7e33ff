# Stroke recorder and replay of the DrawingCanvas widget

The `DrawingCanvas` component records a freehand pointer drag as a list of
SketchRNN-style "stroke-5" tuples `[dx, dy, pen_down, pen_up, pen_end]`. A
pointer-down appends the start marker `[0,0,1,0,0]`. Each move appends the
displacement from the last position and paints that segment at once. A
pointer-up (or a mouse-leave) appends the end marker `[0,0,0,1,0]` and hands
the whole list to `onStrokesChange`. `redraw` clears the surface and replays
the list from the centre of the surface. The first element, and any element
with `pen_up` set, moves the pen without painting. Any other element with
`pen_down` set paints the segment it moves along.

This project models that component in Dafny and proves what its code does:

- `Strokes.dfy` holds the data model: points, tuples, segments and the two markers. It also holds the encoding of one gesture (`Recorded`, `Deltas`, `Incremental`) and the telescoping of its dx/dy sums.
- `Renderer.dfy` holds the replay. `Replay` is the specification function, and `Redraw` is the loop, proved equal to it. An independent absolute-position description (`PenAt`, `PaintingIndices`, `PaintedAt`) is proved to agree with replay. The file also proves what replaying a recorded gesture paints.
- `Recorder.dfy` holds the handlers as pure transitions over a `State` value (`OnDown`, `OnMove`, `OnUp`, `OnReset`, folded over an event list by `Run`). The component itself is the class `DrawingCanvas`: its fields are `drawing`, `lastPos` and `strokes`, plus two ghost logs. One log holds the segments painted since the last clear, the other every list passed to `onStrokesChange`. Each handler method states its new fields outright and is tied to its transition function through `Snapshot()`, so the lemmas about `Run` apply to the object.

Coordinates are exact reals. A flag is "set" when it is non-zero, which is JavaScript truthiness for numbers.

Two behaviours of the code are easy to miss:

- `handlePointerDown` does not check `drawing`. A second down inside an open stroke appends another start marker and moves `lastPos`, so the second down is recorded, not ignored.
- `handleReset` empties `strokes`, clears the surface and publishes `[]`. It leaves `drawing` and `lastPos` as they are, so it does not close an open stroke. As a consequence, the "list always starts with a start marker" invariant holds only as long as no reset arrives while a stroke is open. `HandleKeepsWellFormed` proves that every other event keeps the invariant, including a reset while idle. `RunKeepsWellFormed` proves it for every run from a fresh widget in which no reset arrives during an open stroke. `ResetDuringStroke` exhibits the down, reset, move run that breaks it.

## Model

| member | source | states |
|---|---|---|
| Strokes.Delta | frontend/src/components/DrawingCanvas.tsx:59-62 | the tuple appended for a move from p to q decodes back to q when added to p, and carries pen_down 1, pen_up 0, pen_end 0 |
| Strokes.RecordedShape | frontend/src/components/DrawingCanvas.tsx:44-77 | a gesture through P0..Pn appends n+2 tuples: start marker first, end marker last, and Pk − P(k−1) in the k-th place |
| Strokes.DeltasTelescope | frontend/src/components/DrawingCanvas.tsx:59-62 | for every drag through P0..Pn, the dx sum and the dy sum of the move tuples it appends equal Pn − P0 |
| Strokes.RecordedTelescopes | frontend/src/components/DrawingCanvas.tsx:44-77 | the dx and dy sums over a whole recorded gesture, markers included, equal Pn − P0 |
| Renderer.Centre | frontend/src/components/DrawingCanvas.tsx:98-99 | replay starts at half the width and half the height |
| Renderer.Redraw | frontend/src/components/DrawingCanvas.tsx:94-115 | the loop returns exactly the segments of the replay specification, one per painting index |
| Renderer.ReplayRules | frontend/src/components/DrawingCanvas.tsx:100-114 | index 0 and any pen_up element move the pen without painting (pen_up wins over pen_down); a later pen_down element paints from the pen to the pen plus (dx, dy); a later element with both flags zero neither paints nor moves |
| Renderer.PaintingIndices | frontend/src/components/DrawingCanvas.tsx:100-112 | the painting elements are exactly the indices i > 0 with pen_up zero and pen_down non-zero, listed in increasing order |
| Renderer.ReplayReference | frontend/src/components/DrawingCanvas.tsx:98-114 | replay ends at the start point plus all motions; it paints as many segments as there are painting indices, the j-th running between the absolute positions before and after the j-th painting element |
| Renderer.PenEndIgnored | frontend/src/components/DrawingCanvas.tsx:101-113 | two lists that differ only in pen_end replay identically |
| Renderer.ReplayDeltas | frontend/src/components/DrawingCanvas.tsx:59-63 | once the pen stands at P0 + off, the move tuples of a drag paint that drag's live segments translated by off |
| Renderer.ReplayFirstRecording | frontend/src/components/DrawingCanvas.tsx:98-111 | a gesture at the head of the list replays as its live segments translated by start − P0, with no segment for the start marker |
| Renderer.ReplayLaterRecording | frontend/src/components/DrawingCanvas.tsx:102-111 | a gesture after earlier tuples paints a zero-length segment at the current pen position e for its start marker, then its live segments translated by e − P0 |
| Recorder.OpenGesture | frontend/src/components/DrawingCanvas.tsx:44-65 | down then moves through P0..Pn, from any state, leave the stroke open at Pn, append the start marker and the deltas, and paint the live segments |
| Recorder.GestureRecording | frontend/src/components/DrawingCanvas.tsx:44-78 | a whole gesture appends exactly Recorded(P0..Pn), paints the live segments, closes the stroke, clears lastPos and publishes exactly the updated list |
| Recorder.GestureTelescopes | frontend/src/components/DrawingCanvas.tsx:51-74 | a gesture grows the list by n+2 and its appended dx/dy sums equal Pn − P0 |
| Recorder.TwoGestures | frontend/src/components/DrawingCanvas.tsx:44-78 | two gestures concatenate their recordings in one list, each with its own start marker |
| Recorder.FirstGestureRedraw | frontend/src/components/DrawingCanvas.tsx:55-115 | after the first gesture on a fresh widget, redraw paints the live segments translated so that P0 lands on the centre |
| Recorder.SquareCornerExample | frontend/src/components/DrawingCanvas.tsx:44-77 | down (100,100), moves to (110,100) and (110,120), up give [0,0,1,0,0], [10,0,1,0,0], [0,20,1,0,0], [0,0,0,1,0] |
| Recorder.LeaveThenUp | frontend/src/components/DrawingCanvas.tsx:68-69 | a second up (mouse-leave then mouse-up) changes nothing, so one end marker is appended and one list published |
| Recorder.AppendOnly | frontend/src/components/DrawingCanvas.tsx:44-78 | without reset, events only append: the old list is a prefix of the new one, at most one tuple per event, and the published log only grows |
| Recorder.HandleKeepsWellFormed | frontend/src/components/DrawingCanvas.tsx:44-123 | every event except a reset during an open stroke keeps drawing ⇔ lastPos present, an open stroke's list non-empty, the start marker first and every tuple a marker or a pen-down move |
| Recorder.RunKeepsWellFormed | frontend/src/components/DrawingCanvas.tsx:44-123 | every run from a fresh widget in which no reset arrives while a stroke is open ends in a well-formed state |
| Recorder.ResetDuringStroke | frontend/src/components/DrawingCanvas.tsx:118-123 | reset leaves the stroke open, so down(p), reset, move(q) with p ≠ q yields a one-tuple list that starts with a delta, not with the start marker |
| Recorder.DrawingCanvas.constructor | frontend/src/components/DrawingCanvas.tsx:12-23 | width and height default to 600 and 400; the widget starts not drawing, with no last position, no tuples, a clear surface and nothing published |
| Recorder.DrawingCanvas.PointerDown | frontend/src/components/DrawingCanvas.tsx:44-52 | with a position, always (even inside an open stroke) appends [0,0,1,0,0], sets drawing and lastPos, and keeps earlier tuples; without one it changes nothing |
| Recorder.DrawingCanvas.PointerMove | frontend/src/components/DrawingCanvas.tsx:55-65 | when not drawing, without lastPos or without a position it changes nothing; otherwise it appends [pos − lastPos, 1, 0, 0], paints exactly the segment lastPos→pos and sets lastPos to pos |
| Recorder.DrawingCanvas.PointerUp | frontend/src/components/DrawingCanvas.tsx:68-78 | when not drawing it changes nothing; otherwise it appends [0,0,0,1,0], clears drawing and lastPos, and publishes exactly the updated list |
| Recorder.DrawingCanvas.Reset | frontend/src/components/DrawingCanvas.tsx:118-123 | empties the list, clears the surface and publishes []; drawing and lastPos keep their values |
| Recorder.DrawingCanvas.Redraw | frontend/src/components/DrawingCanvas.tsx:94-115 | clears the surface and paints exactly the replay of the current list from the centre; strokes is not modified and the result depends only on strokes, width and height, so a second call paints the same |

## Left out

- `getPos` (mouse/touch normalisation through `getBoundingClientRect`) is replaced by an optional position argument. No position means the event is ignored.
- Canvas context details (`strokeStyle`, `lineWidth`, `lineCap`, `beginPath`/`stroke`) are host drawing calls. `drawLine` is modelled as appending one segment to the ghost surface log, and `clearRect` as emptying it. A missing 2D context, which makes both do nothing, is not modelled.
- The `onStrokesChange` callback is optional in the source. The model logs every list the component would pass to it, whether or not a callback is attached.
- React machinery is not modelled: `useState` batching, handlers reading state from a stale render, and the functional `setStrokes` updater are collapsed into each handler running to completion on the current state.
- The effect that reruns `redraw` whenever `strokes` changes is not modelled. `Redraw` is a method the owner calls explicitly after a change.
- Logging `strokes` to the console is output only and is not modelled.
- JSX rendering, styling, the button wiring and the static page in `frontend/src/pages/Index.tsx` have no logic to model. The mapping of mouse-leave to the up handler is kept as the `Up` event.
- JavaScript numbers are IEEE doubles. The model uses exact reals, so rounding in the deltas, the sums and the centre is not captured. The telescoping and translation facts hold only in exact arithmetic.
