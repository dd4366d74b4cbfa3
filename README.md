# Freehand stroke model of the drawing canvas

This project models the stroke state of the `DrawingCanvas` component of a
small React Native drawing app. The user drags a finger over an image. A pan
gesture turns the drag into freehand strokes, and a vector canvas draws them.

- **State.** `paths` is a list of stroke objects `{segments, color}`.
  `segments` holds path commands: one `M x y` (move to), then `L x y` (line to)
  entries. `color` is always `#06d6a0`.
- **addNewPath(x, y)** copies the list and appends a new stroke
  `{segments: ['M x y'], color: '#06d6a0'}`.
- **updateCurrentPath(x, y)** copies the list. If the list is non-empty, it
  pushes `L x y` into the segments of the last stroke object. The copy is
  shallow, so that object is shared with the previous list, which sees the push
  too.
- **Pan wiring.** `onStart` calls addNewPath and every `onUpdate` calls
  updateCurrentPath.
- **Rendering.** Each stroke is handed to the renderer as
  `segments.join(' ')` with its colour.

Layout:

- `decimal.dfy`: `Wrappers.Option`; `Decimal`, the decimal text of a
  coordinate as a template literal renders an integral number, with a parser
  and its round trip.
- `segments.dfy`: `Segments`. A segment is a tagged value `M(x, y)` / `L(x, y)`.
  It has a text, a path string is the texts joined by single spaces, and
  `ParsePath` reads a path string back.
- `strokes.dfy`: `Strokes`, the stroke list as a value. `AddPath` and
  `UpdatePath` are the two updates, `WellFormed` is the stroke-shape invariant,
  and `Render` gives the per-stroke path elements.
- `pan_gesture.dfy`: `PanGesture`. Gesture events, `Step` (one handler call)
  and `Replay` (the left fold of the handlers over a run of events).
- `drawing_canvas.dfy`: `Canvas`, the imperative model. `MutableStroke` is a
  stroke object whose `segments` field grows in place. `DrawingCanvas` holds
  `paths: seq<MutableStroke>`, a list of references. Each method is proved
  against the value functions of `Strokes` / `PanGesture` through
  `Contents()`. `UpdateCurrentPath` writes only the last stroke object and
  keeps the same references (`paths == old(paths)`). `SharedLastStroke` shows
  that a list taken before the update sees the new segment.

Three facts about the code that the model keeps:

- Every stroke gets the hard-coded colour `#06d6a0`.
- addNewPath returns nothing.
- updateCurrentPath pushes into the last stroke object, which is shared with
  the previous list. Only the outer list is copied.

## Model

| member | source | states |
|---|---|---|
| Canvas.MutableStroke.constructor | DrawingCanvas.js:48-51 | a new stroke object holds exactly the segment `M x y` and the colour `#06d6a0` |
| Canvas.DrawingCanvas.constructor | DrawingCanvas.js:25 | the canvas starts with no strokes, and the empty state satisfies the invariant |
| Canvas.DrawingCanvas.AddNewPath | DrawingCanvas.js:45-54 | keeps the invariant; the reference list grows by one fresh stroke object at the end and earlier references keep their places; the stroke values become `AddPath` of the old ones |
| Canvas.DrawingCanvas.UpdateCurrentPath | DrawingCanvas.js:56-64 | writes only the last stroke object; the list keeps the same references (the shallow copy); the stroke values become `UpdatePath` of the old ones; the invariant is kept |
| Canvas.DrawingCanvas.HandlePan | DrawingCanvas.js:66-73 | a Start event runs addNewPath and an Update event runs updateCurrentPath, so the stroke values become `Step` of the old ones |
| Canvas.SharedLastStroke | DrawingCanvas.js:45-64 | a Start then an Update through the pan handlers on a fresh canvas: the list taken before the update and the list after it are the same references, so both show the one stroke `[M x0 y0, L x1 y1]` in colour `#06d6a0` |
| Strokes.AddPath | DrawingCanvas.js:45-54 | addNewPath adds exactly one stroke; all earlier strokes keep their values and positions; the new last stroke is `[M x y]` with colour `#06d6a0` |
| Strokes.UpdatePath | DrawingCanvas.js:56-64 | the stroke count is unchanged; an empty list is returned empty; on a non-empty list every stroke but the last is unchanged and the last stroke's segments gain `L x y` at the end; no colour changes |
| Strokes.AddPathWellFormed | DrawingCanvas.js:48-51 | addNewPath keeps every stroke as one move-to followed only by line-tos, in the canvas colour |
| Strokes.UpdatePathWellFormed | DrawingCanvas.js:59-60 | updateCurrentPath keeps every stroke as one move-to followed only by line-tos |
| Strokes.Render | DrawingCanvas.js:144-151 | one rendered path element per stroke, in drawing order (what each element carries is stated by `Strokes.RenderFaithful`) |
| Strokes.RenderFaithful | DrawingCanvas.js:144-151 | each rendered element's path string reads back as exactly that stroke's segments and carries its colour; for a well-formed drawing each path string starts with `M ` |
| Strokes.RenderInjective | DrawingCanvas.js:144-151 | two stroke lists that render to the same elements are equal |
| PanGesture.Step | DrawingCanvas.js:66-73 | a Start (addNewPath) adds one stroke after the existing ones, which it keeps; an Update (updateCurrentPath) keeps the count and every stroke but the last |
| PanGesture.Replay | DrawingCanvas.js:66-73 | handling a run of events in order grows the stroke list by exactly the number of Start events |
| PanGesture.ReplayAppend | DrawingCanvas.js:66-73 | handling events `a` and then `b` gives the same strokes as handling `a + b` |
| PanGesture.ReplayWellFormed | DrawingCanvas.js:66-73 | any run of Start/Update events keeps every stroke as one move-to followed only by line-tos, in the canvas colour |
| PanGesture.UpdatesWithoutStartIgnored | DrawingCanvas.js:56-64 | Update events before any Start leave the empty list empty |
| PanGesture.ReplayGesture | DrawingCanvas.js:45-73 | one Start and then n Updates add exactly one stroke of 1 + n segments, `M x0 y0` then the `L` points in update order, in the canvas colour; earlier strokes are untouched |
| PanGesture.GestureKeepsEarlierStrokes | DrawingCanvas.js:45-73 | events that begin with a Start never change the strokes already present |
| PanGesture.TwoGesturesIsolated | DrawingCanvas.js:45-73 | a second gesture appends after the first gesture's strokes and leaves all of them unchanged |
| PanGesture.RenderedGesture | DrawingCanvas.js:147 | a gesture stroke's path string starts with `M ` and reads back as its move-to followed by one line-to per update, in order |
| PanGesture.ExampleDrag | DrawingCanvas.js:45-73 | a drag from (10,10) through (12,10), (20,10), (20,20) gives one stroke rendered `M 10 10 L 12 10 L 20 10 L 20 20` |
| PanGesture.ExampleSegmentTexts | DrawingCanvas.js:49 | segment texts for concrete points are `M 10 10`, `L 12 10` and so on |
| Segments.SegmentText | DrawingCanvas.js:49 | a segment's template string has at least five characters and starts with its tag letter and a space (`M ` or `L `) |
| Segments.Join | DrawingCanvas.js:147 | `join(' ')` of no words is the empty string; otherwise the result starts with the first word |
| Segments.PathString | DrawingCanvas.js:147 | an empty stroke renders as the empty string; otherwise the path string starts with the first segment's text |
| Segments.PathStringStartsWithMove | DrawingCanvas.js:147 | the path string of a stroke that opens with a move-to starts with `M ` |
| Segments.PathRoundTrip | DrawingCanvas.js:147 | parsing the joined path string gives back exactly the segment list, in order |
| Segments.PathStringInjective | DrawingCanvas.js:147 | distinct segment lists render to distinct path strings |
| Segments.PathStringSnoc | DrawingCanvas.js:147 | pushing one segment extends the path string by a single space and that segment's text |
| Segments.SplitJoin | DrawingCanvas.js:147 | splitting space-joined, space-free words at spaces gives back the words |
| Decimal.IntRoundTrip | DrawingCanvas.js:49 | the text of a coordinate in a segment reads back as that coordinate |
| Decimal.IntToStringInjective | DrawingCanvas.js:60 | distinct coordinates get distinct texts |
| Decimal.IntToString | DrawingCanvas.js:49 | a coordinate's text is non-empty and contains no space |

## Left out

- `saveImage` and `refreshMediaStore` (DrawingCanvas.js:83-131). They are async platform I/O: view capture, resizing to 300x300, file copy to a `drawing_<Date.now()>.jpeg` path, and media scan or camera roll. They call foreign libraries and depend on the clock and the filesystem.
- `requestStoragePermission` (DrawingCanvas.js:28-43) and `pickImage` (DrawingCanvas.js:75-81), with the `imageUri` state. These are OS permission and image-picker callbacks.
- The gesture library's `minDistance(1)` filter and the `runOnJS` thread hop (DrawingCanvas.js:66-73). Only the resulting sequence of handler calls is modelled.
- React's `setPaths` updater protocol. The updater is applied once, directly, to the current state. The re-render that a new array identity triggers is not modelled, because a Dafny `seq` has no identity.
- Skia drawing, `strokeWidth={5}`, `style="stroke"`, the `key` attribute, and all JSX and styles (DrawingCanvas.js:133-176). App.js only mounts the component and has no logic.
- Decimal.IntToString: coordinates are integers. The JavaScript number-to-string formatting of non-integral or very large floats, and of `-0` (which a template literal prints as `0`), is not modelled. For integral values within the exact range, the decimal form here is what a template literal prints.

