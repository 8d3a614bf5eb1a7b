# Sketchpad stroke machine

This project models the interactive sketchpad of `demo9/main.js` in Dafny and proves properties of the model. On the page, a paper.js drawing tool records freehand strokes, a THREE.js pencil follows the pointer, and a 2D shadow follows the pencil. The model keeps the program's state and its event handlers. It leaves out the rendering and the easing.

- `Geometry` (`geometry.dfy`): integer points, point addition and subtraction, the sketching rectangle and its containment test.
- `Strokes` (`strokes.dfy`): the state of the `Sketch` object as a value (`SketchState`): the drawing flag, the current path, the group of finished paths and the bounds. It has one function per handler (`Down`, `Drag`, `Up`, `Bound`), `Step` and `Run` to replay a sequence of events, and lemmas about single events and about whole strokes.
- `SketchTool` (`sketch.dfy`): the `Sketch` class with the program's fields (`group`, `isDrawing`, `currPath`, `sketchingBounds`) and a `Path` class whose points and closed flag the handlers change in place. Each handler's contract says that the object's abstract state `Snapshot()` moves exactly as the matching `Strokes` function says. So the lemmas of `Strokes` apply to any sequence of calls on a `Sketch` made once the bounds are set, as `App.Init` does before any event (`SketchTool.ValidSnapshot` states that a valid `Sketch` meets the invariant those lemmas require); `SketchTool.ReplayStroke` shows one such stroke end in the state `Strokes.Run` gives. `Valid()` keeps the in-progress path out of the group, so growing it never changes a finished path. It also keeps every path object in the group at most once.
- `PencilPose` (`pencil.dfy`): the pencil's `isDrawing` flag and the transitions that flip it. `IsDrawing()` is the getter that the move handler reads.
- `ShadowPose` (`shadow.dfy`): the shadow's `isDragging` flag and its position. Every method does nothing until the asset has arrived, and `Valid()` states that consequence.
- `Coordinator` (`coordinator.dfy`): the window size, the sketching bounds derived from it, the window-level mouse handlers and the choice of easing duration.

Modelling choices:

- Points are integer pairs. The drag's middle point and its step are parameters of the drag handler. The program computes the step as half the pointer delta rotated by 10 degrees, in floating point.
- The containment test is assumed to be closed on all four edges. A rectangle of negative width or height therefore contains nothing, which is what a window narrower than 100 pixels produces.
- The smoothing pass after each drag is treated as leaving the list of points unchanged. So after k drags inside the bounds a stroke has exactly 2k + 1 points, plus one more when it is closed.
- A field the program has not yet assigned is `None` (an `Option`) or `null`.
- Drag and mouse-up read the bounds only while a stroke is in progress. The model's handlers require bounds at exactly that point. The program meets this because `init` resizes synchronously, before any event can be delivered.

Behaviour of the code that is easy to misread, modelled as written:

- Mouse-down during a stroke does not refuse. It replaces the current path, and the old path never reaches the group (`Strokes.DownOpensFreshPath`).
- A finished stroke is closed only when the up point is inside the bounds. A stroke ended by leaving the bounds stays open (`Strokes.EscapedStroke`).
- The pencil's drawing flag and the stroke in progress do not change together. A drag out of bounds ends the stroke, but the pencil stays down until the window's mouse-up (`Coordinator.EscapeLeavesPencilDown`).

## Model

| member | source | states |
|---|---|---|
| `Strokes.Down` | demo9/main.js:21-28 | no ensures: the definition of onMouseDown on values; its promises are stated by `DownOpensFreshPath` |
| `Strokes.Drag` | demo9/main.js:30-47 | no ensures: the definition of onMouseDrag on values, defined only when a stroke in progress has its path and the bounds; its promises are stated by `IdleIgnoresDragAndUp`, `DragOutsideFinishes`, `DragInsideGrowsBothEnds` and `DragsInsideGrow` |
| `Strokes.Up` | demo9/main.js:49-60 | no ensures: the definition of onMouseUp on values, under the same condition as `Drag`; its promises are stated by `IdleIgnoresDragAndUp` and `UpFinishes` |
| `Strokes.Bound` | demo9/main.js:62-64 | no ensures: the definition of setSketchingBounds on values; `Coordinator.App.OnResize` and `ResizeThenDragOutside` state what it does to the state |
| `Strokes.DownOpensFreshPath` | demo9/main.js:21-28 | mouse-down always sets drawing and makes the current path a fresh open path holding only the down point, with the sketch's fill colour, even mid-stroke; group and bounds unchanged, so a dropped in-progress path never reaches the group |
| `Strokes.IdleIgnoresDragAndUp` | demo9/main.js:30-50 | while not drawing, drag and mouse-up leave the whole state unchanged |
| `Strokes.DragOutsideFinishes` | demo9/main.js:33-36 | a drag to a point outside the bounds equals mouse-up at that point: drawing stops, the path is neither extended nor closed and is appended to the group once |
| `Strokes.DragInsideGrowsBothEnds` | demo9/main.js:38-46 | a drag inside keeps drawing and adds exactly two points, `middle - step` first and `middle + step` last, with the old points in order between them; closed flag, fill, group and bounds unchanged |
| `Strokes.UpFinishes` | demo9/main.js:49-60 | mouse-up while drawing stops drawing and appends the current path to the end of the group exactly once, earlier paths unchanged; inside the bounds the up point is appended and the path closed, outside no point is added and it stays open |
| `Strokes.Step` | demo9/main.js:21-64 | every handler keeps the invariant that while drawing there is an open current path, and keeps the bounds set |
| `Strokes.Run` | demo9/main.js:7-64 | the invariant holds after any sequence of handler calls |
| `Strokes.GroupOnlyAppends` | demo9/main.js:59 | after any sequence of events the group begins with the paths it held before, unchanged, and has grown by at most one path per event |
| `Strokes.IdleIgnoresPointer` | demo9/main.js:30-50 | from an idle state any sequence of drags and mouse-ups without a mouse-down changes nothing |
| `Strokes.GrownShape` | demo9/main.js:38-45 | after k drags the path has 2k more points; the old points sit unchanged in the middle, the bottom points precede them in reverse drag order and the top points follow in drag order |
| `Strokes.DragsInsideGrow` | demo9/main.js:30-47 | drags that stay inside the bounds change only the current path's points, exactly as the repeated two-ended growth says |
| `Strokes.CompleteStroke` | demo9/main.js:21-60 | down, k drags inside, up inside: drawing stops and exactly one closed path with 2k + 2 points is added to the end of the group, the down point at index k and the up point last |
| `Strokes.EscapedStroke` | demo9/main.js:30-60 | down, drags inside, then a drag outside: drawing stops without a mouse-up and one open path holding only the points built so far is added to the group |
| `Strokes.ClosedStrokeExample` | demo9/main.js:21-60 | down at (10, 10), two drags, up at (22, 16) in a 100 x 100 rectangle at the origin gives one closed path of six given points |
| `Strokes.EscapedStrokeExample` | demo9/main.js:30-60 | down at (10, 10) and then a single drag event to (-10, 10), 20 pixels away and past the left edge of the same rectangle, give one open path holding only (10, 10), and drawing stops |
| `SketchTool.Sketch.constructor` | demo9/main.js:7-19 | a new sketch is idle, with an empty group, no current path and no bounds |
| `SketchTool.Sketch.OnMouseDown` | demo9/main.js:21-28 | the in-place handler allocates a fresh path, leaves the group and bounds alone, and moves the abstract state as `Strokes.Down` |
| `SketchTool.Sketch.OnMouseDrag` | demo9/main.js:30-47 | the in-place handler leaves the group alone or appends the current path object once, keeps the same path object, and moves the abstract state as `Strokes.Drag` |
| `SketchTool.Sketch.OnMouseUp` | demo9/main.js:49-60 | afterwards not drawing; the group gains the current path object at its end exactly when a stroke was in progress; abstract state moves as `Strokes.Up` |
| `SketchTool.ReplayStroke` | demo9/main.js:21-64 | on a fresh sketch with bounds set, mouse-down, a drag and mouse-up leave the object in exactly the state `Strokes.Run` gives for those three events |
| `SketchTool.ValidSnapshot` | demo9/main.js:21-64 | a sketch whose invariant holds is drawing only with an open current path, the state every `Strokes` lemma starts from |
| `SketchTool.Sketch.SetSketchingBounds` | demo9/main.js:62-64 | sets the bounds to the given rectangle and changes nothing else |
| `PencilPose.Pencil.Init` | demo9/main.js:84-88 | init records the canvas size and starts lifted |
| `PencilPose.Pencil.StartDrawing` | demo9/main.js:110-113 | the pencil's drawing flag becomes true, nothing else of the model changes |
| `PencilPose.Pencil.StopDrawing` | demo9/main.js:115-118 | the drawing flag becomes false |
| `PencilPose.Pencil.IsDrawing` | demo9/main.js:150-152 | no ensures: the getter `onMove` reads; `Coordinator.App.OnMove` states its use |
| `PencilPose.Pencil.OnMaterialsLoaded` | demo9/main.js:92-107 | the material-load continuation lifts the pencil again |
| `ShadowPose.Shadow.constructor` | demo9/main.js:167-187 | a new shadow has no graphic, is not dragging and has not moved |
| `ShadowPose.Shadow.OnAssetLoaded` | demo9/main.js:176-184 | when the graphic arrives it is kept and the shadow goes far: loaded, not dragging, position unchanged |
| `ShadowPose.Shadow.Move` | demo9/main.js:189-195 | without the graphic nothing changes; with it the shadow is placed at the given point |
| `ShadowPose.Shadow.GoNear` | demo9/main.js:197-204 | dragging becomes true exactly when the graphic is loaded; without it nothing changes |
| `ShadowPose.Shadow.GoFar` | demo9/main.js:206-213 | dragging becomes false; without the graphic nothing changes |
| `Coordinator.SketchingBounds` | demo9/main.js:301-313 | the bounds rectangle sits at (50, 50) with right and bottom edges 50 pixels inside the window's, so exactly the points at least 50 pixels from every window edge are inside |
| `Coordinator.MoveDuration` | demo9/main.js:324-325 | the easing duration is positive; the 0.05 s and 0.25 s values are its body, and `HoverFollowsMoreSlowly` gives the five-times ratio between them |
| `Coordinator.HoverFollowsMoreSlowly` | demo9/main.js:324-325 | while hovering the pencil follows the pointer more slowly than while drawing, taking five times as long |
| `Coordinator.ResizeThenDragOutside` | demo9/main.js:301-313 | after a resize that leaves a previously inside point outside, a drag to it ends the stroke and appends the current path, open, to the group |
| `Coordinator.App.Init` | demo9/main.js:276-280 | init creates an idle sketch, an unloaded shadow and a lifted pencil on the 1920 x 1080 canvas, then sets the bounds for the window size |
| `Coordinator.App.OnResize` | demo9/main.js:301-313 | records the window size and sets the bounds from it alone, leaving the stroke state untouched, so resizing twice to one size equals resizing once |
| `Coordinator.App.OnMove` | demo9/main.js:323-327 | asks to ease the pencil towards the pointer position over the duration `MoveDuration` picks from the pencil's drawing flag (0.05 s while drawing, 0.25 s otherwise) |
| `Coordinator.App.OnMouseDown` | demo9/main.js:329-332 | the pencil draws; the shadow drags exactly when its graphic is loaded; nothing else of the shadow changes |
| `Coordinator.App.OnMouseUp` | demo9/main.js:334-337 | the pencil is lifted and the shadow not dragging; nothing else of the shadow changes |
| `Coordinator.EscapeLeavesPencilDown` | demo9/main.js:329-337 | on any valid app, with both mouse-downs delivered, a drag to any point outside the bounds ends the stroke and adds its one-point path, open, to the group, while the pencil still draws |
| `Coordinator.EscapeExample` | demo9/main.js:329-337 | one concrete run of that: an 800 x 600 window, a mouse-down at (60, 100) and a single drag event to (40, 100), 20 pixels away and past the bounds' left edge at 50, leave one finished path, the stroke ended and the pencil down |

## Left out

- Coordinator.App.OnMove: does not model the easing of the pencil's position. It returns only the duration and the target that the easing is asked for.
- ShadowPose.Shadow.Move: does not model the rotation computed from the horizontal pointer ratio (demo9/main.js:192-193), because it is floating-point arithmetic on window ratios.
- PencilPose.Pencil.StartDrawing and PencilPose.Pencil.StopDrawing: do not model the easing of the pencil's depth towards 0 or 2, because that is interpolation done by the animation library.
- Unprojection and pencil pose (demo9/main.js:120-137): floating-point vector maths through a camera object that is not part of this model.
- The drag step's halving and 10 degree rotation (demo9/main.js:38-39): trigonometry on floats. The step and the middle point are inputs.
- Smoothing (demo9/main.js:46): an operation of the vector library. It is taken to keep the point list as it is.
- All tweens and timelines (demo9/main.js:112, 117, 137, 201-203, 210-212, 283-292, 326): time-driven interpolation done by the animation library. This includes the last-write-wins restart of an easing.
- Asset loading (demo9/main.js:91-107, 176-184): asynchronous network requests. Only what the continuations do to the modelled state is kept (`OnMaterialsLoaded`, `OnAssetLoaded`). The readiness continuation that starts the intro is not modelled.
- Scene, camera, lights, renderer, DOM sizing and styling, and the render loop (demo9/main.js:237-275, 309-320, 339-345): rendering and I/O.
- Event wiring (demo9/main.js:13-18, 285-288): the handlers are called directly as methods. The tool's minimum and maximum drag distances (5 and 30, demo9/main.js:14-15) decide when the library delivers drag events, so they are not part of the model.
- The handlers' behaviour while a stroke is in progress but no bounds are set: the containment test on an unset rectangle is library behaviour, so `OnMouseDrag` and `OnMouseUp` require bounds while drawing.
- How the group would re-parent a path added to it twice: this never happens, because `Sketch.Valid()` keeps the in-progress path out of the group.
- The pencil's flag before `init`, when it is undefined: the model creates the pencil through `Init`, as `init` does before any event.
- The shadow group's initial rotation and pivot (demo9/main.js:168-173): they are inputs to the rotation formula, which is left out.
- The assignment in `Shadow.prototype.move` to `rangeX` (demo9/main.js:192): it creates an implicit global variable with no effect on the modelled state.
