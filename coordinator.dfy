/**
 * The main program: the window size, the sketching bounds it implies, and
 * the window-level mouse handlers that drive the pencil and the shadow.
 * The sketch's own handlers are called on `app.sketch` directly, as the
 * drawing tool calls them; the window handlers are separate methods, as the
 * browser calls them separately.
 */
module Coordinator {
  import opened Wrappers
  import opened Geometry
  import Strokes
  import SketchTool
  import PencilPose
  import ShadowPose

  /** The fixed render-canvas size the pencil is initialised with. */
  const PencilCanvasW: int := 1920
  const PencilCanvasH: int := 1080

  /** The gap left between the sketchpad and each window edge. */
  const SketchpadMargin: int := 50

  /**
   * The sketching bounds for a window of `wW` by `wH` pixels: a rectangle at
   * (50, 50) whose right and bottom edges sit 50 pixels inside the window's,
   * so exactly the points at least 50 pixels from every window edge are inside.
   */
  function SketchingBounds(wW: int, wH: int): (r: Rect)
    ensures r.x == SketchpadMargin && r.y == SketchpadMargin
    ensures r.x + r.width == wW - SketchpadMargin && r.y + r.height == wH - SketchpadMargin
    ensures forall p :: IsInside(p, r) <==>
      (SketchpadMargin <= p.x <= wW - SketchpadMargin && SketchpadMargin <= p.y <= wH - SketchpadMargin)
  {
    Rect(SketchpadMargin, SketchpadMargin, wW - 2 * SketchpadMargin, wH - 2 * SketchpadMargin)
  }

  /** The easing time, in seconds, for following the pointer. */
  function MoveDuration(drawing: bool): (d: real)
    ensures 0.0 < d
  {
    if drawing then 0.05 else 0.25
  }

  /** While hovering the pencil follows the pointer more slowly than while drawing: five times as long. */
  lemma HoverFollowsMoreSlowly()
    ensures MoveDuration(false) > MoveDuration(true)
    ensures MoveDuration(false) == 5.0 * MoveDuration(true)
  {
  }

  /**
   * A resize can end a stroke: a point inside the old bounds but outside the
   * bounds of the new window size makes the next drag to it finish the
   * current path, open, as the last path of the group.
   */
  lemma ResizeThenDragOutside(s: Strokes.SketchState, w: int, h: int, p: Point, middle: Point, step: Point)
    requires Strokes.Inv(s) && s.bounds.Some? && s.drawing
    requires IsInside(p, s.bounds.value) && !IsInside(p, SketchingBounds(w, h))
    ensures var r := Strokes.Run(s, [Strokes.SetBounds(SketchingBounds(w, h)), Strokes.MouseDrag(p, middle, step)]);
      && !r.drawing && r.bounds == Some(SketchingBounds(w, h))
      && r.group == s.group + [s.curr.value] && r.curr == s.curr
  {
    var e1 := Strokes.SetBounds(SketchingBounds(w, h));
    var e2 := Strokes.MouseDrag(p, middle, step);
    Strokes.RunAppend(s, [e1], [e2]);
    assert [e1] + [e2] == [e1, e2];
    Strokes.RunOne(s, e1);
    Strokes.RunOne(Strokes.Step(s, e1), e2);
  }

  class App {
    var wW: int
    var wH: int
    const sketch: SketchTool.Sketch
    const pencil: PencilPose.Pencil
    const shadow: ShadowPose.Shadow

    ghost predicate Valid()
      reads this, sketch, sketch.currPath, shadow
    {
      && sketch.Valid() && shadow.Valid()
      && sketch.sketchingBounds == Some(SketchingBounds(wW, wH))
    }

    /** `init` as far as this model goes: create the sketch, the shadow and the pencil, then resize. */
    constructor Init(innerW: int, innerH: int)
      ensures Valid() && fresh(sketch) && fresh(pencil) && fresh(shadow)
      ensures wW == innerW && wH == innerH
      ensures sketch.Snapshot() == Strokes.SketchState(false, None, [], Some(SketchingBounds(innerW, innerH)))
      ensures !pencil.isDrawing && pencil.canvasW == PencilCanvasW && pencil.canvasH == PencilCanvasH
      ensures !shadow.loaded && !shadow.isDragging
    {
      var sk := new SketchTool.Sketch();
      var sh := new ShadowPose.Shadow();
      var pc := new PencilPose.Pencil.Init(PencilCanvasW, PencilCanvasH);
      sketch, shadow, pencil := sk, sh, pc;
      wW, wH := innerW, innerH;
      new;
      var r := SketchingBounds(innerW, innerH);
      sketch.SetSketchingBounds(r.x, r.y, r.width, r.height);
    }

    /**
     * Resize: record the window size and reset the sketching bounds from it.
     * The new state depends only on the new size, so a second resize to the
     * same size changes nothing; the stroke state itself is untouched.
     */
    method OnResize(innerW: int, innerH: int)
      requires Valid()
      modifies this, sketch
      ensures Valid() && wW == innerW && wH == innerH
      ensures sketch.sketchingBounds == Some(SketchingBounds(innerW, innerH))
      ensures sketch.Snapshot() == Strokes.Bound(old(sketch.Snapshot()), SketchingBounds(innerW, innerH))
    {
      wW, wH := innerW, innerH;
      var r := SketchingBounds(innerW, innerH);
      sketch.SetSketchingBounds(r.x, r.y, r.width, r.height);
    }

    /** Pointer move: ease the pencil towards the pointer, quickly while drawing and slowly otherwise. */
    method OnMove(clientX: int, clientY: int) returns (duration: real, target: Point)
      ensures duration == MoveDuration(pencil.isDrawing)
      ensures target == Point(clientX, clientY)
    {
      duration := MoveDuration(pencil.IsDrawing());
      target := Point(clientX, clientY);
    }

    /** Window mouse-down: the pencil touches; the shadow comes near only once its graphic is loaded. */
    method OnMouseDown()
      requires Valid()
      modifies pencil`isDrawing, shadow`isDragging
      ensures Valid() && pencil.isDrawing
      ensures shadow.isDragging == shadow.loaded
      ensures shadow.loaded == old(shadow.loaded) && shadow.position == old(shadow.position)
    {
      pencil.StartDrawing();
      shadow.GoNear();
    }

    /** Window mouse-up: the pencil lifts and the shadow goes far. */
    method OnMouseUp()
      requires Valid()
      modifies pencil`isDrawing, shadow`isDragging
      ensures Valid() && !pencil.isDrawing && !shadow.isDragging
      ensures shadow.loaded == old(shadow.loaded) && shadow.position == old(shadow.position)
    {
      pencil.StopDrawing();
      shadow.GoFar();
    }
  }

  /**
   * The stroke and the pencil do not change together: on any valid app, once
   * both mouse-downs have arrived, a drag that leaves the sketching bounds
   * ends the stroke and adds its one-point path, open, to the group, while
   * the pencil stays down until the window's mouse-up arrives.
   */
  method EscapeLeavesPencilDown(app: App, p0: Point, q: Point, middle: Point, step: Point)
    requires app.Valid()
    requires !IsInside(q, SketchingBounds(app.wW, app.wH))
    modifies app.sketch, app.pencil, app.shadow
    ensures app.Valid()
    ensures !app.sketch.isDrawing && app.pencil.isDrawing
    ensures app.sketch.Snapshot().group
      == old(app.sketch.Snapshot()).group + [Strokes.PathValue([p0], false, Strokes.FillColor)]
  {
    app.sketch.OnMouseDown(p0);
    app.OnMouseDown();
    app.sketch.OnMouseDrag(q, middle, step);
  }

  /**
   * One such run: an 800 x 600 window, a mouse-down at (60, 100) and a single
   * drag event 20 pixels left to (40, 100), past the bounds' left edge at 50.
   */
  method EscapeExample() returns (strokeInProgress: bool, pencilDrawing: bool, finished: nat)
    ensures !strokeInProgress && pencilDrawing && finished == 1
  {
    var app := new App.Init(800, 600);
    app.sketch.OnMouseDown(Point(60, 100));
    app.OnMouseDown();
    app.sketch.OnMouseDrag(Point(40, 100), Point(50, 100), Point(-10, -2));
    strokeInProgress := app.sketch.isDrawing;
    pencilDrawing := app.pencil.isDrawing;
    finished := |app.sketch.group|;
  }
}
