/**
 * The sketch as the program keeps it: a `Sketch` object whose mouse
 * handlers grow a mutable `Path` in place and hand finished paths to the
 * group. Each handler is proved to move the object's abstract state,
 * `Snapshot()`, exactly as the matching function of `Strokes` does.
 */
module SketchTool {
  import opened Wrappers
  import opened Geometry
  import Strokes

  /** A vector path as the sketch uses it: an ordered point list, a closed flag and a fill colour. */
  class Path {
    var points: seq<Point>
    var closed: bool
    /** The empty string stands for the library's "no fill". */
    var fillColor: string

    constructor ()
      ensures points == [] && !closed && fillColor == ""
    {
      points := [];
      closed := false;
      fillColor := "";
    }

    function Value(): Strokes.PathValue
      reads this
    {
      Strokes.PathValue(points, closed, fillColor)
    }
  }

  /** The values of the paths in `ps`, in order. */
  ghost function Values(ps: seq<Path>): seq<Strokes.PathValue>
    reads set i | 0 <= i < |ps| :: ps[i]
    decreases |ps|
  {
    if ps == [] then [] else Values(ps[..|ps| - 1]) + [ps[|ps| - 1].Value()]
  }

  /** No path object occurs twice. */
  ghost predicate Distinct(ps: seq<Path>)
  {
    forall i, j :: 0 <= i < j < |ps| ==> ps[i] != ps[j]
  }

  class Sketch {
    /** The finished paths, in the order they were added to the group. */
    var group: seq<Path>
    var isDrawing: bool
    /** The path being drawn; still the last finished path after mouse-up; null before the first mouse-down. */
    var currPath: Path?
    /** None until the bounds are first set. */
    var sketchingBounds: Option<Rect>

    /**
     * While drawing, the current path is open and not yet in the group, so
     * growing it changes no finished path, and handing it to the group adds
     * a path the group does not already hold.
     */
    ghost predicate Valid()
      reads this, currPath
    {
      && (isDrawing ==> currPath != null && currPath !in group && !currPath.closed)
      && Distinct(group)
    }

    ghost function Snapshot(): Strokes.SketchState
      reads this, currPath, set i | 0 <= i < |group| :: group[i]
    {
      Strokes.SketchState(
        isDrawing,
        if currPath == null then None else Some(currPath.Value()),
        Values(group),
        sketchingBounds)
    }

    constructor ()
      ensures Valid() && group == [] && currPath == null
      ensures Snapshot() == Strokes.SketchState(false, None, [], None)
    {
      group := [];
      isDrawing := false;
      currPath := null;
      sketchingBounds := None;
    }

    method OnMouseDown(p: Point)
      requires Valid()
      modifies this
      ensures Valid() && fresh(currPath)
      ensures group == old(group) && sketchingBounds == old(sketchingBounds)
      ensures Snapshot() == Strokes.Down(old(Snapshot()), p)
    {
      isDrawing := true;
      currPath := new Path();
      currPath.fillColor := Strokes.FillColor;
      currPath.points := currPath.points + [p];
      assert Values(group) == old(Values(group));
      assert currPath.Value() == Strokes.PathValue([p], false, Strokes.FillColor);
    }

    method OnMouseDrag(p: Point, middle: Point, step: Point)
      requires Valid() && (isDrawing ==> sketchingBounds.Some?)
      modifies this, currPath
      ensures Valid() && currPath == old(currPath) && sketchingBounds == old(sketchingBounds)
      ensures group == old(group) || (old(isDrawing) && group == old(group) + [currPath])
      ensures Snapshot() == Strokes.Drag(old(Snapshot()), p, middle, step)
    {
      if !isDrawing {
        return;
      }
      if !IsInside(p, sketchingBounds.value) {
        OnMouseUp(p);
        return;
      }
      var top := Strokes.TopPoint(middle, step);
      var bottom := Strokes.BottomPoint(middle, step);
      currPath.points := currPath.points + [top];
      currPath.points := [bottom] + currPath.points;
      assert currPath.points == [bottom] + old(currPath.points) + [top];
      assert Values(group) == old(Values(group));
      // The library's smoothing pass only reshapes the curve between the points (left out).
    }

    method OnMouseUp(p: Point)
      requires Valid() && (isDrawing ==> sketchingBounds.Some?)
      modifies this, currPath
      ensures Valid() && currPath == old(currPath) && sketchingBounds == old(sketchingBounds)
      ensures !isDrawing
      ensures group == if old(isDrawing) then old(group) + [currPath] else old(group)
      ensures Snapshot() == Strokes.Up(old(Snapshot()), p)
    {
      if !isDrawing {
        return;
      }
      isDrawing := false;
      if IsInside(p, sketchingBounds.value) {
        currPath.points := currPath.points + [p];
        currPath.closed := true;
      }
      ghost var before := group;
      group := group + [currPath];
      assert group[..|group| - 1] == before;
    }

    method SetSketchingBounds(x: int, y: int, width: int, height: int)
      requires Valid()
      modifies this`sketchingBounds
      ensures Valid() && sketchingBounds == Some(Rect(x, y, width, height))
      ensures Snapshot() == Strokes.Bound(old(Snapshot()), Rect(x, y, width, height))
    {
      sketchingBounds := Some(Rect(x, y, width, height));
    }
  }

  /** A valid sketch is in a state the `Strokes` lemmas accept: drawing means an open current path. */
  lemma ValidSnapshot(sk: Sketch)
    requires sk.Valid()
    ensures Strokes.Inv(sk.Snapshot())
  {
  }

  /**
   * A stroke made of calls on a fresh sketch whose bounds have been set ends
   * in exactly the state `Strokes.Run` gives for the same events.
   */
  method ReplayStroke(b: Rect, p0: Point, at: Point, middle: Point, step: Point, q: Point)
    returns (sk: Sketch)
    ensures sk.Valid()
    ensures sk.Snapshot() == Strokes.Run(
      Strokes.SketchState(false, None, [], Some(b)),
      [Strokes.MouseDown(p0), Strokes.MouseDrag(at, middle, step), Strokes.MouseUp(q)])
  {
    sk := new Sketch();
    sk.SetSketchingBounds(b.x, b.y, b.width, b.height);
    ghost var s0 := sk.Snapshot();
    assert s0 == Strokes.SketchState(false, None, [], Some(b));
    sk.OnMouseDown(p0);
    ghost var s1 := sk.Snapshot();
    assert s1 == Strokes.Step(s0, Strokes.MouseDown(p0));
    sk.OnMouseDrag(at, middle, step);
    ghost var s2 := sk.Snapshot();
    assert s2 == Strokes.Step(s1, Strokes.MouseDrag(at, middle, step));
    sk.OnMouseUp(q);
    assert sk.Snapshot() == Strokes.Step(s2, Strokes.MouseUp(q));
    Strokes.RunThree(s0, Strokes.MouseDown(p0), Strokes.MouseDrag(at, middle, step), Strokes.MouseUp(q));
  }
}
