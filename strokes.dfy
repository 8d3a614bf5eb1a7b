/**
 * The sketch-stroke state machine as values: the state the `Sketch` object
 * keeps, one function per handler, and what sequences of pointer events do
 * to it. The imperative `SketchTool.Sketch` class is proved to follow these
 * functions call by call, so every lemma here speaks about any sequence of
 * calls to that class made once its bounds are set, as `Coordinator.App.Init`
 * does before any event (`SketchTool.ValidSnapshot` gives the invariant
 * `Inv` they require).
 */
module Strokes {
  import opened Wrappers
  import opened Geometry

  /** The fill colour mouse-down gives every new path. */
  const FillColor: string := "#424242"

  /** A path as a value: its ordered points, its closed flag and its fill colour. */
  datatype PathValue = PathValue(points: seq<Point>, closed: bool, fillColor: string)

  /**
   * The sketch's state: whether a stroke is in progress, the current path
   * (absent before the first mouse-down), the finished paths of the group in
   * order, and the sketching bounds (absent before the first resize).
   * After mouse-up the current path is still the one just handed to the group.
   */
  datatype SketchState = SketchState(
    drawing: bool,
    curr: Option<PathValue>,
    group: seq<PathValue>,
    bounds: Option<Rect>)

  /** The events the sketch reacts to: the three tool handlers and the bounds setter. */
  datatype Event =
    | MouseDown(at: Point)
    | MouseDrag(at: Point, middle: Point, step: Point)
    | MouseUp(at: Point)
    | SetBounds(rect: Rect)

  /** While a stroke is in progress there is an open current path. */
  predicate Inv(s: SketchState)
  {
    s.drawing ==> s.curr.Some? && !s.curr.value.closed
  }

  /** What drag and mouse-up read when a stroke is in progress: the current path and the bounds. */
  predicate CanFinish(s: SketchState)
  {
    s.drawing ==> s.curr.Some? && s.bounds.Some?
  }

  /** The point a drag appends: the middle point moved forward by the step. */
  function TopPoint(middle: Point, step: Point): Point
  {
    Add(middle, step)
  }

  /** The point a drag prepends: the middle point moved back by the step. */
  function BottomPoint(middle: Point, step: Point): Point
  {
    Sub(middle, step)
  }

  /** Mouse-down: start drawing with a fresh open path holding only `p`. */
  function Down(s: SketchState, p: Point): SketchState
  {
    s.(drawing := true, curr := Some(PathValue([p], false, FillColor)))
  }

  /** Mouse-up: stop drawing; close the path on `p` if `p` is inside; hand the path to the group. */
  function Up(s: SketchState, p: Point): SketchState
    requires CanFinish(s)
  {
    if !s.drawing then s
    else
      var path := s.curr.value;
      var done := if IsInside(p, s.bounds.value)
                  then path.(points := path.points + [p], closed := true)
                  else path;
      s.(drawing := false, curr := Some(done), group := s.group + [done])
  }

  /** Mouse-drag: outside the bounds finish as mouse-up would; inside grow the path at both ends. */
  function Drag(s: SketchState, p: Point, middle: Point, step: Point): SketchState
    requires CanFinish(s)
  {
    if !s.drawing then s
    else if !IsInside(p, s.bounds.value) then Up(s, p)
    else
      var path := s.curr.value;
      s.(curr := Some(path.(points := [BottomPoint(middle, step)] + path.points + [TopPoint(middle, step)])))
  }

  /** The bounds setter. */
  function Bound(s: SketchState, r: Rect): SketchState
  {
    s.(bounds := Some(r))
  }

  function Step(s: SketchState, e: Event): (r: SketchState)
    requires Inv(s) && s.bounds.Some?
    ensures Inv(r) && r.bounds.Some?
  {
    match e
    case MouseDown(p) => Down(s, p)
    case MouseDrag(p, middle, step) => Drag(s, p, middle, step)
    case MouseUp(p) => Up(s, p)
    case SetBounds(rect) => Bound(s, rect)
  }

  /** The state after handling `evs` in order, starting once the bounds have been set. */
  function Run(s: SketchState, evs: seq<Event>): (r: SketchState)
    requires Inv(s) && s.bounds.Some?
    ensures Inv(r) && r.bounds.Some?
    decreases |evs|
  {
    if evs == [] then s else Run(Step(s, evs[0]), evs[1..])
  }

  // ---------------------------------------------------------------------
  // One event at a time

  /**
   * Mouse-down always starts drawing with a fresh open path holding exactly
   * the down point, even in the middle of a stroke: the path that was in
   * progress is dropped and never reaches the group.
   */
  lemma DownOpensFreshPath(s: SketchState, p: Point)
    ensures var r := Down(s, p);
      && r.drawing && Inv(r)
      && r.curr == Some(PathValue([p], false, FillColor))
      && r.group == s.group && r.bounds == s.bounds
  {
  }

  /** Drag and mouse-up change nothing while no stroke is in progress. */
  lemma IdleIgnoresDragAndUp(s: SketchState, p: Point, middle: Point, step: Point)
    requires !s.drawing
    ensures Drag(s, p, middle, step) == s && Up(s, p) == s
  {
  }

  /**
   * A drag to a point outside the bounds is mouse-up at that point: drawing
   * stops, the path is neither extended nor closed, and it is appended to the
   * group once.
   */
  lemma DragOutsideFinishes(s: SketchState, p: Point, middle: Point, step: Point)
    requires Inv(s) && CanFinish(s) && s.drawing && !IsInside(p, s.bounds.value)
    ensures var r := Drag(s, p, middle, step);
      && r == Up(s, p)
      && !r.drawing && r.curr == s.curr && !r.curr.value.closed
      && r.group == s.group + [s.curr.value]
  {
  }

  /**
   * A drag inside the bounds keeps drawing and adds exactly two points: the
   * new first point is `middle - step`, the new last point is `middle + step`,
   * and the old points keep their order between them.
   */
  lemma DragInsideGrowsBothEnds(s: SketchState, p: Point, middle: Point, step: Point)
    requires Inv(s) && CanFinish(s) && s.drawing && IsInside(p, s.bounds.value)
    ensures var r := Drag(s, p, middle, step);
      var before := s.curr.value.points;
      var after := r.curr.value.points;
      && r.drawing && r.group == s.group && r.bounds == s.bounds
      && r.curr.value.closed == s.curr.value.closed
      && r.curr.value.fillColor == s.curr.value.fillColor
      && |after| == |before| + 2
      && after[0] == Sub(middle, step)
      && after[|after| - 1] == Add(middle, step)
      && after[1..|after| - 1] == before
  {
  }

  /**
   * Mouse-up during a stroke stops drawing and appends the current path to
   * the end of the group exactly once, leaving the earlier paths as they
   * were. Inside the bounds the up point is appended and the path closed;
   * outside no point is added and the path stays open.
   */
  lemma UpFinishes(s: SketchState, p: Point)
    requires Inv(s) && CanFinish(s) && s.drawing
    ensures var r := Up(s, p);
      && !r.drawing && r.bounds == s.bounds
      && |r.group| == |s.group| + 1
      && r.group[..|s.group|] == s.group
      && r.curr.Some? && r.group[|s.group|] == r.curr.value
      && (IsInside(p, s.bounds.value) ==>
            r.curr.value.points == s.curr.value.points + [p] && r.curr.value.closed)
      && (!IsInside(p, s.bounds.value) ==>
            r.curr.value == s.curr.value && !r.curr.value.closed)
  {
  }

  // ---------------------------------------------------------------------
  // Sequences of events

  lemma RunOne(s: SketchState, e: Event)
    requires Inv(s) && s.bounds.Some?
    ensures Run(s, [e]) == Step(s, e)
  {
    assert [e][1..] == [];
  }

  lemma RunThree(s: SketchState, e0: Event, e1: Event, e2: Event)
    requires Inv(s) && s.bounds.Some?
    ensures Run(s, [e0, e1, e2]) == Step(Step(Step(s, e0), e1), e2)
  {
    assert [e0, e1, e2][1..] == [e1, e2];
    assert [e1, e2][1..] == [e2];
    RunOne(Step(Step(s, e0), e1), e2);
  }

  lemma {:induction false} RunAppend(s: SketchState, a: seq<Event>, b: seq<Event>)
    requires Inv(s) && s.bounds.Some?
    ensures Run(s, a + b) == Run(Run(s, a), b)
    decreases |a|
  {
    if a == [] {
      assert a + b == b;
    } else {
      assert (a + b)[0] == a[0];
      assert (a + b)[1..] == a[1..] + b;
      RunAppend(Step(s, a[0]), a[1..], b);
    }
  }

  /**
   * Finished paths are only ever appended: whatever events follow, the group
   * starts with the paths it held before, unchanged, and each event adds at
   * most one path.
   */
  lemma {:induction false} GroupOnlyAppends(s: SketchState, evs: seq<Event>)
    requires Inv(s) && s.bounds.Some?
    ensures var r := Run(s, evs);
      && |s.group| <= |r.group| <= |s.group| + |evs|
      && r.group[..|s.group|] == s.group
    decreases |evs|
  {
    if evs != [] {
      var s1 := Step(s, evs[0]);
      assert |s.group| <= |s1.group| <= |s.group| + 1 && s1.group[..|s.group|] == s.group;
      GroupOnlyAppends(s1, evs[1..]);
      var r := Run(s, evs);
      assert r.group[..|s1.group|] == s1.group;
      assert r.group[..|s.group|] == r.group[..|s1.group|][..|s.group|];
    }
  }

  predicate PointerOnly(evs: seq<Event>)
  {
    forall i :: 0 <= i < |evs| ==> evs[i].MouseDrag? || evs[i].MouseUp?
  }

  /** Without a mouse-down, drags and mouse-ups leave an idle sketch exactly as it was. */
  lemma {:induction false} IdleIgnoresPointer(s: SketchState, evs: seq<Event>)
    requires Inv(s) && s.bounds.Some? && !s.drawing && PointerOnly(evs)
    ensures Run(s, evs) == s
    decreases |evs|
  {
    if evs != [] {
      assert evs[0].MouseDrag? || evs[0].MouseUp?;
      assert Step(s, evs[0]) == s;
      assert PointerOnly(evs[1..]) by {
        forall i | 0 <= i < |evs[1..]| ensures evs[1..][i].MouseDrag? || evs[1..][i].MouseUp? {
          assert evs[1..][i] == evs[i + 1];
        }
      }
      IdleIgnoresPointer(s, evs[1..]);
    }
  }

  /** Every event is a drag to a point inside `r`. */
  predicate DragsInside(drags: seq<Event>, r: Rect)
  {
    forall i :: 0 <= i < |drags| ==> drags[i].MouseDrag? && IsInside(drags[i].at, r)
  }

  /** The points a run of drags builds around `pts`: each drag prepends its bottom point and appends its top point. */
  function Grown(pts: seq<Point>, drags: seq<Event>): seq<Point>
    requires forall i :: 0 <= i < |drags| ==> drags[i].MouseDrag?
    decreases |drags|
  {
    if drags == [] then pts
    else
      var d := drags[0];
      Grown([BottomPoint(d.middle, d.step)] + pts + [TopPoint(d.middle, d.step)], drags[1..])
  }

  /**
   * Where the drags put their points: after k drags the old points sit
   * unchanged at indices k .. k + |pts| - 1, the bottom point of drag i sits
   * at index k - 1 - i (so the bottoms read in reverse drag order), and the
   * top point of drag i at index k + |pts| + i (the tops in drag order).
   */
  lemma {:induction false} GrownShape(pts: seq<Point>, drags: seq<Event>)
    requires forall i :: 0 <= i < |drags| ==> drags[i].MouseDrag?
    ensures var g := Grown(pts, drags);
      && |g| == |pts| + 2 * |drags|
      && g[|drags|..|drags| + |pts|] == pts
      && (forall i :: 0 <= i < |drags| ==>
            g[|drags| - 1 - i] == BottomPoint(drags[i].middle, drags[i].step)
            && g[|drags| + |pts| + i] == TopPoint(drags[i].middle, drags[i].step))
    decreases |drags|
  {
    if drags != [] {
      var d := drags[0];
      var rest := drags[1..];
      var pts1 := [BottomPoint(d.middle, d.step)] + pts + [TopPoint(d.middle, d.step)];
      assert forall i :: 0 <= i < |rest| ==> rest[i].MouseDrag? by {
        forall i | 0 <= i < |rest| ensures rest[i].MouseDrag? { assert rest[i] == drags[i + 1]; }
      }
      GrownShape(pts1, rest);
      var g := Grown(pts, drags);
      assert g == Grown(pts1, rest);
      var k := |rest|;
      assert g[k..k + |pts1|] == pts1;
      assert g[|drags|..|drags| + |pts|] == pts1[1..1 + |pts|] by {
        assert g[|drags|..|drags| + |pts|] == g[k..k + |pts1|][1..1 + |pts|];
      }
      assert pts1[1..1 + |pts|] == pts;
      forall i | 0 <= i < |drags|
        ensures g[|drags| - 1 - i] == BottomPoint(drags[i].middle, drags[i].step)
        ensures g[|drags| + |pts| + i] == TopPoint(drags[i].middle, drags[i].step)
      {
        if i == 0 {
          assert g[k] == g[k..k + |pts1|][0] == pts1[0];
          assert g[k + |pts1| - 1] == g[k..k + |pts1|][|pts1| - 1] == pts1[|pts1| - 1];
        } else {
          assert rest[i - 1] == drags[i];
        }
      }
    }
  }

  /** Drags that all stay inside the bounds only grow the current path, as `Grown` says. */
  lemma {:induction false} DragsInsideGrow(s: SketchState, drags: seq<Event>)
    requires Inv(s) && s.bounds.Some? && s.drawing
    requires DragsInside(drags, s.bounds.value)
    ensures Run(s, drags) == s.(curr := Some(s.curr.value.(points := Grown(s.curr.value.points, drags))))
    decreases |drags|
  {
    if drags != [] {
      var d := drags[0];
      assert d.MouseDrag? && IsInside(d.at, s.bounds.value);
      var s1 := Step(s, d);
      var pts1 := [BottomPoint(d.middle, d.step)] + s.curr.value.points + [TopPoint(d.middle, d.step)];
      assert s1 == s.(curr := Some(s.curr.value.(points := pts1)));
      assert DragsInside(drags[1..], s.bounds.value) by {
        forall i | 0 <= i < |drags[1..]|
          ensures drags[1..][i].MouseDrag? && IsInside(drags[1..][i].at, s.bounds.value)
        {
          assert drags[1..][i] == drags[i + 1];
        }
      }
      DragsInsideGrow(s1, drags[1..]);
    }
  }

  /**
   * A whole stroke inside the bounds: mouse-down at `p0`, any number of
   * drags, mouse-up at `q`, all inside. Whatever the state before, drawing
   * has stopped afterwards and exactly one path has been added to the end of
   * the group: closed, with 2k + 2 points for k drags, the down point at
   * index k and the up point last.
   */
  lemma {:induction false} CompleteStroke(s: SketchState, p0: Point, drags: seq<Event>, q: Point)
    requires Inv(s) && s.bounds.Some?
    requires DragsInside(drags, s.bounds.value) && IsInside(q, s.bounds.value)
    ensures var r := Run(s, [MouseDown(p0)] + drags + [MouseUp(q)]);
      var pts := Grown([p0], drags) + [q];
      && !r.drawing && r.bounds == s.bounds
      && r.group == s.group + [PathValue(pts, true, FillColor)]
      && |pts| == 2 * |drags| + 2 && pts[|drags|] == p0 && pts[|pts| - 1] == q
  {
    var s1 := Run(s, [MouseDown(p0)]);
    RunOne(s, MouseDown(p0));
    RunAppend(s, [MouseDown(p0)] + drags, [MouseUp(q)]);
    RunAppend(s, [MouseDown(p0)], drags);
    DragsInsideGrow(s1, drags);
    GrownShape([p0], drags);
    var s2 := Run(s1, drags);
    RunOne(s2, MouseUp(q));
  }

  /**
   * A stroke that leaves the bounds: mouse-down, drags inside, then a drag
   * outside. Drawing stops without a mouse-up and the path is appended to
   * the group open, holding only the points the inside drags built.
   */
  lemma {:induction false} EscapedStroke(s: SketchState, p0: Point, drags: seq<Event>, exit: Event)
    requires Inv(s) && s.bounds.Some?
    requires DragsInside(drags, s.bounds.value)
    requires exit.MouseDrag? && !IsInside(exit.at, s.bounds.value)
    ensures var r := Run(s, [MouseDown(p0)] + drags + [exit]);
      && !r.drawing && r.bounds == s.bounds
      && r.group == s.group + [PathValue(Grown([p0], drags), false, FillColor)]
  {
    var s1 := Run(s, [MouseDown(p0)]);
    RunOne(s, MouseDown(p0));
    RunAppend(s, [MouseDown(p0)] + drags, [exit]);
    RunAppend(s, [MouseDown(p0)], drags);
    DragsInsideGrow(s1, drags);
    var s2 := Run(s1, drags);
    RunOne(s2, exit);
  }

  // ---------------------------------------------------------------------
  // Two concrete strokes in a 100 x 100 sketching rectangle at the origin

  /** Down at (10, 10), two drags inside, up at (22, 16): one closed path of six points. */
  lemma ClosedStrokeExample()
    ensures var s := SketchState(false, None, [], Some(Rect(0, 0, 100, 100)));
      var evs := [MouseDown(Point(10, 10)),
                  MouseDrag(Point(12, 11), Point(11, 10), Point(1, 1)),
                  MouseDrag(Point(20, 15), Point(16, 13), Point(4, 3)),
                  MouseUp(Point(22, 16))];
      var r := Run(s, evs);
      && !r.drawing
      && r.group == [PathValue([Point(12, 10), Point(10, 9), Point(10, 10),
                                Point(12, 11), Point(20, 16), Point(22, 16)], true, FillColor)]
  {
    var s := SketchState(false, None, [], Some(Rect(0, 0, 100, 100)));
    var drags := [MouseDrag(Point(12, 11), Point(11, 10), Point(1, 1)),
                  MouseDrag(Point(20, 15), Point(16, 13), Point(4, 3))];
    assert [MouseDown(Point(10, 10))] + drags + [MouseUp(Point(22, 16))]
        == [MouseDown(Point(10, 10)), drags[0], drags[1], MouseUp(Point(22, 16))];
    CompleteStroke(s, Point(10, 10), drags, Point(22, 16));
    assert Grown([Point(10, 10)], drags)
        == Grown([Point(10, 9), Point(10, 10), Point(12, 11)], drags[1..]);
    assert drags[1..][1..] == [];
    assert Grown([Point(10, 9), Point(10, 10), Point(12, 11)], drags[1..])
        == Grown([Point(12, 10), Point(10, 9), Point(10, 10), Point(12, 11), Point(20, 16)], []);
    assert Grown([Point(10, 10)], drags) + [Point(22, 16)]
        == [Point(12, 10), Point(10, 9), Point(10, 10), Point(12, 11), Point(20, 16), Point(22, 16)];
  }

  /**
   * Down at (10, 10), then a single drag event 20 pixels left to (-10, 10),
   * past the left edge: the stroke ends open with its one point.
   */
  lemma EscapedStrokeExample()
    ensures var s := SketchState(false, None, [], Some(Rect(0, 0, 100, 100)));
      var evs := [MouseDown(Point(10, 10)), MouseDrag(Point(-10, 10), Point(0, 10), Point(-10, -2))];
      var r := Run(s, evs);
      && !r.drawing
      && r.group == [PathValue([Point(10, 10)], false, FillColor)]
  {
    var s := SketchState(false, None, [], Some(Rect(0, 0, 100, 100)));
    var exit := MouseDrag(Point(-10, 10), Point(0, 10), Point(-10, -2));
    assert [MouseDown(Point(10, 10))] + [] + [exit] == [MouseDown(Point(10, 10)), exit];
    EscapedStroke(s, Point(10, 10), [], exit);
  }
}
