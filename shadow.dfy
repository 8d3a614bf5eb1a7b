/**
 * The pencil's 2D shadow. Until its vector graphic has been imported every
 * method is a no-op; afterwards `GoNear` and `GoFar` flip `isDragging` and
 * `Move` places the shadow at the pointer. The easing of opacity, offset and
 * scale, and the rotation formula, are outside this model.
 */
module ShadowPose {
  import opened Wrappers
  import opened Geometry

  class Shadow {
    /** Whether the imported graphic is present (the program tests `this.el`). */
    var loaded: bool
    var isDragging: bool
    /** Where `Move` last placed the shadow group; None while it has never moved. */
    var position: Option<Point>

    /** Nothing but the asset's arrival can make the shadow drag or move. */
    ghost predicate Valid()
      reads this
    {
      !loaded ==> !isDragging && position == None
    }

    constructor ()
      ensures Valid() && !loaded && !isDragging && position == None
    {
      loaded := false;
      isDragging := false;
      position := None;
    }

    /** The import's continuation: keep the graphic, then go far. */
    method OnAssetLoaded()
      requires Valid()
      modifies this
      ensures Valid() && loaded && !isDragging && position == old(position)
    {
      loaded := true;
      GoFar();
    }

    method Move(x: int, y: int)
      requires Valid()
      modifies this`position
      ensures Valid()
      ensures position == if loaded then Some(Point(x, y)) else old(position)
    {
      if !loaded {
        return;
      }
      position := Some(Point(x, y));
    }

    method GoNear()
      requires Valid()
      modifies this`isDragging
      ensures Valid() && isDragging == loaded
      ensures !loaded ==> isDragging == old(isDragging)
    {
      if !loaded {
        return;
      }
      isDragging := true;
    }

    method GoFar()
      requires Valid()
      modifies this`isDragging
      ensures Valid() && !isDragging
      ensures !loaded ==> isDragging == old(isDragging)
    {
      if !loaded {
        return;
      }
      isDragging := false;
    }
  }
}
