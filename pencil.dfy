/**
 * The 3D pencil's drawing state. The program keeps it in a module closure;
 * here it is an object whose `isDrawing` field the two transitions flip.
 * The pose maths, the depth easing and the asset loading are outside this
 * model; what remains is the flag and the canvas size `init` records.
 */
module PencilPose {

  class Pencil {
    var isDrawing: bool
    /**
     * The render canvas size `init` records. Only the pose computation reads
     * it, and that is outside this model; it is kept so that `Init` does what
     * `init` does to the pencil's state.
     */
    var canvasW: int
    var canvasH: int

    /** `init`: record the render canvas size and start lifted. */
    constructor Init(canvasW: int, canvasH: int)
      ensures !isDrawing && this.canvasW == canvasW && this.canvasH == canvasH
    {
      this.canvasW := canvasW;
      this.canvasH := canvasH;
      isDrawing := false;
    }

    /** The pencil touches the pad (the ease of its depth towards 0 is left out). */
    method StartDrawing()
      modifies this`isDrawing
      ensures isDrawing
    {
      isDrawing := true;
    }

    /** The pencil is lifted (the ease of its depth towards 2 is left out). */
    method StopDrawing()
      modifies this`isDrawing
      ensures !isDrawing
    {
      isDrawing := false;
    }

    /** The continuation of the material load: it lifts the pencil once more. */
    method OnMaterialsLoaded()
      modifies this`isDrawing
      ensures !isDrawing
    {
      StopDrawing();
    }

    function IsDrawing(): bool
      reads this
    {
      isDrawing
    }
  }
}
