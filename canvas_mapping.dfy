/**
 * The coordinate mapping from the hand tracker's normalised landmarks to
 * canvas pixels. The video is shown mirrored, so the x axis is flipped.
 */
module CanvasMapping {

  /** A hand landmark in normalised image coordinates; `z` is not used. */
  datatype Landmark = Landmark(x: real, y: real, z: real)

  /** A position on the canvas, in pixels. */
  datatype Point = Point(x: real, y: real)

  predicate InCanvas(p: Point, canvasWidth: nat, canvasHeight: nat)
  {
    0.0 <= p.x <= canvasWidth as real && 0.0 <= p.y <= canvasHeight as real
  }

  /** Mirrored mapping of a landmark onto the canvas. */
  function ToCanvas(landmark: Landmark, canvasWidth: nat, canvasHeight: nat): Point
  {
    Point(canvasWidth as real - landmark.x * canvasWidth as real, landmark.y * canvasHeight as real)
  }

  /** A landmark inside the camera frame lands on the canvas. */
  lemma ToCanvasInCanvas(landmark: Landmark, canvasWidth: nat, canvasHeight: nat)
    requires 0.0 <= landmark.x <= 1.0 && 0.0 <= landmark.y <= 1.0
    ensures InCanvas(ToCanvas(landmark, canvasWidth, canvasHeight), canvasWidth, canvasHeight)
  {
    ScaleWithin(landmark.x, canvasWidth as real);
    ScaleWithin(landmark.y, canvasHeight as real);
  }

  /** A fraction in [0, 1] of a non-negative length stays within [0, length]. */
  lemma ScaleWithin(t: real, length: real)
    requires 0.0 <= t <= 1.0 && length >= 0.0
    ensures 0.0 <= t * length <= length
    ensures 0.0 <= length - t * length <= length
  {
    assert (1.0 - t) * length >= 0.0;
  }

  /** Scaling by a positive factor keeps a strict order. */
  lemma ScaleStrict(a: real, b: real, c: real)
    requires a < b && c > 0.0
    ensures a * c < b * c
    ensures c - a * c > c - b * c
  {
    assert (b - a) * c > 0.0;
  }

  /** The inverse of the mapping: from a canvas pixel back to normalised (x, y). */
  function FromCanvas(p: Point, canvasWidth: nat, canvasHeight: nat): (xy: (real, real))
    requires canvasWidth > 0 && canvasHeight > 0
  {
    ((canvasWidth as real - p.x) / canvasWidth as real, p.y / canvasHeight as real)
  }

  /** Mapping a landmark and back gives its normalised position. */
  lemma FromToCanvas(landmark: Landmark, canvasWidth: nat, canvasHeight: nat)
    requires canvasWidth > 0 && canvasHeight > 0
    ensures FromCanvas(ToCanvas(landmark, canvasWidth, canvasHeight), canvasWidth, canvasHeight)
         == (landmark.x, landmark.y)
  {
    var p := ToCanvas(landmark, canvasWidth, canvasHeight);
    Unmirror(landmark.x, canvasWidth as real);
    Unscale(landmark.y, canvasHeight as real);
    assert FromCanvas(p, canvasWidth, canvasHeight).0 == landmark.x;
    assert FromCanvas(p, canvasWidth, canvasHeight).1 == landmark.y;
  }

  /** Mapping a canvas pixel back and forth gives the same pixel. */
  lemma ToFromCanvas(p: Point, canvasWidth: nat, canvasHeight: nat, z: real)
    requires canvasWidth > 0 && canvasHeight > 0
    ensures var xy := FromCanvas(p, canvasWidth, canvasHeight);
      ToCanvas(Landmark(xy.0, xy.1, z), canvasWidth, canvasHeight) == p
  {
    Remirror(p.x, canvasWidth as real);
    Rescale(p.y, canvasHeight as real);
  }

  lemma Unmirror(t: real, length: real)
    requires length != 0.0
    ensures (length - (length - t * length)) / length == t
  {
    assert length - (length - t * length) == t * length;
  }

  lemma Unscale(t: real, length: real)
    requires length != 0.0
    ensures t * length / length == t
  {
  }

  lemma Remirror(x: real, length: real)
    requires length != 0.0
    ensures length - (length - x) / length * length == x
  {
    assert (length - x) / length * length == length - x;
  }

  lemma Rescale(y: real, length: real)
    requires length != 0.0
    ensures y / length * length == y
  {
  }

  /**
   * The mapping mirrors: the left edge of the camera image lands on the right
   * edge of the canvas and vice versa, and y is scaled without flipping.
   */
  lemma ToCanvasEdges(y: real, z: real, canvasWidth: nat, canvasHeight: nat)
    ensures ToCanvas(Landmark(0.0, y, z), canvasWidth, canvasHeight) == Point(canvasWidth as real, y * canvasHeight as real)
    ensures ToCanvas(Landmark(1.0, y, z), canvasWidth, canvasHeight) == Point(0.0, y * canvasHeight as real)
  {
    EdgeProducts(canvasWidth as real);
  }

  lemma EdgeProducts(length: real)
    ensures length - 0.0 * length == length && length - 1.0 * length == 0.0
  {
  }

  /** Further right in the camera image means further left on the canvas. */
  lemma ToCanvasReversesX(a: Landmark, b: Landmark, canvasWidth: nat, canvasHeight: nat)
    requires canvasWidth > 0 && a.x < b.x
    ensures ToCanvas(a, canvasWidth, canvasHeight).x > ToCanvas(b, canvasWidth, canvasHeight).x
  {
    ScaleStrict(a.x, b.x, canvasWidth as real);
  }
}
