/** The palette of decorative brushes and which fingertip uses which. */
module Brushes {

  datatype Brush = Brush(color: string, size: real, opacity: real)

  const Palette: seq<Brush> := [
    Brush("#ff7675", 15.0, 0.6),
    Brush("#74b9ff", 20.0, 0.5),
    Brush("#55efc4", 25.0, 0.4),
    Brush("#ffeaa7", 18.0, 0.5),
    Brush("#a29bfe", 22.0, 0.5)
  ]

  /**
   * The brush a fingertip uses, cycling through the palette: always a valid
   * palette index, and for the five fingertips each finger gets its own brush.
   */
  function BrushIndex(fingerIndex: nat): (k: nat)
    ensures k < |Palette|
    ensures fingerIndex < |Palette| ==> k == fingerIndex
  {
    fingerIndex % |Palette|
  }

  /** Fingertips a palette length apart share a brush. */
  lemma BrushIndexCycles(fingerIndex: nat)
    ensures BrushIndex(fingerIndex + |Palette|) == BrushIndex(fingerIndex)
    ensures forall a, b :: 0 <= a < b < |Palette| ==> Palette[BrushIndex(a)] != Palette[BrushIndex(b)]
  {
  }
}
