/**
 * The key-zone layout: the rectangles, in canvas pixels, that the page tests
 * fingertips against (`calculateKeyZones` in script.js).
 *
 * Pixel arithmetic is exact (`real`); canvas dimensions are whole pixels.
 */
module KeyLayout {

  /** A note name as the page's key elements carry it, e.g. "C4" or "C#4". */
  type Note = string

  /**
   * A black key of the on-screen keyboard: its note and its CSS `left`
   * position, in percent of the keyboard's width.
   */
  datatype BlackKey = BlackKey(note: Note, leftPercent: real)

  /** A hit zone; (`x`, `y`) is its top-left corner. */
  datatype KeyZone = KeyZone(note: Note, x: real, y: real, width: real, height: real)

  /** The keyboard band is the bottom 30% of the canvas. */
  function KeyHeight(canvasHeight: nat): real
  {
    canvasHeight as real * 0.3
  }

  function KeyTop(canvasHeight: nat): real
  {
    canvasHeight as real - KeyHeight(canvasHeight)
  }

  function WhiteKeyWidth(canvasWidth: nat, whiteCount: nat): real
    requires whiteCount > 0
  {
    canvasWidth as real / whiteCount as real
  }

  function BlackKeyWidth(canvasWidth: nat, whiteCount: nat): real
    requires whiteCount > 0
  {
    WhiteKeyWidth(canvasWidth, whiteCount) * 0.6
  }

  /** The zone of the white key at position `index` of the keyboard. */
  function WhiteZone(canvasWidth: nat, canvasHeight: nat, whites: seq<Note>, index: nat): KeyZone
    requires index < |whites|
  {
    var w := WhiteKeyWidth(canvasWidth, |whites|);
    KeyZone(whites[index], index as real * w, KeyTop(canvasHeight), w, KeyHeight(canvasHeight))
  }

  /** The zone of a black key; its left edge sits at its CSS offset. */
  function BlackZone(canvasWidth: nat, canvasHeight: nat, whiteCount: nat, key: BlackKey): KeyZone
    requires whiteCount > 0
  {
    KeyZone(key.note, canvasWidth as real * (key.leftPercent / 100.0), KeyTop(canvasHeight),
            BlackKeyWidth(canvasWidth, whiteCount), KeyHeight(canvasHeight) * 0.6)
  }

  function WhiteZones(canvasWidth: nat, canvasHeight: nat, whites: seq<Note>): seq<KeyZone>
    requires |whites| > 0
  {
    seq(|whites|, i requires 0 <= i < |whites| => WhiteZone(canvasWidth, canvasHeight, whites, i))
  }

  function BlackZones(canvasWidth: nat, canvasHeight: nat, whiteCount: nat, blacks: seq<BlackKey>): seq<KeyZone>
    requires whiteCount > 0
  {
    seq(|blacks|, j requires 0 <= j < |blacks| => BlackZone(canvasWidth, canvasHeight, whiteCount, blacks[j]))
  }

  /** The point (`x`, `y`) lies in the zone, all four edges included. */
  predicate InZone(zone: KeyZone, x: real, y: real)
  {
    x >= zone.x && x <= zone.x + zone.width && y >= zone.y && y <= zone.y + zone.height
  }

  /** The whole zone list: every white key in keyboard order, then every black key. */
  function Layout(canvasWidth: nat, canvasHeight: nat, whites: seq<Note>, blacks: seq<BlackKey>): seq<KeyZone>
    requires |whites| > 0
  {
    WhiteZones(canvasWidth, canvasHeight, whites) + BlackZones(canvasWidth, canvasHeight, |whites|, blacks)
  }

  /** The zone list holds one zone per key: the white keys in order, then the black keys in order. */
  lemma LayoutOrder(canvasWidth: nat, canvasHeight: nat, whites: seq<Note>, blacks: seq<BlackKey>)
    requires |whites| > 0
    ensures |Layout(canvasWidth, canvasHeight, whites, blacks)| == |whites| + |blacks|
    ensures forall i :: 0 <= i < |whites| ==> Layout(canvasWidth, canvasHeight, whites, blacks)[i].note == whites[i]
    ensures forall j :: 0 <= j < |blacks| ==>
      Layout(canvasWidth, canvasHeight, whites, blacks)[|whites| + j].note == blacks[j].note
  {
  }

  /**
   * The white zones tile the keyboard band: the first starts at the left edge,
   * each one ends where the next begins, the last ends at the right edge, and
   * every one fills the bottom 30% of the canvas down to its bottom edge.
   */
  lemma WhiteZonesTile(canvasWidth: nat, canvasHeight: nat, whites: seq<Note>, blacks: seq<BlackKey>)
    requires |whites| > 0
    ensures var zones := Layout(canvasWidth, canvasHeight, whites, blacks);
      && zones[0].x == 0.0
      && (forall i :: 0 <= i < |whites| - 1 ==> zones[i].x + zones[i].width == zones[i + 1].x)
      && zones[|whites| - 1].x + zones[|whites| - 1].width == canvasWidth as real
      && (forall i :: 0 <= i < |whites| ==>
            zones[i].width == canvasWidth as real / |whites| as real
            && zones[i].height == canvasHeight as real * 0.3
            && zones[i].y + zones[i].height == canvasHeight as real)
  {
    WhiteZonesAbut(canvasWidth, canvasHeight, whites, blacks);
    WhiteZonesEnds(canvasWidth, canvasHeight, whites, blacks);
    WhiteZonesSize(canvasWidth, canvasHeight, whites, blacks);
  }

  lemma WhiteZonesAbut(canvasWidth: nat, canvasHeight: nat, whites: seq<Note>, blacks: seq<BlackKey>)
    requires |whites| > 0
    ensures var zones := Layout(canvasWidth, canvasHeight, whites, blacks);
      forall i :: 0 <= i < |whites| - 1 ==> zones[i].x + zones[i].width == zones[i + 1].x
  {
    var zones := Layout(canvasWidth, canvasHeight, whites, blacks);
    var w := WhiteKeyWidth(canvasWidth, |whites|);
    forall i | 0 <= i < |whites| - 1
      ensures zones[i].x + zones[i].width == zones[i + 1].x
    {
      assert zones[i] == WhiteZone(canvasWidth, canvasHeight, whites, i);
      assert zones[i + 1] == WhiteZone(canvasWidth, canvasHeight, whites, i + 1);
      NextMultiple(i, w);
    }
  }

  lemma WhiteZonesEnds(canvasWidth: nat, canvasHeight: nat, whites: seq<Note>, blacks: seq<BlackKey>)
    requires |whites| > 0
    ensures var zones := Layout(canvasWidth, canvasHeight, whites, blacks);
      && zones[0].x == 0.0
      && zones[|whites| - 1].x + zones[|whites| - 1].width == canvasWidth as real
  {
    var zones := Layout(canvasWidth, canvasHeight, whites, blacks);
    var n := |whites|;
    assert zones[0] == WhiteZone(canvasWidth, canvasHeight, whites, 0);
    assert zones[n - 1] == WhiteZone(canvasWidth, canvasHeight, whites, n - 1);
    LastEdge(n, canvasWidth as real);
  }

  lemma WhiteZonesSize(canvasWidth: nat, canvasHeight: nat, whites: seq<Note>, blacks: seq<BlackKey>)
    requires |whites| > 0
    ensures var zones := Layout(canvasWidth, canvasHeight, whites, blacks);
      forall i :: 0 <= i < |whites| ==>
        zones[i].width == canvasWidth as real / |whites| as real
        && zones[i].height == canvasHeight as real * 0.3
        && zones[i].y + zones[i].height == canvasHeight as real
  {
    var zones := Layout(canvasWidth, canvasHeight, whites, blacks);
    forall i | 0 <= i < |whites|
      ensures zones[i] == WhiteZone(canvasWidth, canvasHeight, whites, i)
    {
    }
  }

  /** The right edge of the i-th of equal widths is the left edge of the next. */
  lemma NextMultiple(i: nat, w: real)
    ensures i as real * w + w == (i + 1) as real * w
  {
  }

  /** The last of n equal widths of `length` ends at `length`. */
  lemma LastEdge(n: nat, length: real)
    requires n > 0
    ensures (n - 1) as real * (length / n as real) + length / n as real == length
  {
    NextMultiple(n - 1, length / n as real);
    assert n as real * (length / n as real) == length;
  }

  /**
   * Every black zone is 0.6 times a white zone's width and height, shares the
   * white zones' top edge, and has its LEFT edge at the key's offset.
   */
  lemma BlackZoneGeometry(canvasWidth: nat, canvasHeight: nat, whites: seq<Note>, blacks: seq<BlackKey>, j: nat)
    requires |whites| > 0 && j < |blacks|
    ensures var zones := Layout(canvasWidth, canvasHeight, whites, blacks);
      var black := zones[|whites| + j];
      && black.note == blacks[j].note
      && black.x == canvasWidth as real * blacks[j].leftPercent / 100.0
      && black.y == zones[0].y
      && black.width == 0.6 * zones[0].width
      && black.height == 0.6 * zones[0].height
      && black.y == canvasHeight as real * 0.7
  {
  }

  /**
   * Every point of the keyboard band, edges included, lies in some white zone.
   */
  lemma WhiteZonesCoverBand(canvasWidth: nat, canvasHeight: nat, whites: seq<Note>, x: real, y: real)
    requires |whites| > 0
    requires 0.0 <= x <= canvasWidth as real
    requires KeyTop(canvasHeight) <= y <= canvasHeight as real
    ensures exists i :: 0 <= i < |whites| && InZone(WhiteZones(canvasWidth, canvasHeight, whites)[i], x, y)
  {
    var n := |whites|;
    var w := WhiteKeyWidth(canvasWidth, n);
    LastEdge(n, canvasWidth as real);
    NextMultiple(n - 1, w);
    var i := ColumnOf(x, w, n);
    assert WhiteZones(canvasWidth, canvasHeight, whites)[i] == WhiteZone(canvasWidth, canvasHeight, whites, i);
  }

  /** A position in [0, n * width] lies in one of the n columns of that width, edges included. */
  lemma {:induction false} ColumnOf(x: real, width: real, n: nat) returns (i: nat)
    requires n > 0 && width >= 0.0 && 0.0 <= x <= n as real * width
    ensures i < n && i as real * width <= x <= i as real * width + width
    decreases n
  {
    if x <= width || n == 1 {
      i := 0;
      if n == 1 {
        assert 1 as real * width == width;
      }
    } else {
      NextMultiple(n - 1, width);
      var j := ColumnOf(x - width, width, n - 1);
      NextMultiple(j, width);
      i := j + 1;
    }
  }
}
