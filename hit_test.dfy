/**
 * Fingertip hit-testing: which note each fingertip of each tracked hand asks
 * for in one frame (the fingertip loop of the `hands.onResults` handler).
 */
module HitTest {
  import opened Wrappers
  import opened KeyLayout
  import opened CanvasMapping

  /** The tracker's 21 landmarks of one hand (index 0 is the wrist). */
  type Hand = seq<Landmark>

  /** Landmark indices of the thumb, index, middle, ring and pinky tips. */
  const Fingertips: seq<nat> := [4, 8, 12, 16, 20]

  /** The hand has a landmark at every fingertip index. */
  predicate HasFingertips(hand: Hand)
  {
    |hand| > 20
  }

  /**
   * The note of the first zone, in list order, that contains the point; None
   * when no zone does.
   */
  function FirstHit(zones: seq<KeyZone>, p: Point): Option<Note>
  {
    if zones == [] then None
    else if InZone(zones[0], p.x, p.y) then Some(zones[0].note)
    else FirstHit(zones[1..], p)
  }

  /**
   * A fingertip claims nothing exactly when no zone contains it, and otherwise
   * the note of a zone that contains it.
   */
  lemma {:induction false} FirstHitSound(zones: seq<KeyZone>, p: Point)
    ensures FirstHit(zones, p).None? <==> forall i :: 0 <= i < |zones| ==> !InZone(zones[i], p.x, p.y)
    ensures FirstHit(zones, p).Some? ==>
      exists i :: 0 <= i < |zones| && InZone(zones[i], p.x, p.y) && zones[i].note == FirstHit(zones, p).value
  {
    if zones != [] && !InZone(zones[0], p.x, p.y) {
      FirstHitSound(zones[1..], p);
      assert forall i :: 1 <= i < |zones| ==> zones[i] == zones[1..][i - 1];
    }
  }

  /** The zone that decides is the first one that contains the point; later zones do not matter. */
  lemma {:induction false} FirstHitIsFirstMatch(zones: seq<KeyZone>, p: Point, i: nat)
    requires i < |zones| && InZone(zones[i], p.x, p.y)
    requires forall j :: 0 <= j < i ==> !InZone(zones[j], p.x, p.y)
    ensures FirstHit(zones, p) == Some(zones[i].note)
  {
    if i > 0 {
      assert !InZone(zones[0], p.x, p.y);
      assert zones[1..][i - 1] == zones[i];
      FirstHitIsFirstMatch(zones[1..], p, i - 1);
    }
  }

  /** Testing a concatenated list tests the first part, then the second. */
  lemma {:induction false} FirstHitAppend(front: seq<KeyZone>, back: seq<KeyZone>, p: Point)
    ensures FirstHit(front + back, p) == if FirstHit(front, p).Some? then FirstHit(front, p) else FirstHit(back, p)
  {
    if front != [] {
      assert (front + back)[1..] == front[1..] + back;
      FirstHitAppend(front[1..], back, p);
    } else {
      assert front + back == back;
    }
  }

  /**
   * White zones come first, so a point inside a white zone plays a white note,
   * the first white one containing it, even where a black zone overlaps.
   */
  lemma WhiteKeysWinOverlap(canvasWidth: nat, canvasHeight: nat, whites: seq<Note>, blacks: seq<BlackKey>, p: Point)
    requires |whites| > 0
    requires exists i :: 0 <= i < |whites| && InZone(WhiteZones(canvasWidth, canvasHeight, whites)[i], p.x, p.y)
    ensures FirstHit(Layout(canvasWidth, canvasHeight, whites, blacks), p)
         == FirstHit(WhiteZones(canvasWidth, canvasHeight, whites), p)
    ensures FirstHit(Layout(canvasWidth, canvasHeight, whites, blacks), p).Some?
    ensures FirstHit(Layout(canvasWidth, canvasHeight, whites, blacks), p).value in whites
  {
    var whiteZones := WhiteZones(canvasWidth, canvasHeight, whites);
    FirstHitAppend(whiteZones, BlackZones(canvasWidth, canvasHeight, |whites|, blacks), p);
    FirstHitSound(whiteZones, p);
    var i :| 0 <= i < |whites| && InZone(whiteZones[i], p.x, p.y);
    assert FirstHit(whiteZones, p).Some?;
    var k :| 0 <= k < |whiteZones| && InZone(whiteZones[k], p.x, p.y) && whiteZones[k].note == FirstHit(whiteZones, p).value;
    assert whiteZones[k].note == whites[k];
  }

  /** Every point of the keyboard band plays some white key. */
  lemma BandPlaysWhiteKey(canvasWidth: nat, canvasHeight: nat, whites: seq<Note>, blacks: seq<BlackKey>, p: Point)
    requires |whites| > 0
    requires 0.0 <= p.x <= canvasWidth as real && KeyTop(canvasHeight) <= p.y <= canvasHeight as real
    ensures FirstHit(Layout(canvasWidth, canvasHeight, whites, blacks), p).Some?
    ensures FirstHit(Layout(canvasWidth, canvasHeight, whites, blacks), p).value in whites
  {
    WhiteZonesCoverBand(canvasWidth, canvasHeight, whites, p.x, p.y);
    WhiteKeysWinOverlap(canvasWidth, canvasHeight, whites, blacks, p);
  }

  /** Every zone starts at the keyboard band's top edge, so a point above the band plays nothing. */
  lemma AboveBandPlaysNothing(canvasWidth: nat, canvasHeight: nat, whites: seq<Note>, blacks: seq<BlackKey>, p: Point)
    requires |whites| > 0
    requires p.y < KeyTop(canvasHeight)
    ensures FirstHit(Layout(canvasWidth, canvasHeight, whites, blacks), p) == None
  {
    var zones := Layout(canvasWidth, canvasHeight, whites, blacks);
    forall i | 0 <= i < |zones|
      ensures !InZone(zones[i], p.x, p.y)
    {
      assert zones[i].y == KeyTop(canvasHeight);
    }
    FirstHitSound(zones, p);
  }

  /** The canvas position of fingertip `t` (0 = thumb ... 4 = pinky) of a hand. */
  function TipPoint(hand: Hand, t: nat, canvasWidth: nat, canvasHeight: nat): Point
    requires HasFingertips(hand) && t < |Fingertips|
  {
    ToCanvas(hand[Fingertips[t]], canvasWidth, canvasHeight)
  }

  /** The note a hit adds to the requested set: one note or none. */
  function NoteSet(hit: Option<Note>): set<Note>
  {
    if hit.Some? then {hit.value} else {}
  }

  /** The notes claimed by the first `count` fingertips of one hand. */
  function TipNotes(zones: seq<KeyZone>, hand: Hand, count: nat, canvasWidth: nat, canvasHeight: nat): set<Note>
    requires HasFingertips(hand) && count <= |Fingertips|
  {
    if count == 0 then {}
    else TipNotes(zones, hand, count - 1, canvasWidth, canvasHeight)
         + NoteSet(FirstHit(zones, TipPoint(hand, count - 1, canvasWidth, canvasHeight)))
  }

  /** The frame's requested set: the notes claimed by every fingertip of every hand. */
  function RequestedNotes(zones: seq<KeyZone>, hands: seq<Hand>, canvasWidth: nat, canvasHeight: nat): set<Note>
    requires forall h :: 0 <= h < |hands| ==> HasFingertips(hands[h])
  {
    if hands == [] then {}
    else RequestedNotes(zones, hands[..|hands| - 1], canvasWidth, canvasHeight)
         + TipNotes(zones, hands[|hands| - 1], |Fingertips|, canvasWidth, canvasHeight)
  }

  lemma {:induction false} TipNotesSpec(zones: seq<KeyZone>, hand: Hand, count: nat, canvasWidth: nat, canvasHeight: nat, n: Note)
    requires HasFingertips(hand) && count <= |Fingertips|
    ensures n in TipNotes(zones, hand, count, canvasWidth, canvasHeight)
        <==> exists t :: 0 <= t < count && FirstHit(zones, TipPoint(hand, t, canvasWidth, canvasHeight)) == Some(n)
  {
    if count > 0 {
      TipNotesSpec(zones, hand, count - 1, canvasWidth, canvasHeight, n);
    }
  }

  /**
   * A note is requested exactly when some fingertip of some hand has it as its
   * first matching zone. Several fingertips on one key request it once.
   */
  lemma {:induction false} RequestedNotesSpec(zones: seq<KeyZone>, hands: seq<Hand>, canvasWidth: nat, canvasHeight: nat, n: Note)
    requires forall h :: 0 <= h < |hands| ==> HasFingertips(hands[h])
    ensures n in RequestedNotes(zones, hands, canvasWidth, canvasHeight)
        <==> exists h, t :: 0 <= h < |hands| && 0 <= t < |Fingertips|
                            && FirstHit(zones, TipPoint(hands[h], t, canvasWidth, canvasHeight)) == Some(n)
  {
    if hands != [] {
      var last := |hands| - 1;
      var front := hands[..last];
      RequestedNotesSpec(zones, front, canvasWidth, canvasHeight, n);
      TipNotesSpec(zones, hands[last], |Fingertips|, canvasWidth, canvasHeight, n);
      assert forall h :: 0 <= h < last ==> front[h] == hands[h];
    }
  }

  /** Every requested note is the note of some zone; a frame with no hands requests nothing. */
  lemma RequestedNotesAreZoneNotes(zones: seq<KeyZone>, hands: seq<Hand>, canvasWidth: nat, canvasHeight: nat, n: Note)
    requires forall h :: 0 <= h < |hands| ==> HasFingertips(hands[h])
    requires n in RequestedNotes(zones, hands, canvasWidth, canvasHeight)
    ensures hands != []
    ensures exists i :: 0 <= i < |zones| && zones[i].note == n
  {
    RequestedNotesSpec(zones, hands, canvasWidth, canvasHeight, n);
    var h, t :| 0 <= h < |hands| && 0 <= t < |Fingertips|
                && FirstHit(zones, TipPoint(hands[h], t, canvasWidth, canvasHeight)) == Some(n);
    FirstHitSound(zones, TipPoint(hands[h], t, canvasWidth, canvasHeight));
  }

  /**
   * Scans the zones in list order and stops at the first one that contains the
   * point, as the handler's inner loop does with `break`.
   */
  method ScanZones(keyZones: seq<KeyZone>, x: real, y: real) returns (hit: Option<Note>)
    ensures hit == FirstHit(keyZones, Point(x, y))
  {
    hit := None;
    var z := 0;
    while z < |keyZones|
      invariant 0 <= z <= |keyZones|
      invariant FirstHit(keyZones, Point(x, y)) == FirstHit(keyZones[z..], Point(x, y))
    {
      var zone := keyZones[z];
      if x >= zone.x && x <= zone.x + zone.width && y >= zone.y && y <= zone.y + zone.height {
        hit := Some(zone.note);
        break;
      }
      assert keyZones[z..][1..] == keyZones[z + 1..];
      z := z + 1;
    }
  }

  /**
   * Builds the frame's requested set the way the handler does: for each hand,
   * for each fingertip, the note of the first zone containing it, if any.
   */
  method NotesToPlay(keyZones: seq<KeyZone>, hands: seq<Hand>, canvasWidth: nat, canvasHeight: nat)
    returns (notesToPlay: set<Note>)
    requires forall h :: 0 <= h < |hands| ==> HasFingertips(hands[h])
    ensures notesToPlay == RequestedNotes(keyZones, hands, canvasWidth, canvasHeight)
  {
    notesToPlay := {};
    for h := 0 to |hands|
      invariant notesToPlay == RequestedNotes(keyZones, hands[..h], canvasWidth, canvasHeight)
    {
      var landmarks := hands[h];
      ghost var before := notesToPlay;
      for i := 0 to |Fingertips|
        invariant notesToPlay == before + TipNotes(keyZones, landmarks, i, canvasWidth, canvasHeight)
      {
        var landmark := landmarks[Fingertips[i]];
        var p := ToCanvas(landmark, canvasWidth, canvasHeight);
        var hit := ScanZones(keyZones, p.x, p.y);
        if hit.Some? {
          notesToPlay := notesToPlay + {hit.value};
        }
      }
      assert hands[..h + 1][..h] == hands[..h];
      assert hands[..h + 1][h] == landmarks;
      assert RequestedNotes(keyZones, hands[..h + 1], canvasWidth, canvasHeight)
          == RequestedNotes(keyZones, hands[..h], canvasWidth, canvasHeight)
             + TipNotes(keyZones, landmarks, |Fingertips|, canvasWidth, canvasHeight);
    }
    assert hands[..|hands|] == hands;
  }
}
