/**
 * Worked examples on a 640 x 360 canvas with eight white keys C4 ... C5,
 * 80 pixels wide each, and a black key C#4 whose left edge is at 8.75% of
 * the width (56 pixels).
 */
module Scenarios {
  import opened Wrappers
  import opened KeyLayout
  import opened CanvasMapping
  import opened HitTest
  import opened NoteEvents
  import opened PianoPage

  const Whites: seq<Note> := ["C4", "D4", "E4", "F4", "G4", "A4", "B4", "C5"]
  const Blacks: seq<BlackKey> := [BlackKey("C#4", 8.75)]

  /**
   * An index fingertip at normalised (0.9, 0.8) lands on pixel (64, 288),
   * inside both the C4 zone and the overlapping C#4 zone; C4 is played
   * because white zones are tested first.
   */
  lemma FingertipPlaysC4()
    ensures ToCanvas(Landmark(0.9, 0.8, 0.0), 640, 360) == Point(64.0, 288.0)
    ensures var zones := Layout(640, 360, Whites, Blacks);
      && |zones| == 9
      && zones[0] == KeyZone("C4", 0.0, 252.0, 80.0, 108.0)
      && zones[8] == KeyZone("C#4", 56.0, 252.0, 48.0, 64.8)
      && InZone(zones[8], 64.0, 288.0)
      && FirstHit(zones, Point(64.0, 288.0)) == Some("C4")
  {
    var zones := Layout(640, 360, Whites, Blacks);
    assert zones[0] == KeyZone("C4", 0.0, 252.0, 80.0, 108.0);
    FirstHitIsFirstMatch(zones, Point(64.0, 288.0), 0);
  }

  /**
   * A hand whose index fingertip (landmark 8) is at normalised (0.9, 0.8)
   * while every other landmark is high up in the image, at y = 0.1.
   */
  const HandOnC4: Hand := seq(21, i => if i == 8 then Landmark(0.9, 0.8, 0.0) else Landmark(0.5, 0.1, 0.0))

  /** That hand requests C4 alone: its index finger plays C4 and the other fingertips are above the keyboard. */
  lemma HandOnC4RequestsC4()
    ensures HasFingertips(HandOnC4)
    ensures RequestedNotes(Layout(640, 360, Whites, Blacks), [HandOnC4], 640, 360) == {"C4"}
  {
    var zones := Layout(640, 360, Whites, Blacks);
    var hands := [HandOnC4];
    FingertipPlaysC4();
    forall t | 0 <= t < |Fingertips|
      ensures FirstHit(zones, TipPoint(HandOnC4, t, 640, 360)) == if t == 1 then Some("C4") else None
    {
      if t == 1 {
        assert HandOnC4[Fingertips[t]] == Landmark(0.9, 0.8, 0.0);
      } else {
        assert HandOnC4[Fingertips[t]] == Landmark(0.5, 0.1, 0.0);
        assert TipPoint(HandOnC4, t, 640, 360).y == 36.0;
        AboveBandPlaysNothing(640, 360, Whites, Blacks, TipPoint(HandOnC4, t, 640, 360));
      }
    }
    forall n
      ensures n in RequestedNotes(zones, hands, 640, 360) <==> n == "C4"
    {
      RequestedNotesSpec(zones, hands, 640, 360, n);
      if n == "C4" {
        assert FirstHit(zones, TipPoint(hands[0], 1, 640, 360)) == Some(n);
      }
    }
  }

  /** The only update from nothing sounding to `n` alone is one attack of `n`. */
  lemma OnlyAttack(events: seq<SynthEvent>, n: Note)
    requires FrameDiff(events, {}, {n})
    ensures events == [Attack(n)]
  {
    assert {n} - {} == {n};
    assert {} - {n} == {};
    assert Expected(events[0], {}, {n});
  }

  /** The only update from `n` alone to nothing sounding is one release of `n`. */
  lemma OnlyRelease(events: seq<SynthEvent>, n: Note)
    requires FrameDiff(events, {n}, {})
    ensures events == [Release(n)]
  {
    assert {n} - {} == {n};
    assert {} - {n} == {};
    assert Expected(events[0], {n}, {});
  }

  /**
   * Three tracker frames on a fresh page: the index fingertip arrives on C4
   * (one attack), stays there (nothing is sent), and the hand leaves the
   * camera (one release).
   */
  method HoldThenLeave() returns (piano: AirPiano)
    ensures piano.synthLog == [Attack("C4"), Release("C4")]
    ensures piano.activeNotes == {}
  {
    piano := new AirPiano(Whites, Blacks, 640, 360);
    HandOnC4RequestsC4();

    piano.OnResults(640, 360, [HandOnC4]);
    assert piano.activeNotes == {"C4"};
    assert piano.synthLog[0..] == piano.synthLog;
    OnlyAttack(piano.synthLog, "C4");

    piano.OnResults(640, 360, [HandOnC4]);
    assert piano.activeNotes == {"C4"};
    HeldNotesSendNothing(piano.synthLog[1..], {"C4"});
    assert piano.synthLog == piano.synthLog[..1] + piano.synthLog[1..];
    assert piano.synthLog == [Attack("C4")];

    piano.OnResults(640, 360, []);
    OnlyRelease(piano.synthLog[1..], "C4");
    assert piano.synthLog == piano.synthLog[..1] + piano.synthLog[1..];
  }
}
