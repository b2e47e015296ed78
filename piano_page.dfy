/**
 * The page's mutable state and its handlers: the canvas size, the key zones,
 * the set of sounding notes and the synthesizer, whose commands are recorded
 * in an append-only log.
 */
module PianoPage {
  import opened KeyLayout
  import opened HitTest
  import opened NoteEvents

  class AirPiano {
    /** The keyboard's white keys, left to right, and its black keys; fixed by the page. */
    const whiteKeys: seq<Note>
    const blackKeys: seq<BlackKey>

    var canvasWidth: nat
    var canvasHeight: nat
    var keyZones: seq<KeyZone>
    var activeNotes: set<Note>
    /** Every command sent to the synthesizer, oldest first. */
    var synthLog: seq<SynthEvent>

    /** The zones always match the current canvas size. */
    ghost predicate Valid()
      reads this`canvasWidth, this`canvasHeight, this`keyZones
    {
      |whiteKeys| > 0 && keyZones == Layout(canvasWidth, canvasHeight, whiteKeys, blackKeys)
    }

    /** Page load: nothing sounds, and the canvases take the container's size. */
    constructor (whites: seq<Note>, blacks: seq<BlackKey>, containerWidth: nat, containerHeight: nat)
      requires |whites| > 0
      ensures Valid()
      ensures whiteKeys == whites && blackKeys == blacks
      ensures canvasWidth == containerWidth && canvasHeight == containerHeight
      ensures activeNotes == {} && synthLog == []
    {
      whiteKeys := whites;
      blackKeys := blacks;
      canvasWidth, canvasHeight := 0, 0;
      keyZones := [];
      activeNotes := {};
      synthLog := [];
      new;
      ResizeCanvases(containerWidth, containerHeight);
    }

    /**
     * Rebuilds the zone list from scratch: the white keys' zones, then the
     * black keys'. The result depends only on the canvas size and the keys,
     * so recomputing it with the same size gives the same list.
     */
    method CalculateKeyZones()
      requires |whiteKeys| > 0
      modifies this`keyZones
      ensures keyZones == Layout(canvasWidth, canvasHeight, whiteKeys, blackKeys)
    {
      var keyHeight := canvasHeight as real * 0.3;
      var keyTop := canvasHeight as real - keyHeight;
      keyZones := [];
      var whiteKeyWidth := canvasWidth as real / |whiteKeys| as real;
      for index := 0 to |whiteKeys|
        invariant keyZones == WhiteZones(canvasWidth, canvasHeight, whiteKeys)[..index]
      {
        assert WhiteZones(canvasWidth, canvasHeight, whiteKeys)[index]
            == KeyZone(whiteKeys[index], index as real * whiteKeyWidth, keyTop, whiteKeyWidth, keyHeight);
        keyZones := keyZones + [KeyZone(whiteKeys[index], index as real * whiteKeyWidth, keyTop, whiteKeyWidth, keyHeight)];
        assert WhiteZones(canvasWidth, canvasHeight, whiteKeys)[..index + 1]
            == WhiteZones(canvasWidth, canvasHeight, whiteKeys)[..index] + [WhiteZones(canvasWidth, canvasHeight, whiteKeys)[index]];
      }
      var blackKeyWidth := whiteKeyWidth * 0.6;
      for j := 0 to |blackKeys|
        invariant keyZones == WhiteZones(canvasWidth, canvasHeight, whiteKeys)
                              + BlackZones(canvasWidth, canvasHeight, |whiteKeys|, blackKeys)[..j]
      {
        var key := blackKeys[j];
        var leftOffset := key.leftPercent / 100.0;
        assert BlackZones(canvasWidth, canvasHeight, |whiteKeys|, blackKeys)[j]
            == KeyZone(key.note, canvasWidth as real * leftOffset, keyTop, blackKeyWidth, keyHeight * 0.6);
        keyZones := keyZones + [KeyZone(key.note, canvasWidth as real * leftOffset, keyTop, blackKeyWidth, keyHeight * 0.6)];
        assert BlackZones(canvasWidth, canvasHeight, |whiteKeys|, blackKeys)[..j + 1]
            == BlackZones(canvasWidth, canvasHeight, |whiteKeys|, blackKeys)[..j] + [BlackZones(canvasWidth, canvasHeight, |whiteKeys|, blackKeys)[j]];
      }
      assert keyZones == Layout(canvasWidth, canvasHeight, whiteKeys, blackKeys);
    }

    /** Window resize: the canvases take the container's size and the zones follow. */
    method ResizeCanvases(containerWidth: nat, containerHeight: nat)
      requires |whiteKeys| > 0
      modifies this`canvasWidth, this`canvasHeight, this`keyZones
      ensures Valid()
      ensures canvasWidth == containerWidth && canvasHeight == containerHeight
    {
      canvasWidth := containerWidth;
      canvasHeight := containerHeight;
      CalculateKeyZones();
    }

    /** Starts a note unless it is already sounding; other notes are untouched. */
    method PlayNote(note: Note)
      modifies this`activeNotes, this`synthLog
      ensures activeNotes == old(activeNotes) + {note}
      ensures synthLog == if note in old(activeNotes) then old(synthLog) else old(synthLog) + [Attack(note)]
    {
      if note !in activeNotes {
        synthLog := synthLog + [Attack(note)];
        activeNotes := activeNotes + {note};
      }
    }

    /** Stops a note if it is sounding; other notes are untouched. */
    method StopNote(note: Note)
      modifies this`activeNotes, this`synthLog
      ensures activeNotes == old(activeNotes) - {note}
      ensures synthLog == if note in old(activeNotes) then old(synthLog) + [Release(note)] else old(synthLog)
    {
      if note in activeNotes {
        synthLog := synthLog + [Release(note)];
        activeNotes := activeNotes - {note};
      }
    }

    /**
     * Brings the sounding notes in line with the frame's requested set: stops
     * every active note that is not requested, then starts every requested note
     * that is not active. Notes in both sets send nothing.
     */
    method UpdateNotes(notesToPlay: set<Note>)
      modifies this`activeNotes, this`synthLog
      ensures activeNotes == notesToPlay
      ensures |synthLog| >= |old(synthLog)| && synthLog[..|old(synthLog)|] == old(synthLog)
      ensures FrameDiff(synthLog[|old(synthLog)|..], old(activeNotes), notesToPlay)
    {
      ghost var before := activeNotes;
      ghost var log0 := synthLog;
      ghost var released := StopUnrequested(notesToPlay);
      ghost var log1 := synthLog;
      ghost var attacked := StartRequested(notesToPlay);
      AppendedFrameDiff(log0, log1, synthLog, released, attacked, before, notesToPlay);
    }

    /** The first loop of the update: stop each active note the frame does not request. */
    method StopUnrequested(notesToPlay: set<Note>) returns (ghost released: seq<Note>)
      modifies this`activeNotes, this`synthLog
      ensures activeNotes == old(activeNotes) * notesToPlay
      ensures Distinct(released) && Elems(released) == old(activeNotes) - notesToPlay
      ensures synthLog == old(synthLog) + Releases(released)
    {
      ghost var before := activeNotes;
      ghost var visited: set<Note> := {};
      released := [];
      var pending := activeNotes;
      while pending != {}
        invariant visited + pending == before && visited !! pending
        invariant activeNotes == before - (visited - notesToPlay)
        invariant Distinct(released) && Elems(released) == visited - notesToPlay
        invariant synthLog == old(synthLog) + Releases(released)
        decreases pending
      {
        var note :| note in pending;
        StopStep(before, visited, pending, notesToPlay, note);
        pending := pending - {note};
        visited := visited + {note};
        if note !in notesToPlay {
          StopNote(note);
          AppendNote(released, note);
          released := released + [note];
        }
      }
    }

    /** The second loop of the update: start each requested note that is not sounding. */
    method StartRequested(notesToPlay: set<Note>) returns (ghost attacked: seq<Note>)
      modifies this`activeNotes, this`synthLog
      ensures activeNotes == old(activeNotes) + notesToPlay
      ensures Distinct(attacked) && Elems(attacked) == notesToPlay - old(activeNotes)
      ensures synthLog == old(synthLog) + Attacks(attacked)
    {
      ghost var before := activeNotes;
      ghost var visited: set<Note> := {};
      attacked := [];
      var unvisited := notesToPlay;
      while unvisited != {}
        invariant visited + unvisited == notesToPlay && visited !! unvisited
        invariant activeNotes == before + visited
        invariant Distinct(attacked) && Elems(attacked) == visited - before
        invariant synthLog == old(synthLog) + Attacks(attacked)
        decreases unvisited
      {
        var note :| note in unvisited;
        StartStep(before, visited, unvisited, note);
        unvisited := unvisited - {note};
        visited := visited + {note};
        if note !in activeNotes {
          PlayNote(note);
          AppendNote(attacked, note);
          attacked := attacked + [note];
        }
      }
    }

    /**
     * One tracker frame: follow the video's size (rebuilding the zones first
     * when it changed), collect the notes under the fingertips, and update the
     * sounding notes to exactly that set.
     */
    method OnResults(videoWidth: nat, videoHeight: nat, hands: seq<Hand>)
      requires Valid()
      requires forall h :: 0 <= h < |hands| ==> HasFingertips(hands[h])
      modifies this`canvasWidth, this`canvasHeight, this`keyZones, this`activeNotes, this`synthLog
      ensures Valid()
      ensures canvasWidth == videoWidth && canvasHeight == videoHeight
      ensures activeNotes == RequestedNotes(keyZones, hands, videoWidth, videoHeight)
      ensures hands == [] ==> activeNotes == {}
      ensures |synthLog| >= |old(synthLog)| && synthLog[..|old(synthLog)|] == old(synthLog)
      ensures FrameDiff(synthLog[|old(synthLog)|..], old(activeNotes), activeNotes)
    {
      if canvasWidth != videoWidth || canvasHeight != videoHeight {
        canvasWidth := videoWidth;
        canvasHeight := videoHeight;
        CalculateKeyZones();
      }
      var notesToPlay := NotesToPlay(keyZones, hands, canvasWidth, canvasHeight);
      UpdateNotes(notesToPlay);
    }
  }
}
