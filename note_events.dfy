/**
 * The commands sent to the synthesizer, recorded as an append-only log, and
 * what one frame's update of the active notes is allowed to send.
 */
module NoteEvents {
  import opened KeyLayout

  /** `triggerAttack(note)` and `triggerRelease(note)` on the synthesizer. */
  datatype SynthEvent = Attack(note: Note) | Release(note: Note)

  /** No note occurs twice. */
  predicate Distinct(notes: seq<Note>)
  {
    notes == [] || (Distinct(notes[..|notes| - 1]) && notes[|notes| - 1] !in Elems(notes[..|notes| - 1]))
  }

  /** The notes of a sequence, as a set. */
  function Elems(notes: seq<Note>): set<Note>
  {
    if notes == [] then {} else Elems(notes[..|notes| - 1]) + {notes[|notes| - 1]}
  }

  /** A note is among the elements exactly when it occurs in the sequence. */
  lemma {:induction false} ElemsMembership(notes: seq<Note>, n: Note)
    ensures n in Elems(notes) <==> n in notes
  {
    if notes != [] {
      var front := notes[..|notes| - 1];
      ElemsMembership(front, n);
      assert notes == front + [notes[|notes| - 1]];
    }
  }

  /** A release for each note, in order. */
  function Releases(notes: seq<Note>): seq<SynthEvent>
  {
    if notes == [] then [] else Releases(notes[..|notes| - 1]) + [Release(notes[|notes| - 1])]
  }

  /** An attack for each note, in order. */
  function Attacks(notes: seq<Note>): seq<SynthEvent>
  {
    if notes == [] then [] else Attacks(notes[..|notes| - 1]) + [Attack(notes[|notes| - 1])]
  }

  /** The event is one a frame moving the active set from `before` to `after` may send. */
  predicate Expected(e: SynthEvent, before: set<Note>, after: set<Note>)
  {
    match e
    case Release(n) => n in before && n !in after
    case Attack(n) => n in after && n !in before
  }

  /**
   * `events` is what a frame that moves the active notes from `before` to
   * `after` sends: one release for each note that stops, one attack for each
   * note that starts, nothing else and nothing twice, all releases first.
   */
  predicate FrameDiff(events: seq<SynthEvent>, before: set<Note>, after: set<Note>)
  {
    && |events| == |before - after| + |after - before|
    && (forall i :: 0 <= i < |events| ==> Expected(events[i], before, after))
    && (forall n :: n in before && n !in after ==> multiset(events)[Release(n)] == 1)
    && (forall n :: n in after && n !in before ==> multiset(events)[Attack(n)] == 1)
    && (forall i, j :: 0 <= i < j < |events| && events[j].Release? ==> events[i].Release?)
  }

  /** Appending a note that is new keeps a sequence free of repeats and adds one event at the end. */
  lemma AppendNote(notes: seq<Note>, n: Note)
    requires Distinct(notes) && n !in Elems(notes)
    ensures Distinct(notes + [n]) && Elems(notes + [n]) == Elems(notes) + {n}
    ensures Releases(notes + [n]) == Releases(notes) + [Release(n)]
    ensures Attacks(notes + [n]) == Attacks(notes) + [Attack(n)]
  {
    assert (notes + [n])[..|notes|] == notes;
  }

  /** A sequence without repeats has as many elements as its set of elements. */
  lemma {:induction false} DistinctCardinality(notes: seq<Note>)
    requires Distinct(notes)
    ensures |Elems(notes)| == |notes|
  {
    if notes != [] {
      var front := notes[..|notes| - 1];
      var last := notes[|notes| - 1];
      assert Distinct(front);
      DistinctCardinality(front);
      assert Elems(notes) == Elems(front) + {last};
      assert last !in Elems(front);
    }
  }

  lemma {:induction false} ReleasesShape(notes: seq<Note>)
    ensures |Releases(notes)| == |notes|
    ensures forall i :: 0 <= i < |notes| ==> Releases(notes)[i] == Release(notes[i])
  {
    if notes != [] {
      ReleasesShape(notes[..|notes| - 1]);
    }
  }

  lemma {:induction false} AttacksShape(notes: seq<Note>)
    ensures |Attacks(notes)| == |notes|
    ensures forall i :: 0 <= i < |notes| ==> Attacks(notes)[i] == Attack(notes[i])
  {
    if notes != [] {
      AttacksShape(notes[..|notes| - 1]);
    }
  }

  /** Each note of a repeat-free sequence is released exactly once, and nothing else. */
  lemma {:induction false} ReleasesCount(notes: seq<Note>, e: SynthEvent)
    requires Distinct(notes)
    ensures multiset(Releases(notes))[e] == if e.Release? && e.note in Elems(notes) then 1 else 0
  {
    if notes != [] {
      var front := notes[..|notes| - 1];
      assert Distinct(front);
      ReleasesCount(front, e);
      assert notes == front + [notes[|notes| - 1]];
    }
  }

  lemma {:induction false} AttacksCount(notes: seq<Note>, e: SynthEvent)
    requires Distinct(notes)
    ensures multiset(Attacks(notes))[e] == if e.Attack? && e.note in Elems(notes) then 1 else 0
  {
    if notes != [] {
      var front := notes[..|notes| - 1];
      assert Distinct(front);
      AttacksCount(front, e);
      assert notes == front + [notes[|notes| - 1]];
    }
  }

  /**
   * Releasing each stopped note once and then attacking each started note
   * once is a valid frame update.
   */
  lemma ReleaseThenAttackIsFrameDiff(released: seq<Note>, attacked: seq<Note>, before: set<Note>, after: set<Note>)
    requires Distinct(released) && Elems(released) == before - after
    requires Distinct(attacked) && Elems(attacked) == after - before
    ensures FrameDiff(Releases(released) + Attacks(attacked), before, after)
  {
    DistinctCardinality(released);
    DistinctCardinality(attacked);
    ReleaseThenAttackShape(released, attacked, before, after);
    ReleaseThenAttackCounts(released, attacked, before, after);
  }

  /**
   * A log that grew by releasing each stopped note once and then attacking
   * each started note once kept its old entries and grew by a valid frame update.
   */
  lemma AppendedFrameDiff(log0: seq<SynthEvent>, log1: seq<SynthEvent>, log: seq<SynthEvent>,
                          released: seq<Note>, attacked: seq<Note>, before: set<Note>, after: set<Note>)
    requires Distinct(released) && Elems(released) == before - after
    requires Distinct(attacked) && Elems(attacked) == after - before
    requires log1 == log0 + Releases(released) && log == log1 + Attacks(attacked)
    ensures |log| >= |log0| && log[..|log0|] == log0
    ensures FrameDiff(log[|log0|..], before, after)
  {
    var events := Releases(released) + Attacks(attacked);
    ConcatAssociates(log0, Releases(released), Attacks(attacked));
    ReleaseThenAttackIsFrameDiff(released, attacked, before, after);
    AppendedEvents(log0, events, before, after);
  }

  lemma ConcatAssociates(a: seq<SynthEvent>, b: seq<SynthEvent>, c: seq<SynthEvent>)
    ensures (a + b) + c == a + (b + c)
  {
  }

  lemma AppendedEvents(log0: seq<SynthEvent>, events: seq<SynthEvent>, before: set<Note>, after: set<Note>)
    requires FrameDiff(events, before, after)
    ensures (log0 + events)[..|log0|] == log0
    ensures FrameDiff((log0 + events)[|log0|..], before, after)
  {
    assert (log0 + events)[|log0|..] == events;
  }

  lemma ReleaseThenAttackShape(released: seq<Note>, attacked: seq<Note>, before: set<Note>, after: set<Note>)
    requires Elems(released) == before - after && Elems(attacked) == after - before
    ensures var events := Releases(released) + Attacks(attacked);
      && |events| == |released| + |attacked|
      && (forall i :: 0 <= i < |events| ==> Expected(events[i], before, after))
      && (forall i, j :: 0 <= i < j < |events| && events[j].Release? ==> events[i].Release?)
  {
    var events := Releases(released) + Attacks(attacked);
    ReleasesShape(released);
    AttacksShape(attacked);
    forall i | 0 <= i < |events|
      ensures Expected(events[i], before, after)
      ensures events[i].Release? <==> i < |released|
    {
      if i < |released| {
        assert events[i] == Release(released[i]);
        ElemsMembership(released, released[i]);
      } else {
        assert events[i] == Attack(attacked[i - |released|]);
        ElemsMembership(attacked, attacked[i - |released|]);
      }
    }
  }

  lemma ReleaseThenAttackCounts(released: seq<Note>, attacked: seq<Note>, before: set<Note>, after: set<Note>)
    requires Distinct(released) && Elems(released) == before - after
    requires Distinct(attacked) && Elems(attacked) == after - before
    ensures var events := Releases(released) + Attacks(attacked);
      && (forall n :: n in before && n !in after ==> multiset(events)[Release(n)] == 1)
      && (forall n :: n in after && n !in before ==> multiset(events)[Attack(n)] == 1)
  {
    var events := Releases(released) + Attacks(attacked);
    assert multiset(events) == multiset(Releases(released)) + multiset(Attacks(attacked));
    forall n | n in before && n !in after
      ensures multiset(events)[Release(n)] == 1
    {
      ReleasesCount(released, Release(n));
      AttacksCount(attacked, Release(n));
    }
    forall n | n in after && n !in before
      ensures multiset(events)[Attack(n)] == 1
    {
      ReleasesCount(released, Attack(n));
      AttacksCount(attacked, Attack(n));
    }
  }

  /** A frame that requests exactly the notes already held sends nothing: a held note is never re-attacked. */
  lemma HeldNotesSendNothing(events: seq<SynthEvent>, active: set<Note>)
    requires FrameDiff(events, active, active)
    ensures events == []
  {
  }

  /** A frame with no notes requested releases every active note exactly once and attacks nothing. */
  lemma EmptyFrameReleasesAll(events: seq<SynthEvent>, active: set<Note>)
    requires FrameDiff(events, active, {})
    ensures |events| == |active|
    ensures forall i :: 0 <= i < |events| ==> events[i].Release? && events[i].note in active
    ensures forall n :: n in active ==> multiset(events)[Release(n)] == 1
  {
    assert active - {} == active;
    assert {} - active == {};
  }

  /**
   * One step of the stopping loop moves `note` from the pending notes to the
   * visited ones; the notes stopped so far grow by `note` exactly when it is
   * not requested.
   */
  lemma StopStep(before: set<Note>, visited: set<Note>, pending: set<Note>, requested: set<Note>, note: Note)
    requires visited + pending == before && visited !! pending && note in pending
    ensures (visited + {note}) + (pending - {note}) == before && (visited + {note}) !! (pending - {note})
    ensures note in before - (visited - requested)
    ensures note !in visited - requested
    ensures note !in requested ==> (visited + {note}) - requested == (visited - requested) + {note}
    ensures note !in requested ==> before - ((visited + {note}) - requested) == (before - (visited - requested)) - {note}
    ensures note in requested ==> (visited + {note}) - requested == visited - requested
  {
  }

  /**
   * One step of the starting loop moves `note` from the unvisited requested
   * notes to the visited ones; the notes started so far grow by `note`
   * exactly when it was not already sounding.
   */
  lemma StartStep(before: set<Note>, visited: set<Note>, unvisited: set<Note>, note: Note)
    requires visited !! unvisited && note in unvisited
    ensures (visited + {note}) !! (unvisited - {note})
    ensures (visited + {note}) + (unvisited - {note}) == visited + unvisited
    ensures note !in visited - before
    ensures note !in before + visited ==> (visited + {note}) - before == (visited - before) + {note}
    ensures note in before + visited ==> (visited + {note}) - before == visited - before
    ensures before + (visited + {note}) == (before + visited) + {note}
  {
  }
}
