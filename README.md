# Air piano: key zones, fingertip hit-test and note updates

The air piano is a web page. A hand tracker reports each hand as 21
normalised landmarks. The page mirrors each fingertip onto a canvas, finds
the piano key zone under it, and keeps a polyphonic synthesizer sounding
exactly the notes that the fingertips rest on. This project models that core
of `script.js` and proves its properties:

- `KeyLayout` — the key-zone layout that `calculateKeyZones` builds. White
  keys tile the bottom 30% of the canvas. Black keys are 0.6 times as wide and
  as tall. A black key's zone has its left edge, not its centre, at
  `W * offset` (script.js:94). The zone list holds the white zones first,
  then the black ones (script.js:72-100).
- `CanvasMapping` — the mirrored map from a landmark's normalised `(x, y)`
  to a canvas pixel `(W - x*W, y*H)`, and its inverse.
- `HitTest` — the first-match test of a fingertip against the zone list.
  Bounds are inclusive on all four edges. White zones are pushed before black
  ones, so where the two overlap the white key wins. The module also defines
  the set of notes a frame requests, and the imperative loops that compute it.
- `NoteEvents` — the synthesizer modelled as an append-only log of
  `Attack(note)` / `Release(note)` commands. `FrameDiff` states what one
  frame's update may send.
- `PianoPage` — class `AirPiano`, the page's mutable state: canvas size,
  zones, active notes and the synthesizer log. It holds `playNote`,
  `stopNote`, the resize handlers and the `onResults` frame handler.
- `Brushes` — the brush palette and the choice `fingerIndex % brushes.length`.
- `Scenarios` — worked examples on a 640 x 360 canvas, including three
  frames run through `AirPiano.OnResults`.

Pixel arithmetic is exact (`real`), and canvas sizes are `nat`. The loops
over a JavaScript `Set` pick their next element with an arbitrary choice
(`:|`), so every contract holds for any iteration order, insertion order
included.

## Model

| member | source | states |
|---|---|---|
| KeyLayout.LayoutOrder | script.js:66-100 | The layout has one zone per key: the white keys' notes in order, then the black keys' notes in order |
| KeyLayout.WhiteZonesTile | script.js:61-82 | The white zones tile the band from x = 0 to x = W. Each ends where the next begins, each is W/n wide and 0.3·H tall, and each reaches the bottom edge H |
| KeyLayout.BlackZoneGeometry | script.js:84-100 | Black zone j carries black key j's note. Its left edge is W·offset/100, its top equals the white keys' top (0.7·H), and its size is 0.6 of a white zone's width and height |
| KeyLayout.WhiteZonesCoverBand | script.js:61-82 | Every point of the band [0, W] × [H - 0.3·H, H], edges included, lies in some white zone |
| CanvasMapping.ToCanvasInCanvas | script.js:219-222 | A landmark with x and y in [0, 1] maps into [0, W] × [0, H] |
| CanvasMapping.ToCanvasEdges | script.js:221-222 | The mapping mirrors: x = 0 lands on the canvas's right edge W, x = 1 on its left edge 0, and y is scaled by H |
| CanvasMapping.ToCanvasReversesX | script.js:221 | On a canvas of positive width, a landmark further right in the camera image lands further left on the canvas |
| CanvasMapping.FromToCanvas | script.js:221-222 | Unmirroring a mapped landmark gives back its normalised (x, y) |
| CanvasMapping.ToFromCanvas | script.js:221-222 | Mapping a pixel back to normalised coordinates and forward again gives the same pixel |
| HitTest.FirstHitSound | script.js:228-237 | A fingertip claims nothing exactly when no zone contains it, inclusive bounds on all four edges. Otherwise it claims the note of a zone that contains it |
| HitTest.FirstHitIsFirstMatch | script.js:228-237 | If zone i contains the point and no earlier zone does, zone i's note is claimed, whatever the later zones are |
| HitTest.FirstHitAppend | script.js:228-237 | Testing a concatenated zone list tests the first part, and the second part only when the first part claims nothing |
| HitTest.WhiteKeysWinOverlap | script.js:72-100 | A point inside a white zone plays the white zone's note even where a black zone overlaps it, because whites are tested first |
| HitTest.BandPlaysWhiteKey | script.js:228-237 | Every point of the keyboard band plays some white key's note |
| HitTest.AboveBandPlaysNothing | script.js:72-100 | Every zone's top edge is the band's top, so a point above the keyboard band plays no note |
| HitTest.TipNotesSpec | script.js:216-239 | A note is claimed by a hand's first `count` fingertips exactly when one of them has it as its first match |
| HitTest.RequestedNotesSpec | script.js:194-241 | A note is in the frame's requested set exactly when some fingertip (landmarks 4, 8, 12, 16, 20) of some hand has it as its first match |
| HitTest.RequestedNotesAreZoneNotes | script.js:194-241 | Every requested note is some zone's note, and a frame without hands requests nothing |
| HitTest.ScanZones | script.js:228-238 | The scan loop with `break` returns exactly the first-match note, or None |
| HitTest.NotesToPlay | script.js:194-241 | The nested loops over hands and fingertips build exactly the requested set |
| NoteEvents.ReleaseThenAttackIsFrameDiff | script.js:243-254 | Releasing each stopped note once and then attacking each started note once sends exactly one release per note in old \ new and one attack per note in new \ old. It sends nothing else, and all releases come first |
| NoteEvents.AppendedFrameDiff | script.js:243-254 | A log extended by those releases and then those attacks keeps its old entries, and the new entries form a valid frame update |
| NoteEvents.HeldNotesSendNothing | script.js:244-254 | A frame that requests exactly the sounding notes sends no command: a held note is never re-triggered |
| NoteEvents.EmptyFrameReleasesAll | script.js:244-248 | A frame with nothing requested releases each sounding note exactly once and attacks nothing |
| NoteEvents.ReleasesCount | script.js:244-248 | Helper of `UpdateNotes`: each note of a repeat-free release list occurs once as a release, and no other event occurs |
| NoteEvents.AttacksCount | script.js:250-254 | Helper of `UpdateNotes`: each note of a repeat-free attack list occurs once as an attack, and no other event occurs |
| Brushes.BrushIndex | script.js:147 | The brush index is always a valid palette index, and each of the five fingertips gets its own brush |
| Brushes.BrushIndexCycles | script.js:39-45 | Finger indices a palette length apart share a brush, and the five brushes are pairwise different |
| PianoPage.AirPiano.constructor | script.js:32-36 | At page load nothing sounds, the log is empty, the canvas takes the container's size and the zones match it |
| PianoPage.AirPiano.CalculateKeyZones | script.js:60-101 | Rebuilds the zone list from scratch. The list equals `Layout` of the current canvas size and keys, so recomputing at the same size gives the same list |
| PianoPage.AirPiano.ResizeCanvases | script.js:290-301 | The canvas takes the container's size and the zones match the new size |
| PianoPage.AirPiano.PlayNote | script.js:116-127 | An inactive note becomes active and exactly one `Attack` is logged. An active note changes nothing. No other note's membership changes |
| PianoPage.AirPiano.StopNote | script.js:130-141 | An active note becomes inactive and exactly one `Release` is logged. An inactive note changes nothing. No other note's membership changes |
| PianoPage.AirPiano.StopUnrequested | script.js:244-248 | Afterwards the active notes are old ∩ requested. The log grew by one release per stopped note, each note once |
| PianoPage.AirPiano.StartRequested | script.js:250-254 | Afterwards the active notes are old ∪ requested. The log grew by one attack per started note, each note once |
| PianoPage.AirPiano.UpdateNotes | script.js:243-254 | Afterwards the active notes equal the requested set. The log kept its old entries and grew by exactly a valid frame update from the old active set |
| PianoPage.AirPiano.OnResults | script.js:165-255 | After a frame the canvas matches the video and the zones match the canvas. The active notes are exactly the notes under fingertips (none when no hand is seen), and the log grew by exactly one valid frame update |
| Scenarios.FingertipPlaysC4 | script.js:60-101 | Worked example on a 640 x 360 canvas. Normalised landmark (0.9, 0.8) lands on pixel (64, 288). That point is inside both the C4 zone and the C#4 zone, and C4 is played |
| Scenarios.HandOnC4RequestsC4 | script.js:216-239 | Worked example. A hand whose index fingertip is at (0.9, 0.8) and whose other landmarks are at y = 0.1 requests C4 alone |
| Scenarios.HoldThenLeave | script.js:165-255 | Worked example over three `OnResults` frames on a fresh page. The fingertip arrives on C4 (the log becomes one attack), stays (nothing more is sent), then the hand leaves (one release follows). At the end nothing sounds |

## Left out

- Drawing is not modelled: clearing and fading the canvases, the mirrored video frame, landmark dots, debug key zones and brush strokes. These are rendering calls with no state the model can observe; only the brush choice is kept.
- `Math.random` brush-size jitter is not modelled: it is random and only affects drawing.
- Key highlighting via `classList` is not modelled: it is a DOM side effect.
- Reading key names and black-key offsets from the DOM is not modelled. They are inputs to the model (`whiteKeys`, `blackKeys` with `leftPercent`). An offset that `parseFloat` turns into NaN is not modelled.
- MediaPipe `Hands`, `Camera` and the Tone.js `PolySynth` are not modelled. The tracker's output is the `hands` parameter of `OnResults`. The synthesizer is the append-only command log `synthLog`.
- The start button, `Tone.start`, the `alert` and the mouse handlers are not modelled. The mouse handlers only call `PlayNote`/`StopNote`, which are modelled.
- The visual canvas's size is not modelled. It always equals the output canvas's size, which is modelled.
- Floating point is not modelled: pixel arithmetic uses exact reals, so rounding in the browser is not captured.
- KeyLayout.Layout requires at least one white key. With none, the source divides by zero and gets an infinite width; the model does not cover that page.
- HitTest.RequestedNotes requires every hand to have at least 21 landmarks. The source reads landmarks 4 to 20 without a bounds check.
- NoteEvents.FrameDiff fixes that all releases come before all attacks, but not the order among the releases or among the attacks. The source releases in the insertion order of `activeNotes` and attacks in the insertion order of `notesToPlay` (hand by hand, fingertip by fingertip); the model's loops take any order, and nothing in the page depends on it.
- A missing `multiHandLandmarks` (no hands detected) is modelled as an empty sequence of hands. Both request nothing.
