# TDN score extraction — a Dafny model of the transcription pipeline

The TDN tool turns an audio recording into a one-part score. A pitch tracker gives a
pitch matrix and a magnitude matrix (frequency bins × analysis frames). From these
the tool:

1. visits every `skip_factor`-th frame and keeps the pitches of the bins that are
   loud enough (magnitude strictly above the threshold) and voiced (pitch above
   0 Hz). A frame with no such bin becomes a rest (`None`);
2. turns each pitch into a note at its rounded MIDI number. A note whose name is not
   in the chosen key is renamed to the key's closest name, keeping its octave.
   "Closest" means the smallest absolute MIDI distance at the default octave, and the
   first such name in the scale's order wins a tie;
3. merges runs of chords: a chord whose list of pitch names equals the previous
   chord's replaces it and adds its length. Rests are never merged, and each rest
   resets the "previous chord";
4. lays the events into a part after a 4/4 time signature and a tempo mark of 120.

The model has one module per stage:

| file | module | stage |
|---|---|---|
| `common.dfy` | `Common`, `Notation` | `Option`; notes as (name, octave); the library conversions, as parameters |
| `key_table.dfy` | `KeyTable` | `get_scale` |
| `chord_detection.dfy` | `ChordDetection` | the frame loop of `detect_chords` |
| `snapper.dfy` | `Snapper` | `find_closest_note` |
| `quantiser.dfy` | `Quantiser` | `chords_to_notes` |
| `score.dfy` | `ScoreAssembly` | `generate_score` |
| `pipeline.dfy` | `Pipeline` | the stages composed as in `audio_to_sheet` |

The loops of the source are methods with loop invariants, each proved equal to a
specification function:
- `DetectChords` to `Visits`/`VisitTimes`;
- `FindClosestNote` to `Closest`;
- `ChordsToNotes` to `Quantise`, a left fold of `Step` over a `State(notes, lastChord)` that
  mirrors the source's two loop variables.

`generate_score` appends to a part object, so `Part` and `Score` are classes whose
methods extend a sequence field.

The audio and notation libraries are not modelled. Their conversions are fields of a
`Library` value passed in:
- `midiOfHz`: frequency to rounded MIDI number;
- `spell`: the note made for a MIDI number;
- `refMidi`: the MIDI number of a bare name at the default octave.

Every property below holds for any such conversions.

Points of the code's behaviour that are easy to misread:
- Chord identity compares ordered lists of pitch names (`last_chord.pitchNames == c.pitchNames`),
  not sets. Two chords with the same names in another order, or with a repeated name, are
  different chords.
- Rests are never merged: a silent input gives one 1/4 rest per visited frame
  (`SilenceGivesRestsUnderAnyKey`).
- The `default` scale has 23 entries, with `F#` and `A#` listed twice (`ChromaticWithRepeats`).
- With an empty scale the snapper returns `None`; it is not undefined.

## Model

| member | source | states |
|---|---|---|
| `KeyTable.GetScale` | TDN.py:7-42 | each major or minor key gives 7 distinct names; `default` gives 23 names, the first 21 distinct, then `F#` and `A#` again (both already among the 21); a name not in the table, compared exactly, gives `[]`; a name in the table gives a non-empty scale |
| `KeyTable.MajorScales` | TDN.py:10-21 | every `<tonic> major` entry is 7 distinct pitch-class names |
| `KeyTable.MinorScales` | TDN.py:24-35 | every `<tonic> minor` entry is 7 distinct pitch-class names |
| `KeyTable.DefaultScale` | TDN.py:38-39 | the `default` entry: 23 names, 21 distinct, then `F#` and `A#` repeated |
| `KeyTable.ListedMajorKeysAreInTable` | TDN.py:10-21 | the twelve listed major key names are distinct and each is a ` major` entry of the table |
| `KeyTable.ListedMinorKeysAreInTable` | TDN.py:24-35 | the twelve listed minor key names are distinct and each is a ` minor` entry of the table |
| `KeyTable.MajorKeysListed` | TDN.py:10-21 | a table key ending in ` major` is one of the twelve major keys, in table order |
| `KeyTable.MinorKeysListed` | TDN.py:24-35 | a table key ending in ` minor` is one of the twelve minor keys |
| `ChordDetection.Selected` | TDN.py:52-58 | the collected chord has at most one pitch per bin, and every pitch in it is strictly positive |
| `ChordDetection.SelectedIsQualifyingBins` | TDN.py:52-58 | a frame's chord is exactly the pitches of the bins with magnitude > threshold and pitch > 0, in strictly increasing bin order |
| `ChordDetection.SelectedBinsQualify` | TDN.py:52-58 | the collected bins are exactly the qualifying ones, strictly increasing |
| `ChordDetection.SelectedFollowsBins` | TDN.py:55-58 | the collected pitches are those of the collected bins, one each, in order |
| `ChordDetection.SelectedIsEmptyIffSilent` | TDN.py:52-60 | no pitch is collected exactly when no bin is both loud enough and voiced |
| `ChordDetection.ThresholdIsStrict` | TDN.py:52 | a bin whose magnitude equals the threshold is not selected |
| `ChordDetection.FrameEntryIsRestIffSilent` | TDN.py:60-64 | a frame's entry is `None` iff no bin qualifies; a chord entry is never empty |
| `ChordDetection.CeilDivIsCeiling` | TDN.py:50 | the number of visited frames is ceil(F / s): F <= count·s < F + s |
| `ChordDetection.VisitsAt` | TDN.py:50-65 | visiting from frame `start` with stride s gives ceil((F − start)/s) entries, entry i being frame start + i·s |
| `ChordDetection.VisitsLength` | TDN.py:50 | the visit from frame `start` has ceil((F − start)/s) entries |
| `ChordDetection.VisitAt` | TDN.py:50-65 | entry i of the visit from `start` is that of frame start + i·s, which is below F |
| `ChordDetection.VisitTimesAt` | TDN.py:50-65 | as many times as entries; time i is (start + i·s)·hop / sr |
| `ChordDetection.VisitTimesLength` | TDN.py:50-65 | the visit from `start` has ceil((F − start)/s) times |
| `ChordDetection.VisitTimeAt` | TDN.py:62-65 | time i of the visit from `start` is that of frame start + i·s |
| `ChordDetection.VisitsFromStart` | TDN.py:50-65 | from frame 0: ceil(F/s) entries and times, entry and time i for frame i·s |
| `ChordDetection.TimesIncrease` | TDN.py:62-65 | with hop > 0 and sr > 0, a later visited frame has a strictly later time |
| `ChordDetection.FrameChord` | TDN.py:52-58 | the inner loop collects exactly `Selected` over all bins of the frame |
| `ChordDetection.DetectChords` | TDN.py:50-67 | a zero step fails as `range` does and a negative step gives two empty lists; otherwise `chord_values` and `time_steps` both have ceil(F/s) entries, entry i being frame i·s's chord-or-rest at time i·s·hop/sr |
| `Snapper.ClosestIndex` | TDN.py:77-85 | the position the scan's strict `<` settles on lies within the scale |
| `Snapper.Closest` | TDN.py:70-87 | `None` exactly for an empty scale, otherwise a member of the scale |
| `Snapper.ClosestIndexIsFirstClosest` | TDN.py:77-85 | the scan's choice minimises the absolute MIDI distance, and on a tie it is the first minimal position (strict `<`) |
| `Snapper.FirstClosestIsUnique` | TDN.py:83-85 | the first minimal position is unique, so the scan's result is determined |
| `Snapper.ClosestIsNearest` | TDN.py:70-87 | for a non-empty scale the result is the name at the first position of least distance |
| `Snapper.FindClosestNote` | TDN.py:70-87 | the loop with its running minimum (starting at infinity) returns `None` for an empty scale, otherwise the scale's first name at least linear MIDI distance |
| `Notation.Names` | TDN.py:119 | a chord's `pitchNames`: one name per note, the name of the note at the same position |
| `Quantiser.QuantiseNote` | TDN.py:102-109 | the note's name is in the key; its octave is the rounded pitch's; a rounded note whose name is already in the key is kept unchanged; an out-of-key note gets the name `find_closest_note` returns for its name |
| `Quantiser.QuantiseNoteIsNearest` | TDN.py:106-109 | an out-of-key note keeps its octave and takes the key name at the first position of least MIDI distance from its own name |
| `Quantiser.QuantiseChord` | TDN.py:100-111 | one note per pitch, in order, each the quantised note of that pitch |
| `Quantiser.AddChord` | TDN.py:113-123 | handling a chord's notes keeps the state consistent |
| `Quantiser.AddChordMerges` | TDN.py:119-123 | notes repeating the last chord's names follow that chord, which is the last event, and replace it with their notes and the summed length |
| `Quantiser.EmitChord` | TDN.py:113-123 | the chord branch of the loop computes exactly `AddChord`'s new events and last chord |
| `Quantiser.Step` | TDN.py:94-123 | one iteration keeps the state consistent: `last_chord` is the last event, or it is the empty chord and the events are empty or end in a rest |
| `Quantiser.Run` | TDN.py:90-124 | the state after any prefix of the entries is consistent |
| `Quantiser.ChordNotes` | TDN.py:100-111 | the inner loop builds the quantised chord: one note per pitch, each name in the key |
| `Quantiser.ChordsToNotes` | TDN.py:90-124 | the loop returns `Quantise` of its entries: no longer than the input, no two adjacent chords with equal name lists, every note name in a non-empty key |
| `Quantiser.Quantise` | TDN.py:90-124 | no entries give no events; after a `None` entry the events end in a 1/4 rest; after a chord entry with pitches they end in a chord carrying that entry's quantised notes |
| `Quantiser.QuantiseIsShorter` | TDN.py:114-123 | the output has no more events than there are entries |
| `Quantiser.QuantiseConservesDuration` | TDN.py:94-123 | the total length is 1/4 times the number of rests and non-empty chord entries |
| `Quantiser.StepAddsOneUnit` | TDN.py:94-123 | one step adds 1/4 to the total length, except for an empty chord entry |
| `Quantiser.StepKeepsRepeatsApart` | TDN.py:119-123 | one step keeps adjacent chords with equal name lists apart |
| `Quantiser.AddChordKeepsRepeatsApart` | TDN.py:119-123 | adding a chord's notes keeps adjacent chords with equal name lists apart |
| `Quantiser.QuantiseHasNoAdjacentRepeats` | TDN.py:119-123 | no chord is directly followed by a chord with the same list of pitch names |
| `Quantiser.QuantiseStaysInKey` | TDN.py:102-111 | with a non-empty key, every note name of every output chord is in the key |
| `Quantiser.StepStaysInKey` | TDN.py:102-111 | one step with a non-empty key adds only notes whose names are in the key |
| `Quantiser.StepCountsRests` | TDN.py:95-121 | one step adds one rest for a rest entry and removes no rest (a pop removes only a chord) |
| `Quantiser.LastChordIsLastEvent` | TDN.py:119-123 | in a consistent state whose events end in a chord, that chord is the last chord |
| `Quantiser.StepKeepsUnitRests` | TDN.py:96-121 | one step keeps every rest at 1/4 |
| `Quantiser.RestsAreNeverMerged` | TDN.py:95-98 | there are exactly as many rests as `None` entries, and each lasts 1/4 |
| `Quantiser.SilenceGivesOneRestPerEntry` | TDN.py:95-98 | all-`None` input gives one 1/4 rest per entry under any key |
| `Quantiser.RestIsAppended` | TDN.py:95-98 | a `None` entry appends a 1/4 rest and resets the last chord to the empty chord |
| `Quantiser.EmptyChordEntryIsIgnored` | TDN.py:114 | an empty pitch list changes neither the events nor the last chord |
| `Quantiser.RestStartsNewChord` | TDN.py:92-119 | the chord right after a rest is a new 1/4 event, even when it repeats the chord before the rest |
| `Quantiser.RepeatedChordIsMerged` | TDN.py:119-123 | a chord with the previous chord's name list replaces it, with the latest entry's notes and the two lengths summed |
| `Quantiser.ChangedChordIsAppended` | TDN.py:114-123 | a chord whose name list differs from the previous event's is appended with length 1/4 |
| `ScoreAssembly.PartElements` | TDN.py:131-140 | the part holds the 4/4 time signature, then the tempo mark of 120, then the events in order |
| `ScoreAssembly.Part.Append` | TDN.py:133 | appending adds one element at the end of the part |
| `ScoreAssembly.Score.Insert` | TDN.py:142 | inserting adds one part, at the given offset, after the score's existing parts |
| `ScoreAssembly.GenerateScore` | TDN.py:127-143 | a fresh score with one fresh part at offset 0 whose elements are the time signature, the tempo and `chords_to_notes`' events |
| `Pipeline.VisitsHaveNoEmptyChord` | TDN.py:60-64 | the frame loop never produces an empty chord entry |
| `Pipeline.TranscriptionLastsOneUnitPerVisitedFrame` | TDN.py:180-186 | the events transcribed from the visited frames last 1/4 per visited frame in total, and there are at most ceil(F/s) of them |
| `Pipeline.SilenceGivesRestsUnderAnyKey` | TDN.py:180-186 | silent matrices give exactly ceil(F/s) rests of 1/4, for any key name |

## Left out

- Audio loading and pitch tracking (`librosa.load`, `librosa.core.piptrack`): external signal
  processing. Their output is the `Spectrogram` value (pitch and magnitude matrices).
- `librosa.hz_to_midi` with `int(round(...))`, and the notation library's note spelling and
  name-to-MIDI mapping: floating-point and foreign library code. They are the `Library`
  parameters `midiOfHz`, `spell` and `refMidi`.
- Floating point: times and lengths are exact `real`s. All lengths here are sums of 1/4, which
  binary floating point also holds exactly.
- A key name missing from the table, combined with a frame that has pitches, makes the source
  assign `None` as a note name, and what the library does then is not visible. `Snappable`
  therefore requires a non-empty scale whenever an entry holds pitches.
- `DetectChords` requires a positive sample rate, which the loader always provides.
- The amplitude threshold is an integer. `detect_chords` accepts any number, but its only caller
  passes `int(input(...))` (TDN.py:196-197).
- The duration of `chord.Chord(None)` is modelled as 1.0. The merge never reads it, because an
  empty name list never equals a chord's.
- `plot_audio_with_pitches` (plotting), `save_score` (MusicXML export) and the `input()` prompts
  with the module-level driver are user interface and I/O. `audio_to_sheet` is stated only
  through the `Pipeline` lemmas, without a method.
- The notation objects themselves (time signature, metronome mark, chord and rest classes) are
  the `Element` and `Event` values; no layout, beaming or bar lines.
- `Quantiser.ChordsToNotes`: its contract leaves out duration conservation and rest counting,
  because they would make its callers' proofs too costly. `QuantiseConservesDuration` and
  `RestsAreNeverMerged` prove them about `Quantise`, which the method's result equals.
