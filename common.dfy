/** Values shared by every stage of the transcription pipeline. */
module Common {

  /** Python's `None` or a value; a `None` chord entry stands for a rest. */
  datatype Option<+T> = None | Some(value: T)

  /** No element of `s` occurs twice. */
  predicate Distinct<T(==)>(s: seq<T>) {
    forall i, j :: 0 <= i < j < |s| ==> s[i] != s[j]
  }
}

/** The notation library's view of notes, and the conversions borrowed from the
    audio and notation libraries, which this model leaves abstract. */
module Notation {

  /** A note as the notation library holds it: a spelled pitch-class name
      (`C#`, `E-`, ...) and an octave number. */
  datatype Note = Note(name: string, octave: int)

  /** The three conversions the pipeline takes from its libraries:
      - `midiOfHz`: a frequency in Hz to its MIDI number, rounded to the nearest integer;
      - `spell`: the note the notation library makes when a note's MIDI number is set;
      - `refMidi`: the MIDI number of a bare pitch-class name at the library's default octave. */
  datatype Library = Library(midiOfHz: real -> int, spell: int -> Note, refMidi: string -> int)

  /** The pitch names of a chord's notes, in the chord's order. */
  function Names(notes: seq<Note>): (names: seq<string>)
    ensures |names| == |notes|
    ensures forall i :: 0 <= i < |notes| ==> names[i] == notes[i].name
  {
    if notes == [] then [] else Names(notes[..|notes| - 1]) + [notes[|notes| - 1].name]
  }
}
