/** Laying the events out as a single-part score. */
module ScoreAssembly {
  import opened Common
  import opened Quantiser

  /** What a part holds: a time signature, a metronome mark, or a notated event. */
  datatype Element = TimeSignature(numerator: nat, denominator: nat) | MetronomeMark(number: nat) | Notated(event: Event)

  /** A part of the score: its elements in the order they were appended. */
  class Part {
    var elements: seq<Element>

    constructor ()
      ensures elements == []
    {
      elements := [];
    }

    method Append(e: Element)
      modifies this
      ensures elements == old(elements) + [e]
    {
      elements := elements + [e];
    }
  }

  /** A score: its parts with the offsets at which they were inserted. */
  class Score {
    var parts: seq<(real, Part)>

    constructor ()
      ensures parts == []
    {
      parts := [];
    }

    method Insert(offset: real, p: Part)
      modifies this
      ensures parts == old(parts) + [(offset, p)]
    {
      parts := parts + [(offset, p)];
    }
  }

  /** The elements of the part `generate_score` builds: 4/4, then tempo 120, then the events in order. */
  function PartElements(events: seq<Event>): (elements: seq<Element>)
    ensures |elements| == 2 + |events|
    ensures elements[0] == TimeSignature(4, 4) && elements[1] == MetronomeMark(120)
    ensures forall i :: 0 <= i < |events| ==> elements[2 + i] == Notated(events[i])
  {
    if events == [] then [TimeSignature(4, 4), MetronomeMark(120)]
    else PartElements(events[..|events| - 1]) + [Notated(events[|events| - 1])]
  }

  lemma PartElementsGrows(events: seq<Event>, k: nat)
    requires k < |events|
    ensures PartElements(events[..k + 1]) == PartElements(events[..k]) + [Notated(events[k])]
  {
    assert events[..k + 1][..k] == events[..k];
  }

  /** `generate_score`: a new score holding, at offset 0, one new part made of the time
      signature, the tempo mark and the quantised events. */
  method GenerateScore(lib: Notation.Library, keys: seq<string>, chords: seq<Option<seq<real>>>) returns (s: Score)
    requires Snappable(keys, chords)
    ensures fresh(s) && |s.parts| == 1 && s.parts[0].0 == 0.0 && fresh(s.parts[0].1)
    ensures s.parts[0].1.elements == PartElements(Quantise(lib, keys, chords))
  {
    s := new Score();
    var p := new Part();
    p.Append(TimeSignature(4, 4));
    p.Append(MetronomeMark(120));
    var notes := ChordsToNotes(lib, keys, chords);
    for k := 0 to |notes|
      modifies p
      invariant p.elements == PartElements(notes[..k])
    {
      PartElementsGrows(notes, k);
      p.Append(Notated(notes[k]));
    }
    assert notes[..|notes|] == notes;
    s.Insert(0.0, p);
  }
}
