/** The stages composed as `audio_to_sheet` composes them: the key's scale, the frame
    loop's entries, and the quantised events built from both. */
module Pipeline {
  import opened Common
  import opened ChordDetection
  import opened Quantiser
  import KeyTable

  /** The frame loop never produces an empty chord: each entry is a rest or holds a pitch. */
  lemma {:induction false} VisitsHaveNoEmptyChord(sg: Spectrogram, threshold: int, step: nat, start: nat)
    requires sg.Valid() && step > 0
    ensures forall i :: 0 <= i < |Visits(sg, threshold, step, start)| ==> Visits(sg, threshold, step, start)[i] != Some([])
    decreases sg.frames - start
  {
    if start < sg.frames {
      VisitsHaveNoEmptyChord(sg, threshold, step, start + step);
    }
  }

  /** A frame loop over silent matrices produces only rests. */
  lemma {:induction false} SilentVisitsAreRests(sg: Spectrogram, threshold: int, step: nat, start: nat)
    requires sg.Valid() && step > 0
    requires forall t, b :: 0 <= t < sg.frames && 0 <= b < sg.Bins() ==> !Qualifies(sg, threshold, t, b)
    ensures forall i :: 0 <= i < |Visits(sg, threshold, step, start)| ==> Visits(sg, threshold, step, start)[i] == None
    decreases sg.frames - start
  {
    if start < sg.frames {
      FrameEntryIsRestIffSilent(sg, threshold, start);
      SilentVisitsAreRests(sg, threshold, step, start + step);
    }
  }

  /** Without empty chord entries, every entry takes up one unit. */
  lemma {:induction false} TicksWithoutEmptyChords(entries: seq<Option<seq<real>>>)
    requires forall i :: 0 <= i < |entries| ==> entries[i] != Some([])
    ensures Ticks(entries) == |entries|
  {
    if entries != [] {
      TicksWithoutEmptyChords(entries[..|entries| - 1]);
    }
  }

  /** The events transcribed from every `skip`-th frame last 1/4 per visited frame in all,
      and there are no more of them than visited frames. */
  lemma TranscriptionLastsOneUnitPerVisitedFrame(lib: Notation.Library, key: string, sg: Spectrogram, threshold: int, skip: nat)
    requires sg.Valid() && skip > 0
    requires Snappable(KeyTable.GetScale(key), Visits(sg, threshold, skip, 0))
    ensures var events := Quantise(lib, KeyTable.GetScale(key), Visits(sg, threshold, skip, 0));
      && TotalDuration(events) == Unit * CeilDiv(sg.frames, skip) as real
      && |events| <= CeilDiv(sg.frames, skip)
  {
    var keys, entries := KeyTable.GetScale(key), Visits(sg, threshold, skip, 0);
    VisitsAt(sg, threshold, skip, 0);
    VisitsHaveNoEmptyChord(sg, threshold, skip, 0);
    TicksWithoutEmptyChords(entries);
    QuantiseConservesDuration(lib, keys, entries);
    QuantiseIsShorter(lib, keys, entries);
  }

  /** Silent matrices give one rest of 1/4 per visited frame, under any key name, known or not. */
  lemma SilenceGivesRestsUnderAnyKey(lib: Notation.Library, key: string, sg: Spectrogram, threshold: int, skip: nat)
    requires sg.Valid() && skip > 0
    requires forall t, b :: 0 <= t < sg.frames && 0 <= b < sg.Bins() ==> !Qualifies(sg, threshold, t, b)
    ensures Snappable(KeyTable.GetScale(key), Visits(sg, threshold, skip, 0))
    ensures Quantise(lib, KeyTable.GetScale(key), Visits(sg, threshold, skip, 0))
         == seq(CeilDiv(sg.frames, skip), _ => Rest(Unit))
  {
    VisitsAt(sg, threshold, skip, 0);
    SilentVisitsAreRests(sg, threshold, skip, 0);
    SilenceGivesOneRestPerEntry(lib, KeyTable.GetScale(key), Visits(sg, threshold, skip, 0));
  }
}
