/** Turning chord-or-rest entries into notated events: pitches forced into the key,
    and a chord that repeats the previous chord's pitch names merged into it. */
module Quantiser {
  import opened Common
  import opened Notation
  import Snapper

  /** The length of every new event: a quarter-note fraction of 1/4. */
  const Unit: real := 0.25

  /** A notated event: a rest, or a chord of notes, with a length in quarter notes. */
  datatype Event = Rest(duration: real) | Chord(notes: seq<Note>, duration: real)

  /** `chord.Chord(None)`: the chord with no notes that stands for "no previous chord".
      Its length is never read. */
  const EmptyChord: Event := Chord([], 1.0)

  /** Chord entries may only carry pitches when the key has names to snap to. */
  predicate Snappable(keys: seq<string>, entries: seq<Option<seq<real>>>) {
    keys != [] || forall i :: 0 <= i < |entries| ==> entries[i].None? || entries[i].value == []
  }

  /** One pitch as a note of the key: the note at the pitch's rounded MIDI number, renamed to
      the key's closest name (same octave) when its own name is not in the key. */
  function QuantiseNote(lib: Library, keys: seq<string>, pitch: real): (n: Note)
    requires keys != []
    ensures n.name in keys
    ensures n.octave == lib.spell(lib.midiOfHz(pitch)).octave
    ensures lib.spell(lib.midiOfHz(pitch)).name in keys ==> n == lib.spell(lib.midiOfHz(pitch))
    ensures var spelled := lib.spell(lib.midiOfHz(pitch));
      spelled.name !in keys ==> Some(n.name) == Snapper.Closest(lib.refMidi, spelled.name, keys)
  {
    var n := lib.spell(lib.midiOfHz(pitch));
    if n.name in keys then n else n.(name := Snapper.Closest(lib.refMidi, n.name, keys).value)
  }

  /** A note outside the key is renamed to the key's name nearest to it in MIDI distance at the
      default octave, the first such name in the key's order on a tie. */
  lemma QuantiseNoteIsNearest(lib: Library, keys: seq<string>, pitch: real)
    requires keys != [] && lib.spell(lib.midiOfHz(pitch)).name !in keys
    ensures var spelled := lib.spell(lib.midiOfHz(pitch));
      exists j :: && Snapper.IsFirstClosest(lib.refMidi, spelled.name, keys, j)
                  && QuantiseNote(lib, keys, pitch) == spelled.(name := keys[j])
  {
    Snapper.ClosestIsNearest(lib.refMidi, lib.spell(lib.midiOfHz(pitch)).name, keys);
  }

  /** The notes of a chord entry, one per pitch, in the entry's order. */
  function QuantiseChord(lib: Library, keys: seq<string>, pitches: seq<real>): (notes: seq<Note>)
    requires keys != [] || pitches == []
    ensures |notes| == |pitches|
    ensures forall k :: 0 <= k < |pitches| ==> notes[k] == QuantiseNote(lib, keys, pitches[k])
  {
    if pitches == [] then []
    else QuantiseChord(lib, keys, pitches[..|pitches| - 1]) + [QuantiseNote(lib, keys, pitches[|pitches| - 1])]
  }

  /** The two variables of the loop of `chords_to_notes`: the events so far and the last chord. */
  datatype State = State(notes: seq<Event>, lastChord: Event)

  const Start: State := State([], EmptyChord)

  function Last<T>(s: seq<T>): T
    requires s != []
  {
    s[|s| - 1]
  }

  /** The last chord is the last event, unless it is the empty chord, in which case the
      events are empty or end in a rest. */
  predicate Consistent(st: State) {
    && st.lastChord.Chord?
    && if st.lastChord.notes == [] then st.notes == [] || Last(st.notes).Rest?
       else st.notes != [] && Last(st.notes) == st.lastChord
  }

  /** Handling the notes of one chord entry: no notes change nothing; notes whose pitch names
      equal the last chord's replace that chord, adding its length; other notes are appended. */
  function AddChord(st: State, chordNotes: seq<Note>): (next: State)
    requires Consistent(st)
    ensures Consistent(next)
  {
    if chordNotes == [] then st
    else if Names(st.lastChord.notes) == Names(chordNotes) then
      var c := Chord(chordNotes, Unit + st.lastChord.duration);
      State(st.notes[..|st.notes| - 1] + [c], c)
    else
      var c := Chord(chordNotes, Unit);
      State(st.notes + [c], c)
  }

  /** Handling one entry: a rest is appended and forgets the last chord; a chord entry's notes,
      forced into the key, go to `AddChord`. */
  function Step(lib: Library, keys: seq<string>, st: State, entry: Option<seq<real>>): (next: State)
    requires Consistent(st)
    requires entry.Some? ==> keys != [] || entry.value == []
    ensures Consistent(next)
  {
    match entry
    case None => State(st.notes + [Rest(Unit)], EmptyChord)
    case Some(pitches) => AddChord(st, QuantiseChord(lib, keys, pitches))
  }

  /** The loop's state after the given entries. */
  function Run(lib: Library, keys: seq<string>, entries: seq<Option<seq<real>>>): (st: State)
    requires Snappable(keys, entries)
    ensures Consistent(st)
  {
    if entries == [] then Start
    else
      var before := entries[..|entries| - 1];
      assert forall i :: 0 <= i < |before| ==> before[i] == entries[i];
      Step(lib, keys, Run(lib, keys, before), Last(entries))
  }

  /** The events `chords_to_notes` returns for the given entries: none for no entries; after a
      rest entry they end in a one-unit rest; after a chord entry with pitches they end in a
      chord carrying that entry's notes, merged or not. */
  function Quantise(lib: Library, keys: seq<string>, entries: seq<Option<seq<real>>>): (events: seq<Event>)
    requires Snappable(keys, entries)
    ensures entries == [] ==> events == []
    ensures entries != [] && Last(entries).None? ==> events != [] && Last(events) == Rest(Unit)
    ensures entries != [] && Last(entries).Some? && Last(entries).value != [] ==>
      && events != [] && Last(events).Chord?
      && Last(events).notes == QuantiseChord(lib, keys, Last(entries).value)
  {
    Run(lib, keys, entries).notes
  }

  /** The summed length of the events. */
  function TotalDuration(events: seq<Event>): real {
    if events == [] then 0.0 else TotalDuration(events[..|events| - 1]) + Last(events).duration
  }

  /** The entries that take up time: rests and non-empty chords (an empty chord entry adds nothing). */
  function Ticks(entries: seq<Option<seq<real>>>): nat {
    if entries == [] then 0 else Ticks(entries[..|entries| - 1]) + (if Last(entries) == Some([]) then 0 else 1)
  }

  function RestCount(events: seq<Event>): nat {
    if events == [] then 0 else RestCount(events[..|events| - 1]) + (if Last(events).Rest? then 1 else 0)
  }

  function NoneCount(entries: seq<Option<seq<real>>>): nat {
    if entries == [] then 0 else NoneCount(entries[..|entries| - 1]) + (if Last(entries).None? then 1 else 0)
  }

  /** Two chords with the same list of pitch names. */
  predicate Repeats(a: Event, b: Event) {
    a.Chord? && b.Chord? && Names(a.notes) == Names(b.notes)
  }

  /** No chord is followed directly by a chord with the same pitch names. */
  predicate NoAdjacentRepeats(events: seq<Event>) {
    forall i :: 0 <= i < |events| - 1 ==> !Repeats(events[i], events[i + 1])
  }

  /** Every note of every chord has a name of the key. */
  predicate InKey(events: seq<Event>, keys: seq<string>) {
    forall i, k :: 0 <= i < |events| && events[i].Chord? && 0 <= k < |events[i].notes| ==> events[i].notes[k].name in keys
  }

  /** Every rest lasts one unit. */
  predicate UnitRests(events: seq<Event>) {
    forall i :: 0 <= i < |events| && events[i].Rest? ==> events[i].duration == Unit
  }

  lemma AppendOne(events: seq<Event>, e: Event)
    ensures TotalDuration(events + [e]) == TotalDuration(events) + e.duration
    ensures RestCount(events + [e]) == RestCount(events) + (if e.Rest? then 1 else 0)
  {
    assert (events + [e])[..|events|] == events;
  }

  lemma Unfold(lib: Library, keys: seq<string>, entries: seq<Option<seq<real>>>, e: Option<seq<real>>)
    requires Snappable(keys, entries + [e])
    ensures Snappable(keys, entries)
    ensures Run(lib, keys, entries + [e]) == Step(lib, keys, Run(lib, keys, entries), e)
    ensures Ticks(entries + [e]) == Ticks(entries) + (if e == Some([]) then 0 else 1)
    ensures NoneCount(entries + [e]) == NoneCount(entries) + (if e.None? then 1 else 0)
  {
    assert (entries + [e])[..|entries|] == entries;
    assert forall i :: 0 <= i < |entries| ==> entries[i] == (entries + [e])[i];
  }

  /** The loop's view of the fold: the state after `i + 1` entries is one step on from the state after `i`. */
  lemma UnfoldPrefix(lib: Library, keys: seq<string>, entries: seq<Option<seq<real>>>, i: nat)
    requires Snappable(keys, entries) && i < |entries|
    ensures Snappable(keys, entries[..i]) && Snappable(keys, entries[..i + 1])
    ensures Consistent(Run(lib, keys, entries[..i]))
    ensures entries[i].Some? ==> keys != [] || entries[i].value == []
    ensures Run(lib, keys, entries[..i + 1]) == Step(lib, keys, Run(lib, keys, entries[..i]), entries[i])
  {
    assert entries[..i + 1] == entries[..i] + [entries[i]];
    Unfold(lib, keys, entries[..i], entries[i]);
  }

  /** Merging never makes the output longer than the input. */
  lemma {:induction false} QuantiseIsShorter(lib: Library, keys: seq<string>, entries: seq<Option<seq<real>>>)
    requires Snappable(keys, entries)
    ensures |Quantise(lib, keys, entries)| <= |entries|
  {
    if entries != [] {
      var before, e := entries[..|entries| - 1], Last(entries);
      assert entries == before + [e];
      Unfold(lib, keys, before, e);
      QuantiseIsShorter(lib, keys, before);
    }
  }

  /** One step adds one unit to the total length, except for an empty chord entry, which adds nothing. */
  lemma StepAddsOneUnit(lib: Library, keys: seq<string>, st: State, e: Option<seq<real>>)
    requires Consistent(st)
    requires e.Some? ==> keys != [] || e.value == []
    ensures TotalDuration(Step(lib, keys, st, e).notes) == TotalDuration(st.notes) + (if e == Some([]) then 0.0 else Unit)
  {
    match e
    case None =>
      AppendOne(st.notes, Rest(Unit));
    case Some(pitches) =>
      var chordNotes := QuantiseChord(lib, keys, pitches);
      assert chordNotes == [] <==> pitches == [];
      if chordNotes != [] {
        if Names(st.lastChord.notes) == Names(chordNotes) {
          var c := Chord(chordNotes, Unit + st.lastChord.duration);
          var kept := st.notes[..|st.notes| - 1];
          assert st.notes == kept + [st.lastChord];
          AppendOne(kept, st.lastChord);
          AppendOne(kept, c);
        } else {
          AppendOne(st.notes, Chord(chordNotes, Unit));
        }
      }
  }

  /** Every rest and every non-empty chord entry adds exactly one unit to the total length:
      a merge moves the replaced chord's length into the new chord. */
  lemma {:induction false} QuantiseConservesDuration(lib: Library, keys: seq<string>, entries: seq<Option<seq<real>>>)
    requires Snappable(keys, entries)
    ensures TotalDuration(Quantise(lib, keys, entries)) == Unit * Ticks(entries) as real
  {
    if entries != [] {
      var before, e := entries[..|entries| - 1], Last(entries);
      assert entries == before + [e];
      Unfold(lib, keys, before, e);
      QuantiseConservesDuration(lib, keys, before);
      StepAddsOneUnit(lib, keys, Run(lib, keys, before), e);
    }
  }

  /** A consistent state whose events end in a chord has that chord as its last chord. */
  lemma LastChordIsLastEvent(st: State)
    requires Consistent(st) && st.notes != [] && Last(st.notes).Chord?
    ensures st.lastChord == Last(st.notes)
  {
  }

  /** Notes that repeat the last chord's names can only follow a chord, and they replace it. */
  lemma AddChordMerges(st: State, chordNotes: seq<Note>)
    requires Consistent(st) && chordNotes != [] && Names(st.lastChord.notes) == Names(chordNotes)
    ensures st.notes != [] && Last(st.notes) == st.lastChord
    ensures var c := Chord(chordNotes, Unit + st.lastChord.duration);
      AddChord(st, chordNotes) == State(st.notes[..|st.notes| - 1] + [c], c)
  {
    assert |Names(st.lastChord.notes)| > 0;
  }

  /** Notes with other names than the last chord's are appended as a new one-unit chord. */
  lemma AddChordAppends(st: State, chordNotes: seq<Note>)
    requires Consistent(st) && chordNotes != [] && Names(st.lastChord.notes) != Names(chordNotes)
    ensures var c := Chord(chordNotes, Unit);
      AddChord(st, chordNotes) == State(st.notes + [c], c)
  {
  }

  /** Adding a chord's notes keeps chords with equal pitch names apart: a merge keeps the
      replaced chord's names, and an appended chord differs from the last event. */
  lemma AddChordKeepsRepeatsApart(st: State, chordNotes: seq<Note>)
    requires Consistent(st) && NoAdjacentRepeats(st.notes)
    ensures NoAdjacentRepeats(AddChord(st, chordNotes).notes)
  {
    var next := AddChord(st, chordNotes).notes;
    var n := |st.notes|;
    if chordNotes != [] {
      if Names(st.lastChord.notes) == Names(chordNotes) {
        assert |next| == n;
        forall i | 0 <= i < n - 1
          ensures !Repeats(next[i], next[i + 1])
        {
          assert next[i] == st.notes[i];
          if i < n - 2 {
            assert next[i + 1] == st.notes[i + 1];
          } else {
            assert Repeats(next[i], next[i + 1]) == Repeats(st.notes[i], st.notes[i + 1]);
          }
        }
      } else {
        assert |next| == n + 1;
        forall i | 0 <= i < n
          ensures !Repeats(next[i], next[i + 1])
        {
          assert next[i] == st.notes[i];
          if i < n - 1 {
            assert next[i + 1] == st.notes[i + 1];
          }
        }
      }
    }
  }

  /** One step keeps chords with equal pitch names apart. */
  lemma StepKeepsRepeatsApart(lib: Library, keys: seq<string>, st: State, e: Option<seq<real>>)
    requires Consistent(st) && NoAdjacentRepeats(st.notes)
    requires e.Some? ==> keys != [] || e.value == []
    ensures NoAdjacentRepeats(Step(lib, keys, st, e).notes)
  {
    match e
    case None =>
      var next := st.notes + [Rest(Unit)];
      forall i | 0 <= i < |next| - 1
        ensures !Repeats(next[i], next[i + 1])
      {
        assert next[i] == st.notes[i];
      }
    case Some(pitches) =>
      AddChordKeepsRepeatsApart(st, QuantiseChord(lib, keys, pitches));
  }

  /** After merging, no chord is directly followed by one with the same pitch names. */
  lemma {:induction false} QuantiseHasNoAdjacentRepeats(lib: Library, keys: seq<string>, entries: seq<Option<seq<real>>>)
    requires Snappable(keys, entries)
    ensures NoAdjacentRepeats(Quantise(lib, keys, entries))
  {
    if entries != [] {
      var before, e := entries[..|entries| - 1], Last(entries);
      assert entries == before + [e];
      Unfold(lib, keys, before, e);
      QuantiseHasNoAdjacentRepeats(lib, keys, before);
      StepKeepsRepeatsApart(lib, keys, Run(lib, keys, before), e);
    }
  }

  /** One step with a non-empty key adds only notes whose names belong to the key. */
  lemma StepStaysInKey(lib: Library, keys: seq<string>, st: State, e: Option<seq<real>>)
    requires Consistent(st) && keys != [] && InKey(st.notes, keys)
    ensures InKey(Step(lib, keys, st, e).notes, keys)
  {
    if e.Some? && e.value != [] {
      var chordNotes := QuantiseChord(lib, keys, e.value);
      assert forall k :: 0 <= k < |chordNotes| ==> chordNotes[k].name in keys;
      var next := Step(lib, keys, st, e).notes;
      var kept := if Names(st.lastChord.notes) == Names(chordNotes) then st.notes[..|st.notes| - 1] else st.notes;
      assert next == kept + [Last(next)];
      assert forall i :: 0 <= i < |kept| ==> kept[i] == st.notes[i];
    }
  }

  /** With a non-empty key, every note name in the output belongs to the key. */
  lemma {:induction false} QuantiseStaysInKey(lib: Library, keys: seq<string>, entries: seq<Option<seq<real>>>)
    requires keys != []
    ensures InKey(Quantise(lib, keys, entries), keys)
  {
    if entries != [] {
      var before, e := entries[..|entries| - 1], Last(entries);
      assert entries == before + [e];
      Unfold(lib, keys, before, e);
      QuantiseStaysInKey(lib, keys, before);
      StepStaysInKey(lib, keys, Run(lib, keys, before), e);
    }
  }

  /** One step keeps every rest at one unit. */
  lemma StepKeepsUnitRests(lib: Library, keys: seq<string>, st: State, e: Option<seq<real>>)
    requires Consistent(st) && UnitRests(st.notes)
    requires e.Some? ==> keys != [] || e.value == []
    ensures UnitRests(Step(lib, keys, st, e).notes)
  {
    var next := Step(lib, keys, st, e).notes;
    if next != st.notes {
      var kept := if next == st.notes + [Last(next)] then st.notes else st.notes[..|st.notes| - 1];
      assert next == kept + [Last(next)];
      assert forall i :: 0 <= i < |kept| ==> kept[i] == st.notes[i];
    }
  }

  /** One step adds a rest for a rest entry and removes no rest. */
  lemma StepCountsRests(lib: Library, keys: seq<string>, st: State, e: Option<seq<real>>)
    requires Consistent(st)
    requires e.Some? ==> keys != [] || e.value == []
    ensures RestCount(Step(lib, keys, st, e).notes) == RestCount(st.notes) + (if e.None? then 1 else 0)
  {
    match e
    case None =>
      AppendOne(st.notes, Rest(Unit));
    case Some(pitches) =>
      var chordNotes := QuantiseChord(lib, keys, pitches);
      if chordNotes != [] {
        if Names(st.lastChord.notes) == Names(chordNotes) {
          var c := Chord(chordNotes, Unit + st.lastChord.duration);
          var kept := st.notes[..|st.notes| - 1];
          assert st.notes == kept + [st.lastChord];
          AppendOne(kept, st.lastChord);
          AppendOne(kept, c);
        } else {
          AppendOne(st.notes, Chord(chordNotes, Unit));
        }
      }
  }

  /** Each rest entry gives its own rest of one unit: rests are never merged, and merging
      removes only chords. */
  lemma {:induction false} RestsAreNeverMerged(lib: Library, keys: seq<string>, entries: seq<Option<seq<real>>>)
    requires Snappable(keys, entries)
    ensures RestCount(Quantise(lib, keys, entries)) == NoneCount(entries)
    ensures UnitRests(Quantise(lib, keys, entries))
  {
    if entries != [] {
      var before, e := entries[..|entries| - 1], Last(entries);
      assert entries == before + [e];
      Unfold(lib, keys, before, e);
      RestsAreNeverMerged(lib, keys, before);
      StepCountsRests(lib, keys, Run(lib, keys, before), e);
      StepKeepsUnitRests(lib, keys, Run(lib, keys, before), e);
    }
  }

  /** An input with no chord at all gives one rest of one unit per entry, never a single long rest. */
  lemma {:induction false} SilenceGivesOneRestPerEntry(lib: Library, keys: seq<string>, entries: seq<Option<seq<real>>>)
    requires forall i :: 0 <= i < |entries| ==> entries[i] == None
    ensures Snappable(keys, entries)
    ensures Quantise(lib, keys, entries) == seq(|entries|, _ => Rest(Unit))
  {
    if entries != [] {
      var before, e := entries[..|entries| - 1], Last(entries);
      assert entries == before + [e];
      Unfold(lib, keys, before, e);
      SilenceGivesOneRestPerEntry(lib, keys, before);
    }
  }

  /** A rest entry appends its own one-unit rest, whatever precedes it. */
  lemma RestIsAppended(lib: Library, keys: seq<string>, entries: seq<Option<seq<real>>>)
    requires Snappable(keys, entries)
    ensures Snappable(keys, entries + [None])
    ensures Quantise(lib, keys, entries + [None]) == Quantise(lib, keys, entries) + [Rest(Unit)]
    ensures Run(lib, keys, entries + [None]).lastChord == EmptyChord
  {
    Unfold(lib, keys, entries, None);
  }

  /** An empty pitch list adds no event and leaves the last chord as it was. */
  lemma EmptyChordEntryIsIgnored(lib: Library, keys: seq<string>, entries: seq<Option<seq<real>>>)
    requires Snappable(keys, entries)
    ensures Snappable(keys, entries + [Some([])])
    ensures Run(lib, keys, entries + [Some([])]) == Run(lib, keys, entries)
  {
    Unfold(lib, keys, entries, Some([]));
  }

  /** A rest forgets the last chord: the chord right after a rest is a new event of one unit,
      even when it repeats the chord before the rest. */
  lemma RestStartsNewChord(lib: Library, keys: seq<string>, entries: seq<Option<seq<real>>>, pitches: seq<real>)
    requires Snappable(keys, entries) && keys != [] && pitches != []
    ensures Snappable(keys, entries + [None, Some(pitches)])
    ensures Quantise(lib, keys, entries + [None, Some(pitches)])
         == Quantise(lib, keys, entries) + [Rest(Unit), Chord(QuantiseChord(lib, keys, pitches), Unit)]
  {
    var events := Quantise(lib, keys, entries);
    Unfold(lib, keys, entries, None);
    var afterRest := Run(lib, keys, entries + [None]);
    assert afterRest == State(events + [Rest(Unit)], EmptyChord);
    assert entries + [None, Some(pitches)] == (entries + [None]) + [Some(pitches)];
    Unfold(lib, keys, entries + [None], Some(pitches));
    var chordNotes := QuantiseChord(lib, keys, pitches);
    assert |Names(chordNotes)| > 0 == |Names(afterRest.lastChord.notes)|;
    AddChordAppends(afterRest, chordNotes);
    assert (events + [Rest(Unit)]) + [Chord(chordNotes, Unit)] == events + [Rest(Unit), Chord(chordNotes, Unit)];
  }

  /** A chord whose pitch names equal those of the chord just emitted replaces it: the new
      event carries the latest entry's notes and the two lengths added together. */
  lemma RepeatedChordIsMerged(lib: Library, keys: seq<string>, entries: seq<Option<seq<real>>>, pitches: seq<real>)
    requires Snappable(keys, entries) && keys != [] && pitches != []
    requires var events := Quantise(lib, keys, entries);
      events != [] && Repeats(Last(events), Chord(QuantiseChord(lib, keys, pitches), Unit))
    ensures Snappable(keys, entries + [Some(pitches)])
    ensures var events := Quantise(lib, keys, entries);
      Quantise(lib, keys, entries + [Some(pitches)])
      == events[..|events| - 1] + [Chord(QuantiseChord(lib, keys, pitches), Unit + Last(events).duration)]
  {
    Unfold(lib, keys, entries, Some(pitches));
    var st := Run(lib, keys, entries);
    LastChordIsLastEvent(st);
    AddChordMerges(st, QuantiseChord(lib, keys, pitches));
  }

  /** A chord whose pitch names differ from those of the event just emitted is appended with one unit. */
  lemma ChangedChordIsAppended(lib: Library, keys: seq<string>, entries: seq<Option<seq<real>>>, pitches: seq<real>)
    requires Snappable(keys, entries) && keys != [] && pitches != []
    requires var events := Quantise(lib, keys, entries);
      events == [] || !Repeats(Last(events), Chord(QuantiseChord(lib, keys, pitches), Unit))
    ensures Snappable(keys, entries + [Some(pitches)])
    ensures Quantise(lib, keys, entries + [Some(pitches)])
         == Quantise(lib, keys, entries) + [Chord(QuantiseChord(lib, keys, pitches), Unit)]
  {
    Unfold(lib, keys, entries, Some(pitches));
    var st := Run(lib, keys, entries);
    var chordNotes := QuantiseChord(lib, keys, pitches);
    if st.notes != [] && Last(st.notes).Chord? {
      LastChordIsLastEvent(st);
    }
    assert Names(st.lastChord.notes) != Names(chordNotes) by {
      assert |Names(chordNotes)| > 0;
    }
    AddChordAppends(st, chordNotes);
  }

  /** The inner loop of `chords_to_notes`: one note per pitch, its name snapped into the key. */
  method ChordNotes(lib: Library, keys: seq<string>, pitches: seq<real>) returns (chordNotes: seq<Note>)
    requires keys != [] || pitches == []
    ensures chordNotes == QuantiseChord(lib, keys, pitches)
    ensures |chordNotes| == |pitches|
    ensures forall k :: 0 <= k < |chordNotes| ==> chordNotes[k].name in keys
  {
    chordNotes := [];
    for k := 0 to |pitches|
      invariant chordNotes == QuantiseChord(lib, keys, pitches[..k])
    {
      assert pitches[..k + 1][..k] == pitches[..k];
      var n := lib.spell(lib.midiOfHz(pitches[k]));
      if n.name !in keys {
        var closest := Snapper.FindClosestNote(lib.refMidi, n.name, keys);
        n := n.(name := closest.value);
      }
      chordNotes := chordNotes + [n];
    }
    assert pitches[..|pitches|] == pitches;
  }

  /** The chord branch of the loop of `chords_to_notes`: the chord of the notes, merged into the
      last chord when their pitch names agree, otherwise appended. */
  method EmitChord(notes: seq<Event>, lastChord: Event, chordNotes: seq<Note>) returns (newNotes: seq<Event>, newLast: Event)
    requires Consistent(State(notes, lastChord))
    ensures State(newNotes, newLast) == AddChord(State(notes, lastChord), chordNotes)
  {
    newNotes, newLast := notes, lastChord;
    if chordNotes != [] {
      var c := Chord(chordNotes, Unit);
      if Names(lastChord.notes) == Names(c.notes) {
        AddChordMerges(State(notes, lastChord), chordNotes);
        c := c.(duration := c.duration + lastChord.duration);
        newNotes := newNotes[..|newNotes| - 1];
      }
      newNotes := newNotes + [c];
      newLast := c;
    }
  }

  /** The loop of `chords_to_notes`. */
  method ChordsToNotes(lib: Library, keys: seq<string>, chords: seq<Option<seq<real>>>) returns (notes: seq<Event>)
    requires Snappable(keys, chords)
    ensures notes == Quantise(lib, keys, chords)
    ensures |notes| <= |chords|
    ensures NoAdjacentRepeats(notes)
    ensures keys != [] ==> InKey(notes, keys)
  {
    notes := [];
    var lastChord := EmptyChord;
    for i := 0 to |chords|
      invariant State(notes, lastChord) == Run(lib, keys, chords[..i])
    {
      UnfoldPrefix(lib, keys, chords, i);
      match chords[i] {
        case None =>
          notes := notes + [Rest(Unit)];
          lastChord := EmptyChord;
        case Some(pitches) =>
          var chordNotes := ChordNotes(lib, keys, pitches);
          notes, lastChord := EmitChord(notes, lastChord, chordNotes);
      }
    }
    assert chords[..|chords|] == chords;
    QuantiseIsShorter(lib, keys, chords);
    QuantiseHasNoAdjacentRepeats(lib, keys, chords);
    if keys != [] {
      QuantiseStaysInKey(lib, keys, chords);
    }
  }
}
