/** Turning the pitch tracker's matrices into one chord-or-rest entry per visited frame. */
module ChordDetection {
  import opened Common

  /** The pitch tracker's output: for each frequency bin, a pitch (Hz) and a
      magnitude per analysis frame. */
  datatype Spectrogram = Spectrogram(pitches: seq<seq<real>>, magnitudes: seq<seq<real>>, frames: nat) {
    /** Both matrices have the same bins, and every row has one value per frame. */
    predicate Valid() {
      && |pitches| == |magnitudes|
      && (forall b :: 0 <= b < |pitches| ==> |pitches[b]| == frames)
      && (forall b :: 0 <= b < |magnitudes| ==> |magnitudes[b]| == frames)
    }

    function Bins(): nat {
      |pitches|
    }
  }

  /** Bin `b` at frame `t` is loud enough (strictly above the threshold) and voiced (positive pitch). */
  predicate Qualifies(sg: Spectrogram, threshold: int, t: nat, b: nat)
    requires sg.Valid() && t < sg.frames && b < sg.Bins()
  {
    sg.magnitudes[b][t] > threshold as real && sg.pitches[b][t] > 0.0
  }

  /** The pitches of the qualifying bins among the first `n`, in bin order. */
  function Selected(sg: Spectrogram, threshold: int, t: nat, n: nat): (chord: seq<real>)
    requires sg.Valid() && t < sg.frames && n <= sg.Bins()
    ensures |chord| <= n
    ensures forall k :: 0 <= k < |chord| ==> chord[k] > 0.0
  {
    if n == 0 then []
    else Selected(sg, threshold, t, n - 1)
         + (if Qualifies(sg, threshold, t, n - 1) then [sg.pitches[n - 1][t]] else [])
  }

  /** The qualifying bins among the first `n`, in increasing order. */
  function SelectedBins(sg: Spectrogram, threshold: int, t: nat, n: nat): (bins: seq<nat>)
    requires sg.Valid() && t < sg.frames && n <= sg.Bins()
  {
    if n == 0 then []
    else SelectedBins(sg, threshold, t, n - 1) + (if Qualifies(sg, threshold, t, n - 1) then [n - 1] else [])
  }

  /** The collected bins are exactly the qualifying bins below `n`, in strictly increasing order. */
  lemma {:induction false} SelectedBinsQualify(sg: Spectrogram, threshold: int, t: nat, n: nat)
    requires sg.Valid() && t < sg.frames && n <= sg.Bins()
    ensures var bins := SelectedBins(sg, threshold, t, n);
      && (forall k :: 0 <= k < |bins| ==> bins[k] < n)
      && (forall b: nat :: b in bins <==> b < n && Qualifies(sg, threshold, t, b))
      && (forall i, j :: 0 <= i < j < |bins| ==> bins[i] < bins[j])
  {
    if n > 0 {
      SelectedBinsQualify(sg, threshold, t, n - 1);
      var before := SelectedBins(sg, threshold, t, n - 1);
      var bins := SelectedBins(sg, threshold, t, n);
      assert bins == before + (if Qualifies(sg, threshold, t, n - 1) then [n - 1] else []);
      forall b: nat
        ensures b in bins <==> b < n && Qualifies(sg, threshold, t, b)
      {
        if b == n - 1 {
          assert b !in before;
        }
      }
    }
  }

  /** The collected pitches are those of the collected bins, one each, in the same order. */
  lemma {:induction false} SelectedFollowsBins(sg: Spectrogram, threshold: int, t: nat, n: nat)
    requires sg.Valid() && t < sg.frames && n <= sg.Bins()
    ensures var bins := SelectedBins(sg, threshold, t, n);
      && (forall k :: 0 <= k < |bins| ==> bins[k] < sg.Bins())
      && |Selected(sg, threshold, t, n)| == |bins|
      && (forall k :: 0 <= k < |bins| ==> Selected(sg, threshold, t, n)[k] == sg.pitches[bins[k]][t])
  {
    if n > 0 {
      SelectedFollowsBins(sg, threshold, t, n - 1);
    }
  }

  /** The chord of frame `t` holds exactly the pitches of the qualifying bins, in increasing bin order. */
  lemma SelectedIsQualifyingBins(sg: Spectrogram, threshold: int, t: nat, n: nat)
    requires sg.Valid() && t < sg.frames && n <= sg.Bins()
    ensures var bins := SelectedBins(sg, threshold, t, n);
      && (forall k :: 0 <= k < |bins| ==> bins[k] < n)
      && (forall b: nat :: b in bins <==> b < n && Qualifies(sg, threshold, t, b))
      && (forall i, j :: 0 <= i < j < |bins| ==> bins[i] < bins[j])
      && |Selected(sg, threshold, t, n)| == |bins|
      && (forall k :: 0 <= k < |bins| ==> Selected(sg, threshold, t, n)[k] == sg.pitches[bins[k]][t])
  {
    SelectedBinsQualify(sg, threshold, t, n);
    SelectedFollowsBins(sg, threshold, t, n);
  }

  /** A bin whose magnitude equals the threshold is not part of the frame's chord. */
  lemma ThresholdIsStrict(sg: Spectrogram, threshold: int, t: nat, b: nat)
    requires sg.Valid() && t < sg.frames && b < sg.Bins()
    requires sg.magnitudes[b][t] == threshold as real
    ensures b !in SelectedBins(sg, threshold, t, sg.Bins())
  {
    SelectedBinsQualify(sg, threshold, t, sg.Bins());
  }

  /** The entry of one visited frame: its chord, or `None` (a rest) when no bin qualifies. */
  function FrameEntry(sg: Spectrogram, threshold: int, t: nat): Option<seq<real>>
    requires sg.Valid() && t < sg.frames
  {
    var chord := Selected(sg, threshold, t, sg.Bins());
    if chord == [] then None else Some(chord)
  }

  /** No pitch is collected from the first `n` bins exactly when none of them qualifies. */
  lemma {:induction false} SelectedIsEmptyIffSilent(sg: Spectrogram, threshold: int, t: nat, n: nat)
    requires sg.Valid() && t < sg.frames && n <= sg.Bins()
    ensures Selected(sg, threshold, t, n) == [] <==> forall b :: 0 <= b < n ==> !Qualifies(sg, threshold, t, b)
  {
    if n > 0 {
      SelectedIsEmptyIffSilent(sg, threshold, t, n - 1);
    }
  }

  /** A frame is a rest exactly when none of its bins qualifies; otherwise its chord is non-empty. */
  lemma FrameEntryIsRestIffSilent(sg: Spectrogram, threshold: int, t: nat)
    requires sg.Valid() && t < sg.frames
    ensures FrameEntry(sg, threshold, t).None? <==> forall b :: 0 <= b < sg.Bins() ==> !Qualifies(sg, threshold, t, b)
    ensures FrameEntry(sg, threshold, t).Some? ==> FrameEntry(sg, threshold, t).value != []
  {
    SelectedIsEmptyIffSilent(sg, threshold, t, sg.Bins());
  }

  /** Python's `t * hop_length / sr`: the time in seconds of frame `t`. */
  function FrameTime(t: nat, hop: nat, sr: int): real
    requires sr > 0
  {
    (t * hop) as real / sr as real
  }

  /** The entries of the frames `start`, `start + step`, ... below the frame count. */
  function Visits(sg: Spectrogram, threshold: int, step: nat, start: nat): seq<Option<seq<real>>>
    requires sg.Valid() && step > 0
    decreases sg.frames - start
  {
    if start >= sg.frames then []
    else [FrameEntry(sg, threshold, start)] + Visits(sg, threshold, step, start + step)
  }

  /** The times of the frames `start`, `start + step`, ... below `frames`. */
  function VisitTimes(frames: nat, step: nat, hop: nat, sr: int, start: nat): seq<real>
    requires step > 0 && sr > 0
    decreases frames - start
  {
    if start >= frames then []
    else [FrameTime(start, hop, sr)] + VisitTimes(frames, step, hop, sr, start + step)
  }

  /** The number of frames `range(0, n, d)` visits: one, then those of the remaining `n - d`. */
  function CeilDiv(n: nat, d: nat): nat
    requires d > 0
  {
    if n == 0 then 0 else 1 + CeilDiv(if n <= d then 0 else n - d, d)
  }

  /** `CeilDiv(n, d)` is `ceil(n / d)`: the least multiple of `d` that reaches `n`. */
  lemma {:induction false} CeilDivIsCeiling(n: nat, d: nat)
    requires d > 0
    ensures n <= CeilDiv(n, d) * d < n + d
  {
    if n > d {
      CeilDivIsCeiling(n - d, d);
      assert CeilDiv(n, d) * d == CeilDiv(n - d, d) * d + d;
    }
  }

  /** The visit from frame `start` with stride `step` produces ceil((frames - start) / step) entries. */
  lemma {:induction false} VisitsLength(sg: Spectrogram, threshold: int, step: nat, start: nat)
    requires sg.Valid() && step > 0 && start <= sg.frames
    ensures |Visits(sg, threshold, step, start)| == CeilDiv(sg.frames - start, step)
    decreases sg.frames - start
  {
    if start < sg.frames {
      if start + step <= sg.frames {
        VisitsLength(sg, threshold, step, start + step);
      }
    }
  }

  /** The `i`-th entry of the visit from frame `start` is that of frame `start + i * step`. */
  lemma {:induction false} VisitAt(sg: Spectrogram, threshold: int, step: nat, start: nat, i: nat)
    requires sg.Valid() && step > 0 && i < |Visits(sg, threshold, step, start)|
    ensures start + i * step < sg.frames
    ensures Visits(sg, threshold, step, start)[i] == FrameEntry(sg, threshold, start + i * step)
    decreases i
  {
    if i > 0 {
      VisitAt(sg, threshold, step, start + step, i - 1);
      assert start + step + (i - 1) * step == start + i * step;
    }
  }

  /** The visit of frame `start` with stride `step` produces ceil((frames - start) / step) entries,
      the `i`-th of them for frame `start + i * step`. */
  lemma VisitsAt(sg: Spectrogram, threshold: int, step: nat, start: nat)
    requires sg.Valid() && step > 0 && start <= sg.frames
    ensures |Visits(sg, threshold, step, start)| == CeilDiv(sg.frames - start, step)
    ensures forall i :: 0 <= i < |Visits(sg, threshold, step, start)| ==>
      start + i * step < sg.frames && Visits(sg, threshold, step, start)[i] == FrameEntry(sg, threshold, start + i * step)
  {
    VisitsLength(sg, threshold, step, start);
    forall i | 0 <= i < |Visits(sg, threshold, step, start)|
      ensures start + i * step < sg.frames && Visits(sg, threshold, step, start)[i] == FrameEntry(sg, threshold, start + i * step)
    {
      VisitAt(sg, threshold, step, start, i);
    }
  }

  /** The times of the visit from `start` come in the same number as its entries. */
  lemma {:induction false} VisitTimesLength(frames: nat, step: nat, hop: nat, sr: int, start: nat)
    requires step > 0 && sr > 0 && start <= frames
    ensures |VisitTimes(frames, step, hop, sr, start)| == CeilDiv(frames - start, step)
    decreases frames - start
  {
    if start < frames {
      if start + step <= frames {
        VisitTimesLength(frames, step, hop, sr, start + step);
      }
    }
  }

  /** The `i`-th time of the visit from `start` is that of frame `start + i * step`. */
  lemma {:induction false} VisitTimeAt(frames: nat, step: nat, hop: nat, sr: int, start: nat, i: nat)
    requires step > 0 && sr > 0 && i < |VisitTimes(frames, step, hop, sr, start)|
    ensures VisitTimes(frames, step, hop, sr, start)[i] == FrameTime(start + i * step, hop, sr)
    decreases i
  {
    if i > 0 {
      VisitTimeAt(frames, step, hop, sr, start + step, i - 1);
      assert start + step + (i - 1) * step == start + i * step;
    }
  }

  /** The times come in the same number and frame order as the entries. */
  lemma VisitTimesAt(frames: nat, step: nat, hop: nat, sr: int, start: nat)
    requires step > 0 && sr > 0 && start <= frames
    ensures |VisitTimes(frames, step, hop, sr, start)| == CeilDiv(frames - start, step)
    ensures forall i :: 0 <= i < |VisitTimes(frames, step, hop, sr, start)| ==>
      VisitTimes(frames, step, hop, sr, start)[i] == FrameTime(start + i * step, hop, sr)
  {
    VisitTimesLength(frames, step, hop, sr, start);
    forall i | 0 <= i < |VisitTimes(frames, step, hop, sr, start)|
      ensures VisitTimes(frames, step, hop, sr, start)[i] == FrameTime(start + i * step, hop, sr)
    {
      VisitTimeAt(frames, step, hop, sr, start, i);
    }
  }

  /** Later visited frames have strictly later times when the hop length is positive. */
  lemma TimesIncrease(step: nat, hop: nat, sr: int, i: nat, j: nat)
    requires step > 0 && hop > 0 && sr > 0 && i < j
    ensures FrameTime(i * step, hop, sr) < FrameTime(j * step, hop, sr)
  {
    assert i * step < j * step by {
      assert j * step == i * step + (j - i) * step;
    }
    assert i * step * hop < j * step * hop by {
      assert j * step * hop == i * step * hop + (j * step - i * step) * hop;
    }
    var a, b, d := (i * step * hop) as real, (j * step * hop) as real, sr as real;
    assert a / d < b / d by {
      assert b / d - a / d == (b - a) / d;
    }
  }

  /** Visiting from frame 0 gives ceil(frames / step) entries and times, the `i`-th for frame `i * step`. */
  lemma VisitsFromStart(sg: Spectrogram, threshold: int, step: nat, hop: nat, sr: int)
    requires sg.Valid() && step > 0 && sr > 0
    ensures |Visits(sg, threshold, step, 0)| == |VisitTimes(sg.frames, step, hop, sr, 0)| == CeilDiv(sg.frames, step)
    ensures forall i :: 0 <= i < |Visits(sg, threshold, step, 0)| ==>
      && i * step < sg.frames
      && Visits(sg, threshold, step, 0)[i] == FrameEntry(sg, threshold, i * step)
      && VisitTimes(sg.frames, step, hop, sr, 0)[i] == FrameTime(i * step, hop, sr)
  {
    VisitsAt(sg, threshold, step, 0);
    VisitTimesAt(sg.frames, step, hop, sr, 0);
  }

  /** What `detect_chords` hands back: the entries and their times, or the
      `ValueError` that `range` raises for a zero step. */
  datatype Detection = Detected(chordValues: seq<Option<seq<real>>>, timeSteps: seq<real>) | StepIsZero

  /** The inner loop of `detect_chords`: the pitches of frame `t` whose bin is loud enough and voiced. */
  method FrameChord(sg: Spectrogram, threshold: int, t: nat) returns (currentChord: seq<real>)
    requires sg.Valid() && t < sg.frames
    ensures currentChord == Selected(sg, threshold, t, sg.Bins())
  {
    currentChord := [];
    for index := 0 to sg.Bins()
      invariant currentChord == Selected(sg, threshold, t, index)
    {
      if sg.magnitudes[index][t] > threshold as real {
        var pitch := sg.pitches[index][t];
        if pitch > 0.0 {
          currentChord := currentChord + [pitch];
        }
      }
    }
  }

  /** The frame loop of `detect_chords`: every `skip`-th frame of the matrices, starting at 0,
      gives one entry and one time. */
  method DetectChords(sg: Spectrogram, hop: nat, sr: int, skip: int, threshold: int) returns (r: Detection)
    requires sg.Valid() && sr > 0
    ensures r.StepIsZero? <==> skip == 0
    ensures skip < 0 ==> r == Detected([], [])
    ensures skip > 0 ==> && r.Detected?
                         && |r.chordValues| == |r.timeSteps| == CeilDiv(sg.frames, skip)
                         && r.chordValues == Visits(sg, threshold, skip, 0)
                         && r.timeSteps == VisitTimes(sg.frames, skip, hop, sr, 0)
    ensures skip > 0 ==> forall i :: 0 <= i < |r.chordValues| ==>
      && i * skip < sg.frames
      && r.chordValues[i] == FrameEntry(sg, threshold, i * skip)
      && r.timeSteps[i] == FrameTime(i * skip, hop, sr)
  {
    if skip == 0 {
      return StepIsZero;
    }
    var chordValues: seq<Option<seq<real>>> := [];
    var timeSteps: seq<real> := [];
    if skip > 0 {
      var t := 0;
      while t < sg.frames
        invariant chordValues + Visits(sg, threshold, skip, t) == Visits(sg, threshold, skip, 0)
        invariant timeSteps + VisitTimes(sg.frames, skip, hop, sr, t) == VisitTimes(sg.frames, skip, hop, sr, 0)
        decreases sg.frames - t
      {
        var currentChord := FrameChord(sg, threshold, t);
        ghost var entry := FrameEntry(sg, threshold, t);
        assert Visits(sg, threshold, skip, t) == [entry] + Visits(sg, threshold, skip, t + skip);
        assert VisitTimes(sg.frames, skip, hop, sr, t)
            == [FrameTime(t, hop, sr)] + VisitTimes(sg.frames, skip, hop, sr, t + skip);
        assert (chordValues + [entry]) + Visits(sg, threshold, skip, t + skip)
            == chordValues + ([entry] + Visits(sg, threshold, skip, t + skip));
        assert (timeSteps + [FrameTime(t, hop, sr)]) + VisitTimes(sg.frames, skip, hop, sr, t + skip)
            == timeSteps + ([FrameTime(t, hop, sr)] + VisitTimes(sg.frames, skip, hop, sr, t + skip));
        if currentChord != [] {
          chordValues := chordValues + [Some(currentChord)];
        } else {
          chordValues := chordValues + [None];
        }
        timeSteps := timeSteps + [FrameTime(t, hop, sr)];
        t := t + skip;
      }
      VisitsFromStart(sg, threshold, skip, hop, sr);
    }
    r := Detected(chordValues, timeSteps);
  }
}
