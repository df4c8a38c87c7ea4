/** The table of musical keys: a key name to the pitch-class names of its scale. */
module KeyTable {
  import opened Common

  /** The 24 major and minor keys, plus a `default` entry that spells every pitch class. */
  const Scales: map<string, seq<string>> := map[
    "C major"  := ["C", "D", "E", "F", "G", "A", "B"],
    "C# major" := ["C#", "D#", "E#", "F#", "G#", "A#", "B#"],
    "D major"  := ["D", "E", "F#", "G", "A", "B", "C#"],
    "E- major" := ["E-", "F", "G", "A-", "B-", "C", "D"],
    "E major"  := ["E", "F#", "G#", "A", "B", "C#", "D#"],
    "F major"  := ["F", "G", "A", "B-", "C", "D", "E"],
    "F# major" := ["F#", "G#", "A#", "B", "C#", "D#", "E#"],
    "G major"  := ["G", "A", "B", "C", "D", "E", "F#"],
    "A- major" := ["A-", "B-", "C", "D-", "E-", "F", "G"],
    "A major"  := ["A", "B", "C#", "D", "E", "F#", "G#"],
    "B- major" := ["B-", "C", "D", "E-", "F", "G", "A"],
    "B major"  := ["B", "C#", "D#", "E", "F#", "G#", "A#"],

    "C minor"  := ["C", "D", "E-", "F", "G", "A-", "B-"],
    "C# minor" := ["C#", "D#", "E", "F#", "G#", "A", "B"],
    "D minor"  := ["D", "E", "F", "G", "A", "B-", "C"],
    "E- minor" := ["E-", "F", "G-", "A-", "B-", "C-", "D-"],
    "E minor"  := ["E", "F#", "G", "A", "B", "C", "D"],
    "F minor"  := ["F", "G", "A-", "B-", "C", "D-", "E-"],
    "F# minor" := ["F#", "G#", "A", "B", "C#", "D", "E"],
    "G minor"  := ["G", "A", "B-", "C", "D", "E-", "F"],
    "A- minor" := ["A-", "B-", "C-", "D-", "E-", "F-", "G-"],
    "A minor"  := ["A", "B", "C", "D", "E", "F", "G"],
    "B- minor" := ["B-", "C", "D-", "E-", "F-", "G-", "A-"],
    "B minor"  := ["B", "C#", "D", "E", "F#", "G", "A"],

    "default"  := ["C", "C#", "D", "D#", "E", "F", "F#", "G", "G#", "A", "A#", "B",
                   "B-", "A-", "G-", "F-", "E-", "D-", "C-", "B#", "E#", "F#", "A#"]
  ]

  /** The table's entries for major keys are named `<tonic> major`, those for minor keys `<tonic> minor`. */
  predicate IsMajorKey(key: string) {
    key in Scales && EndsWith(key, " major")
  }

  predicate IsMinorKey(key: string) {
    key in Scales && EndsWith(key, " minor")
  }

  predicate EndsWith(s: string, suffix: string) {
    |suffix| <= |s| && s[|s| - |suffix|..] == suffix
  }

  /** Seven pitch-class names, none repeated. */
  predicate Heptatonic(scale: seq<string>) {
    |scale| == 7 && Distinct(scale)
  }

  /** All twelve pitch classes in both spellings: 21 distinct names, after which
      `F#` and `A#` are listed a second time. */
  predicate ChromaticWithRepeats(scale: seq<string>) {
    && |scale| == 23
    && Distinct(scale[..21])
    && scale[21..] == ["F#", "A#"]
    && "F#" in scale[..21] && "A#" in scale[..21]
  }

  /** The table's major keys, in its order. */
  const MajorKeys: seq<string> := ["C major", "C# major", "D major", "E- major", "E major", "F major",
                                   "F# major", "G major", "A- major", "A major", "B- major", "B major"]

  /** The table's minor keys, in its order. */
  const MinorKeys: seq<string> := ["C minor", "C# minor", "D minor", "E- minor", "E minor", "F minor",
                                   "F# minor", "G minor", "A- minor", "A minor", "B- minor", "B minor"]

  /** Each of the twelve listed major keys is an entry of the table. */
  lemma ListedMajorKeysAreInTable()
    ensures |MajorKeys| == 12 && Distinct(MajorKeys)
    ensures forall k :: k in MajorKeys ==> IsMajorKey(k)
  {
  }

  /** Each of the twelve listed minor keys is an entry of the table. */
  lemma ListedMinorKeysAreInTable()
    ensures |MinorKeys| == 12 && Distinct(MinorKeys)
    ensures forall k :: k in MinorKeys ==> IsMinorKey(k)
  {
  }

  /** A table key ending in " major" is one of the twelve major keys. */
  lemma MajorKeysListed(key: string)
    requires IsMajorKey(key)
    ensures key in MajorKeys
  {
  }

  /** A table key ending in " minor" is one of the twelve minor keys. */
  lemma MinorKeysListed(key: string)
    requires IsMinorKey(key)
    ensures key in MinorKeys
  {
  }

  /** The scales of `C major` to `F major` (split from the rest to keep each proof small). */
  lemma MajorScalesFirstHalf(key: string)
    requires key in MajorKeys[..6]
    ensures Heptatonic(Scales[key])
  {
  }

  /** The scales of `F# major` to `B major`. */
  lemma MajorScalesSecondHalf(key: string)
    requires key in MajorKeys[6..]
    ensures Heptatonic(Scales[key])
  {
  }

  /** The scales of `C minor` to `F minor`. */
  lemma MinorScalesFirstHalf(key: string)
    requires key in MinorKeys[..6]
    ensures Heptatonic(Scales[key])
  {
  }

  /** The scales of `F# minor` to `B minor`. */
  lemma MinorScalesSecondHalf(key: string)
    requires key in MinorKeys[6..]
    ensures Heptatonic(Scales[key])
  {
  }

  /** Every major key of the table names seven distinct pitch classes. */
  lemma MajorScales(key: string)
    requires IsMajorKey(key)
    ensures Heptatonic(Scales[key])
  {
    MajorKeysListed(key);
    assert MajorKeys == MajorKeys[..6] + MajorKeys[6..];
    if key in MajorKeys[..6] {
      MajorScalesFirstHalf(key);
    } else {
      MajorScalesSecondHalf(key);
    }
  }

  /** Every minor key of the table names seven distinct pitch classes. */
  lemma MinorScales(key: string)
    requires IsMinorKey(key)
    ensures Heptatonic(Scales[key])
  {
    MinorKeysListed(key);
    assert MinorKeys == MinorKeys[..6] + MinorKeys[6..];
    if key in MinorKeys[..6] {
      MinorScalesFirstHalf(key);
    } else {
      MinorScalesSecondHalf(key);
    }
  }

  /** The `default` entry: 21 distinct spellings, then `F#` and `A#` a second time. */
  lemma DefaultScale()
    ensures ChromaticWithRepeats(Scales["default"])
  {
    var scale := Scales["default"];
    assert scale[..21][6] == "F#" && scale[..21][10] == "A#";
  }

  /** The scale of a key name; a name missing from the table (compared exactly,
      case included) gives the empty scale. */
  function GetScale(key: string): (scale: seq<string>)
    ensures IsMajorKey(key) || IsMinorKey(key) ==> Heptatonic(scale)
    ensures key == "default" ==> ChromaticWithRepeats(scale)
    ensures key !in Scales ==> scale == []
    ensures key in Scales ==> scale != []
  {
    if key !in Scales then []
    else if key == "default" then DefaultScale(); Scales[key]
    else if IsMajorKey(key) then MajorScales(key); Scales[key]
    else if IsMinorKey(key) then MinorScales(key); Scales[key]
    else Scales[key]
  }
}
