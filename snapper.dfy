/** Snapping a pitch-class name to the nearest name of a scale. */
module Snapper {
  import opened Common

  /** The distance the snapper minimises: the absolute difference of the two
      names' MIDI numbers, both taken at the default octave (no wrap-around). */
  function Distance(refMidi: string -> int, a: string, b: string): nat {
    var d := refMidi(a) - refMidi(b);
    if d < 0 then -d else d
  }

  /** `j` is the first position of `keys` at the smallest distance from `name`. */
  predicate IsFirstClosest(refMidi: string -> int, name: string, keys: seq<string>, j: int) {
    && 0 <= j < |keys|
    && (forall i :: 0 <= i < |keys| ==> Distance(refMidi, name, keys[j]) <= Distance(refMidi, name, keys[i]))
    && (forall i :: 0 <= i < j ==> Distance(refMidi, name, keys[j]) < Distance(refMidi, name, keys[i]))
  }

  /** The position a scan of `keys` settles on when it moves only to a strictly closer name. */
  function ClosestIndex(refMidi: string -> int, name: string, keys: seq<string>): (j: nat)
    requires keys != []
    ensures j < |keys|
  {
    if |keys| == 1 then 0
    else
      var j := ClosestIndex(refMidi, name, keys[..|keys| - 1]);
      if Distance(refMidi, name, keys[|keys| - 1]) < Distance(refMidi, name, keys[j]) then |keys| - 1 else j
  }

  /** The name the snapper returns: none for an empty scale. */
  function Closest(refMidi: string -> int, name: string, keys: seq<string>): (r: Option<string>)
    ensures r.None? <==> keys == []
    ensures r.Some? ==> r.value in keys
  {
    if keys == [] then None else Some(keys[ClosestIndex(refMidi, name, keys)])
  }

  /** The scan's position is the first one at minimal distance. */
  lemma {:induction false} ClosestIndexIsFirstClosest(refMidi: string -> int, name: string, keys: seq<string>)
    requires keys != []
    ensures IsFirstClosest(refMidi, name, keys, ClosestIndex(refMidi, name, keys))
  {
    if |keys| > 1 {
      var prefix := keys[..|keys| - 1];
      ClosestIndexIsFirstClosest(refMidi, name, prefix);
      assert forall i :: 0 <= i < |prefix| ==> prefix[i] == keys[i];
    }
  }

  /** At most one position is the first closest one. */
  lemma FirstClosestIsUnique(refMidi: string -> int, name: string, keys: seq<string>, j: int, k: int)
    requires IsFirstClosest(refMidi, name, keys, j) && IsFirstClosest(refMidi, name, keys, k)
    ensures j == k
  {
    assert Distance(refMidi, name, keys[j]) == Distance(refMidi, name, keys[k]);
  }

  /** `closest`, the name of `keys` nearest to `name`. */
  lemma ClosestIsNearest(refMidi: string -> int, name: string, keys: seq<string>)
    requires keys != []
    ensures exists j :: IsFirstClosest(refMidi, name, keys, j) && Closest(refMidi, name, keys) == Some(keys[j])
  {
    ClosestIndexIsFirstClosest(refMidi, name, keys);
  }

  /** `math.inf` or a distance, for the running minimum. */
  datatype Bound = Infinity | Finite(n: nat) {
    predicate Exceeds(d: nat) {
      Infinity? || d < n
    }
  }

  /** A linear scan of `keys` keeping the first name at the smallest MIDI distance from `name`. */
  method FindClosestNote(refMidi: string -> int, name: string, keys: seq<string>) returns (closest: Option<string>)
    ensures keys == [] ==> closest == None
    ensures keys != [] ==> exists j :: IsFirstClosest(refMidi, name, keys, j) && closest == Some(keys[j])
    ensures closest == Closest(refMidi, name, keys)
  {
    var inputMidi := refMidi(name);
    closest := None;
    var closestDistance := Infinity;
    ghost var best := 0;
    for i := 0 to |keys|
      invariant i == 0 ==> closest == None && closestDistance == Infinity
      invariant 0 < i ==> && IsFirstClosest(refMidi, name, keys[..i], best)
                          && closest == Some(keys[best])
                          && closestDistance == Finite(Distance(refMidi, name, keys[best]))
    {
      var keyMidi := refMidi(keys[i]);
      var distance := if inputMidi - keyMidi < 0 then keyMidi - inputMidi else inputMidi - keyMidi;
      if closestDistance.Exceeds(distance) {
        closestDistance := Finite(distance);
        closest := Some(keys[i]);
        best := i;
      }
    }
    assert keys[..|keys|] == keys;
    if keys != [] {
      ClosestIndexIsFirstClosest(refMidi, name, keys);
      FirstClosestIsUnique(refMidi, name, keys, best, ClosestIndex(refMidi, name, keys));
    }
  }
}
