module Sequences {

  /** The parts, one after the other. */
  function Flatten<T>(parts: seq<seq<T>>): (r: seq<T>) {
    if parts == [] then [] else parts[0] + Flatten(parts[1..])
  }

  /** Each part is in its place: after those before it and before those after it. */
  lemma {:induction false} PartInPlace<T>(parts: seq<seq<T>>, i: nat)
    requires i < |parts|
    ensures var start := |Flatten(parts[..i])|;
            start + |parts[i]| <= |Flatten(parts)| && Flatten(parts)[start..start + |parts[i]|] == parts[i]
    ensures |Flatten(parts[..i + 1])| == |Flatten(parts[..i])| + |parts[i]|
  {
    if i > 0 {
      var (head, rest) := (parts[0], parts[1..]);
      PartInPlace(rest, i - 1);
      assert parts[..i][1..] == rest[..i - 1] && parts[..i + 1][1..] == rest[..i];
      var start := |Flatten(rest[..i - 1])|;
      assert |Flatten(parts[..i])| == |head| + start;
      assert Flatten(parts)[|head| + start..|head| + start + |parts[i]|] == Flatten(rest)[start..start + |parts[i]|];
    } else {
      assert parts[..1][1..] == [] && parts[..1][0] == parts[0];
    }
  }
}
