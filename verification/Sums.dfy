/** The sum of a map's multisets, in any order. */
module Sums {

  ghost function Any<T>(parts: map<string, multiset<T>>): (name: string)
    requires parts != map[]
    ensures name in parts
  {
    var name :| name in parts; name
  }

  ghost function Sum<T>(parts: map<string, multiset<T>>): (r: multiset<T>)
    decreases |parts|
  {
    if parts == map[] then multiset{}
    else parts[Any(parts)] + Sum(parts - {Any(parts)})
  }

  /** Any entry can be taken out first. */
  lemma {:induction false} SumWithout<T>(parts: map<string, multiset<T>>, name: string)
    requires name in parts
    ensures Sum(parts) == parts[name] + Sum(parts - {name})
    decreases |parts|
  {
    var first := Any(parts);
    if first != name {
      var (p, q) := (parts - {first}, parts - {name});
      SumWithout(p, name);
      SumWithout(q, first);
      assert p - {name} == q - {first};
    }
  }
}
