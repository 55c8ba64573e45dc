/** `reservoir_sample`: draw `size` of the candidates, each subset equally likely.

    The random generator is an input: `choices[i]` is what `gen_range` returned on its `i`-th call. */
module Reservoir {
  import opened Counting

  /** A run over `n` candidates with a reservoir of `size` calls `gen_range(0, seen)` once per candidate
      seen after the reservoir is full. */
  predicate ValidChoices(n: nat, size: nat, choices: seq<nat>) {
    && |choices| == (if 0 < size < n then n - size else 0)
    && forall i | 0 <= i < |choices| :: choices[i] < size + i + 1
  }

  /** The source positions held by the reservoir after `n` candidates. */
  function Positions(n: nat, size: nat, choices: seq<nat>): (held: seq<nat>)
    requires size > 0
    requires ValidChoices(n, size, choices)
    ensures |held| == if n < size then n else size
    ensures forall i | 0 <= i < |held| :: held[i] < n
    decreases n
  {
    if n == 0 then []
    else if n <= size then Positions(n - 1, size, []) + [n - 1]
    else
      var before := Positions(n - 1, size, choices[..n - 1 - size]);
      var pick := choices[n - 1 - size];
      if pick < size then before[pick := n - 1] else before
  }

  /** No candidate is drawn twice. */
  lemma {:induction false} PositionsDistinct(n: nat, size: nat, choices: seq<nat>)
    requires size > 0
    requires ValidChoices(n, size, choices)
    ensures Distinct(Positions(n, size, choices))
    decreases n
  {
    if n == 0 {
    } else if n <= size {
      PositionsDistinct(n - 1, size, []);
      assert choices == [];
    } else if n > size {
      PositionsDistinct(n - 1, size, choices[..n - 1 - size]);
    }
  }

  /** A place of the reservoir that the generator never returned holds the candidate of its own position. */
  lemma {:induction false} PlaceKept(n: nat, size: nat, choices: seq<nat>, place: nat)
    requires ValidChoices(n, size, choices) && place < size && place < n
    requires forall j | 0 <= j < |choices| :: choices[j] != place
    ensures Positions(n, size, choices)[place] == place
    decreases n
  {
    if n > size {
      PlaceKept(n - 1, size, choices[..n - 1 - size], place);
    } else if place < n - 1 {
      PlaceKept(n - 1, size, [], place);
    }
  }

  /** Any other holds the last candidate for which the generator returned it. */
  lemma {:induction false} PlaceTaken(n: nat, size: nat, choices: seq<nat>, place: nat, k: nat)
    requires ValidChoices(n, size, choices) && place < size && k < |choices| && choices[k] == place
    requires forall j | k < j < |choices| :: choices[j] != place
    ensures Positions(n, size, choices)[place] == size + k
    decreases n
  {
    if k < n - 1 - size {
      PlaceTaken(n - 1, size, choices[..n - 1 - size], place, k);
    }
  }

  /** The sampling loop, for any candidate type. */
  method Sample<T>(candidates: seq<T>, size: nat, choices: seq<nat>) returns (reservoir: seq<T>)
    requires ValidChoices(|candidates|, size, choices)
    ensures size == 0 ==> reservoir == []
    ensures size > 0 ==>
              var held := Positions(|candidates|, size, choices);
              && |reservoir| == |held|
              && forall i | 0 <= i < |held| :: reservoir[i] == candidates[held[i]]
  {
    reservoir := [];
    if size == 0 {
      return;
    }
    var seen := 0;
    var calls := 0;
    while seen < |candidates|
      invariant 0 <= seen <= |candidates|
      invariant calls == if seen < size then 0 else seen - size
      invariant |reservoir| == if seen < size then seen else size
      invariant calls <= |choices| && Holds(candidates, seen, size, choices[..calls], reservoir)
    {
      var candidate := candidates[seen];
      seen := seen + 1;
      if |reservoir| < size {
        HoldsOneMore(candidates, seen, size, choices[..calls], reservoir);
        reservoir := reservoir + [candidate];
      } else {
        var replaceIdx := choices[calls];
        assert choices[..calls + 1] == choices[..calls] + [replaceIdx];
        HoldsReplaced(candidates, seen, size, choices[..calls], replaceIdx, reservoir);
        calls := calls + 1;
        if replaceIdx < size {
          reservoir := reservoir[replaceIdx := candidate];
        }
      }
    }
    assert choices[..calls] == choices;
  }

  /** After `seen` candidates the reservoir holds those at the positions drawn. */
  ghost predicate Holds<T>(candidates: seq<T>, seen: nat, size: nat, choices: seq<nat>, reservoir: seq<T>)
    requires size > 0 && seen <= |candidates|
  {
    && ValidChoices(seen, size, choices)
    && var held := Positions(seen, size, choices);
       |reservoir| == |held| && forall i | 0 <= i < |held| :: reservoir[i] == candidates[held[i]]
  }

  lemma {:induction false} HoldsOneMore<T>(candidates: seq<T>, seen: nat, size: nat, choices: seq<nat>,
                                           reservoir: seq<T>)
    requires 0 < seen <= |candidates| && 0 < size && Holds(candidates, seen - 1, size, choices, reservoir)
    requires |reservoir| < size
    ensures Holds(candidates, seen, size, choices, reservoir + [candidates[seen - 1]])
  {
    assert choices == [];
    assert Positions(seen, size, []) == Positions(seen - 1, size, []) + [seen - 1];
  }

  lemma {:induction false} HoldsReplaced<T>(candidates: seq<T>, seen: nat, size: nat, choices: seq<nat>, pick: nat,
                                            reservoir: seq<T>)
    requires 0 < seen <= |candidates| && 0 < size && Holds(candidates, seen - 1, size, choices, reservoir)
    requires |reservoir| >= size && pick < seen
    ensures Holds(candidates, seen, size, choices + [pick],
                  if pick < size then reservoir[pick := candidates[seen - 1]] else reservoir)
  {
    assert (choices + [pick])[..|choices|] == choices;
  }

  // ----- Uniformity, by counting the choice sequences that lead to each subset -----

  /** The choices `c` and then one more result of the generator. */
  ghost function Then(c: seq<nat>, pick: nat): (r: seq<nat>)
    ensures |r| == |c| + 1 && r[..|c|] == c && r[|c|] == pick
  {
    c + [pick]
  }

  /** All ways to continue `c` by one of `picks`. */
  ghost function Extend(c: seq<nat>, picks: set<nat>): (r: set<seq<nat>>) {
    set pick | pick in picks :: Then(c, pick)
  }

  ghost function ExtendAll(prefixes: set<seq<nat>>, picks: set<nat>): (r: set<seq<nat>>) {
    set c, pick | c in prefixes && pick in picks :: Then(c, pick)
  }

  lemma {:induction false} ExtendSize(c: seq<nat>, picks: set<nat>)
    ensures |Extend(c, picks)| == |picks|
  {
    var f := map pick | pick in picks :: Then(c, pick);
    forall x, y | x in f && y in f && x != y ensures f[x] != f[y] {
      assert f[x][|c|] == x && f[y][|c|] == y;
    }
    OneToOneSize(f);
    assert f.Keys == picks;
    assert Extend(c, picks) == f.Values;
  }

  lemma {:induction false} ExtendDisjoint(c: seq<nat>, d: seq<nat>, picks: set<nat>)
    requires |c| == |d| && c != d
    ensures Extend(c, picks) !! Extend(d, picks)
  {
    forall x | x in Extend(c, picks) ensures x !in Extend(d, picks) {
      assert x[..|c|] == c;
      assert forall pick | pick in picks :: Then(d, pick)[..|d|] == d;
    }
  }

  /** Extending each of several sequences of one length by any of `picks` multiplies their number. */
  lemma {:induction false} ExtendAllSize(prefixes: set<seq<nat>>, len: nat, picks: set<nat>)
    requires forall c | c in prefixes :: |c| == len
    ensures |ExtendAll(prefixes, picks)| == Times(|prefixes|, |picks|)
  {
    var classes := map c | c in prefixes :: Extend(c, picks);
    assert PairwiseDisjoint(classes) by {
      forall c, d | c in classes && d in classes && c != d ensures classes[c] !! classes[d] {
        ExtendDisjoint(c, d, picks);
      }
    }
    assert forall c | c in classes :: |classes[c]| == |picks| by {
      forall c | c in classes ensures |classes[c]| == |picks| {
        ExtendSize(c, picks);
      }
    }
    UnionSize(classes, |picks|);
    assert classes.Keys == prefixes;
    ExtendAllIsUnion(prefixes, picks, classes);
  }

  lemma {:induction false} ExtendAllIsUnion(prefixes: set<seq<nat>>, picks: set<nat>,
                                            classes: map<seq<nat>, set<seq<nat>>>)
    requires classes.Keys == prefixes
    requires forall c | c in prefixes :: classes[c] == Extend(c, picks)
    ensures ExtendAll(prefixes, picks) == Union(classes)
  {
    forall c, pick | c in prefixes && pick in picks ensures Then(c, pick) in Union(classes) {
      assert Then(c, pick) in classes[c];
    }
  }

  /** Every possible sequence of `gen_range` results for `n >= size` candidates. */
  ghost function AllChoices(n: nat, size: nat): (all: set<seq<nat>>)
    requires 0 < size <= n
    decreases n
  {
    if n == size then {[]} else ExtendAll(AllChoices(n - 1, size), Range(0, n))
  }

  lemma {:induction false} AllChoicesExact(n: nat, size: nat, c: seq<nat>)
    requires 0 < size <= n
    ensures c in AllChoices(n, size) <==> ValidChoices(n, size, c)
    decreases n
  {
    if n > size && c != [] {
      var (p, pick) := (c[..|c| - 1], c[|c| - 1]);
      assert c == Then(p, pick);
      AllChoicesExact(n - 1, size, p);
      if c in AllChoices(n, size) {
        var q, k :| q in AllChoices(n - 1, size) && k in Range(0, n) && c == Then(q, k);
        assert q == p;
      }
    }
  }

  lemma {:induction false} AllChoicesLength(n: nat, size: nat)
    requires 0 < size <= n
    ensures forall c | c in AllChoices(n, size) :: |c| == n - size
  {
    forall c | c in AllChoices(n, size) ensures |c| == n - size {
      AllChoicesExact(n, size, c);
    }
  }

  /** There are `n! / size!` possible sequences of choices. */
  lemma {:induction false} AllChoicesSize(n: nat, size: nat)
    requires 0 < size <= n
    ensures Times(|AllChoices(n, size)|, Factorial(size)) == Factorial(n)
    decreases n
  {
    if n == size {
      assert Times(1, Factorial(size)) == Factorial(size) + Times(0, Factorial(size));
    } else {
      var prev := AllChoices(n - 1, size);
      AllChoicesLength(n - 1, size);
      ExtendAllSize(prev, n - 1 - size, Range(0, n));
      RangeSize(0, n);
      AllChoicesSize(n - 1, size);
      Reassociate(|prev|, n, Factorial(size));
    }
  }

  lemma {:induction false} Reassociate(a: nat, b: nat, c: nat)
    ensures Times(Times(a, b), c) == Times(b, Times(a, c))
  {
    TimesIsProduct(a, b);
    TimesIsProduct(a, c);
    TimesIsProduct(Times(a, b), c);
    TimesIsProduct(b, Times(a, c));
    assert (a * b) * c == b * (a * c);
  }

  /** The set of source positions that the choices `c` draw. */
  ghost function Drawn(n: nat, size: nat, c: seq<nat>): (r: set<nat>)
    requires size > 0 && ValidChoices(n, size, c)
  {
    Elements(Positions(n, size, c))
  }

  /** The choices `c` are possible and draw exactly `subset`. */
  ghost predicate Draws(n: nat, size: nat, c: seq<nat>, subset: set<nat>)
    requires size > 0
  {
    ValidChoices(n, size, c) && Drawn(n, size, c) == subset
  }

  /** The choice sequences whose sample is exactly the set `subset` of source positions. */
  ghost function Leading(n: nat, size: nat, subset: set<nat>): (r: set<seq<nat>>)
    requires 0 < size <= n
  {
    set c | c in AllChoices(n, size) && Draws(n, size, c, subset)
  }

  lemma {:induction false} LeadingExact(n: nat, size: nat, subset: set<nat>)
    requires 0 < size <= n
    ensures forall c :: c in Leading(n, size, subset) <==> Draws(n, size, c, subset)
  {
    forall c | Draws(n, size, c, subset) ensures c in AllChoices(n, size) {
      AllChoicesExact(n, size, c);
    }
  }

  /** Every `size`-subset of the `n` positions is drawn by exactly `m` of the choice sequences. */
  ghost predicate EquallyLikely(n: nat, size: nat, m: nat)
    requires 0 < size <= n
  {
    forall subset | |subset| == size && subset <= Range(0, n) :: |Leading(n, size, subset)| == m
  }

  /** Exactly uniform, for every number of candidates and every reservoir no larger than that. */
  lemma {:induction false} Uniform(n: nat, size: nat)
    requires 0 < size <= n
    ensures EquallyLikely(n, size, Factorial(n - size))
    decreases n
  {
    if n == size {
      forall subset | |subset| == size && subset <= Range(0, n) ensures |Leading(n, size, subset)| == 1 {
        UniformFull(n, subset);
      }
    } else {
      Uniform(n - 1, size);
      UniformStep(n, size, Factorial(n - 1 - size));
    }
  }

  lemma {:induction false} UniformStep(n: nat, size: nat, m: nat)
    requires 0 < size < n
    requires EquallyLikely(n - 1, size, m)
    ensures EquallyLikely(n, size, Times(n - size, m))
  {
    forall subset | |subset| == size && subset <= Range(0, n)
      ensures |Leading(n, size, subset)| == Times(n - size, m)
    {
      if n - 1 in subset {
        UniformLastKept(n, size, subset, m);
      } else {
        UniformLastSkipped(n, size, subset, m);
      }
    }
  }

  lemma {:induction false} UniformFull(n: nat, subset: set<nat>)
    requires n > 0
    requires |subset| == n && subset <= Range(0, n)
    ensures |Leading(n, n, subset)| == 1
  {
    FullReservoir(n);
    RangeSize(0, n);
    SubsetOfSameSize(subset, Range(0, n));
    assert Leading(n, n, subset) == {[]};
  }

  lemma {:induction false} FullReservoir(n: nat)
    requires n > 0
    ensures Drawn(n, n, []) == Range(0, n)
  {
    FillingIsIdentity(n, n);
    var held := Positions(n, n, []);
    assert forall p | p in Range(0, n) :: held[p] == p;
  }

  lemma {:induction false} FillingIsIdentity(n: nat, size: nat)
    requires 0 < size && n <= size
    ensures forall i | 0 <= i < n :: Positions(n, size, [])[i] == i
    decreases n
  {
    if n > 0 {
      FillingIsIdentity(n - 1, size);
    }
  }

  /** What one more candidate does to the positions held. */
  lemma {:induction false} OneMore(n: nat, size: nat, c: seq<nat>, pick: nat)
    requires 0 < size < n && pick < n
    requires ValidChoices(n - 1, size, c)
    ensures ValidChoices(n, size, Then(c, pick))
    ensures Positions(n, size, Then(c, pick)) ==
            var before := Positions(n - 1, size, c);
            if pick < size then before[pick := n - 1] else before
  {
  }

  /** The choices split into those for the first `n - 1` candidates and the last one. */
  lemma {:induction false} Split(n: nat, size: nat, c: seq<nat>) returns (p: seq<nat>, pick: nat)
    requires 0 < size < n
    requires ValidChoices(n, size, c)
    ensures pick < n && ValidChoices(n - 1, size, p) && c == Then(p, pick)
    ensures Positions(n, size, c) ==
            var before := Positions(n - 1, size, p);
            if pick < size then before[pick := n - 1] else before
    ensures n - 1 in Drawn(n, size, c) <==> pick < size
  {
    p, pick := c[..n - 1 - size], c[n - 1 - size];
    assert c == Then(p, pick);
    OneMore(n, size, p, pick);
    var held := Positions(n, size, c);
    assert pick < size ==> held[pick] == n - 1;
  }

  /** The last candidate is not drawn: the earlier choices led to the same set, and the last one was
      one of the `n - size` values that replace nothing. */
  lemma {:induction false} UniformLastSkipped(n: nat, size: nat, subset: set<nat>, m: nat)
    requires 0 < size < n
    requires |subset| == size && subset <= Range(0, n) && n - 1 !in subset
    requires EquallyLikely(n - 1, size, m)
    ensures |Leading(n, size, subset)| == Times(n - size, m)
  {
    var prev := Leading(n - 1, size, subset);
    assert |Leading(n, size, subset)| == Times(|prev|, n - size) by {
      AllChoicesLength(n - 1, size);
      ExtendAllSize(prev, n - 1 - size, Range(size, n));
      RangeSize(size, n);
      LastSkipped(n, size, subset);
    }
    TimesCommutes(|prev|, n - size);
  }

  lemma {:induction false} TimesCommutes(a: nat, b: nat)
    ensures Times(a, b) == Times(b, a)
  {
    TimesIsProduct(a, b);
    TimesIsProduct(b, a);
  }

  lemma {:induction false} LastSkipped(n: nat, size: nat, subset: set<nat>)
    requires 0 < size < n && n - 1 !in subset
    ensures Leading(n, size, subset) == ExtendAll(Leading(n - 1, size, subset), Range(size, n))
  {
    var prev := Leading(n - 1, size, subset);
    LeadingExact(n - 1, size, subset);
    LeadingExact(n, size, subset);
    forall c | Draws(n, size, c, subset) ensures c in ExtendAll(prev, Range(size, n)) {
      var p, pick := Split(n, size, c);
      assert Draws(n - 1, size, p, subset);
    }
    forall p, pick | p in prev && pick in Range(size, n) ensures Then(p, pick) in Leading(n, size, subset) {
      assert Draws(n - 1, size, p, subset);
      OneMore(n, size, p, pick);
      assert Draws(n, size, Then(p, pick), subset);
    }
  }

  /** Where `x` is held. */
  ghost function IndexOf(s: seq<nat>, x: nat): (i: nat)
    requires x in s
    ensures i < |s| && s[i] == x
  {
    var i :| 0 <= i < |s| && s[i] == x; i
  }

  /** The choices `c`, after which the last candidate replaces `evicted`. */
  ghost function Evict(n: nat, size: nat, c: seq<nat>, evicted: nat): (r: seq<nat>)
    requires 0 < size < n && ValidChoices(n - 1, size, c)
    requires evicted in Drawn(n - 1, size, c)
    ensures |r| == |c| + 1 && r[..|c|] == c
  {
    Then(c, IndexOf(Positions(n - 1, size, c), evicted))
  }

  /** What the first `n - 1` candidates must have drawn for the last one to complete `subset`. */
  ghost function Before(n: nat, subset: set<nat>, evicted: nat): (r: set<nat>)
    requires n > 0
  {
    subset - {n - 1} + {evicted}
  }

  /** The choices that draw `subset` by replacing `evicted` last, listed by their prefixes. */
  ghost function Evicting(n: nat, size: nat, subset: set<nat>, evicted: nat): (r: map<seq<nat>, seq<nat>>)
    requires 0 < size < n
    ensures r.Keys == Leading(n - 1, size, Before(n, subset, evicted))
  {
    var prev := Leading(n - 1, size, Before(n, subset, evicted));
    map c | c in prev :: Evict(n, size, c, evicted)
  }

  /** The last candidate is drawn: it replaced one of the `n - size` positions outside the set, and for
      each of these the index to replace is forced by the earlier choices. */
  lemma {:induction false} UniformLastKept(n: nat, size: nat, subset: set<nat>, m: nat)
    requires 0 < size < n
    requires |subset| == size && subset <= Range(0, n) && n - 1 in subset
    requires EquallyLikely(n - 1, size, m)
    ensures |Leading(n, size, subset)| == Times(n - size, m)
  {
    ByEvictedSizes(n, size, subset, m);
    LastKept(n, size, subset);
  }

  lemma {:induction false} ByEvictedSizes(n: nat, size: nat, subset: set<nat>, m: nat)
    requires 0 < size < n
    requires |subset| == size && subset <= Range(0, n) && n - 1 in subset
    requires EquallyLikely(n - 1, size, m)
    ensures |Union(ByEvicted(n, size, subset))| == Times(n - size, m)
  {
    var classes := ByEvicted(n, size, subset);
    assert |Union(classes)| == Times(|classes|, m) by {
      ByEvictedDisjoint(n, size, subset);
      ByEvictedEqual(n, size, subset, m);
      UnionSize(classes, m);
    }
    assert |classes| == n - size by {
      ByEvictedCount(n, size, subset);
    }
  }

  lemma {:induction false} ByEvictedEqual(n: nat, size: nat, subset: set<nat>, m: nat)
    requires 0 < size < n
    requires |subset| == size && subset <= Range(0, n) && n - 1 in subset
    requires EquallyLikely(n - 1, size, m)
    ensures forall x | x in ByEvicted(n, size, subset) :: |ByEvicted(n, size, subset)[x]| == m
  {
    forall x | x in ByEvicted(n, size, subset) ensures |ByEvicted(n, size, subset)[x]| == m {
      EvictingSize(n, size, subset, x, m);
    }
  }

  /** The choices that draw `subset`, the last candidate included, grouped by what it replaced. */
  ghost function ByEvicted(n: nat, size: nat, subset: set<nat>): (r: map<nat, set<seq<nat>>>)
    requires 0 < size < n
  {
    map x | x in Range(0, n) - subset :: Evicting(n, size, subset, x).Values
  }

  lemma {:induction false} ByEvictedCount(n: nat, size: nat, subset: set<nat>)
    requires 0 < size < n && subset <= Range(0, n)
    ensures |ByEvicted(n, size, subset)| == n - |subset|
  {
    var outside := Range(0, n) - subset;
    assert ByEvicted(n, size, subset).Keys == outside;
    RangeSize(0, n);
    assert Range(0, n) == outside + subset;
  }

  lemma {:induction false} ByEvictedDisjoint(n: nat, size: nat, subset: set<nat>)
    requires 0 < size < n
    ensures PairwiseDisjoint(ByEvicted(n, size, subset))
  {
    var classes := ByEvicted(n, size, subset);
    forall x, y | x in classes && y in classes && x != y ensures classes[x] !! classes[y] {
      EvictingDisjoint(n, size, subset, x, y);
    }
  }

  lemma {:induction false} EvictingSize(n: nat, size: nat, subset: set<nat>, x: nat, m: nat)
    requires 0 < size < n
    requires |subset| == size && subset <= Range(0, n) && n - 1 in subset
    requires EquallyLikely(n - 1, size, m)
    requires x in Range(0, n) - subset
    ensures |Evicting(n, size, subset, x).Values| == m
  {
    BeforeIsSubset(n, subset, x);
    EvictingOneToOne(n, size, subset, x);
  }

  lemma {:induction false} BeforeIsSubset(n: nat, subset: set<nat>, x: nat)
    requires n > 0 && subset <= Range(0, n) && n - 1 in subset
    requires x in Range(0, n) - subset
    ensures |Before(n, subset, x)| == |subset| && Before(n, subset, x) <= Range(0, n - 1)
  {
  }

  lemma {:induction false} EvictingOneToOne(n: nat, size: nat, subset: set<nat>, evicted: nat)
    requires 0 < size < n
    ensures |Evicting(n, size, subset, evicted).Values| ==
            |Leading(n - 1, size, Before(n, subset, evicted))|
  {
    var f := Evicting(n, size, subset, evicted);
    forall c, d | c in f && d in f && c != d ensures f[c] != f[d] {
      assert f[c][..|c|] == c && f[d][..|d|] == d;
    }
    OneToOneSize(f);
  }

  lemma {:induction false} EvictingDisjoint(n: nat, size: nat, subset: set<nat>, x: nat, y: nat)
    requires 0 < size < n
    requires x !in subset && y !in subset && x != y
    ensures Evicting(n, size, subset, x).Values !! Evicting(n, size, subset, y).Values
  {
    var (f, g) := (Evicting(n, size, subset, x), Evicting(n, size, subset, y));
    forall c, d | c in f && d in g ensures f[c] != g[d] {
      assert x in Drawn(n - 1, size, c) && x !in Drawn(n - 1, size, d);
      assert f[c][..|c|] == c && g[d][..|d|] == d;
    }
  }

  lemma {:induction false} LastKept(n: nat, size: nat, subset: set<nat>)
    requires 0 < size < n && n - 1 in subset && subset <= Range(0, n)
    ensures Leading(n, size, subset) == Union(ByEvicted(n, size, subset))
  {
    var classes := ByEvicted(n, size, subset);
    LeadingExact(n, size, subset);
    forall c | Draws(n, size, c, subset) ensures c in Union(classes) {
      var x := EvictedBy(n, size, subset, c);
      assert c in classes[x];
    }
    forall x, r | x in classes && r in classes[x] ensures Draws(n, size, r, subset) {
      EvictingDraws(n, size, subset, x, r);
    }
  }

  lemma {:induction false} EvictingDraws(n: nat, size: nat, subset: set<nat>, x: nat, r: seq<nat>)
    requires 0 < size < n && n - 1 in subset && subset <= Range(0, n)
    requires x in Range(0, n) - subset && r in Evicting(n, size, subset, x).Values
    ensures Draws(n, size, r, subset)
  {
    var c :| c in Evicting(n, size, subset, x) && r == Evicting(n, size, subset, x)[c];
    EvictDraws(n, size, subset, x, c);
  }

  lemma {:induction false} EvictDraws(n: nat, size: nat, subset: set<nat>, x: nat, c: seq<nat>)
    requires 0 < size < n && n - 1 in subset && x !in subset
    requires Draws(n - 1, size, c, Before(n, subset, x))
    requires x in Drawn(n - 1, size, c)
    ensures Draws(n, size, Evict(n, size, c, x), subset)
  {
    var before := Positions(n - 1, size, c);
    var i := IndexOf(before, x);
    OneMore(n, size, c, i);
    assert Elements(before[i := n - 1]) == subset by {
      PositionsDistinct(n - 1, size, c);
      ReplaceAt(before, i, n - 1, subset);
    }
  }

  lemma {:induction false} EvictedBy(n: nat, size: nat, subset: set<nat>, c: seq<nat>) returns (x: nat)
    requires 0 < size < n && n - 1 in subset
    requires Draws(n, size, c, subset)
    ensures x in Range(0, n) - subset && c in Evicting(n, size, subset, x).Values
  {
    var p, pick := Split(n, size, c);
    x := DrewBefore(n, size, subset, p, pick);
    EvictingContains(n, size, subset, x, p);
  }

  lemma {:induction false} EvictingContains(n: nat, size: nat, subset: set<nat>, x: nat, p: seq<nat>)
    requires 0 < size < n
    requires Draws(n - 1, size, p, Before(n, subset, x))
    requires x in Drawn(n - 1, size, p)
    ensures Evict(n, size, p, x) in Evicting(n, size, subset, x).Values
  {
    LeadingExact(n - 1, size, Before(n, subset, x));
    assert Evicting(n, size, subset, x)[p] == Evict(n, size, p, x);
  }

  lemma {:induction false} DrewBefore(n: nat, size: nat, subset: set<nat>, p: seq<nat>, pick: nat)
    returns (x: nat)
    requires 0 < size < n && n - 1 in subset && pick < size
    requires ValidChoices(n - 1, size, p)
    requires Elements(Positions(n - 1, size, p)[pick := n - 1]) == subset
    ensures x < n && x !in subset && Draws(n - 1, size, p, Before(n, subset, x))
    ensures x in Drawn(n - 1, size, p) && Evict(n, size, p, x) == Then(p, pick)
  {
    var before := Positions(n - 1, size, p);
    PositionsDistinct(n - 1, size, p);
    x := before[pick];
    ReplacedAt(before, pick, n - 1, subset);
    assert x in Drawn(n - 1, size, p);
  }

  /** Replacing `s[i]` by `last` turns the elements of `s` into `subset`. */
  lemma {:induction false} ReplaceAt(s: seq<nat>, i: nat, last: nat, subset: set<nat>)
    requires i < |s| && Distinct(s) && last !in s
    requires last in subset && s[i] !in subset
    requires Elements(s) == subset - {last} + {s[i]}
    ensures Elements(s[i := last]) == subset
  {
    Replaced(s, i, last);
  }

  /** The converse: what the elements were before the replacement. */
  lemma {:induction false} ReplacedAt(s: seq<nat>, i: nat, last: nat, subset: set<nat>)
    requires i < |s| && Distinct(s) && last !in s
    requires Elements(s[i := last]) == subset
    ensures s[i] !in subset
    ensures Elements(s) == subset - {last} + {s[i]}
  {
    Replaced(s, i, last);
    assert s[i] in Elements(s);
  }

  lemma {:induction false} Replaced(s: seq<nat>, i: nat, x: nat)
    requires i < |s| && Distinct(s) && x !in s
    ensures Elements(s[i := x]) == Elements(s) - {s[i]} + {x}
  {
    var t := s[i := x];
    assert t[i] == x;
    assert forall j | 0 <= j < |s| && j != i :: t[j] == s[j];
  }
}
