/** Cardinalities of finite sets, used to count the runs of a random process. */
module Counting {

  /** The product `n * m`, by repeated addition: keeps non-linear terms out of proofs about sets. */
  ghost function Times(n: nat, m: nat): (p: nat) {
    if n == 0 then 0 else m + Times(n - 1, m)
  }

  lemma {:induction false} TimesIsProduct(n: nat, m: nat)
    ensures Times(n, m) == n * m
  {
    if n > 0 {
      TimesIsProduct(n - 1, m);
      assert (n - 1) * m == n * m - m;
    }
  }

  /** `n!` */
  ghost function Factorial(n: nat): (f: nat) {
    if n == 0 then 1 else Times(n, Factorial(n - 1))
  }

  predicate Between(lo: nat, i: nat, hi: nat) {
    lo <= i < hi
  }

  /** The whole numbers from `lo` up to but not including `hi`. */
  ghost function Range(lo: nat, hi: nat): (s: set<nat>) {
    set i: nat | lo <= i < hi && Between(lo, i, hi)
  }

  lemma {:induction false} RangeSize(lo: nat, hi: nat)
    requires lo <= hi
    ensures |Range(lo, hi)| == hi - lo
    decreases hi - lo
  {
    if lo < hi {
      RangeSize(lo + 1, hi);
      assert Range(lo, hi) == Range(lo + 1, hi) + {lo};
    } else {
      assert Range(lo, hi) == {};
    }
  }

  ghost predicate Distinct<T>(s: seq<T>) {
    forall i, j | 0 <= i < j < |s| :: s[i] != s[j]
  }

  ghost function Elements<T>(s: seq<T>): (r: set<T>) {
    set x | x in s
  }

  /** The union of all the classes. */
  ghost function Union<I(!new), T(!new)>(classes: map<I, set<T>>): (u: set<T>) {
    set i, t | i in classes && t in classes[i] :: t
  }

  ghost predicate PairwiseDisjoint<I(!new), T(!new)>(classes: map<I, set<T>>) {
    forall i, j | i in classes && j in classes && i != j :: classes[i] !! classes[j]
  }

  lemma {:induction false} UnionSplit<I(!new), T(!new)>(classes: map<I, set<T>>, i: I)
    requires i in classes && PairwiseDisjoint(classes)
    ensures |Union(classes)| == |classes[i]| + |Union(classes - {i})|
  {
    var rest := classes - {i};
    forall t | t in Union(classes) ensures t in classes[i] + Union(rest) {
      var j :| j in classes && t in classes[j];
      assert j != i ==> j in rest && t in rest[j];
    }
    assert Union(classes) == classes[i] + Union(rest);
    assert classes[i] !! Union(rest);
  }

  /** Pairwise disjoint classes of equal size `m` have a union of size `Times(|classes|, m)`. */
  lemma {:induction false} UnionSize<I(!new), T(!new)>(classes: map<I, set<T>>, m: nat)
    requires forall i | i in classes :: |classes[i]| == m
    requires PairwiseDisjoint(classes)
    ensures |Union(classes)| == Times(|classes|, m)
    decreases |classes|
  {
    if classes == map[] {
      assert Union(classes) == {};
    } else {
      var i :| i in classes;
      var rest := classes - {i};
      assert |classes| == |rest| + 1 by {
        assert classes.Keys == rest.Keys + {i};
      }
      calc {
        |Union(classes)|;
      ==  { UnionSplit(classes, i); }
        m + |Union(rest)|;
      ==  { UnionSize(rest, m); }
        m + Times(|rest|, m);
      }
    }
  }

  /** A one-to-one map has as many values as keys. */
  lemma {:induction false} OneToOneSize<S(!new), T(!new)>(f: map<S, T>)
    requires forall x, y | x in f && y in f && x != y :: f[x] != f[y]
    ensures |f.Values| == |f|
    decreases |f|
  {
    if f == map[] {
      assert f.Values == {};
    } else {
      var x :| x in f;
      var rest := f - {x};
      OneToOneSize(rest);
      forall t | t in f.Values ensures t in rest.Values + {f[x]} {
        var y :| y in f && f[y] == t;
        assert y != x ==> y in rest && rest[y] == t;
      }
      assert f.Values == rest.Values + {f[x]};
      assert f.Keys == rest.Keys + {x};
    }
  }

  lemma {:induction false} SubsetOfSameSize<T>(s: set<T>, t: set<T>)
    requires s <= t && |s| == |t|
    ensures s == t
  {
    assert t == s + (t - s);
  }
}
