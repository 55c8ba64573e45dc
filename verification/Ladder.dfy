/** Probing one peer with the configured amounts, in ascending order, until one attempt does not succeed. */
module Ladder {
  import opened Attempt
  import opened Sorting

  predicate ShouldBreakPeerAmounts(c: ProbeCompletion) {
    !c.Success?
  }

  /** `prepare_probe` rejects a zero amount before anything is sent; otherwise the attempt decides. */
  function Completion(amount: nat, attempt: ProbeCompletion): (c: ProbeCompletion) {
    if amount == 0 then SendError(InvalidInput) else attempt
  }

  function Amount(a: nat): (r: nat) { a }

  /** The attempts made climb a prefix of the ascending amounts: all but the last succeeded, and the climb
      only stopped short at one that did not. `attempts(i)` is what the `i`-th attempt would return. */
  ghost predicate Climbed(amounts: seq<nat>, attempts: nat -> ProbeCompletion, made: seq<ProbeCompletion>) {
    && |made| <= |amounts|
    && (forall i | 0 <= i < |made| :: made[i] == Completion(amounts[i], attempts(i)))
    && (forall i | 0 <= i < |made| - 1 :: made[i].Success?)
    && (|made| < |amounts| ==> made != [] && !made[|made| - 1].Success?)
  }

  /** The loop over one peer's amounts. */
  method ProbePeer(amountMsats: seq<nat>, attempts: nat -> ProbeCompletion)
    returns (amounts: seq<nat>, made: seq<ProbeCompletion>)
    ensures multiset(amounts) == multiset(amountMsats) && Ascending(amounts, Amount)
    ensures Climbed(amounts, attempts, made)
    ensures forall i | 0 <= i < |made| ::
              i < |amounts| && made[i] == if amounts[i] == 0 then SendError(InvalidInput) else attempts(i)
    ensures |made| < |amounts| ==> |made| > 0 && !made[|made| - 1].Success?
  {
    amounts := Sort(amountMsats, Amount);
    SortCorrect(amountMsats, Amount);
    made := [];
    for i := 0 to |amounts|
      invariant |made| == i
      invariant forall j | 0 <= j < i :: made[j] == Completion(amounts[j], attempts(j)) && made[j].Success?
    {
      var completion := Completion(amounts[i], attempts(i));
      made := made + [completion];
      if ShouldBreakPeerAmounts(completion) {
        return;
      }
    }
  }

  /** The amounts whose attempt succeeded, in the order tried. */
  ghost function Successes(amounts: seq<nat>, made: seq<ProbeCompletion>): (r: seq<nat>)
    requires |made| <= |amounts|
    decreases |made|
  {
    if made == [] then []
    else
      var n := |made| - 1;
      Successes(amounts, made[..n]) + (if made[n].Success? then [amounts[n]] else [])
  }

  /** The configured amounts that would succeed if probed. */
  ghost function Feasible(amounts: seq<nat>, succeeds: nat -> bool): (r: seq<nat>) {
    if amounts == [] then []
    else
      var n := |amounts| - 1;
      Feasible(amounts[..n], succeeds) + (if amounts[n] > 0 && succeeds(amounts[n]) then [amounts[n]] else [])
  }

  ghost predicate DownwardClosed(succeeds: nat -> bool) {
    forall a, b | 0 < a <= b && succeeds(b) :: succeeds(a)
  }

  /** When success is downward closed in the amount, the successes of the climb are exactly the configured
      amounts that would succeed, if and only if no zero amount is configured or nothing would succeed:
      a configured zero sorts first and ends the climb at once. */
  lemma {:induction false} ClimbFindsAllFeasible(amounts: seq<nat>, attempts: nat -> ProbeCompletion,
                                                 made: seq<ProbeCompletion>, succeeds: nat -> bool)
    requires Ascending(amounts, Amount) && Climbed(amounts, attempts, made)
    requires DownwardClosed(succeeds)
    requires forall i | 0 <= i < |amounts| :: attempts(i).Success? <==> succeeds(amounts[i])
    ensures Successes(amounts, made) == Feasible(amounts, succeeds) <==>
            0 !in amounts || Feasible(amounts, succeeds) == []
  {
    if 0 in amounts {
      var i :| 0 <= i < |amounts| && amounts[i] == 0;
      assert i > 0 ==> Amount(amounts[0]) <= Amount(amounts[i]);
      assert made == [SendError(InvalidInput)];
      assert made[..0] == [];
    } else {
      var k := if |made| > 0 && !made[|made| - 1].Success? then |made| - 1 else |made|;
      SuccessesArePrefix(amounts, made, k);
      forall i | 0 <= i < |amounts| ensures succeeds(amounts[i]) <==> i < k {
        assert i < |made| - 1 ==> made[i].Success?;
        assert k < i ==> Amount(amounts[k]) <= Amount(amounts[i]);
      }
      FeasibleIsPrefix(amounts, succeeds, k, |amounts|);
      assert amounts[..|amounts|] == amounts;
    }
  }

  lemma {:induction false} SuccessesArePrefix(amounts: seq<nat>, made: seq<ProbeCompletion>, k: nat)
    requires |made| <= |amounts| && k <= |made| <= k + 1
    requires forall i | 0 <= i < k :: made[i].Success?
    requires |made| == k + 1 ==> !made[k].Success?
    ensures Successes(amounts, made) == amounts[..k]
    decreases |made|
  {
    if made != [] {
      var n := |made| - 1;
      SuccessesArePrefix(amounts, made[..n], if n < k then n else k);
      if n < k {
        assert amounts[..k] == amounts[..n] + [amounts[n]];
      }
    }
  }

  lemma {:induction false} FeasibleIsPrefix(amounts: seq<nat>, succeeds: nat -> bool, k: nat, n: nat)
    requires k <= |amounts| && n <= |amounts|
    requires forall i | 0 <= i < |amounts| :: amounts[i] > 0 && (succeeds(amounts[i]) <==> i < k)
    ensures Feasible(amounts[..n], succeeds) == amounts[..if n < k then n else k]
    decreases n
  {
    if n > 0 {
      FeasibleIsPrefix(amounts, succeeds, k, n - 1);
      assert amounts[..n][..n - 1] == amounts[..n - 1];
      if n <= k {
        assert amounts[..n] == amounts[..n - 1] + [amounts[n - 1]];
      }
    }
  }
}
