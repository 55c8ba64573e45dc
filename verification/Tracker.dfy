/** The probe tracker: where the prober and the event handler meet under a mutex.

    Each method of `ProbeTracker` is one critical section, so a run of the tracker is a sequence of `Step`s.
    The clock is an input. A one-shot channel is a cell of an arena; the tracker keeps the index of
    the cell as its sender, and the receiver is the same index. */
module Tracker {
  import opened Sorting
  import opened Counting

  type PaymentHash = nat // the 32 bytes, read as a number
  type Instant = nat     // nanoseconds of the monotone clock

  const TIMED_OUT_PROBE_TTL: nat := 15 * 60 * 1_000_000_000
  const MAX_TIMED_OUT_PROBES: nat := 4096

  datatype ProbeOutcome = Success | Failed

  /** A one-shot channel: nothing sent yet, an outcome sent, or the sender dropped without sending. */
  datatype Channel = Empty | Delivered(outcome: ProbeOutcome) | Closed

  type Tombstones = map<PaymentHash, Instant>

  datatype State = State(
    pending: map<PaymentHash, nat>,
    completed: map<PaymentHash, ProbeOutcome>,
    timedOut: Tombstones,
    channels: seq<Channel>)

  const NEW := State(map[], map[], map[], [])

  // ----- Pruning -----

  predicate Expired(now: Instant, stamp: Instant) {
    now > stamp + TIMED_OUT_PROBE_TTL
  }

  function Unexpired(t: Tombstones, now: Instant): (r: Tombstones) {
    map h | h in t && !Expired(now, t[h]) :: t[h]
  }

  ghost predicate SubMap<K, V>(s: map<K, V>, t: map<K, V>) {
    s.Keys <= t.Keys && forall k | k in s :: s[k] == t[k]
  }

  /** What pruning may leave: all the unexpired tombstones if they fit, otherwise as many as fit, none of
      them older than an evicted one. Ties are broken by the iteration order of the hash map. */
  ghost predicate Pruned(before: Tombstones, now: Instant, after: Tombstones) {
    var live := Unexpired(before, now);
    && SubMap(after, live)
    && |after| == (if |live| <= MAX_TIMED_OUT_PROBES then |live| else MAX_TIMED_OUT_PROBES)
    && forall kept, gone | kept in after && gone in live && gone !in after :: live[gone] <= live[kept]
  }

  /** When the unexpired tombstones fit, pruning has exactly one result. */
  lemma {:induction false} PrunedFits(before: Tombstones, now: Instant, after: Tombstones)
    requires |Unexpired(before, now)| <= MAX_TIMED_OUT_PROBES
    ensures Pruned(before, now, after) <==> after == Unexpired(before, now)
  {
    if Pruned(before, now, after) {
      SubsetOfSameSize(after.Keys, Unexpired(before, now).Keys);
    }
  }

  /** The other tombstones stamped no earlier than `stamp`. */
  ghost function NoEarlier(t: Tombstones, h: PaymentHash, stamp: Instant): (r: set<PaymentHash>) {
    set g | g in t && g != h && t[g] >= stamp
  }

  ghost function Later(t: Tombstones, h: PaymentHash, stamp: Instant): (r: set<PaymentHash>) {
    set g | g in t && g != h && t[g] > stamp
  }

  /** An unexpired tombstone survives pruning unless 4096 others are at least as recent, and it does not
      survive when 4096 other unexpired ones are strictly more recent. */
  lemma {:induction false} EvictionRule(before: Tombstones, now: Instant, after: Tombstones, h: PaymentHash)
    requires Pruned(before, now, after)
    requires h in before && !Expired(now, before[h])
    ensures |NoEarlier(before, h, before[h])| < 4096 ==> h in after && after[h] == before[h]
    ensures |Later(Unexpired(before, now), h, before[h])| >= 4096 ==> h !in after
  {
    var live := Unexpired(before, now);
    if h !in after {
      assert after.Keys <= NoEarlier(before, h, before[h]);
      if |live| <= MAX_TIMED_OUT_PROBES {
        PrunedFits(before, now, after);
        assert false;
      }
      SubsetSize(after.Keys, NoEarlier(before, h, before[h]));
    } else {
      var later := Later(live, h, before[h]);
      forall g | g in later ensures g in after {
        assert live[g] > live[h];
      }
      SubsetSize(later + {h}, after.Keys);
    }
  }

  /** Pruning in plain numbers: what is left was marked at most 15 minutes ago, there are at most 4096, up to 4096
      tombstones nothing else goes, and beyond that exactly 4096 stay, none of them older than one that goes. */
  lemma {:induction false} PrunedExactly(before: Tombstones, now: Instant, after: Tombstones)
    requires Pruned(before, now, after)
    ensures |after| <= 4096
    ensures forall h | h in after ::
              h in before && after[h] == before[h] && now - before[h] <= 15 * 60 * 1_000_000_000
    ensures |before| <= 4096 ==>
              forall h | h in before && now - before[h] <= 15 * 60 * 1_000_000_000 :: h in after
    ensures forall gone | gone in before && now - before[gone] <= 15 * 60 * 1_000_000_000 && gone !in after ::
              |after| == 4096 && forall kept | kept in after :: before[gone] <= before[kept]
  {
    var live := Unexpired(before, now);
    SubsetSize(live.Keys, before.Keys);
    assert |live| == |live.Keys| && |before| == |before.Keys|;
    if |live| <= MAX_TIMED_OUT_PROBES {
      PrunedFits(before, now, after);
    }
  }

  lemma {:induction false} SubsetSize<T>(s: set<T>, t: set<T>)
    requires s <= t
    ensures |s| <= |t|
  {
    assert t == s + (t - s);
  }

  // ----- The operations, as functions of what pruning left -----

  datatype Op = Register(hash: PaymentHash)
              | Complete(hash: PaymentHash, outcome: ProbeOutcome)
              | MarkTimedOut(hash: PaymentHash, stamp: Instant)

  function Put(channels: seq<Channel>, i: nat, c: Channel): (r: seq<Channel>)
    ensures |r| == |channels|
  {
    if i < |channels| then channels[i := c] else channels
  }

  /** The channels after the sender registered for `h`, if there is one, has been used for `c`. */
  function Resolve(s: State, h: PaymentHash, c: Channel): (r: seq<Channel>)
    ensures |r| == |s.channels|
  {
    if h in s.pending then Put(s.channels, s.pending[h], c) else s.channels
  }

  /** The new receiver is the cell at the end of the arena. */
  function Registered(s: State, kept: Tombstones, h: PaymentHash): (r: State) {
    if h in s.completed then
      State(s.pending, s.completed - {h}, kept - {h}, s.channels + [Delivered(s.completed[h])])
    else
      State(s.pending[h := |s.channels|], s.completed, kept - {h}, Resolve(s, h, Closed) + [Empty])
  }

  function Completed(s: State, kept: Tombstones, h: PaymentHash, outcome: ProbeOutcome): (r: State) {
    if h in kept then
      s.(timedOut := kept - {h})
    else if h in s.pending then
      State(s.pending - {h}, s.completed, kept, Resolve(s, h, Delivered(outcome)))
    else
      s.(completed := s.completed[h := outcome], timedOut := kept)
  }

  function Marked(s: State, kept: Tombstones, h: PaymentHash, stamp: Instant): (r: State) {
    State(s.pending - {h}, s.completed - {h}, kept[h := stamp], Resolve(s, h, Closed))
  }

  function Apply(s: State, kept: Tombstones, op: Op): (r: State) {
    match op
    case Register(h) => Registered(s, kept, h)
    case Complete(h, outcome) => Completed(s, kept, h, outcome)
    case MarkTimedOut(h, stamp) => Marked(s, kept, h, stamp)
  }

  /** One critical section entered at time `now`. */
  ghost predicate Step(s: State, now: Instant, op: Op, s': State) {
    && (op.MarkTimedOut? ==> op.stamp >= now)
    && exists kept :: Pruned(s.timedOut, now, kept) && s' == Apply(s, kept, op)
  }

  // ----- What every step keeps -----

  ghost predicate Disjoint(s: State) {
    && s.pending.Keys !! s.completed.Keys
    && s.pending.Keys !! s.timedOut.Keys
    && s.completed.Keys !! s.timedOut.Keys
  }

  /** Each pending sender has an empty channel of its own. */
  ghost predicate OwnChannels(s: State) {
    && (forall h | h in s.pending :: s.pending[h] < |s.channels| && s.channels[s.pending[h]] == Empty)
    && (forall g, h | g in s.pending && h in s.pending && g != h :: s.pending[g] != s.pending[h])
  }

  ghost predicate Inv(s: State) {
    Disjoint(s) && OwnChannels(s) && |s.timedOut| <= MAX_TIMED_OUT_PROBES + 1
  }

  lemma {:induction false} ApplyKeepsDisjoint(s: State, kept: Tombstones, op: Op)
    requires Disjoint(s) && kept.Keys <= s.timedOut.Keys
    ensures Disjoint(Apply(s, kept, op))
  {
  }

  lemma {:induction false} ApplyKeepsChannels(s: State, kept: Tombstones, op: Op)
    requires OwnChannels(s)
    ensures OwnChannels(Apply(s, kept, op))
  {
    ResolveKeepsChannels(s, op.hash, Closed);
    if op.Complete? {
      ResolveKeepsChannels(s, op.hash, Delivered(op.outcome));
    }
  }

  /** Using up the sender of `h` leaves the other senders' channels alone. */
  lemma {:induction false} ResolveKeepsChannels(s: State, h: PaymentHash, c: Channel)
    requires OwnChannels(s)
    ensures forall g | g in s.pending && g != h :: Resolve(s, h, c)[s.pending[g]] == Empty
  {
  }

  lemma {:induction false} ApplyKeepsCap(s: State, kept: Tombstones, op: Op)
    requires |kept| <= MAX_TIMED_OUT_PROBES
    ensures |Apply(s, kept, op).timedOut| <= MAX_TIMED_OUT_PROBES + 1
  {
    assert (kept - {op.hash}).Keys == kept.Keys - {op.hash};
    if op.MarkTimedOut? {
      assert kept[op.hash := op.stamp].Keys == kept.Keys + {op.hash};
    }
  }

  lemma {:induction false} StepKeepsInv(s: State, now: Instant, op: Op, s': State)
    requires Inv(s) && Step(s, now, op, s')
    ensures Inv(s')
  {
    var kept :| Pruned(s.timedOut, now, kept) && s' == Apply(s, kept, op);
    ApplyKeepsDisjoint(s, kept, op);
    ApplyKeepsChannels(s, kept, op);
    ApplyKeepsCap(s, kept, op);
  }

  // ----- What each critical section does -----

  /** No critical section touches what belongs to another hash, except that pruning may take its tombstone. */
  lemma {:induction false} OthersUntouched(s: State, now: Instant, op: Op, s': State, g: PaymentHash)
    requires Step(s, now, op, s') && g != op.hash
    ensures g in s'.pending <==> g in s.pending
    ensures g in s.pending ==> s'.pending[g] == s.pending[g]
    ensures g in s'.completed <==> g in s.completed
    ensures g in s.completed ==> s'.completed[g] == s.completed[g]
    ensures g in s'.timedOut ==> g in s.timedOut && s'.timedOut[g] == s.timedOut[g]
    ensures OwnChannels(s) && g in s.pending ==> s.pending[g] < |s'.channels| && s'.channels[s.pending[g]] == Empty
  {
    var kept :| Pruned(s.timedOut, now, kept) && s' == Apply(s, kept, op);
    ApplyToOthers(s, kept, op, g);
    OthersKept(s, kept, op, g);
    if OwnChannels(s) && g in s.pending {
      ApplyKeepsChannels(s, kept, op);
    }
  }

  lemma {:induction false} ApplyToOthers(s: State, kept: Tombstones, op: Op, g: PaymentHash)
    requires g != op.hash
    ensures var s' := Apply(s, kept, op);
            && (g in s'.pending <==> g in s.pending)
            && (g in s.pending ==> s'.pending[g] == s.pending[g])
            && (g in s'.completed <==> g in s.completed)
            && (g in s.completed ==> s'.completed[g] == s.completed[g])
  {
  }

  /** Registering clears the tombstone and makes a new channel: filled from an early result, or else left to the
      sender, whose predecessor, if there was one, is dropped. */
  lemma {:induction false} RegisterEffect(s: State, now: Instant, h: PaymentHash, s': State)
    requires Inv(s) && Step(s, now, Register(h), s')
    ensures h !in s'.timedOut && h !in s'.completed && |s'.channels| == |s.channels| + 1
    ensures h in s.completed ==> h !in s'.pending && s'.channels[|s.channels|] == Delivered(s.completed[h])
    ensures h !in s.completed ==>
              h in s'.pending && s'.pending[h] == |s.channels| && s'.channels[|s.channels|] == Empty
    ensures h in s.pending ==> s'.channels[s.pending[h]] == Closed
  {
  }

  /** Marking drops the sender and an early result, and stamps the tombstone. */
  lemma {:induction false} MarkEffect(s: State, now: Instant, h: PaymentHash, stamp: Instant, s': State)
    requires Inv(s) && Step(s, now, MarkTimedOut(h, stamp), s')
    ensures h !in s'.pending && h !in s'.completed && h in s'.timedOut && s'.timedOut[h] == stamp
    ensures |s'.channels| == |s.channels| && (h in s.pending ==> s'.channels[s.pending[h]] == Closed)
  {
  }

  /** A result goes to the sender if there is one. With a tombstone it is swallowed, unless pruning takes that
      first; with neither it is buffered. */
  lemma {:induction false} CompleteEffect(s: State, now: Instant, h: PaymentHash, outcome: ProbeOutcome, s': State)
    requires Inv(s) && Step(s, now, Complete(h, outcome), s')
    ensures h !in s'.pending && h !in s'.timedOut && |s'.channels| == |s.channels|
    ensures h in s.pending ==> h !in s'.completed && s'.channels[s.pending[h]] == Delivered(outcome)
    ensures h !in s.pending ==> s'.channels == s.channels
    ensures h !in s.pending && h !in s.timedOut ==> h in s'.completed && s'.completed[h] == outcome
    ensures h in s'.completed ==> s'.completed[h] == outcome
  {
  }

  /** While no more than 4096 tombstones stand, a result for a marked hash is buffered if and only if it comes more
      than 15 minutes after the mark. */
  lemma {:induction false} BufferedAfter15Minutes(s: State, now: Instant, h: PaymentHash, outcome: ProbeOutcome,
                                                  s': State)
    requires Disjoint(s) && h in s.timedOut && |s.timedOut| <= 4096
    requires Step(s, now, Complete(h, outcome), s')
    ensures h in s'.completed <==> now - s.timedOut[h] > 15 * 60 * 1_000_000_000
  {
    var kept :| Pruned(s.timedOut, now, kept) && s' == Apply(s, kept, Complete(h, outcome));
    PrunedExactly(s.timedOut, now, kept);
  }

  // ----- Runs -----

  /** A run of the tracker: `ops[i]`, entered at `times[i]`, leads from `states[i]` to `states[i + 1]`. */
  ghost predicate Run(states: seq<State>, times: seq<Instant>, ops: seq<Op>) {
    && |states| == |ops| + 1 == |times| + 1
    && states[0] == NEW
    && forall i | 0 <= i < |ops| :: Step(states[i], times[i], ops[i], states[i + 1])
  }

  /** In every reachable state the three maps have disjoint keys and there are at most 4097 tombstones. */
  lemma {:induction false} ReachableInv(states: seq<State>, times: seq<Instant>, ops: seq<Op>, i: nat)
    requires Run(states, times, ops) && i < |states|
    ensures Inv(states[i]) && |states[i].timedOut| <= 4097
  {
    if i > 0 {
      ReachableInv(states, times, ops, i - 1);
      StepKeepsInv(states[i - 1], times[i - 1], ops[i - 1], states[i]);
    }
  }

  /** `h` is marked with `stamp`, unexpired at `now` and not among the oldest beyond the cap. */
  ghost predicate Standing(s: State, now: Instant, h: PaymentHash, stamp: Instant) {
    && h in s.timedOut && s.timedOut[h] == stamp
    && !Expired(now, stamp)
    && |NoEarlier(s.timedOut, h, stamp)| < MAX_TIMED_OUT_PROBES
  }

  lemma {:induction false} StandingKept(s: State, now: Instant, op: Op, s': State, h: PaymentHash, stamp: Instant)
    requires Standing(s, now, h, stamp) && Step(s, now, op, s')
    requires op.hash != h
    ensures h in s'.timedOut && s'.timedOut[h] == stamp
  {
    var kept :| Pruned(s.timedOut, now, kept) && s' == Apply(s, kept, op);
    assert h in kept && kept[h] == stamp by {
      EvictionRule(s.timedOut, now, kept, h);
    }
    OthersKept(s, kept, op, h);
  }

  lemma {:induction false} OthersKept(s: State, kept: Tombstones, op: Op, h: PaymentHash)
    requires op.hash != h
    ensures h in Apply(s, kept, op).timedOut <==> h in kept
    ensures h in kept ==> Apply(s, kept, op).timedOut[h] == kept[h]
  {
  }

  /** A result for a hash whose tombstone stands is swallowed: nothing is buffered, no sender is used, and
      the tombstone is gone. */
  lemma {:induction false} Swallowed(s: State, now: Instant, outcome: ProbeOutcome, s': State, h: PaymentHash,
                                     stamp: Instant)
    requires h in s.timedOut && s.timedOut[h] == stamp && now - stamp <= 15 * 60 * 1_000_000_000
    requires |NoEarlier(s.timedOut, h, stamp)| < 4096 && Step(s, now, Complete(h, outcome), s')
    ensures s'.pending == s.pending && s'.completed == s.completed && s'.channels == s.channels
    ensures h !in s'.timedOut
  {
    var kept :| Pruned(s.timedOut, now, kept) && s' == Apply(s, kept, Complete(h, outcome));
    EvictionRule(s.timedOut, now, kept, h);
  }

  /** The tombstone window. `ops[i]` marks `h`; up to `j` no operation names `h`, the clock stays within 15
      minutes of the stamp, and never do 4096 other tombstones carry an equal or later stamp. Then `h`
      is still marked with that stamp. */
  lemma {:induction false} TombstoneWindow(states: seq<State>, times: seq<Instant>, ops: seq<Op>, i: nat, j: nat,
                                           h: PaymentHash, stamp: Instant)
    requires Run(states, times, ops) && i < j < |states|
    requires ops[i] == MarkTimedOut(h, stamp)
    requires forall k | i < k < j ::
               && ops[k].hash != h && times[k] - stamp <= 15 * 60 * 1_000_000_000
               && |NoEarlier(states[k].timedOut, h, stamp)| < 4096
    ensures h in states[j].timedOut && states[j].timedOut[h] == stamp
  {
    if j > i + 1 {
      TombstoneWindow(states, times, ops, i, j - 1, h, stamp);
      StandingKept(states[j - 1], times[j - 1], ops[j - 1], states[j], h, stamp);
    } else {
      assert Step(states[i], times[i], ops[i], states[j]);
    }
  }

  // ----- Rendezvous -----

  ghost predicate Then(s: State, now: Instant, first: Op, second: Op, s': State) {
    exists mid :: Step(s, now, first, mid) && Step(mid, now, second, s')
  }

  /** For a hash in none of the maps, registering and then completing, and completing and then
      registering, at the same clock reading, lead to the same states; and in each the outcome has been
      delivered to the receiver, which in both orders is the cell `|s.channels|`. */
  lemma {:induction false} RendezvousOrder(s: State, now: Instant, h: PaymentHash, outcome: ProbeOutcome, s': State)
    requires h !in s.pending && h !in s.completed && h !in s.timedOut
    ensures Then(s, now, Register(h), Complete(h, outcome), s') <==>
            Then(s, now, Complete(h, outcome), Register(h), s')
    ensures Then(s, now, Register(h), Complete(h, outcome), s') ==>
              && |s'.channels| == |s.channels| + 1 && s'.channels[|s.channels|] == Delivered(outcome)
              && h !in s'.pending && h !in s'.completed && h !in s'.timedOut
  {
    RegisterThenComplete(s, now, h, outcome, s');
    CompleteThenRegister(s, now, h, outcome, s');
  }

  ghost predicate MetAfter(s: State, now: Instant, outcome: ProbeOutcome, s': State) {
    exists kept :: Pruned(s.timedOut, now, kept) && s' == Met(s, kept, outcome)
  }

  lemma {:induction false} RegisterThenComplete(s: State, now: Instant, h: PaymentHash, outcome: ProbeOutcome,
                                                s': State)
    requires h !in s.pending && h !in s.completed && h !in s.timedOut
    ensures Then(s, now, Register(h), Complete(h, outcome), s') <==> MetAfter(s, now, outcome, s')
  {
    if Then(s, now, Register(h), Complete(h, outcome), s') {
      var mid :| Step(s, now, Register(h), mid) && Step(mid, now, Complete(h, outcome), s');
      var kept := OncePruned(s, now, Register(h), Complete(h, outcome), mid, s');
      RegisterFirst(s, h, outcome, kept);
    }
    if MetAfter(s, now, outcome, s') {
      var kept :| Pruned(s.timedOut, now, kept) && s' == Met(s, kept, outcome);
      RegisterFirst(s, h, outcome, kept);
      TwoSteps(s, now, Register(h), Complete(h, outcome), kept);
    }
  }

  lemma {:induction false} CompleteThenRegister(s: State, now: Instant, h: PaymentHash, outcome: ProbeOutcome,
                                                s': State)
    requires h !in s.pending && h !in s.completed && h !in s.timedOut
    ensures Then(s, now, Complete(h, outcome), Register(h), s') <==> MetAfter(s, now, outcome, s')
  {
    if Then(s, now, Complete(h, outcome), Register(h), s') {
      var mid :| Step(s, now, Complete(h, outcome), mid) && Step(mid, now, Register(h), s');
      var kept := OncePruned(s, now, Complete(h, outcome), Register(h), mid, s');
      CompleteFirst(s, h, outcome, kept);
    }
    if MetAfter(s, now, outcome, s') {
      var kept :| Pruned(s.timedOut, now, kept) && s' == Met(s, kept, outcome);
      CompleteFirst(s, h, outcome, kept);
      TwoSteps(s, now, Complete(h, outcome), Register(h), kept);
    }
  }

  /** The second pruning at the same time removes nothing. */
  lemma {:induction false} OncePruned(s: State, now: Instant, first: Op, second: Op, mid: State, s': State)
    returns (kept: Tombstones)
    requires first.hash == second.hash && first.hash !in s.timedOut
    requires !first.MarkTimedOut?
    requires Step(s, now, first, mid) && Step(mid, now, second, s')
    ensures Pruned(s.timedOut, now, kept)
    ensures mid == Apply(s, kept, first) && s' == Apply(mid, kept, second)
  {
    kept :| Pruned(s.timedOut, now, kept) && mid == Apply(s, kept, first);
    UnmarkedKept(s, kept, first);
    var kept2 :| Pruned(mid.timedOut, now, kept2) && s' == Apply(mid, kept2, second);
    PrunedTwice(s.timedOut, now, kept);
    PrunedFits(kept, now, kept2);
  }

  lemma {:induction false} UnmarkedKept(s: State, kept: Tombstones, op: Op)
    requires op.hash !in kept && !op.MarkTimedOut?
    ensures Apply(s, kept, op).timedOut == kept
  {
    assert kept - {op.hash} == kept;
  }

  lemma {:induction false} PrunedTwice(before: Tombstones, now: Instant, kept: Tombstones)
    requires Pruned(before, now, kept)
    ensures Unexpired(kept, now) == kept && Pruned(kept, now, kept)
  {
    assert Unexpired(kept, now) == kept;
    PrunedFits(kept, now, kept);
  }

  /** Where both orders lead. */
  function Met(s: State, kept: Tombstones, outcome: ProbeOutcome): (r: State) {
    s.(timedOut := kept, channels := s.channels + [Delivered(outcome)])
  }

  lemma {:induction false} RegisterFirst(s: State, h: PaymentHash, outcome: ProbeOutcome, kept: Tombstones)
    requires h !in s.pending && h !in s.completed && h !in kept
    ensures Completed(Registered(s, kept, h), kept, h, outcome) == Met(s, kept, outcome)
  {
    assert kept - {h} == kept;
    assert s.pending[h := |s.channels|] - {h} == s.pending;
    assert (s.channels + [Empty])[|s.channels| := Delivered(outcome)] == s.channels + [Delivered(outcome)];
  }

  lemma {:induction false} CompleteFirst(s: State, h: PaymentHash, outcome: ProbeOutcome, kept: Tombstones)
    requires h !in s.pending && h !in s.completed && h !in kept
    ensures Registered(Completed(s, kept, h, outcome), kept, h) == Met(s, kept, outcome)
  {
    assert kept - {h} == kept;
    assert s.completed[h := outcome] - {h} == s.completed;
  }

  lemma {:induction false} TwoSteps(s: State, now: Instant, first: Op, second: Op, kept: Tombstones)
    requires Pruned(s.timedOut, now, kept) && first.hash !in s.timedOut
    requires !first.MarkTimedOut? && !second.MarkTimedOut?
    ensures Then(s, now, first, second, Apply(Apply(s, kept, first), kept, second))
  {
    var mid := Apply(s, kept, first);
    UnmarkedKept(s, kept, first);
    PrunedTwice(s.timedOut, now, kept);
    assert Step(s, now, first, mid);
    assert Step(mid, now, second, Apply(mid, kept, second));
  }

  // ----- The object -----

  class ProbeTracker {
    var pending: map<PaymentHash, nat>
    var completed: map<PaymentHash, ProbeOutcome>
    var timedOut: Tombstones
    var channels: seq<Channel>

    ghost function View(): (s: State)
      reads this
    {
      State(pending, completed, timedOut, channels)
    }

    constructor ()
      ensures View() == NEW
    {
      pending, completed, timedOut, channels := map[], map[], map[], [];
    }

    method RegisterProbe(hash: PaymentHash, now: Instant) returns (receiver: nat)
      modifies this
      ensures Step(old(View()), now, Register(hash), View())
      ensures receiver == |old(channels)| < |channels|
    {
      PruneTimedOutProbes(now);
      ghost var kept := timedOut;
      timedOut := timedOut - {hash};
      receiver := |channels|;
      if hash in completed {
        channels := channels + [Delivered(completed[hash])];
        completed := completed - {hash};
      } else {
        if hash in pending {
          channels := Put(channels, pending[hash], Closed);
        }
        channels := channels + [Empty];
        pending := pending[hash := receiver];
      }
      assert View() == Apply(old(View()), kept, Register(hash));
    }

    method CompleteProbe(hash: PaymentHash, outcome: ProbeOutcome, now: Instant)
      modifies this
      ensures Step(old(View()), now, Complete(hash, outcome), View())
    {
      PruneTimedOutProbes(now);
      ghost var kept := timedOut;
      if hash in timedOut {
        timedOut := timedOut - {hash};
      } else if hash in pending {
        channels := Put(channels, pending[hash], Delivered(outcome));
        pending := pending - {hash};
      } else {
        completed := completed[hash := outcome];
      }
      assert View() == Apply(old(View()), kept, Complete(hash, outcome));
    }

    /** The clock is read twice: once to prune, once for the stamp. */
    method MarkTimedOutProbe(hash: PaymentHash, now: Instant, stamp: Instant)
      requires now <= stamp
      modifies this
      ensures Step(old(View()), now, MarkTimedOut(hash, stamp), View())
    {
      PruneTimedOutProbes(now);
      ghost var kept := timedOut;
      if hash in pending {
        channels := Put(channels, pending[hash], Closed);
      }
      pending := pending - {hash};
      completed := completed - {hash};
      timedOut := timedOut[hash := stamp];
      assert View() == Apply(old(View()), kept, MarkTimedOut(hash, stamp));
    }

    method PruneTimedOutProbes(now: Instant)
      modifies this`timedOut
      ensures Pruned(old(timedOut), now, timedOut)
      ensures |timedOut| <= 4096
      ensures |old(timedOut)| <= 4096 ==>
                forall h | h in old(timedOut) ::
                  h in timedOut <==> now - old(timedOut)[h] <= 15 * 60 * 1_000_000_000
    {
      timedOut := map h | h in timedOut && !Expired(now, timedOut[h]) :: timedOut[h];
      assert timedOut == Unexpired(old(timedOut), now);
      if |timedOut| > MAX_TIMED_OUT_PROBES {
        timedOut := EvictOldest(timedOut, |timedOut| - MAX_TIMED_OUT_PROBES);
      }
      PrunedExactly(old(timedOut), now, timedOut);
    }
  }

  /** Remove the `count` oldest tombstones. */
  method EvictOldest(t: Tombstones, count: nat) returns (kept: Tombstones)
    requires count <= |t|
    ensures SubMap(kept, t) && |kept| == |t| - count
    ensures forall k, g | k in kept && g in t && g !in kept :: t[g] <= t[k]
  {
    var entries := Collect(t);
    var age := (e: (PaymentHash, Instant)) => e.1;
    var byAge := Sort(entries, age);
    SortedLists(entries, age, t);
    kept := RemoveFirst(t, byAge, count);
    OldestGone(byAge, age, t, kept, count);
  }

  method RemoveFirst(t: Tombstones, byAge: seq<(PaymentHash, Instant)>, count: nat) returns (kept: Tombstones)
    requires Lists(byAge, t) && Hashes(byAge) == t.Keys && count <= |byAge|
    ensures SubMap(kept, t) && |kept| == |t| - count && kept.Keys == Hashes(byAge[count..])
  {
    kept := t;
    assert byAge[0..] == byAge;
    for i := 0 to count
      invariant SubMap(kept, t) && |kept| == |t| - i && kept.Keys == Hashes(byAge[i..])
    {
      TailHashes(byAge, i, t);
      RemoveOne(kept, byAge[i].0);
      kept := kept - {byAge[i].0};
    }
  }

  lemma {:induction false} RemoveOne(t: Tombstones, h: PaymentHash)
    requires h in t
    ensures (t - {h}).Keys == t.Keys - {h} && |t - {h}| == |t| - 1
    ensures SubMap(t - {h}, t)
  {
    assert (t - {h}).Keys == t.Keys - {h};
  }

  lemma {:induction false} SortedLists(entries: seq<(PaymentHash, Instant)>, key: ((PaymentHash, Instant)) -> nat,
                                       t: Tombstones)
    requires Lists(entries, t)
    ensures Lists(Sort(entries, key), t) && Ascending(Sort(entries, key), key)
    ensures Hashes(Sort(entries, key)) == t.Keys
  {
    var r := Sort(entries, key);
    SortCorrect(entries, key);
    SameElementsDistinct(entries, r);
    SortedEntries(entries, r, t);
  }

  lemma {:induction false} TailHashes(entries: seq<(PaymentHash, Instant)>, i: nat, t: Tombstones)
    requires Lists(entries, t) && i < |entries|
    ensures entries[i].0 in Hashes(entries[i..])
    ensures Hashes(entries[i + 1..]) == Hashes(entries[i..]) - {entries[i].0}
  {
    var (s, r) := (entries[i..], entries[i + 1..]);
    assert s == [entries[i]] + r;
    assert s[0].0 in Hashes(s);
    forall j | 0 <= j < |r| ensures r[j].0 != entries[i].0 && r[j].0 in Hashes(s) {
      assert r[j] == entries[i + 1 + j] && r[j] == s[j + 1];
    }
  }

  lemma {:induction false} OldestGone(byAge: seq<(PaymentHash, Instant)>, key: ((PaymentHash, Instant)) -> nat,
                                      t: Tombstones, kept: Tombstones, count: nat)
    requires Lists(byAge, t) && Ascending(byAge, key) && count <= |byAge|
    requires forall e: (PaymentHash, Instant) :: key(e) == e.1
    requires kept.Keys == Hashes(byAge[count..])
    ensures forall k, g | k in kept && g in t && g !in kept :: t[g] <= t[k]
  {
    forall i | count <= i < |byAge| ensures byAge[i].0 in kept {
      assert byAge[i] == byAge[count..][i - count];
    }
    forall k, g | k in kept && g in t && g !in kept ensures t[g] <= t[k] {
      var j :| 0 <= j < |byAge| - count && byAge[count..][j].0 == k;
      var i :| 0 <= i < |byAge| && byAge[i].0 == g;
      assert key(byAge[i]) <= key(byAge[count + j]);
    }
  }

  ghost function Hashes(entries: seq<(PaymentHash, Instant)>): (r: set<PaymentHash>) {
    set i | 0 <= i < |entries| :: entries[i].0
  }

  /** `entries` lists the tombstones `t`, each once. */
  ghost predicate Lists(entries: seq<(PaymentHash, Instant)>, t: Tombstones) {
    && |entries| == |t|
    && (forall i | 0 <= i < |entries| :: entries[i].0 in t && t[entries[i].0] == entries[i].1)
    && (forall h | h in t :: exists i :: 0 <= i < |entries| && entries[i].0 == h)
    && Distinct(entries)
  }

  /** The entries of the hash map, in whatever order it yields them. */
  method Collect(t: Tombstones) returns (entries: seq<(PaymentHash, Instant)>)
    ensures Lists(entries, t)
  {
    entries := [];
    var rest := t.Keys;
    assert t - rest == map[];
    while rest != {}
      invariant rest <= t.Keys && Lists(entries, t - rest)
      decreases |rest|
    {
      var h :| h in rest;
      OneLeftOut(t, rest, h);
      ListsMore(entries, t - rest, h, t[h]);
      entries := entries + [(h, t[h])];
      rest := rest - {h};
    }
    assert t - {} == t;
  }

  lemma {:induction false} OneLeftOut(t: Tombstones, rest: set<PaymentHash>, h: PaymentHash)
    requires h in t && h in rest
    ensures h !in t - rest && (t - rest)[h := t[h]] == t - (rest - {h})
  {
  }

  lemma {:induction false} ListsMore(entries: seq<(PaymentHash, Instant)>, t: Tombstones, h: PaymentHash,
                                     stamp: Instant)
    requires Lists(entries, t) && h !in t
    ensures Lists(entries + [(h, stamp)], t[h := stamp])
  {
    var (r, t') := (entries + [(h, stamp)], t[h := stamp]);
    assert |r| == |t'| by {
      assert t'.Keys == t.Keys + {h};
    }
    forall i | 0 <= i < |r| ensures r[i].0 in t' && t'[r[i].0] == r[i].1 {
    }
    forall g | g in t' ensures exists i :: 0 <= i < |r| && r[i].0 == g {
      if g == h {
        assert r[|entries|].0 == h;
      } else {
        var i :| 0 <= i < |entries| && entries[i].0 == g;
        assert r[i].0 == g;
      }
    }
    assert Distinct(r);
  }

  /** A permutation of a listing is a listing. */
  lemma {:induction false} SortedEntries(s: seq<(PaymentHash, Instant)>, r: seq<(PaymentHash, Instant)>, t: Tombstones)
    requires Lists(s, t) && |r| == |s| && Distinct(r)
    requires multiset(r) == multiset(s)
    ensures Lists(r, t) && Hashes(r) == t.Keys
  {
    forall i | 0 <= i < |r| ensures r[i].0 in t && t[r[i].0] == r[i].1 {
      assert r[i] in multiset(r);
    }
    forall h | h in t ensures exists i :: 0 <= i < |r| && r[i].0 == h {
      var j :| 0 <= j < |s| && s[j].0 == h;
      assert s[j] in multiset(r);
    }
  }
}
