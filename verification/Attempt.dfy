/** The single prober and the event handler, interleaved in every way at the tracker's mutex.

    The prober sends a probe, registers it, waits for its channel or the timeout, and after a timeout marks it.
    The handler reports a result for a probe at any moment after it was sent. The mutex is not poisoned, a
    sent probe has a hash never used before, and each hash is reported at most once. */
module Attempt {
  import opened Tracker

  datatype ProbeError = NoRoute | SendFailed | InvalidInput

  datatype ProbeCompletion =
    | Success(hash: PaymentHash)
    | Failed(hash: PaymentHash)
    | Dropped(hash: PaymentHash)
    | Timeout(hash: PaymentHash)
    | SendError(error: ProbeError)

  /** Where the prober is inside an attempt. */
  datatype Phase =
    | Idle
    | Sent(hash: PaymentHash)
    | Waiting(hash: PaymentHash, receiver: nat)
    | Elapsed(hash: PaymentHash)

  /** The shared tracker and the prober, with what has happened so far: the hashes sent, in order, the outcomes
      reported for them, the time-out stamps given, the reports that came for a finished attempt whose
      tombstone was gone, and the completions returned. */
  datatype World = World(
    tracker: State,
    clock: Instant,
    phase: Phase,
    sent: set<PaymentHash>,
    order: seq<PaymentHash>,
    reported: map<PaymentHash, ProbeOutcome>,
    marked: Tombstones,
    late: set<PaymentHash>,
    log: seq<ProbeCompletion>)

  const START := World(NEW, 0, Idle, {}, [], map[], map[], {}, [])

  datatype Action =
    | Tick(now: Instant)
    | FailToSend(error: ProbeError)
    | Send(hash: PaymentHash)
    | RegisterSent
    | Receive
    | Elapse
    | Mark(stamp: Instant)
    | Event(hash: PaymentHash, outcome: ProbeOutcome)

  predicate Current(w: World, h: PaymentHash) {
    !w.phase.Idle? && w.phase.hash == h
  }

  /** What `run_probe_attempt` returns once its receiver is ready. */
  function Conclude(h: PaymentHash, c: Channel): (r: ProbeCompletion)
    requires c != Empty
  {
    match c
    case Delivered(Success) => ProbeCompletion.Success(h)
    case Delivered(Failed) => ProbeCompletion.Failed(h)
    case Closed => Dropped(h)
  }

  function Registering(w: World, kept: Tombstones): (r: World)
    requires w.phase.Sent?
  {
    w.(tracker := Apply(w.tracker, kept, Register(w.phase.hash)),
       phase := Waiting(w.phase.hash, |w.tracker.channels|))
  }

  function Marking(w: World, kept: Tombstones, stamp: Instant): (r: World)
    requires w.phase.Elapsed?
  {
    w.(tracker := Apply(w.tracker, kept, MarkTimedOut(w.phase.hash, stamp)),
       clock := stamp,
       marked := w.marked[w.phase.hash := stamp],
       phase := Idle,
       log := w.log + [Timeout(w.phase.hash)])
  }

  function Reporting(w: World, kept: Tombstones, h: PaymentHash, outcome: ProbeOutcome): (r: World) {
    w.(tracker := Apply(w.tracker, kept, Complete(h, outcome)),
       reported := w.reported[h := outcome],
       late := if Current(w, h) || h in kept then w.late else w.late + {h})
  }

  ghost predicate Next(w: World, a: Action, w': World) {
    match a
    case Tick(now) => now >= w.clock && w' == w.(clock := now)
    case FailToSend(error) => w.phase.Idle? && w' == w.(log := w.log + [SendError(error)])
    case Send(h) =>
      && w.phase.Idle? && h !in w.sent
      && w' == w.(phase := Sent(h), sent := w.sent + {h}, order := w.order + [h])
    case RegisterSent =>
      w.phase.Sent? && exists kept :: Pruned(w.tracker.timedOut, w.clock, kept) && w' == Registering(w, kept)
    case Receive =>
      && w.phase.Waiting? && w.phase.receiver < |w.tracker.channels|
      && var c := w.tracker.channels[w.phase.receiver];
         c != Empty && w' == w.(phase := Idle, log := w.log + [Conclude(w.phase.hash, c)])
    case Elapse => w.phase.Waiting? && w' == w.(phase := Elapsed(w.phase.hash))
    case Mark(stamp) =>
      && w.phase.Elapsed? && stamp >= w.clock
      && exists kept :: Pruned(w.tracker.timedOut, w.clock, kept) && w' == Marking(w, kept, stamp)
    case Event(h, outcome) =>
      && h in w.sent && h !in w.reported
      && exists kept :: Pruned(w.tracker.timedOut, w.clock, kept) && w' == Reporting(w, kept, h, outcome)
  }

  // ----- The invariant -----

  /** The pending sender, if any, is the one of the current attempt and has not been used. */
  ghost predicate Phased(w: World) {
    var t := w.tracker;
    match w.phase
    case Idle => t.pending == map[]
    case Sent(h) => t.pending == map[]
    case Waiting(h, r) =>
      && r < |t.channels|
      && if h in w.reported then t.pending == map[] && t.channels[r] == Delivered(w.reported[h])
         else t.pending == map[h := r] && t.channels[r] == Empty
    case Elapsed(h) => if h in w.reported then t.pending == map[] else t.pending.Keys == {h}
  }

  /** Every hash sent is the current one, has been reported or has been marked. */
  ghost predicate Settled(w: World) {
    && w.reported.Keys <= w.sent
    && w.marked.Keys <= w.sent
    && SubMap(w.tracker.timedOut, w.marked)
    && (!w.phase.Idle? ==> w.phase.hash in w.sent && w.phase.hash !in w.marked)
    && (forall h | h in w.sent :: Current(w, h) || h in w.reported || h in w.marked)
  }

  /** What the early-result buffer holds, exactly. */
  ghost predicate Buffered(w: World) {
    && w.late <= w.marked.Keys
    && w.late <= w.reported.Keys
    && (forall h :: h in w.tracker.completed <==> h in w.late || (w.phase == Sent(h) && h in w.reported))
    && SubMap(w.tracker.completed, w.reported)
  }

  /** The window of the tombstone of `h` has closed: more than 15 minutes have passed, or at least 4096
      other probes timed out at an equal or later stamp. */
  ghost predicate WindowClosed(w: World, h: PaymentHash)
    requires h in w.marked
  {
    || w.clock - w.marked[h] > 15 * 60 * 1_000_000_000
    || |NoEarlier(w.marked, h, w.marked[h])| >= 4096
  }

  ghost predicate Windows(w: World) {
    && (forall h | h in w.marked && h !in w.reported :: h in w.tracker.timedOut || WindowClosed(w, h))
    && (forall h | h in w.late :: h in w.marked && WindowClosed(w, h))
  }

  /** A completion reports the outcome of its own hash. */
  ghost predicate HonestEntry(w: World, c: ProbeCompletion) {
    match c
    case Success(h) => h in w.reported && w.reported[h] == ProbeOutcome.Success
    case Failed(h) => h in w.reported && w.reported[h] == ProbeOutcome.Failed
    case Timeout(h) => h in w.marked
    case SendError(_) => true
    case Dropped(_) => false
  }

  ghost predicate Honest(w: World) {
    forall i | 0 <= i < |w.log| :: HonestEntry(w, w.log[i])
  }

  /** The hashes that the completions are about, in order. */
  function Concluded(log: seq<ProbeCompletion>): (r: seq<PaymentHash>) {
    if log == [] then []
    else
      var last := log[|log| - 1];
      Concluded(log[..|log| - 1]) + (if last.SendError? then [] else [last.hash])
  }

  /** One completion for each probe sent, in the order they were sent, except that the current one is open. */
  ghost predicate InOrder(w: World) {
    w.order == Concluded(w.log) + (if w.phase.Idle? then [] else [w.phase.hash])
  }

  ghost predicate WorldInv(w: World) {
    Consistent(w) && Windows(w) && Honest(w) && InOrder(w)
  }

  /** The part of the invariant about the tracker's maps. */
  ghost predicate Consistent(w: World) {
    Phased(w) && Settled(w) && Buffered(w)
  }

  lemma {:induction false} RegisteringConsistent(w: World, kept: Tombstones)
    requires Consistent(w) && w.phase.Sent? && SubMap(kept, w.tracker.timedOut)
    ensures Consistent(Registering(w, kept))
  {
    var w' := Registering(w, kept);
    assert Phased(w');
    assert Settled(w');
    assert Buffered(w');
  }

  lemma {:induction false} MarkingConsistent(w: World, kept: Tombstones, stamp: Instant)
    requires Consistent(w) && w.phase.Elapsed? && SubMap(kept, w.tracker.timedOut)
    ensures Consistent(Marking(w, kept, stamp))
  {
    var w' := Marking(w, kept, stamp);
    assert Phased(w');
    assert Settled(w');
    assert Buffered(w');
  }

  lemma {:induction false} ReportingPhased(w: World, kept: Tombstones, h: PaymentHash, outcome: ProbeOutcome)
    requires Consistent(w) && h in w.sent && h !in w.reported && SubMap(kept, w.tracker.timedOut)
    ensures Phased(Reporting(w, kept, h, outcome))
  {
  }

  lemma {:induction false} ReportingSettled(w: World, kept: Tombstones, h: PaymentHash, outcome: ProbeOutcome)
    requires Consistent(w) && h in w.sent && h !in w.reported && SubMap(kept, w.tracker.timedOut)
    ensures Settled(Reporting(w, kept, h, outcome))
  {
  }

  lemma {:induction false} ReportingBuffered(w: World, kept: Tombstones, h: PaymentHash, outcome: ProbeOutcome)
    requires Consistent(w) && h in w.sent && h !in w.reported && SubMap(kept, w.tracker.timedOut)
    ensures Buffered(Reporting(w, kept, h, outcome))
  {
  }

  lemma {:induction false} ConsistentKept(w: World, a: Action, w': World)
    requires Consistent(w) && Next(w, a, w')
    ensures Consistent(w')
  {
    match a {
      case RegisterSent =>
        var kept :| Pruned(w.tracker.timedOut, w.clock, kept) && w' == Registering(w, kept);
        RegisteringConsistent(w, kept);
      case Mark(stamp) =>
        var kept :| Pruned(w.tracker.timedOut, w.clock, kept) && w' == Marking(w, kept, stamp);
        MarkingConsistent(w, kept, stamp);
      case Event(h, outcome) =>
        var kept :| Pruned(w.tracker.timedOut, w.clock, kept) && w' == Reporting(w, kept, h, outcome);
        ReportingPhased(w, kept, h, outcome);
        ReportingSettled(w, kept, h, outcome);
        ReportingBuffered(w, kept, h, outcome);
      case _ =>
    }
  }

  lemma {:induction false} HonestKept(w: World, a: Action, w': World)
    requires Consistent(w) && Honest(w) && Next(w, a, w')
    ensures Honest(w')
  {
    HistoryGrows(w, a, w');
    forall i | 0 <= i < |w'.log| ensures HonestEntry(w', w'.log[i]) {
      if i < |w.log| {
        assert HonestEntry(w, w.log[i]);
        assert w'.log[i] == w.log[i];
      } else {
        NewEntryHonest(w, a, w');
      }
    }
  }

  lemma {:induction false} NewEntryHonest(w: World, a: Action, w': World)
    requires Consistent(w) && Next(w, a, w') && |w'.log| > |w.log|
    ensures |w'.log| == |w.log| + 1 && HonestEntry(w', w'.log[|w.log|])
  {
    match a
    case FailToSend(error) =>
    case Receive =>
    case Mark(stamp) =>
  }

  /** What a step may do to the prober, the order of sending and the completions. */
  ghost predicate ProberMoves(w: World, w': World) {
    || (w'.phase.Idle? == w.phase.Idle? && (w.phase.Idle? || w'.phase.hash == w.phase.hash)
        && w'.order == w.order && w'.log == w.log)
    || (w.phase.Idle? && w'.phase.Idle? && w'.order == w.order
        && exists e :: w'.log == w.log + [SendError(e)])
    || (w.phase.Idle? && !w'.phase.Idle? && w'.order == w.order + [w'.phase.hash] && w'.log == w.log)
    || (!w.phase.Idle? && w'.phase.Idle? && w'.order == w.order
        && exists c :: w'.log == w.log + [c] && !c.SendError? && c.hash == w.phase.hash)
  }

  lemma {:induction false} NextMovesProber(w: World, a: Action, w': World)
    requires Next(w, a, w')
    ensures ProberMoves(w, w')
  {
  }

  lemma {:induction false} InOrderKept(w: World, w': World)
    requires InOrder(w) && ProberMoves(w, w')
    ensures InOrder(w')
  {
    if w'.log != w.log {
      var c :| w'.log == w.log + [c] && (w.phase.Idle? ==> c.SendError?)
            && (!w.phase.Idle? ==> !c.SendError? && c.hash == w.phase.hash);
      ConcludedMore(w.log, c);
    }
  }

  lemma {:induction false} ConcludedMore(log: seq<ProbeCompletion>, c: ProbeCompletion)
    ensures Concluded(log + [c]) == Concluded(log) + (if c.SendError? then [] else [c.hash])
  {
    assert (log + [c])[..|log|] == log;
  }

  /** Whenever the shared tracker changes, it is by one of its critical sections. */
  lemma {:induction false} NextIsTrackerStep(w: World, a: Action, w': World)
    requires Next(w, a, w')
    ensures w'.tracker == w.tracker || exists op :: Step(w.tracker, w.clock, op, w'.tracker)
  {
    match a {
      case RegisterSent => assert Step(w.tracker, w.clock, Register(w.phase.hash), w'.tracker);
      case Mark(stamp) => assert Step(w.tracker, w.clock, MarkTimedOut(w.phase.hash, stamp), w'.tracker);
      case Event(h, outcome) => assert Step(w.tracker, w.clock, Complete(h, outcome), w'.tracker);
      case _ =>
    }
  }

  /** A closed window stays closed. */
  lemma {:induction false} StaysClosed(w: World, w': World, h: PaymentHash)
    requires h in w.marked && SubMap(w.marked, w'.marked) && w.clock <= w'.clock
    requires WindowClosed(w, h)
    ensures WindowClosed(w', h)
  {
    SubsetSize(NoEarlier(w.marked, h, w.marked[h]), NoEarlier(w'.marked, h, w.marked[h]));
  }

  /** Pruning removes a tombstone only if its window has closed. */
  lemma {:induction false} PruningCloses(w: World, kept: Tombstones, h: PaymentHash)
    requires SubMap(w.tracker.timedOut, w.marked) && Pruned(w.tracker.timedOut, w.clock, kept)
    requires h in w.tracker.timedOut && h !in kept
    ensures WindowClosed(w, h)
  {
    var t := w.tracker.timedOut;
    if !Expired(w.clock, t[h]) {
      EvictionRule(t, w.clock, kept, h);
      SubsetSize(NoEarlier(t, h, t[h]), NoEarlier(w.marked, h, t[h]));
    }
  }

  lemma {:induction false} HistoryGrows(w: World, a: Action, w': World)
    requires Settled(w) && Next(w, a, w')
    ensures w.clock <= w'.clock && SubMap(w.marked, w'.marked) && SubMap(w.reported, w'.reported)
    ensures w.sent <= w'.sent && w.late <= w'.late && w.log <= w'.log
  {
  }

  lemma {:induction false} WindowsKept(w: World, a: Action, w': World)
    requires Settled(w) && Windows(w) && Next(w, a, w')
    ensures Windows(w')
  {
    HistoryGrows(w, a, w');
    forall h | h in w'.marked && h !in w'.reported
      ensures h in w'.tracker.timedOut || WindowClosed(w', h)
    {
      TombstoneKept(w, a, w', h);
    }
    forall h | h in w'.late ensures h in w'.marked && WindowClosed(w', h) {
      if h in w.late {
        StaysClosed(w, w', h);
      } else {
        LateClosed(w, a, w', h);
      }
    }
  }

  lemma {:induction false} TombstoneKept(w: World, a: Action, w': World, h: PaymentHash)
    requires Settled(w) && Windows(w) && Next(w, a, w')
    requires h in w'.marked && h !in w'.reported
    ensures h in w'.tracker.timedOut || WindowClosed(w', h)
  {
    HistoryGrows(w, a, w');
    if h in w.marked {
      if WindowClosed(w, h) {
        StaysClosed(w, w', h);
      } else if h !in w'.tracker.timedOut {
        var kept, op := EnteredBy(w, a, w');
        OthersKept(w.tracker, kept, op, h);
        PruningCloses(w, kept, h);
        StaysClosed(w, w', h);
      }
    }
  }

  /** The critical section that `a` goes through when it changes the tombstones, and what its pruning left. */
  lemma {:induction false} EnteredBy(w: World, a: Action, w': World) returns (kept: Tombstones, op: Op)
    requires Next(w, a, w') && w'.tracker.timedOut != w.tracker.timedOut
    ensures Pruned(w.tracker.timedOut, w.clock, kept) && w'.tracker == Apply(w.tracker, kept, op)
    ensures Current(w, op.hash) || op.hash in w'.reported
  {
    match a {
      case RegisterSent =>
        kept :| Pruned(w.tracker.timedOut, w.clock, kept) && w' == Registering(w, kept);
        op := Register(w.phase.hash);
      case Mark(stamp) =>
        kept :| Pruned(w.tracker.timedOut, w.clock, kept) && w' == Marking(w, kept, stamp);
        op := MarkTimedOut(w.phase.hash, stamp);
      case Event(h, outcome) =>
        kept :| Pruned(w.tracker.timedOut, w.clock, kept) && w' == Reporting(w, kept, h, outcome);
        op := Complete(h, outcome);
    }
  }

  lemma {:induction false} LateClosed(w: World, a: Action, w': World, h: PaymentHash)
    requires Settled(w) && Windows(w) && Next(w, a, w')
    requires h in w'.late && h !in w.late
    ensures h in w'.marked && WindowClosed(w', h)
  {
    var kept :| Pruned(w.tracker.timedOut, w.clock, kept) && w' == Reporting(w, kept, h, a.outcome);
    assert h in w.marked;
    if h in w.tracker.timedOut {
      PruningCloses(w, kept, h);
    }
    assert WindowClosed(w, h);
  }

  // ----- Every run -----

  /** `actions[i]` leads from `worlds[i]` to `worlds[i + 1]`. */
  ghost predicate Run(worlds: seq<World>, actions: seq<Action>) {
    && |worlds| == |actions| + 1
    && worlds[0] == START
    && forall i | 0 <= i < |actions| :: Next(worlds[i], actions[i], worlds[i + 1])
  }

  lemma {:induction false} RunInv(worlds: seq<World>, actions: seq<Action>, i: nat)
    requires Run(worlds, actions) && i < |worlds|
    ensures WorldInv(worlds[i])
  {
    if i > 0 {
      RunInv(worlds, actions, i - 1);
      var (w, a, w') := (worlds[i - 1], actions[i - 1], worlds[i]);
      assert Next(w, a, w');
      ConsistentKept(w, a, w');
      WindowsKept(w, a, w');
      HonestKept(w, a, w');
      NextMovesProber(w, a, w');
      InOrderKept(w, w');
    }
  }

  /** In every interleaving: each probe sent gets exactly one completion, in order; a Success or Failed
      completion carries the outcome reported for its hash, a Timeout was marked, Dropped is never
      returned; at most one sender is pending, and none between attempts. */
  lemma {:induction false} AttemptsAreHonest(worlds: seq<World>, actions: seq<Action>, i: nat)
    requires Run(worlds, actions) && i < |worlds|
    ensures forall k | 0 <= k < |worlds[i].log| ::
              match worlds[i].log[k]
              case Success(h) => h in worlds[i].reported && worlds[i].reported[h] == ProbeOutcome.Success
              case Failed(h) => h in worlds[i].reported && worlds[i].reported[h] == ProbeOutcome.Failed
              case Timeout(h) => h in worlds[i].marked
              case SendError(_) => true
              case Dropped(_) => false
    ensures worlds[i].order ==
            Concluded(worlds[i].log) + (if worlds[i].phase.Idle? then [] else [worlds[i].phase.hash])
    ensures |worlds[i].tracker.pending| <= 1
    ensures worlds[i].phase.Idle? ==> worlds[i].tracker.pending == map[]
  {
    RunInv(worlds, actions, i);
    var w := worlds[i];
    assert forall k | 0 <= k < |w.log| :: HonestEntry(w, w.log[k]);
    if w.tracker.pending != map[] {
      assert w.tracker.pending.Keys == {w.phase.hash};
    }
  }

  /** In every interleaving, an attempt that waits for a probe whose result is in, whether it came before the
      registration or after, can return it at once: the next completion is that outcome. */
  lemma {:induction false} ReportedIsReceived(worlds: seq<World>, actions: seq<Action>, i: nat, w': World)
    requires Run(worlds, actions) && i < |worlds|
    requires worlds[i].phase.Waiting? && worlds[i].phase.hash in worlds[i].reported
    ensures var (w, h) := (worlds[i], worlds[i].phase.hash);
            Next(w, Receive, w') <==>
            w' == w.(phase := Idle,
                     log := w.log + [match w.reported[h]
                                     case Success => ProbeCompletion.Success(h)
                                     case Failed => ProbeCompletion.Failed(h)])
  {
    RunInv(worlds, actions, i);
  }

  /** The early-result buffer is empty or holds just the probe that has been sent and not yet registered. */
  ghost predicate Clean(w: World) {
    w.tracker.completed == map[] || (w.phase.Sent? && w.tracker.completed.Keys == {w.phase.hash})
  }

  /** In every interleaving the early-result buffer holds exactly the probe sent but not yet registered, if
      its result is in, and the probes whose result came when their tombstone was gone; and a tombstone
      is gone that early only if 15 minutes have passed or 4096 other probes timed out since. So it is clean if
      and only if no result came that late. */
  lemma {:induction false} BufferExactly(worlds: seq<World>, actions: seq<Action>, i: nat)
    requires Run(worlds, actions) && i < |worlds|
    ensures var w := worlds[i];
            && (forall h :: h in w.tracker.completed <==> h in w.late || (w.phase == Sent(h) && h in w.reported))
            && (forall h | h in w.late :: h in w.marked && WindowClosed(w, h))
    ensures Clean(worlds[i]) <==> worlds[i].late == {}
  {
    RunInv(worlds, actions, i);
    var w := worlds[i];
    if h :| h in w.late {
      assert h in w.tracker.completed && h in w.marked;
    }
  }

  /** If every result for a finished attempt comes while the window of its tombstone is open, the buffer is
      empty or holds just the probe that has been sent and not yet registered. */
  lemma {:induction false} BufferDoesNotLeak(worlds: seq<World>, actions: seq<Action>, i: nat)
    requires Run(worlds, actions) && i < |worlds|
    requires forall k | 0 <= k < i && actions[k].Event? && actions[k].hash in worlds[k].marked ::
               var (marked, h) := (worlds[k].marked, actions[k].hash);
               && worlds[k].clock - marked[h] <= 15 * 60 * 1_000_000_000
               && |NoEarlier(marked, h, marked[h])| < 4096
    ensures Clean(worlds[i])
  {
    forall k | 0 <= k < i && actions[k].Event? && actions[k].hash in worlds[k].marked
      ensures !WindowClosed(worlds[k], actions[k].hash)
    {
    }
    NoneLate(worlds, actions, i);
    BufferExactly(worlds, actions, i);
  }

  lemma {:induction false} NoneLate(worlds: seq<World>, actions: seq<Action>, i: nat)
    requires Run(worlds, actions) && i < |worlds|
    requires forall k | 0 <= k < i && actions[k].Event? && actions[k].hash in worlds[k].marked ::
               !WindowClosed(worlds[k], actions[k].hash)
    ensures worlds[i].late == {}
  {
    if i > 0 {
      NoneLate(worlds, actions, i - 1);
      RunInv(worlds, actions, i - 1);
      var (w, a, w') := (worlds[i - 1], actions[i - 1], worlds[i]);
      assert Next(w, a, w');
      forall h ensures h !in w'.late {
        if h in w'.late {
          LateClosed(w, a, w', h);
        }
      }
    }
  }

  // ----- Without that assumption the buffer does leak -----

  /** The tombstone of `h` will not be there for a result that comes now: it is gone already, or has expired, or 4096
      unexpired ones are younger. */
  ghost predicate TooLate(w: World, h: PaymentHash)
    requires h in w.marked
  {
    var t := w.tracker.timedOut;
    || h !in t
    || w.clock - w.marked[h] > 15 * 60 * 1_000_000_000
    || |Later(Unexpired(t, w.clock), h, w.marked[h])| >= 4096
  }

  lemma {:induction false} BecomesLate(w: World, h: PaymentHash, outcome: ProbeOutcome, w': World)
    requires Settled(w) && h in w.marked && TooLate(w, h) && Next(w, Event(h, outcome), w')
    ensures h in w'.late
  {
    var t := w.tracker.timedOut;
    var kept :| Pruned(t, w.clock, kept) && w' == Reporting(w, kept, h, outcome);
    if h in t && !Expired(w.clock, t[h]) {
      EvictionRule(t, w.clock, kept, h);
    }
  }

  ghost predicate Remembers(w: World, earlier: World) {
    earlier.late <= w.late && SubMap(earlier.marked, w.marked)
  }

  lemma {:induction false} StepRemembers(worlds: seq<World>, actions: seq<Action>, i: nat)
    requires Run(worlds, actions) && i < |actions|
    ensures Remembers(worlds[i + 1], worlds[i])
  {
    RunInv(worlds, actions, i);
    HistoryGrows(worlds[i], actions[i], worlds[i + 1]);
  }

  lemma {:induction false} RemembersMore(first: World, w: World, w': World)
    requires Remembers(w, first) && Remembers(w', w)
    ensures Remembers(w', first)
  {
  }

  lemma {:induction false} HistoryGrowsTo(worlds: seq<World>, actions: seq<Action>, k: nat, i: nat)
    requires Run(worlds, actions) && k <= i < |worlds|
    ensures Remembers(worlds[i], worlds[k])
    decreases i
  {
    if k == i {
      return;
    }
    HistoryGrowsTo(worlds, actions, k, i - 1);
    StepRemembers(worlds, actions, i - 1);
    RemembersMore(worlds[k], worlds[i - 1], worlds[i]);
  }

  /** A result that comes too late stays in the buffer for ever. */
  lemma {:induction false} LateResultLeaks(worlds: seq<World>, actions: seq<Action>, k: nat, i: nat)
    requires Run(worlds, actions) && k < i < |worlds|
    requires actions[k].Event? && actions[k].hash in worlds[k].marked && TooLate(worlds[k], actions[k].hash)
    ensures actions[k].hash in worlds[i].tracker.completed && !Clean(worlds[i])
  {
    RunInv(worlds, actions, k);
    BecomesLate(worlds[k], actions[k].hash, actions[k].outcome, worlds[k + 1]);
    HistoryGrowsTo(worlds, actions, k + 1, i);
    BufferExactly(worlds, actions, i);
  }

  /** No two probes were marked at the same clock reading. */
  ghost predicate StampsDiffer(marked: Tombstones) {
    forall g, h | g in marked && h in marked && g != h :: marked[g] != marked[h]
  }

  /** Unless two probes time out at the same instant, the buffer is clean if and only if no result came too late. */
  lemma {:induction false} CleanIff(worlds: seq<World>, actions: seq<Action>, i: nat)
    requires Run(worlds, actions) && i < |worlds| && StampsDiffer(worlds[i].marked)
    ensures Clean(worlds[i]) <==>
            forall k | 0 <= k < i && actions[k].Event? && actions[k].hash in worlds[k].marked ::
              !TooLate(worlds[k], actions[k].hash)
  {
    BufferExactly(worlds, actions, i);
    if k :| 0 <= k < i && actions[k].Event? && actions[k].hash in worlds[k].marked
            && TooLate(worlds[k], actions[k].hash)
    {
      LateResultLeaks(worlds, actions, k, i);
    } else {
      NoneTooLate(worlds, actions, i);
    }
  }

  lemma {:induction false} NoneTooLate(worlds: seq<World>, actions: seq<Action>, i: nat)
    requires Run(worlds, actions) && i < |worlds| && StampsDiffer(worlds[i].marked)
    requires forall k | 0 <= k < i && actions[k].Event? && actions[k].hash in worlds[k].marked ::
               !TooLate(worlds[k], actions[k].hash)
    ensures worlds[i].late == {}
  {
    if i > 0 {
      HistoryGrowsTo(worlds, actions, i - 1, i);
      NoneTooLate(worlds, actions, i - 1);
      RunInv(worlds, actions, i - 1);
      var (w, a, w') := (worlds[i - 1], actions[i - 1], worlds[i]);
      assert Next(w, a, w');
      forall h ensures h !in w'.late {
        if h in w'.late {
          WasTooLate(w, a, w', h);
        }
      }
    }
  }

  lemma {:induction false} WasTooLate(w: World, a: Action, w': World, h: PaymentHash)
    requires Settled(w) && Next(w, a, w') && StampsDiffer(w.marked)
    requires h in w'.late && h !in w.late
    ensures a.Event? && a.hash == h && h in w.marked && TooLate(w, h)
  {
    var t := w.tracker.timedOut;
    var kept :| Pruned(t, w.clock, kept) && w' == Reporting(w, kept, h, a.outcome);
    if !TooLate(w, h) {
      LaterAlone(w, h);
      EvictionRule(t, w.clock, kept, h);
    }
  }

  /** Without ties, the tombstones as recent as that of `h` are the unexpired ones that are more recent. */
  lemma {:induction false} LaterAlone(w: World, h: PaymentHash)
    requires Settled(w) && StampsDiffer(w.marked) && h in w.tracker.timedOut && !Expired(w.clock, w.marked[h])
    ensures var t := w.tracker.timedOut; NoEarlier(t, h, t[h]) == Later(Unexpired(t, w.clock), h, t[h])
  {
    var t := w.tracker.timedOut;
    forall g | g in NoEarlier(t, h, t[h]) ensures t[g] > t[h] {
      assert w.marked[g] != w.marked[h];
    }
  }

  const EXPIRY := TIMED_OUT_PROBE_TTL + 1
  ghost const W1 := START.(phase := Sent(1), sent := {1}, order := [1])
  ghost const W2 := W1.(tracker := State(map[1 := 0], map[], map[], [Empty]), phase := Waiting(1, 0))
  ghost const W3 := W2.(phase := Elapsed(1))
  ghost const W4 := W3.(tracker := State(map[], map[], map[1 := 0], [Closed]),
                        marked := map[1 := 0], phase := Idle, log := [Timeout(1)])
  ghost const W5 := W4.(clock := EXPIRY)
  ghost const W6 := W5.(tracker := State(map[], map[1 := ProbeOutcome.Success], map[], [Closed]),
                        reported := map[1 := ProbeOutcome.Success], late := {1})

  /** A concrete case: a result that comes more than 15 minutes after its time-out, with no attempt under way. */
  lemma {:induction false} LeakExample() returns (worlds: seq<World>, actions: seq<Action>)
    ensures Run(worlds, actions)
    ensures worlds[|actions|].phase == Idle
    ensures worlds[|actions|].tracker.completed == map[1 := ProbeOutcome.Success]
  {
    worlds, actions := TimedOut();
    worlds, actions := Extend(worlds, actions, Tick(EXPIRY), W5);
    LeakEnds();
    worlds, actions := Extend(worlds, actions, Event(1, ProbeOutcome.Success), W6);
  }

  lemma {:induction false} TimedOut() returns (worlds: seq<World>, actions: seq<Action>)
    ensures Run(worlds, actions) && worlds[|actions|] == W4
  {
    LeakBegins();
    worlds, actions := Extend([START], [], Send(1), W1);
    worlds, actions := Extend(worlds, actions, RegisterSent, W2);
    worlds, actions := Extend(worlds, actions, Elapse, W3);
    worlds, actions := Extend(worlds, actions, Mark(0), W4);
  }

  lemma {:induction false} Extend(worlds: seq<World>, actions: seq<Action>, a: Action, w: World)
    returns (worlds': seq<World>, actions': seq<Action>)
    requires Run(worlds, actions) && Next(worlds[|actions|], a, w)
    ensures Run(worlds', actions') && worlds'[|actions'|] == w
  {
    worlds', actions' := worlds + [w], actions + [a];
  }

  lemma {:induction false} LeakBegins()
    ensures Next(W1, RegisterSent, W2) && Next(W3, Mark(0), W4)
  {
    assert Unexpired(map[], 0) == map[];
    PrunedFits(map[], 0, map[]);
    assert W2 == Registering(W1, map[]);
    assert W4 == Marking(W3, map[], 0);
  }

  lemma {:induction false} LeakEnds()
    ensures Next(W5, Event(1, ProbeOutcome.Success), W6)
  {
    assert Unexpired(map[1 := 0], EXPIRY) == map[];
    PrunedFits(map[1 := 0], EXPIRY, map[]);
    assert W6 == Reporting(W5, map[], 1, ProbeOutcome.Success);
  }
}
