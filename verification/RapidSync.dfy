/** Rapid gossip sync: the download loop, and the timestamp file across crashes. */
module RapidSync {
  import opened Decimal
  import opened Sequences
  import opened Words
  import opened Wrappers

  // ----- The timestamp file and the network graph -----

  /** Where a sync is: idle, applying what it downloaded, or saving; `written` characters of the text are in
      the file once it has been truncated. */
  datatype Phase = Idle | Downloading(since: u32) | Saving(timestamp: u32) | Writing(timestamp: u32, written: nat)

  /** The timestamp file; the history of snapshot timestamps applied; the time up to which the graph in memory is
      complete; and that of the graph file, which is written at its own times and read back at start. */
  datatype Sync = Sync(file: Option<string>, phase: Phase, applied: set<u32>, complete: u32, persisted: u32)

  const START := Sync(None, Idle, {}, 0, 0)

  datatype Action =
    | Begin(readable: bool)
    | Apply(timestamp: u32)
    | Create
    | Write(more: nat)
    | Done
    | Abort
    | PersistGraph
    | Crash(graphReadable: bool)

  function Max(a: u32, b: u32): (r: u32) {
    if a < b then b else a
  }

  /** How far a graph that is complete up to `complete` gets by a snapshot of all changes from `since` to
      `timestamp`: if it lacks something from before `since`, it goes on lacking it. */
  function Advanced(complete: u32, since: u32, timestamp: u32): (r: u32) {
    if since <= complete then Max(complete, timestamp) else complete
  }

  /** How far the graph goes that a restart finds. A file that cannot be read gives an empty graph. */
  function Reloaded(s: Sync, graphReadable: bool): (r: u32) {
    if graphReadable then s.persisted else 0
  }

  ghost predicate Next(s: Sync, a: Action, s': Sync) {
    match a
    case Begin(readable) =>
      s.phase.Idle? && s' == s.(phase := Downloading(if readable then StartingPoint(s.file) else 0))
    case Apply(t) =>
      && s.phase.Downloading?
      && s' == s.(phase := Saving(t), applied := s.applied + {t}, complete := Advanced(s.complete, s.phase.since, t))
    case Create => s.phase.Saving? && s' == s.(file := Some(""), phase := Writing(s.phase.timestamp, 0))
    case Write(more) =>
      && s.phase.Writing?
      && var (t, n) := (s.phase.timestamp, s.phase.written + more);
         n <= |Print(t)| && s' == s.(file := Some(Print(t)[..n]), phase := Writing(t, n))
    case Done => s.phase.Writing? && s.phase.written == |Print(s.phase.timestamp)| && s' == s.(phase := Idle)
    case Abort => s' == s.(phase := Idle)
    case PersistGraph => s' == s.(persisted := s.complete)
    case Crash(graphReadable) => s' == s.(phase := Idle, complete := Reloaded(s, graphReadable))
  }

  /** The file holds the beginning of the text of a timestamp that was applied. */
  ghost predicate Torn(file: string, applied: set<u32>) {
    exists t :: t in applied && file <= Print(t)
  }

  ghost predicate Inv(s: Sync) {
    && (s.file.Some? ==> Torn(s.file.value, s.applied))
    && (s.phase.Saving? || s.phase.Writing? ==> s.phase.timestamp in s.applied)
    && (s.phase.Writing? ==>
          && s.phase.written <= |Print(s.phase.timestamp)|
          && s.file == Some(Print(s.phase.timestamp)[..s.phase.written]))
    && (s.phase.Downloading? ==> s.phase.since == 0 || s.phase.since == StartingPoint(s.file))
  }

  /** Nothing later than an applied snapshot. */
  ghost predicate Covered(since: u32, applied: set<u32>) {
    since == 0 || exists t :: t in applied && since <= t
  }

  ghost predicate Run(syncs: seq<Sync>, actions: seq<Action>) {
    && |syncs| == |actions| + 1
    && syncs[0] == START
    && forall i | 0 <= i < |actions| :: Next(syncs[i], actions[i], syncs[i + 1])
  }

  lemma {:induction false} TornIsCovered(file: Option<string>, applied: set<u32>)
    requires file.Some? ==> Torn(file.value, applied)
    ensures Covered(StartingPoint(file), applied)
  {
    if file.Some? {
      var t :| t in applied && file.value <= Print(t);
      assert file.value == Print(t)[..|file.value|];
      TornSave(t, |file.value|);
    }
  }

  lemma {:induction false} NextKeeps(s: Sync, a: Action, s': Sync)
    requires Inv(s) && Next(s, a, s')
    ensures Inv(s')
  {
    if a.Create? {
      assert Print(s.phase.timestamp)[..0] == "";
    }
  }

  lemma {:induction false} RunInv(syncs: seq<Sync>, actions: seq<Action>, i: nat)
    requires Run(syncs, actions) && i < |syncs|
    ensures Inv(syncs[i])
  {
    if i > 0 {
      RunInv(syncs, actions, i - 1);
      NextKeeps(syncs[i - 1], actions[i - 1], syncs[i]);
    }
  }

  /** Over all runs, with a crash at any point of any save, a sync never starts from a time later than some snapshot
      that was applied; and after a completed save it starts from exactly the saved timestamp. */
  lemma {:induction false} StartsFromApplied(syncs: seq<Sync>, actions: seq<Action>, i: nat)
    requires Run(syncs, actions) && i < |syncs|
    ensures Covered(StartingPoint(syncs[i].file), syncs[i].applied)
    ensures syncs[i].phase.Downloading? ==> Covered(syncs[i].phase.since, syncs[i].applied)
    ensures i < |actions| && actions[i] == Done ==>
              && syncs[i].phase.Writing? && syncs[i].phase.timestamp in syncs[i].applied
              && StartingPoint(syncs[i + 1].file) == syncs[i].phase.timestamp
  {
    RunInv(syncs, actions, i);
    TornIsCovered(syncs[i].file, syncs[i].applied);
    if i < |actions| && actions[i] == Done {
      assert Next(syncs[i], actions[i], syncs[i + 1]);
      TornSave(syncs[i].phase.timestamp, syncs[i].phase.written);
    }
  }

  // ----- When a sync skips nothing -----

  /** The file, or the timestamp being saved, is ahead of the graph in memory. */
  ghost predicate Ahead(s: Sync) {
    || StartingPoint(s.file) > s.complete
    || ((s.phase.Saving? || s.phase.Writing?) && s.phase.timestamp > s.complete)
  }

  /** The restart finds a graph that the file is ahead of. */
  ghost predicate Outruns(s: Sync, a: Action) {
    a.Crash? && StartingPoint(s.file) > Reloaded(s, a.graphReadable)
  }

  /** One step: what is not ahead gets ahead by such a restart and by nothing else. */
  lemma {:induction false} GetsAhead(s: Sync, a: Action, s': Sync)
    requires Inv(s) && Next(s, a, s') && !Ahead(s)
    ensures Ahead(s') <==> Outruns(s, a)
  {
    match a {
      case Create => assert Print(s.phase.timestamp)[..0] == ""; TornSave(s.phase.timestamp, 0);
      case Write(more) => TornSave(s.phase.timestamp, s.phase.written + more);
      case _ =>
    }
  }

  ghost predicate NeverAhead(syncs: seq<Sync>) {
    forall i | 0 <= i < |syncs| :: !Ahead(syncs[i])
  }

  /** Over all runs: the file is never ahead of the graph if and only if it is not at any restart ahead of the graph
      file. */
  lemma {:induction false} NeverAheadIff(syncs: seq<Sync>, actions: seq<Action>)
    requires Run(syncs, actions)
    ensures NeverAhead(syncs) <==>
            forall k | 0 <= k < |actions| && actions[k].Crash? ::
              StartingPoint(syncs[k].file) <= if actions[k].graphReadable then syncs[k].persisted else 0
  {
    if k :| 0 <= k < |actions| && Outruns(syncs[k], actions[k]) {
      assert Next(syncs[k], actions[k], syncs[k + 1]);
      assert Ahead(syncs[k + 1]);
    } else {
      assert forall k | 0 <= k < |actions| :: !Outruns(syncs[k], actions[k]);
      forall i | 0 <= i < |syncs| ensures !Ahead(syncs[i]) {
        NotAhead(syncs, actions, i);
      }
    }
  }

  lemma {:induction false} NotAhead(syncs: seq<Sync>, actions: seq<Action>, i: nat)
    requires Run(syncs, actions) && i < |syncs|
    requires forall k | 0 <= k < i :: !Outruns(syncs[k], actions[k])
    ensures !Ahead(syncs[i])
  {
    if i > 0 {
      NotAhead(syncs, actions, i - 1);
      RunInv(syncs, actions, i - 1);
      GetsAhead(syncs[i - 1], actions[i - 1], syncs[i]);
    }
  }

  /** What that is for: a sync that begins asks for all the changes that the graph lacks, if and only if the file is
      not ahead, unless the file could not be read. */
  lemma {:induction false} SyncSkipsNothingIff(syncs: seq<Sync>, actions: seq<Action>, i: nat)
    requires Run(syncs, actions) && i < |actions| && actions[i].Begin?
    ensures syncs[i + 1].phase.Downloading?
    ensures syncs[i + 1].phase.since <= syncs[i + 1].complete <==> !Ahead(syncs[i]) || !actions[i].readable
  {
    assert Next(syncs[i], actions[i], syncs[i + 1]);
  }

  /** A restart does no harm if the graph file has been written since the last snapshot was applied and can be read. */
  lemma {:induction false} PersistedInTime(syncs: seq<Sync>, actions: seq<Action>, p: nat, k: nat)
    requires Run(syncs, actions) && p < k < |actions|
    requires forall i | 0 <= i < k :: !Outruns(syncs[i], actions[i])
    requires actions[p] == PersistGraph
    requires forall i | p < i < k :: !actions[i].Apply? && !actions[i].Crash?
    requires actions[k] == Crash(true)
    ensures !Outruns(syncs[k], actions[k])
  {
    NotAhead(syncs, actions, k);
    assert Next(syncs[p], actions[p], syncs[p + 1]);
    SamePersisted(syncs, actions, p + 1, k);
  }

  lemma {:induction false} SamePersisted(syncs: seq<Sync>, actions: seq<Action>, p: nat, k: nat)
    requires Run(syncs, actions) && p <= k < |syncs|
    requires syncs[p].persisted == syncs[p].complete
    requires forall i | p <= i < k :: !actions[i].Apply? && !actions[i].Crash?
    ensures syncs[k].persisted == syncs[k].complete
    decreases k
  {
    if p < k {
      SamePersisted(syncs, actions, p, k - 1);
      assert Next(syncs[k - 1], actions[k - 1], syncs[k]);
    }
  }

  /** A run that skips: a snapshot is applied and its timestamp saved, and the process ends before the graph file is
      written. The next sync asks only for what changed since, and the graph lacks the rest also when that has been
      applied. */
  lemma {:induction false} CrashSkips(t: u32, u: u32) returns (syncs: seq<Sync>, actions: seq<Action>)
    requires t > 0
    ensures Run(syncs, actions) && |actions| > 0
    ensures var s := syncs[|actions| - 1]; s.phase == Downloading(t) && s.complete == 0
    ensures actions[|actions| - 1] == Apply(u) && syncs[|actions|].complete == 0
  {
    var (n, text) := (|Print(t)|, Some(Print(t)));
    assert StartingPoint(START.file) == 0 && Print(t)[..n] == Print(t);
    var applied := START.(phase := Saving(t), applied := {t}, complete := t);
    var created := applied.(file := Some(""), phase := Writing(t, 0));
    var saved := applied.(file := text, phase := Idle);
    var skipping := saved.(complete := 0, phase := Downloading(t));
    TornSave(t, n);
    actions := [Begin(true), Apply(t), Create, Write(n), Done, Crash(true), Begin(true), Apply(u)];
    syncs := [START, START.(phase := Downloading(0)), applied, created, saved.(phase := Writing(t, n)), saved,
              saved.(complete := 0), skipping, skipping.(phase := Saving(u), applied := {t, u})];
  }

  // ----- The download loop -----

  const U64_MAX: nat := 0xFFFF_FFFF_FFFF_FFFF

  function SaturatingAdd(a: nat, b: nat): (r: nat) {
    if a + b > U64_MAX then U64_MAX else a + b
  }

  function ProgressStep(contentLength: nat): (step: nat)
    ensures step > 0
  {
    if contentLength == 0 then U64_MAX else if contentLength / 10 == 0 then 1 else contentLength / 10
  }

  /** The progress lines logged for chunks of these sizes, of a body of positive content length. */
  function Lines(step: nat, threshold: nat, downloaded: nat, sizes: seq<nat>): (lines: nat)
    decreases |sizes|
  {
    if sizes == [] then 0
    else
      var now := downloaded + sizes[0];
      if now >= threshold then 1 + Lines(step, SaturatingAdd(threshold, step), now, sizes[1..])
      else Lines(step, threshold, now, sizes[1..])
  }

  function Sizes(chunks: seq<Bytes>): (r: seq<nat>) {
    seq(|chunks|, i requires 0 <= i < |chunks| => |chunks[i]|)
  }

  function Sum(sizes: seq<nat>): (r: nat) {
    if sizes == [] then 0 else sizes[0] + Sum(sizes[1..])
  }

  lemma {:induction false} SumOfSizes(chunks: seq<Bytes>)
    ensures Sum(Sizes(chunks)) == |Flatten(chunks)|
  {
    if chunks != [] {
      assert Sizes(chunks)[1..] == Sizes(chunks[1..]);
      SumOfSizes(chunks[1..]);
    }
  }

  /** The chunks received before the stream ended or failed. */
  function Received(stream: seq<Option<Bytes>>): (r: seq<Bytes>) {
    if stream == [] || stream[0].None? then [] else [stream[0].value] + Received(stream[1..])
  }

  /** These are the chunks up to the first error, and all if there is none. */
  lemma {:induction false} ReceivedExactly(stream: seq<Option<Bytes>>)
    ensures |Received(stream)| <= |stream|
    ensures forall i | 0 <= i < |Received(stream)| :: stream[i] == Some(Received(stream)[i])
    ensures |Received(stream)| < |stream| ==> stream[|Received(stream)|].None?
  {
    if stream != [] && stream[0].Some? {
      ReceivedExactly(stream[1..]);
    }
  }

  /** The data is the chunks in order, or the first error. */
  method DownloadSnapshotAttempt(contentLength: nat, stream: seq<Option<Bytes>>)
    returns (result: Option<Bytes>, downloaded: nat, lines: nat)
    ensures var chunks := Received(stream);
            && (result == if |chunks| == |stream| then Some(Flatten(chunks)) else None)
            && downloaded == |Flatten(chunks)|
            && (lines == if contentLength == 0 then 0
                         else Lines(ProgressStep(contentLength), ProgressStep(contentLength), 0, Sizes(chunks)))
    ensures downloaded <= contentLength < 0x8000_0000_0000_0000 ==> lines <= 19
  {
    if 0 < contentLength < 0x8000_0000_0000_0000 && Sum(Sizes(Received(stream))) <= contentLength {
      AtMost19Lines(contentLength, Sizes(Received(stream)));
    }
    SumOfSizes(Received(stream));
    var data: Bytes := [];
    downloaded, lines := 0, 0;
    var step := ProgressStep(contentLength);
    var threshold := step;
    var rest := stream;
    ghost var all := Lines(step, step, 0, Sizes(Received(stream)));
    assert Sizes([]) == [];
    while rest != []
      invariant data + Flatten(Received(rest)) == Flatten(Received(stream))
      invariant |Received(rest)| + (|stream| - |rest|) == |Received(stream)| && |rest| <= |stream|
      invariant downloaded == |data|
      invariant contentLength == 0 ==> lines == 0
      invariant contentLength > 0 ==> lines + Lines(step, threshold, downloaded, Sizes(Received(rest))) == all
      decreases |rest|
    {
      if rest[0].None? {
        return None, downloaded, lines;
      }
      var chunk := rest[0].value;
      assert Sizes(Received(rest))[1..] == Sizes(Received(rest[1..]));
      downloaded := downloaded + |chunk|;
      data := data + chunk;
      if contentLength > 0 && downloaded >= threshold {
        lines := lines + 1;
        threshold := SaturatingAdd(threshold, step);
      }
      rest := rest[1..];
    }
    assert Received(rest) == [] && data + [] == data;
    return Some(data), downloaded, lines;
  }

  /** For any chunking of a body no longer than its content length, at most 19 progress lines are logged. */
  lemma {:induction false} AtMost19Lines(contentLength: nat, sizes: seq<nat>)
    requires 0 < contentLength < 0x8000_0000_0000_0000
    requires Sum(sizes) <= contentLength
    ensures Lines(ProgressStep(contentLength), ProgressStep(contentLength), 0, sizes) <= 19
  {
    var step := ProgressStep(contentLength);
    var lines := Lines(step, step, 0, sizes);
    LinesSpaced(contentLength, step, 0, 0, sizes);
    assert contentLength <= 10 * step + 9;
    if lines >= 20 {
      Monotone(step, lines, 20);
      assert false;
    }
  }

  lemma {:induction false} Monotone(a: nat, b: nat, c: nat)
    requires b >= c
    ensures a * b >= a * c
  {
  }

  /** Each line needs another `step` bytes. */
  lemma {:induction false} LinesSpaced(contentLength: nat, step: nat, logged: nat, downloaded: nat, sizes: seq<nat>)
    requires 0 < step <= contentLength < 0x8000_0000_0000_0000
    requires downloaded + Sum(sizes) <= contentLength
    requires step * logged <= downloaded
    ensures step * (logged + Lines(step, step * (logged + 1), downloaded, sizes)) <= contentLength
    decreases |sizes|
  {
    if sizes != [] {
      var now := downloaded + sizes[0];
      if now >= step * (logged + 1) {
        assert step * (logged + 1) + step == step * (logged + 2);
        LinesSpaced(contentLength, step, logged + 1, now, sizes[1..]);
      } else {
        LinesSpaced(contentLength, step, logged, now, sizes[1..]);
      }
    }
  }

  function Ones(n: nat): (r: seq<nat>) {
    seq(n, _ => 1)
  }

  /** A body that comes one byte at a time logs a line for each tenth of its length, rounded down, or for each byte if
      it has fewer than ten: so one of 19 bytes logs 19, and the bound is reached. */
  lemma {:induction false} OneByteChunks(n: nat)
    requires 0 < n < 0x8000_0000_0000_0000
    ensures Sum(Ones(n)) == n
    ensures Lines(ProgressStep(n), ProgressStep(n), 0, Ones(n)) == if n < 10 then n else n / (n / 10)
  {
    var step := ProgressStep(n);
    ByteLines(step, 0, 0, n);
    assert step * 0 == 0 && step * 1 == step;
    assert n < 10 ==> n / 1 == n;
  }

  /** From `downloaded` bytes on, with `logged` lines so far, `n` more bytes bring the lines to one per step. */
  lemma {:induction false} ByteLines(step: nat, logged: nat, downloaded: nat, n: nat)
    requires 0 < step && downloaded + n + step < U64_MAX
    requires step * logged <= downloaded < step * (logged + 1)
    ensures Sum(Ones(n)) == n
    ensures logged + Lines(step, step * (logged + 1), downloaded, Ones(n)) == (downloaded + n) / step
    decreases n
  {
    if n == 0 {
      Quotient(downloaded, step, logged);
    } else {
      assert Ones(n)[1..] == Ones(n - 1);
      assert step * (logged + 1) + step == step * (logged + 2);
      if downloaded + 1 >= step * (logged + 1) {
        ByteLines(step, logged + 1, downloaded + 1, n - 1);
      } else {
        ByteLines(step, logged, downloaded + 1, n - 1);
      }
    }
  }

  lemma {:induction false} Quotient(a: nat, step: nat, q: nat)
    requires 0 < step && step * q <= a < step * (q + 1)
    ensures a / step == q
  {
    var (p, m) := (a / step, a % step);
    assert a == step * p + m;
    if p < q {
      Monotone(step, q, p + 1);
    } else if p > q {
      Monotone(step, p, q + 1);
    }
  }

  /** A body in ten equal chunks logs a line for each. */
  lemma {:induction false} TenChunks(k: nat)
    requires 0 < 10 * k < 0x8000_0000_0000_0000
    ensures Lines(ProgressStep(10 * k), ProgressStep(10 * k), 0, seq(10, _ => k)) == 10
  {
    EqualChunks(k, 0, 10);
  }

  lemma {:induction false} EqualChunks(k: nat, done: nat, n: nat)
    requires 0 < k < 0x1000_0000_0000_0000 && done + n <= 10
    ensures Lines(k, k * (done + 1), k * done, seq(n, _ => k)) == n
    decreases n
  {
    if n > 0 {
      assert seq(n, _ => k)[1..] == seq(n - 1, _ => k);
      assert k * (done + 1) == k * done + k && k * (done + 2) == k * (done + 1) + k;
      EqualChunks(k, done + 1, n - 1);
    }
  }
}
