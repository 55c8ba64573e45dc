/** When the migration keeps everything: a completing run from every disk, and exactly which files it loses. */
module SweepRuns {
  import opened Counting
  import opened Descriptors
  import opened Sweep
  import opened Words

  // ----- Running from one machine to another -----

  ghost predicate Reaches<D(!new)>(codec: Codec<D>, m: Machine<D>, m': Machine<D>)
    requires SelfDelimiting(codec)
  {
    exists actions :: Leads(codec, m, actions, m')
  }

  lemma {:induction false} LeadsOn<D(!new)>(codec: Codec<D>, m: Machine<D>, before: seq<Action>, mid: Machine<D>,
                                            after: seq<Action>, m': Machine<D>)
    requires SelfDelimiting(codec) && Leads(codec, m, before, mid) && Leads(codec, mid, after, m')
    ensures Leads(codec, m, before + after, m')
    decreases |before|
  {
    if before == [] {
      assert before + after == after;
    } else {
      var next :| Next(codec, m, before[0], next) && Leads(codec, next, before[1..], mid);
      LeadsOn(codec, next, before[1..], mid, after, m');
      assert (before + after)[1..] == before[1..] + after;
    }
  }

  lemma {:induction false} ReachesOn<D(!new)>(codec: Codec<D>, m: Machine<D>, mid: Machine<D>, m': Machine<D>)
    requires SelfDelimiting(codec) && Reaches(codec, m, mid) && Reaches(codec, mid, m')
    ensures Reaches(codec, m, m')
  {
    var before :| Leads(codec, m, before, mid);
    var after :| Leads(codec, mid, after, m');
    LeadsOn(codec, m, before, mid, after, m');
  }

  lemma {:induction false} Here<D(!new)>(codec: Codec<D>, m: Machine<D>)
    requires SelfDelimiting(codec)
    ensures Reaches(codec, m, m)
  {
    assert Leads(codec, m, [], m);
  }

  lemma {:induction false} Step<D(!new)>(codec: Codec<D>, m: Machine<D>, a: Action, m': Machine<D>)
    requires SelfDelimiting(codec) && Next(codec, m, a, m')
    ensures Reaches(codec, m, m')
  {
    assert Leads(codec, m', [a][1..], m');
    assert Leads(codec, m, [a], m');
  }

  // ----- The disk after each phase of an undisturbed run -----

  function AfterMove<D>(d: Disk<D>): (r: Disk<D>) {
    var pending := Listing(d.pending);
    d.(pending := if d.pending.Missing? then Missing else Present(Rest(pending)),
       processing := if Movable(pending) == map[] then d.processing else Present(Batch(d)))
  }

  function AfterWrite<D>(d: Disk<D>, blob: Bytes, key: string): (r: Disk<D>) {
    if blob == [] then d
    else d.(spendable := Present(Listing(d.spendable)[key := blob]), processing := Missing)
  }

  ghost function AfterAll<D(!new)>(codec: Codec<D>, d: Disk<D>, order: seq<string>, key: string, sealed: bool)
    : (r: Disk<D>)
    requires SelfDelimiting(codec) && Ordering(order, Batch(d).Keys)
  {
    var written := AfterWrite(AfterMove(d), Concat(Batch(d), order), key);
    Disk(Missing, written.processing, Missing, d.tracked + Content(codec, Listing(written.spendable)), sealed)
  }

  lemma {:induction false} MovedBatch<D>(d: Disk<D>)
    ensures Listing(AfterMove(d).processing) == Batch(d)
    ensures Batch(AfterMove(d)) == Batch(d)
    ensures Listing(AfterMove(d).pending) == Rest(Listing(d.pending))
    ensures Rest(Listing(AfterMove(d).pending)) == Rest(Listing(d.pending))
  {
    RestAgain(Listing(d.pending));
    assert Movable(Listing(d.pending)) == map[] ==> Batch(d) == Listing(d.processing);
  }

  /** The move in plain terms: it takes the pending files whose names have 64 characters, as they are, and leaves the
      others; what was in the processing directory stays, unless a file of that name arrives. */
  lemma {:induction false} MoveExactly<D>(d: Disk<D>, name: string)
    ensures var (pending, processing) := (Listing(d.pending), Listing(d.processing));
            var (left, batch) := (Listing(AfterMove(d).pending), Listing(AfterMove(d).processing));
            && (name in left <==> name in pending && |name| != 64)
            && (name in left ==> left[name] == pending[name])
            && (name in batch <==> name in processing || (name in pending && |name| == 64))
            && (name in batch ==>
                  batch[name] == if name in pending && |name| == 64 then pending[name] else processing[name])
  {
    MovedBatch(d);
  }

  lemma {:induction false} RestAgain(files: Files)
    ensures Rest(Rest(files)) == Rest(files) && Movable(Rest(files)) == map[]
    ensures Rest(files) + Movable(files) == files
  {
  }

  /** What an undisturbed run tracks: what was spendable and what its blob yields; and no file holds an output. */
  lemma {:induction false} AfterAllTracked<D(!new)>(codec: Codec<D>, d: Disk<D>, order: seq<string>, key: string,
                                                    sealed: bool)
    requires SelfDelimiting(codec) && Ordering(order, Batch(d).Keys) && key !in Listing(d.spendable)
    ensures var r := AfterAll(codec, d, order, key, sealed);
            && r.tracked == d.tracked + (InBlob(codec, Batch(d), order) + Content(codec, Listing(d.spendable)))
            && InFiles(codec, r) == multiset{}
  {
    var blob := Concat(Batch(d), order);
    EmptyContent(codec);
    MovedBatch(d);
    ContentWith(codec, Listing(d.spendable), key, blob);
    if blob == [] {
      EmptyBlob(codec, Batch(d), order);
    }
  }

  lemma {:induction false} EmptyBlob<D(!new)>(codec: Codec<D>, files: Files, order: seq<string>)
    requires SelfDelimiting(codec) && Ordering(order, files.Keys) && Concat(files, order) == []
    ensures Content(codec, files) == multiset{}
  {
    forall name | name in files ensures DecodeAll(codec, files[name]) == [] {
      assert name in order;
      var i :| 0 <= i < |order| && order[i] == name;
      EmptyPart(files, order, i);
      EmptyContent(codec);
    }
    BlankIff(codec, files);
  }

  lemma {:induction false} EmptyPart(files: Files, order: seq<string>, i: nat)
    requires forall name | name in order :: name in files
    requires Concat(files, order) == [] && i < |order|
    ensures files[order[i]] == []
    decreases |order|
  {
    if i < |order| - 1 {
      EmptyPart(files, order[..|order| - 1], i);
    }
  }

  lemma {:induction false} NothingListed(order: seq<string>)
    requires Ordering(order, {})
    ensures order == []
  {
    if order != [] {
      FirstListed(order, {});
    }
  }

  lemma {:induction false} FirstListed(order: seq<string>, names: set<string>)
    requires Ordering(order, names) && order != []
    ensures order[0] in names
  {
    assert order[0] in order;
  }

  // ----- One phase at a time -----

  /** Where the move stands when the entries in `todo` have yet to be looked at. */
  ghost predicate PartlyMoved<D>(before: Disk<D>, d: Disk<D>, todo: set<string>) {
    var (pending, pending0) := (Listing(d.pending), Listing(before.pending));
    && d == before.(pending := d.pending, processing := d.processing)
    && Batch(d) == Batch(before) && Rest(pending) == Rest(pending0)
    && Movable(pending).Keys == Movable(pending0).Keys * todo && todo <= pending.Keys
    && (d.pending.Missing? <==> before.pending.Missing?)
    && (d.processing.Present? || (d.processing == before.processing && Movable(pending0).Keys <= todo))
    && (Movable(pending0) == map[] ==> d.processing == before.processing)
  }

  lemma {:induction false} MoveStarts<D>(d: Disk<D>)
    ensures PartlyMoved(d, d, Listing(d.pending).Keys)
  {
  }

  lemma {:induction false} MoveGoesOn<D>(before: Disk<D>, d: Disk<D>, todo: set<string>, name: string)
    requires PartlyMoved(before, d, todo) && name in todo
    ensures PartlyMoved(before, if |name| == FILE_NAME_LENGTH then Rename(d, name) else d, todo - {name})
  {
    FilesWithout(Listing(d.pending), name);
    if |name| == FILE_NAME_LENGTH {
      RenameBatch(d, name);
    }
  }

  lemma {:induction false} MoveEnds<D>(before: Disk<D>, d: Disk<D>)
    requires PartlyMoved(before, d, {})
    ensures d == AfterMove(before)
  {
    RestAgain(Listing(d.pending));
    assert Movable(Listing(d.pending)) == map[];
    assert Listing(d.pending) == Rest(Listing(before.pending));
    assert Listing(d.processing) == Batch(before);
  }

  lemma {:induction false} MoveAll<D(!new)>(codec: Codec<D>, before: Disk<D>, d: Disk<D>, todo: set<string>)
    requires SelfDelimiting(codec) && PartlyMoved(before, d, todo)
    ensures Reaches(codec, Machine(d, Moving(todo)), Machine(AfterMove(before), Moving({})))
    decreases |todo|
  {
    if todo == {} {
      MoveEnds(before, d);
      Here(codec, Machine(d, Moving(todo)));
    } else {
      var name :| name in todo;
      var mid := if |name| == FILE_NAME_LENGTH then Rename(d, name) else d;
      MoveGoesOn(before, d, todo, name);
      Step(codec, Machine(d, Moving(todo)), MoveOne(name), Machine(mid, Moving(todo - {name})));
      MoveAll(codec, before, mid, todo - {name});
      ReachesOn(codec, Machine(d, Moving(todo)), Machine(mid, Moving(todo - {name})),
                Machine(AfterMove(before), Moving({})));
    }
  }

  /** The names in the first `k` places. */
  ghost function Firsts(order: seq<string>, k: nat): (r: set<string>)
    requires k <= |order|
  {
    set i | 0 <= i < k :: order[i]
  }

  lemma {:induction false} AppendFirst<D(!new)>(codec: Codec<D>, d: Disk<D>, order: seq<string>, k: nat)
    requires SelfDelimiting(codec) && Ordering(order, Listing(d.processing).Keys) && k <= |order|
    ensures var files := Listing(d.processing);
            Reaches(codec, Machine(d, Concatenating(files.Keys, [])),
                    Machine(d, Concatenating(files.Keys - Firsts(order, k), Concat(files, order[..k]))))
  {
    var files := Listing(d.processing);
    var m := Machine(d, Concatenating(files.Keys, []));
    if k == 0 {
      assert files.Keys - Firsts(order, 0) == files.Keys;
      Here(codec, m);
    } else {
      var name := order[k - 1];
      var mid := Machine(d, Concatenating(files.Keys - Firsts(order, k - 1), Concat(files, order[..k - 1])));
      var m' := Machine(d, Concatenating(files.Keys - Firsts(order, k), Concat(files, order[..k])));
      AppendFirst(codec, d, order, k - 1);
      assert order[..k][..k - 1] == order[..k - 1];
      assert Firsts(order, k) == Firsts(order, k - 1) + {name};
      assert (files.Keys - Firsts(order, k - 1)) - {name} == files.Keys - Firsts(order, k);
      assert name in order;
      Step(codec, mid, AppendOne(name), m');
      ReachesOn(codec, m, mid, m');
    }
  }

  lemma {:induction false} AppendAll<D(!new)>(codec: Codec<D>, d: Disk<D>, order: seq<string>)
    requires SelfDelimiting(codec) && Ordering(order, Listing(d.processing).Keys)
    ensures var files := Listing(d.processing);
            Reaches(codec, Machine(d, Concatenating(files.Keys, [])),
                    Machine(d, Concatenating({}, Concat(files, order))))
  {
    AppendFirst(codec, d, order, |order|);
    assert order[..|order|] == order;
    forall name | name in Listing(d.processing) ensures name in Firsts(order, |order|) {
      assert name in order;
    }
    assert Listing(d.processing).Keys - Firsts(order, |order|) == {};
  }

  lemma {:induction false} DropAll<D(!new)>(codec: Codec<D>, d: Disk<D>)
    requires SelfDelimiting(codec)
    ensures var d' := d.(processing := Missing);
            Reaches(codec, Machine(d, Dropping), Machine(d', StartReading(d')))
    decreases |Listing(d.processing)|
  {
    var files := Listing(d.processing);
    var d' := d.(processing := Missing);
    if files == map[] {
      Step(codec, Machine(d, Dropping), DropDone(Missing), Machine(d', StartReading(d')));
    } else {
      var name :| name in files;
      var mid := d.(processing := Present(files - {name}));
      FewerFiles(files, name);
      Step(codec, Machine(d, Dropping), DropOne(name), Machine(mid, Dropping));
      DropAll(codec, mid);
      ReachesOn(codec, Machine(d, Dropping), Machine(mid, Dropping), Machine(d', StartReading(d')));
    }
  }

  lemma {:induction false} FewerFiles(files: Files, name: string)
    requires name in files
    ensures |files - {name}| < |files|
  {
    assert (files - {name}).Keys == files.Keys - {name};
  }

  lemma {:induction false} ReadAll<D(!new)>(codec: Codec<D>, d: Disk<D>, todo: set<string>, outputs: seq<D>)
    returns (all: seq<D>)
    requires SelfDelimiting(codec) && todo <= Listing(d.spendable).Keys
    ensures Reaches(codec, Machine(d, Reading(todo, outputs)), Machine(d, Tracking(all)))
    ensures multiset(all) == multiset(outputs) + Content(codec, Only(Listing(d.spendable), todo))
    decreases |todo|
  {
    var files := Listing(d.spendable);
    var m := Machine(d, Reading(todo, outputs));
    if todo == {} {
      all := outputs;
      EmptyContent(codec);
      OnlyAll(files);
      Step(codec, m, ReadDone, Machine(d, Tracking(all)));
    } else {
      var name :| name in todo;
      var more := outputs + DecodeAll(codec, files[name]);
      var mid := Machine(d, Reading(todo - {name}, more));
      Step(codec, m, ReadOne(name), mid);
      OnlyWithout(codec, files, todo, name);
      all := ReadAll(codec, d, todo - {name}, more);
      ReachesOn(codec, m, mid, Machine(d, Tracking(all)));
    }
  }

  lemma {:induction false} ClearAll<D(!new)>(codec: Codec<D>, d: Disk<D>)
    requires SelfDelimiting(codec)
    ensures Reaches(codec, Machine(d, Clearing), Machine(d.(spendable := Missing, pending := Missing), Sealing))
    decreases |Listing(d.spendable)| + |Listing(d.pending)|
  {
    var (spendable, pending) := (Listing(d.spendable), Listing(d.pending));
    var m := Machine(d, Clearing);
    var end := Machine(d.(spendable := Missing, pending := Missing), Sealing);
    if spendable != map[] {
      var name :| name in spendable;
      var mid := d.(spendable := Present(spendable - {name}));
      FewerFiles(spendable, name);
      Step(codec, m, ClearSpendable(name), Machine(mid, Clearing));
      ClearAll(codec, mid);
      ReachesOn(codec, m, Machine(mid, Clearing), end);
    } else if pending != map[] {
      var name :| name in pending;
      var mid := d.(pending := Present(pending - {name}));
      FewerFiles(pending, name);
      Step(codec, m, ClearPending(name), Machine(mid, Clearing));
      ClearAll(codec, mid);
      ReachesOn(codec, m, Machine(mid, Clearing), end);
    } else {
      Step(codec, m, ClearDone(Missing, Missing), end);
    }
  }

  // ----- The whole run -----

  /** From the read outputs to the sentinel. */
  lemma {:induction false} TrackToEnd<D(!new)>(codec: Codec<D>, d: Disk<D>, outputs: seq<D>, sealed: bool)
    requires SelfDelimiting(codec) && !d.sentinel
    ensures Reaches(codec, Machine(d, Tracking(outputs)),
                    Machine(Disk(Missing, d.processing, Missing, d.tracked + multiset(outputs), sealed), Finished))
  {
    var d1 := d.(tracked := d.tracked + multiset(outputs));
    var d2 := d1.(spendable := Missing, pending := Missing);
    var end := Machine(d2.(sentinel := sealed), Finished);
    Step(codec, Machine(d, Tracking(outputs)), TrackOutputs, Machine(d1, Clearing));
    ClearAll(codec, d1);
    ReachesOn(codec, Machine(d, Tracking(outputs)), Machine(d1, Clearing), Machine(d2, Sealing));
    Step(codec, Machine(d2, Sealing), if sealed then Seal else SealFails, end);
    ReachesOn(codec, Machine(d, Tracking(outputs)), Machine(d2, Sealing), end);
  }

  /** From the first read of `spendable_outputs` to the sentinel. */
  lemma {:induction false} ReadToEnd<D(!new)>(codec: Codec<D>, d: Disk<D>, sealed: bool)
    requires SelfDelimiting(codec) && !d.sentinel
    ensures var tracked := d.tracked + Content(codec, Listing(d.spendable));
            Reaches(codec, Machine(d, StartReading(d)),
                    Machine(Disk(Missing, d.processing, Missing, tracked, sealed), Finished))
  {
    var outputs := ReadAll(codec, d, Listing(d.spendable).Keys, []);
    OnlyAll(Listing(d.spendable));
    assert multiset(outputs) == Content(codec, Listing(d.spendable));
    TrackToEnd(codec, d, outputs, sealed);
    ReachesOn(codec, Machine(d, StartReading(d)), Machine(d, Tracking(outputs)),
              Machine(Disk(Missing, d.processing, Missing, d.tracked + multiset(outputs), sealed), Finished));
  }

  /** From the end of the move to the first read: one blob, or nothing to write. */
  lemma {:induction false} Concatenate<D(!new)>(codec: Codec<D>, d: Disk<D>, order: seq<string>, key: string)
    requires SelfDelimiting(codec) && Ordering(order, Listing(d.processing).Keys) && key !in Listing(d.spendable)
    ensures var d' := AfterWrite(d, Concat(Listing(d.processing), order), key);
            Reaches(codec, Machine(d, Moving({})), Machine(d', StartReading(d')))
  {
    var files := Listing(d.processing);
    var blob := Concat(files, order);
    var d' := AfterWrite(d, blob, key);
    if d.processing.Missing? {
      NothingListed(order);
      Step(codec, Machine(d, Moving({})), MoveDone, Machine(d, StartReading(d)));
    } else {
      var m := Machine(d, Concatenating(files.Keys, []));
      Step(codec, Machine(d, Moving({})), MoveDone, m);
      AppendAll(codec, d, order);
      Persist(codec, d, blob, key);
      ReachesOn(codec, m, Machine(d, Concatenating({}, blob)), Machine(d', StartReading(d')));
      ReachesOn(codec, Machine(d, Moving({})), m, Machine(d', StartReading(d')));
    }
  }

  lemma {:induction false} Persist<D(!new)>(codec: Codec<D>, d: Disk<D>, blob: Bytes, key: string)
    requires SelfDelimiting(codec) && key !in Listing(d.spendable)
    ensures var d' := AfterWrite(d, blob, key);
            Reaches(codec, Machine(d, Concatenating({}, blob)), Machine(d', StartReading(d')))
  {
    var m := Machine(d, Concatenating({}, blob));
    if blob == [] {
      Step(codec, m, NothingToPersist, Machine(d, StartReading(d)));
    } else {
      var written := d.(spendable := Present(Listing(d.spendable)[key := blob]));
      var d' := written.(processing := Missing);
      Step(codec, m, PersistBlob(key), Machine(written, Dropping));
      DropAll(codec, written);
      ReachesOn(codec, m, Machine(written, Dropping), Machine(d', StartReading(d')));
    }
  }

  predicate NothingThere<D>(d: Disk<D>) {
    d.pending.Missing? && d.processing.Missing? && d.spendable.Missing?
  }

  /** A run may do all its moves. */
  lemma {:induction false} ReachesMoved<D(!new)>(codec: Codec<D>, d: Disk<D>)
    requires SelfDelimiting(codec) && !d.sentinel && !NothingThere(d)
    ensures Reaches(codec, Machine(d, Stopped), Machine(AfterMove(d), Moving({})))
  {
    var m := Machine(d, Moving(Listing(d.pending).Keys));
    Step(codec, Machine(d, Stopped), Begin, m);
    MoveStarts(d);
    MoveAll(codec, d, d, Listing(d.pending).Keys);
    ReachesOn(codec, Machine(d, Stopped), m, Machine(AfterMove(d), Moving({})));
  }

  /** It may then write the blob in any order. */
  lemma {:induction false} ReachesWritten<D(!new)>(codec: Codec<D>, d: Disk<D>, order: seq<string>, key: string)
    requires SelfDelimiting(codec) && !d.sentinel && !NothingThere(d)
    requires Ordering(order, Batch(d).Keys) && key !in Listing(d.spendable)
    ensures var d' := AfterWrite(AfterMove(d), Concat(Batch(d), order), key);
            Reaches(codec, Machine(d, Stopped), Machine(d', StartReading(d')))
  {
    var moved := AfterMove(d);
    var d' := AfterWrite(moved, Concat(Batch(d), order), key);
    ReachesMoved(codec, d);
    MovedBatch(d);
    Concatenate(codec, moved, order, key);
    ReachesOn(codec, Machine(d, Stopped), Machine(moved, Moving({})), Machine(d', StartReading(d')));
  }

  /** And then it may complete, with or without the sentinel. */
  lemma {:induction false} ReachesEnd<D(!new)>(codec: Codec<D>, d: Disk<D>, order: seq<string>, key: string,
                                               sealed: bool)
    requires SelfDelimiting(codec) && !d.sentinel
    requires Ordering(order, Batch(d).Keys) && key !in Listing(d.spendable)
    ensures Reaches(codec, Machine(d, Stopped), Machine(AfterAll(codec, d, order, key, sealed), Finished))
  {
    var end := Machine(AfterAll(codec, d, order, key, sealed), Finished);
    if NothingThere(d) {
      EmptyContent(codec);
      assert Batch(d) == map[];
      NothingListed(order);
      Step(codec, Machine(d, Stopped), Begin, Machine(d, Sealing));
      Step(codec, Machine(d, Sealing), if sealed then Seal else SealFails, end);
      ReachesOn(codec, Machine(d, Stopped), Machine(d, Sealing), end);
    } else {
      var written := AfterWrite(AfterMove(d), Concat(Batch(d), order), key);
      ReachesWritten(codec, d, order, key);
      ReadToEnd(codec, written, sealed);
      ReachesOn(codec, Machine(d, Stopped), Machine(written, StartReading(written)), end);
    }
  }

  /** From every disk, and for every order in which the directory may be listed, some run completes: it hands each
      output that was spendable or that the blob yields to the sweeper exactly once, and leaves the sentinel and
      no output in any file. */
  lemma {:induction false} SomeRunCompletes<D(!new)>(codec: Codec<D>, m: Machine<D>, order: seq<string>, key: string)
    returns (m': Machine<D>)
    requires SelfDelimiting(codec) && Init(m) && key !in Listing(m.disk.spendable)
    requires Ordering(order, Batch(m.disk).Keys)
    ensures Reaches(codec, m, m') && m'.phase.Finished? && m'.disk.sentinel
    ensures InFiles(codec, m'.disk) == multiset{}
    ensures m'.disk.tracked ==
            m.disk.tracked + (InBlob(codec, Batch(m.disk), order) + Content(codec, Listing(m.disk.spendable)))
  {
    m' := Machine(AfterAll(codec, m.disk, order, key, true), Finished);
    ReachesEnd(codec, m.disk, order, key, true);
    AfterAllTracked(codec, m.disk, order, key, true);
  }

  // ----- What is lost -----

  /** No descriptor can be read from any of these files. */
  ghost predicate Blank<D(!new)>(codec: Codec<D>, files: Files)
    requires SelfDelimiting(codec)
  {
    forall name | name in files :: DecodeAll(codec, files[name]) == []
  }

  lemma {:induction false} BlankWithout<D(!new)>(codec: Codec<D>, files: Files, name: string)
    requires SelfDelimiting(codec) && name in files
    ensures Blank(codec, files) <==> DecodeAll(codec, files[name]) == [] && Blank(codec, files - {name})
  {
    if DecodeAll(codec, files[name]) == [] && Blank(codec, files - {name}) {
      forall other | other in files ensures DecodeAll(codec, files[other]) == [] {
        assert other == name || other in files - {name};
      }
    }
  }

  lemma {:induction false} NothingInSum<T>(a: multiset<T>, b: multiset<T>)
    ensures a + b == multiset{} <==> |a| == 0 && |b| == 0
  {
    assert |a + b| == |a| + |b|;
  }

  lemma {:induction false} BlankIff<D(!new)>(codec: Codec<D>, files: Files)
    requires SelfDelimiting(codec)
    ensures |Content(codec, files)| == 0 <==> Blank(codec, files)
    decreases |files|
  {
    if files == map[] {
      EmptyContent(codec);
    } else {
      var name :| name in files;
      FewerFiles(files, name);
      var one := DecodeAll(codec, files[name]);
      calc {
        |Content(codec, files)| == 0;
      <==>  { ContentWithout(codec, files, name); NothingInSum(multiset(one), Content(codec, files - {name})); }
        |multiset(one)| == 0 && |Content(codec, files - {name})| == 0;
      <==>  { BlankIff(codec, files - {name}); assert |multiset(one)| == |one|; }
        one == [] && Blank(codec, files - {name});
      <==>  { BlankWithout(codec, files, name); }
        Blank(codec, files);
      }
    }
  }

  /** Every output that was there at first is still in a file or tracked. */
  ghost predicate KeepsAll<D(!new)>(codec: Codec<D>, m: Machine<D>, m': Machine<D>)
    requires SelfDelimiting(codec)
  {
    InFiles(codec, m.disk) + m.disk.tracked <= InFiles(codec, m'.disk) + m'.disk.tracked
  }

  ghost predicate EveryRunKeepsAll<D(!new)>(codec: Codec<D>, m: Machine<D>)
    requires SelfDelimiting(codec)
  {
    forall m' | Reaches(codec, m, m') :: KeepsAll(codec, m, m')
  }

  /** The blob yields, in this order, all that is in its files and in those left behind. */
  ghost predicate YieldsAll<D(!new)>(codec: Codec<D>, d: Disk<D>, order: seq<string>)
    requires SelfDelimiting(codec) && Ordering(order, Batch(d).Keys)
  {
    Content(codec, Batch(d)) + Content(codec, Rest(Listing(d.pending))) <= InBlob(codec, Batch(d), order)
  }

  /** For every disk: every run keeps every output if and only if no output is in a processing file whose name a
      pending file also has, and in every order the blob yields all that its files hold one by one and what is
      left behind in the pending directory. */
  lemma {:induction false} KeepsAllIff<D(!new)>(codec: Codec<D>, m: Machine<D>, key: string)
    requires SelfDelimiting(codec) && Init(m) && key !in Listing(m.disk.spendable)
    ensures EveryRunKeepsAll(codec, m) <==>
            && Blank(codec, Overwritten(m.disk))
            && forall order | Ordering(order, Batch(m.disk).Keys) :: YieldsAll(codec, m.disk, order)
  {
    var d := m.disk;
    if !Blank(codec, Overwritten(d)) {
      OverwritingLoses(codec, m);
    } else if order :| Ordering(order, Batch(d).Keys) && !YieldsAll(codec, d, order) {
      HidingLoses(codec, m, order, key);
    } else {
      AllKept(codec, m);
    }
  }

  lemma {:induction false} OverwritingLoses<D(!new)>(codec: Codec<D>, m: Machine<D>)
    requires SelfDelimiting(codec) && Init(m) && !Blank(codec, Overwritten(m.disk))
    ensures !EveryRunKeepsAll(codec, m)
  {
    var d := m.disk;
    var m' := Machine(AfterMove(d), Moving({}));
    ReachesMoved(codec, d);
    InFilesSplit(codec, d);
    MovedInFiles(codec, d);
    BlankIff(codec, Overwritten(d));
    Fewer(Content(codec, Batch(d)), Content(codec, Rest(Listing(d.pending))), Content(codec, Overwritten(d)),
          Content(codec, Listing(d.spendable)), d.tracked);
    assert !KeepsAll(codec, m, m');
  }

  /** The move itself loses just what it overwrites. */
  lemma {:induction false} MovedInFiles<D(!new)>(codec: Codec<D>, d: Disk<D>)
    requires SelfDelimiting(codec)
    ensures InFiles(codec, AfterMove(d)) ==
            Content(codec, Batch(d)) + Content(codec, Rest(Listing(d.pending))) + Content(codec, Listing(d.spendable))
  {
    MovedBatch(d);
  }

  lemma {:induction false} Fewer<T>(batch: multiset<T>, rest: multiset<T>, lost: multiset<T>, spendable: multiset<T>,
                                    tracked: multiset<T>)
    requires |lost| > 0
    ensures !((batch + rest + lost + spendable) + tracked <= (batch + rest + spendable) + tracked)
  {
    var x :| x in lost;
    assert ((batch + rest + lost + spendable) + tracked)[x] > ((batch + rest + spendable) + tracked)[x];
  }

  lemma {:induction false} HidingLoses<D(!new)>(codec: Codec<D>, m: Machine<D>, order: seq<string>, key: string)
    requires SelfDelimiting(codec) && Init(m) && key !in Listing(m.disk.spendable)
    requires Blank(codec, Overwritten(m.disk))
    requires Ordering(order, Batch(m.disk).Keys) && !YieldsAll(codec, m.disk, order)
    ensures !EveryRunKeepsAll(codec, m)
  {
    var d := m.disk;
    var m' := SomeRunCompletes(codec, m, order, key);
    NoneOverwritten(codec, d);
    NotIncluded(Content(codec, Batch(d)) + Content(codec, Rest(Listing(d.pending))), InBlob(codec, Batch(d), order),
                Content(codec, Listing(d.spendable)), d.tracked);
    assert !KeepsAll(codec, m, m');
  }

  lemma {:induction false} NotIncluded<T>(due: multiset<T>, found: multiset<T>, spendable: multiset<T>,
                                          tracked: multiset<T>)
    requires !(due <= found)
    ensures !((due + spendable) + tracked <= multiset{} + (tracked + (found + spendable)))
  {
    var x :| due[x] > found[x];
    assert ((due + spendable) + tracked)[x] > (multiset{} + (tracked + (found + spendable)))[x];
  }

  lemma {:induction false} NoneOverwritten<D(!new)>(codec: Codec<D>, d: Disk<D>)
    requires SelfDelimiting(codec) && Blank(codec, Overwritten(d))
    ensures InFiles(codec, d) ==
            (Content(codec, Batch(d)) + Content(codec, Rest(Listing(d.pending)))) + Content(codec, Listing(d.spendable))
  {
    InFilesSplit(codec, d);
    BlankIff(codec, Overwritten(d));
    assert Content(codec, Overwritten(d)) == multiset{};
  }

  lemma {:induction false} AllKept<D(!new)>(codec: Codec<D>, m: Machine<D>)
    requires SelfDelimiting(codec) && Init(m) && Blank(codec, Overwritten(m.disk))
    requires forall order | Ordering(order, Batch(m.disk).Keys) :: YieldsAll(codec, m.disk, order)
    ensures EveryRunKeepsAll(codec, m)
  {
    var d := m.disk;
    var rest := Rest(Listing(d.pending));
    var due := Content(codec, Batch(d)) + Content(codec, rest);
    NoneOverwritten(codec, d);
    forall m' | Reaches(codec, m, m') ensures KeepsAll(codec, m, m') {
      var actions :| Leads(codec, m, actions, m');
      assert Recoverable(codec, Batch(d), rest, due) by {
        forall order | Ordering(order, Batch(d).Keys) ensures due <= InBlob(codec, Batch(d), order) {
          assert YieldsAll(codec, d, order);
        }
      }
      MigrationLosesNothing(codec, m, due, actions, m');
    }
  }

  // ----- Files that decode completely -----

  /** Then the blob yields just what its files hold, in every order. */
  lemma {:induction false} WellFormedBlob<D(!new)>(codec: Codec<D>, files: Files, order: seq<string>)
    requires SelfDelimiting(codec) && AllWellFormed(codec, files) && Ordering(order, files.Keys)
    ensures InBlob(codec, files, order) == Content(codec, files)
  {
    WellFormedPart(codec, files, order);
    OnlyAll(files);
    assert Elements(order) == files.Keys;
  }

  lemma {:induction false} WellFormedPart<D(!new)>(codec: Codec<D>, files: Files, order: seq<string>)
    requires SelfDelimiting(codec) && AllWellFormed(codec, files)
    requires Distinct(order) && forall name | name in order :: name in files
    ensures WellFormed(codec, Concat(files, order))
    ensures Of(codec, Concat(files, order)) == Content(codec, Only(files, Elements(order)))
    decreases |order|
  {
    EmptyContent(codec);
    if order == [] {
      assert Only(files, Elements(order)) == map[];
    } else {
      var (init, name) := (order[..|order| - 1], order[|order| - 1]);
      assert Elements(order) - {name} == Elements(init) && name in Elements(order);
      WellFormedPart(codec, files, init);
      calc {
        Of(codec, Concat(files, order));
      ==  { DecodeConcat(codec, Concat(files, init), files[name]); }
        Of(codec, Concat(files, init)) + Of(codec, files[name]);
      ==
        Of(codec, files[name]) + Content(codec, Only(files, Elements(init)));
      ==  { OnlyWithout(codec, files, Elements(order), name); }
        Content(codec, Only(files, Elements(order)));
      }
      assert WellFormed(codec, Concat(files, order)) by {
        DecodeConcat(codec, Concat(files, init), files[name]);
      }
    }
  }

  lemma {:induction false} Listed(names: set<string>) returns (order: seq<string>)
    ensures Ordering(order, names)
    decreases |names|
  {
    order := [];
    if names != {} {
      var name :| name in names;
      order := Listed(names - {name});
      OrderingMore(order, names - {name}, name);
      assert (names - {name}) + {name} == names;
      order := order + [name];
    }
  }

  /** If the files of the batch decode completely, every run keeps every output if and only if none is in a
      processing file that a pending one overwrites, nor in a pending file whose name does not have the expected
      length: the one is replaced by the move; the other is left where it is and deleted with its directory. */
  lemma {:induction false} WellFormedKeepsAllIff<D(!new)>(codec: Codec<D>, m: Machine<D>, key: string)
    requires SelfDelimiting(codec) && Init(m) && key !in Listing(m.disk.spendable)
    requires AllWellFormed(codec, Batch(m.disk))
    ensures var (pending, processing) := (Listing(m.disk.pending), Listing(m.disk.processing));
            EveryRunKeepsAll(codec, m) <==>
            && (forall name | name in pending && |name| != 64 :: DecodeAll(codec, pending[name]) == [])
            && (forall name | name in pending && name in processing && |name| == 64 ::
                  DecodeAll(codec, processing[name]) == [])
  {
    BlankNames(codec, m.disk);
    var d := m.disk;
    var rest := Rest(Listing(d.pending));
    KeepsAllIff(codec, m, key);
    BlankIff(codec, rest);
    forall order | Ordering(order, Batch(d).Keys) ensures YieldsAll(codec, d, order) <==> Blank(codec, rest) {
      WellFormedBlob(codec, Batch(d), order);
      NoMore(Content(codec, Batch(d)), Content(codec, rest));
    }
    var order := Listed(Batch(d).Keys);
  }

  /** Which files are left behind and which overwritten. */
  lemma {:induction false} BlankNames<D(!new)>(codec: Codec<D>, d: Disk<D>)
    requires SelfDelimiting(codec)
    ensures var (pending, processing) := (Listing(d.pending), Listing(d.processing));
            && (Blank(codec, Rest(pending)) <==>
                forall name | name in pending && |name| != 64 :: DecodeAll(codec, pending[name]) == [])
            && (Blank(codec, Overwritten(d)) <==>
                forall name | name in pending && name in processing && |name| == 64 ::
                  DecodeAll(codec, processing[name]) == [])
  {
    var (pending, processing, rest, over) := (Listing(d.pending), Listing(d.processing), Rest(Listing(d.pending)),
                                              Overwritten(d));
    assert forall name :: name in rest <==> name in pending && |name| != 64;
    assert forall name :: name in over <==> name in pending && name in processing && |name| == 64;
    assert forall name | name in rest :: rest[name] == pending[name];
    assert forall name | name in over :: over[name] == processing[name];
  }

  lemma {:induction false} NoMore<T>(batch: multiset<T>, rest: multiset<T>)
    ensures batch + rest <= batch <==> |rest| == 0
  {
    if x :| x in rest {
      assert (batch + rest)[x] > batch[x];
    }
  }
}
