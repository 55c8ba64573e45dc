/** One execution of the migration, loop by loop, on a data directory updated in place. */
module Migration {
  import opened Descriptors
  import opened Sweep
  import opened SweepRuns
  import opened Words
  import opened Wrappers

  /** Which calls fail: listing the pending directory; creating the processing directory, just before one of these
      files would be moved; listing it; writing the blob; handing the outputs to the sweeper; writing the
      sentinel. */
  datatype Faults = Faults(
    listPending: bool,
    create: set<string>,
    listProcessing: bool,
    persist: bool,
    track: bool,
    seal: bool)

  /** The move stops at a directory that cannot be listed, or before a file for which there is no place. */
  predicate MoveFails<D>(d: Disk<D>, faults: Faults) {
    || (faults.listPending && d.pending.Present?)
    || Movable(Listing(d.pending)).Keys * faults.create != {}
  }

  /** Writing the blob fails when there is a directory to list and it cannot be, or something to write. */
  predicate WriteFails<D>(moved: Disk<D>, blob: Bytes, faults: Faults) {
    moved.processing.Present? && (faults.listProcessing || (faults.persist && blob != []))
  }

  /** The execution fails in one of these calls, or in handing over outputs when there are some. */
  ghost predicate Fails<D(!new)>(codec: Codec<D>, d: Disk<D>, order: seq<string>, faults: Faults)
    requires SelfDelimiting(codec) && Ordering(order, Batch(d).Keys)
  {
    || MoveFails(d, faults)
    || WriteFails(AfterMove(d), Concat(Batch(d), order), faults)
    || (faults.track && |Found(codec, d, order)| > 0)
  }

  /** When an execution fails, in terms of the disk: the pending directory exists and cannot be listed; or the
      processing directory cannot be made for a file with a name of 64 characters; or it exists, or comes to exist by
      a move, and cannot be listed, or the blob is not empty and cannot be written; or outputs are found and the sweeper
      does not take them. */
  lemma {:induction false} FailsExactly<D(!new)>(codec: Codec<D>, d: Disk<D>, order: seq<string>, faults: Faults)
    requires SelfDelimiting(codec) && Ordering(order, Batch(d).Keys)
    ensures Fails(codec, d, order, faults) <==>
            || (d.pending.Present? && faults.listPending)
            || (exists name :: name in Listing(d.pending) && |name| == 64 && name in faults.create)
            || ((d.processing.Present? || exists name :: name in Listing(d.pending) && |name| == 64)
                && (faults.listProcessing || (faults.persist && Concat(Batch(d), order) != [])))
            || (faults.track && |Found(codec, d, order)| > 0)
  {
    CreateFails(d, faults);
    ProcessingAppears(d);
  }

  lemma {:induction false} CreateFails<D>(d: Disk<D>, faults: Faults)
    ensures Movable(Listing(d.pending)).Keys * faults.create != {} <==>
            exists name :: name in Listing(d.pending) && |name| == 64 && name in faults.create
  {
    var movable := Movable(Listing(d.pending));
    if name :| name in movable.Keys * faults.create {
      assert name in movable;
    }
    if name :| name in Listing(d.pending) && |name| == 64 && name in faults.create {
      assert name in movable.Keys * faults.create;
    }
  }

  lemma {:induction false} ProcessingAppears<D>(d: Disk<D>)
    ensures AfterMove(d).processing.Present? <==>
            d.processing.Present? || exists name :: name in Listing(d.pending) && |name| == 64
  {
    var movable := Movable(Listing(d.pending));
    if name :| name in Listing(d.pending) && |name| == 64 {
      assert name in movable;
    } else {
      assert movable == map[];
    }
  }

  /** The outputs that an execution finds. */
  ghost function Found<D(!new)>(codec: Codec<D>, d: Disk<D>, order: seq<string>): (r: multiset<D>)
    requires SelfDelimiting(codec) && Ordering(order, Batch(d).Keys)
  {
    InBlob(codec, Batch(d), order) + Content(codec, Listing(d.spendable))
  }

  /** What a failed execution may leave: the batch as it was, or its blob. */
  ghost predicate Unmigrated<D(!new)>(before: Disk<D>, after: Disk<D>, order: seq<string>, key: string)
    requires Ordering(order, Batch(before).Keys)
  {
    && after.tracked == before.tracked && after.sentinel == before.sentinel
    && Rest(Listing(after.pending)) == Rest(Listing(before.pending))
    && ((Batch(after) == Batch(before) && after.spendable == before.spendable)
        || after == AfterWrite(AfterMove(before), Concat(Batch(before), order), key))
  }

  /** Appending the files one after the other; `order` is the order in which the directory lists them. */
  method ConcatenateFiles(files: Files) returns (outputs: Bytes, order: seq<string>)
    ensures Ordering(order, files.Keys) && outputs == Concat(files, order)
  {
    outputs, order := [], [];
    var todo := files.Keys;
    while todo != {}
      invariant todo <= files.Keys
      invariant Ordering(order, files.Keys - todo) && outputs == Concat(files, order)
      decreases |todo|
    {
      var name :| name in todo;
      OrderingMore(order, files.Keys - todo, name);
      assert (files.Keys - todo) + {name} == files.Keys - (todo - {name});
      assert (order + [name])[..|order|] == order;
      outputs, order := outputs + files[name], order + [name];
      todo := todo - {name};
    }
    assert files.Keys - {} == files.Keys;
  }

  /** Reading every file of `spendable_outputs`. */
  method ReadAllSpendableOutputs<D(!new)>(codec: Codec<D>, files: Files) returns (outputs: seq<D>)
    requires SelfDelimiting(codec)
    ensures multiset(outputs) == Content(codec, files)
  {
    outputs := [];
    var todo := files.Keys;
    EmptyContent(codec);
    OnlyAll(files);
    while todo != {}
      invariant todo <= files.Keys
      invariant multiset(outputs) + Content(codec, Only(files, todo)) == Content(codec, files)
      decreases |todo|
    {
      var name :| name in todo;
      OnlyWithout(codec, files, todo, name);
      outputs := ReadOutputsFromFile(codec, files[name], outputs);
      todo := todo - {name};
    }
  }

  /** Where the move stands, and that it got there by steps of the machine. */
  ghost predicate MovedSoFar<D(!new)>(codec: Codec<D>, before: Disk<D>, d: Disk<D>, todo: set<string>)
    requires SelfDelimiting(codec)
  {
    && PartlyMoved(before, d, todo)
    && Reaches(codec, Machine(before, Moving(Listing(before.pending).Keys)), Machine(d, Moving(todo)))
  }

  lemma {:induction false} MoveStep<D(!new)>(codec: Codec<D>, before: Disk<D>, d: Disk<D>, todo: set<string>,
                                             name: string)
    requires SelfDelimiting(codec) && MovedSoFar(codec, before, d, todo) && name in todo
    ensures name in Listing(d.pending)
    ensures |name| == FILE_NAME_LENGTH ==>
              name in Movable(Listing(before.pending)) && MovedSoFar(codec, before, Rename(d, name), todo - {name})
    ensures |name| != FILE_NAME_LENGTH ==>
              name !in Movable(Listing(before.pending)) && MovedSoFar(codec, before, d, todo - {name})
  {
    var m := Machine(d, Moving(todo));
    var m' := Machine(if |name| == FILE_NAME_LENGTH then Rename(d, name) else d, Moving(todo - {name}));
    MoveGoesOn(before, d, todo, name);
    Step(codec, m, MoveOne(name), m');
    ReachesOn(codec, Machine(before, Moving(Listing(before.pending).Keys)), m, m');
    assert |name| == FILE_NAME_LENGTH ==> name in Movable(Listing(d.pending)).Keys;
  }

  /** Renames move the files with a name of the expected length: all of them, or those before the failure. */
  method MovePendingToProcessing<D(!new, ==)>(ghost codec: Codec<D>, disk: Disk<D>, faults: Faults)
    returns (ok: bool, moved: Disk<D>, ghost left: set<string>)
    requires SelfDelimiting(codec)
    ensures !ok <==> MoveFails(disk, faults)
    ensures ok ==> moved == AfterMove(disk)
    ensures ok ==> MovedByName(disk, moved)
    ensures MovedSoFar(codec, disk, moved, left)
  {
    moved := disk;
    var todo := Listing(disk.pending).Keys;
    MoveBegins(codec, disk, faults);
    if faults.listPending && disk.pending.Present? {
      return false, moved, todo;
    }
    while todo != {}
      invariant MovedSoFar(codec, disk, moved, todo) && Creatable(disk, todo, faults)
      decreases |todo|
    {
      var name :| name in todo;
      MoveStep(codec, disk, moved, todo, name);
      if |name| == FILE_NAME_LENGTH {
        if name in faults.create {
          assert name in Movable(Listing(disk.pending)).Keys * faults.create;
          return false, moved, todo;
        }
        moved := Rename(moved, name);
      }
      CreatableStep(disk, todo, faults, name);
      todo := todo - {name};
    }
    MoveEnds(disk, moved);
    MovedNames(disk);
    return true, moved, {};
  }

  /** The files with names of 64 characters have moved as they were, and the others have stayed. */
  ghost predicate MovedByName<D>(before: Disk<D>, after: Disk<D>) {
    var pending := Listing(before.pending);
    forall name | name in pending ::
      if |name| == 64 then name !in Listing(after.pending) && Holds(after.processing, name, pending[name])
      else Holds(after.pending, name, pending[name])
  }

  ghost predicate Holds(dir: Dir, name: string, bytes: Bytes) {
    name in Listing(dir) && Listing(dir)[name] == bytes
  }

  lemma {:induction false} MovedNames<D>(d: Disk<D>)
    ensures MovedByName(d, AfterMove(d))
  {
    forall name | name in Listing(d.pending) {
      MoveExactly(d, name);
    }
  }

  /** No file looked at so far failed for want of a directory. */
  predicate Creatable<D>(d: Disk<D>, todo: set<string>, faults: Faults) {
    forall name | name in Movable(Listing(d.pending)) && name in faults.create :: name in todo
  }

  lemma {:induction false} CreatableStep<D>(d: Disk<D>, todo: set<string>, faults: Faults, name: string)
    requires Creatable(d, todo, faults) && (name !in Movable(Listing(d.pending)) || name !in faults.create)
    ensures Creatable(d, todo - {name}, faults)
  {
  }

  lemma {:induction false} MoveBegins<D(!new)>(codec: Codec<D>, d: Disk<D>, faults: Faults)
    requires SelfDelimiting(codec)
    ensures MovedSoFar(codec, d, d, Listing(d.pending).Keys)
    ensures Creatable(d, Listing(d.pending).Keys, faults)
  {
    MoveStarts(d);
    Here(codec, Machine(d, Moving(Listing(d.pending).Keys)));
  }

  class DataDir<D(!new, ==)> {
    const codec: Codec<D>
    var disk: Disk<D>

    constructor (codec: Codec<D>, disk: Disk<D>)
      ensures this.codec == codec && this.disk == disk
    {
      this.codec, this.disk := codec, disk;
    }

    /** One blob for all the files of the processing directory, which is then removed; if the directory cannot be
        listed or the blob not be written, nothing changes. */
    method ConcatenateProcessingOutputs(key: string, faults: Faults) returns (ok: bool, ghost order: seq<string>)
      requires SelfDelimiting(codec) && key !in Listing(disk.spendable)
      modifies this
      ensures Ordering(order, Listing(old(disk).processing).Keys)
      ensures var blob := Concat(Listing(old(disk).processing), order);
              && (!ok <==> WriteFails(old(disk), blob, faults))
              && disk == if ok then AfterWrite(old(disk), blob, key) else old(disk)
    {
      if disk.processing.Missing? {
        return true, [];
      }
      if faults.listProcessing {
        order := Listed(Listing(disk.processing).Keys);
        return false, order;
      }
      var outputs, listed := ConcatenateFiles(Listing(disk.processing));
      order := listed;
      if outputs == [] {
        return true, order;
      }
      if faults.persist {
        return false, order;
      }
      disk := disk.(spendable := Present(Listing(disk.spendable)[key := outputs]));
      disk := disk.(processing := Missing);
      return true, order;
    }

    /** One execution is a run of the step machine, so what holds of every run holds of it. It says exactly when it
        fails; if it does not, the outputs it finds have been handed to the sweeper, each once, and counted, the
        directories are gone and the sentinel has been attempted; if it does, nothing is tracked and the batch
        or its blob is still there. With the sentinel nothing is done. */
    method TryMigrate(key: string, faults: Faults) returns (migrated: Option<nat>, ghost order: seq<string>)
      requires SelfDelimiting(codec) && key !in Listing(disk.spendable)
      modifies this
      ensures exists phase :: Reaches(codec, Machine(old(disk), Stopped), Machine(disk, phase))
      ensures old(disk).sentinel ==> disk == old(disk) && migrated == Some(0)
      ensures !old(disk).sentinel ==>
                && Ordering(order, Batch(old(disk)).Keys)
                && (migrated.None? <==> Fails(codec, old(disk), order, faults))
                && match migrated
                   case Some(count) =>
                     && disk == AfterAll(codec, old(disk), order, key, !faults.seal)
                     && count == |Found(codec, old(disk), order)|
                   case None => Unmigrated(old(disk), disk, order, key)
    {
      ghost var start := Machine(disk, Stopped);
      if disk.sentinel {
        Here(codec, start);
        return Some(0), [];
      }
      if disk.pending.Missing? && disk.processing.Missing? && disk.spendable.Missing? {
        order := [];
        EmptyContent(codec);
        ReachesEnd(codec, disk, order, key, !faults.seal);
        assert AfterAll(codec, disk, order, key, !faults.seal) == disk.(sentinel := !faults.seal);
        disk := disk.(sentinel := !faults.seal);
        return Some(0), order;
      }
      migrated, order := MigrateFiles(key, faults);
      if migrated.Some? {
        ReachesEnd(codec, start.disk, order, key, !faults.seal);
        disk := disk.(sentinel := !faults.seal);
      }
    }

    method MigrateFiles(key: string, faults: Faults) returns (migrated: Option<nat>, ghost order: seq<string>)
      requires SelfDelimiting(codec) && key !in Listing(disk.spendable)
      requires !disk.sentinel && !NothingThere(disk)
      modifies this
      ensures migrated.None? ==> exists phase :: Reaches(codec, Machine(old(disk), Stopped), Machine(disk, phase))
      ensures Ordering(order, Batch(old(disk)).Keys)
      ensures migrated.None? <==> Fails(codec, old(disk), order, faults)
      ensures match migrated
              case Some(count) =>
                && disk == AfterAll(codec, old(disk), order, key, false)
                && count == |Found(codec, old(disk), order)|
              case None => Unmigrated(old(disk), disk, order, key)
    {
      ghost var before := disk;
      ghost var left: set<string>;
      var ok: bool;
      ok, disk, left := MovePendingToProcessing(codec, disk, faults);
      MovedBatch(before);
      if !ok {
        order := Listed(Batch(before).Keys);
        MoveBegun(codec, before, disk, left);
        return None, order;
      }
      ok, order := ConcatenateProcessingOutputs(key, faults);
      if !ok {
        ReachesMoved(codec, before);
        return None, order;
      }
      var outputs := ReadAllSpendableOutputs(codec, Listing(disk.spendable));
      WrittenContent(codec, before, order, key, outputs);
      if |outputs| > 0 {
        if faults.track {
          ReachesWritten(codec, before, order, key);
          return None, order;
        }
        disk := disk.(tracked := disk.tracked + multiset(outputs));
      }
      disk := disk.(spendable := Missing);
      disk := disk.(pending := Missing);
      return Some(|outputs|), order;
    }
  }

  lemma {:induction false} MoveBegun<D(!new)>(codec: Codec<D>, before: Disk<D>, d: Disk<D>, left: set<string>)
    requires SelfDelimiting(codec) && !before.sentinel && !NothingThere(before)
    requires MovedSoFar(codec, before, d, left)
    ensures Reaches(codec, Machine(before, Stopped), Machine(d, Moving(left)))
  {
    var m := Machine(before, Moving(Listing(before.pending).Keys));
    Step(codec, Machine(before, Stopped), Begin, m);
    ReachesOn(codec, Machine(before, Stopped), m, Machine(d, Moving(left)));
  }

  lemma {:induction false} WrittenContent<D(!new)>(codec: Codec<D>, d: Disk<D>, order: seq<string>, key: string,
                                                   outputs: seq<D>)
    requires SelfDelimiting(codec) && Ordering(order, Batch(d).Keys) && key !in Listing(d.spendable)
    requires var written := AfterWrite(AfterMove(d), Concat(Batch(d), order), key);
             multiset(outputs) == Content(codec, Listing(written.spendable))
    ensures multiset(outputs) == Found(codec, d, order) && |outputs| == |Found(codec, d, order)|
  {
    var blob := Concat(Batch(d), order);
    EmptyContent(codec);
    ContentWith(codec, Listing(d.spendable), key, blob);
    assert |multiset(outputs)| == |outputs|;
  }
}
