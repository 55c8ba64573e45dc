/** The migration of deprecated spendable outputs, one file operation at a time, interrupted at any point
    and re-run any number of times.

    Assumed: store writes are atomic, the blob's random key is new, tracked outputs are durable once the
    sweeper accepts them, nothing else writes these directories, and no entry is skipped: listings, renames
    and reads succeed. Any error that aborts the migration is a `Crash` here, and so is a restart. */
module Sweep {
  import opened Counting
  import opened Descriptors
  import opened Sums
  import opened Words

  type Files = map<string, Bytes>

  datatype Dir = Missing | Present(files: Files)

  function Listing(dir: Dir): (files: Files) {
    match dir
    case Missing => map[]
    case Present(files) => files
  }

  datatype Disk<!D> = Disk(
    pending: Dir,
    processing: Dir,
    spendable: Dir,
    tracked: multiset<D>, // held by the output sweeper
    sentinel: bool)

  /** Where the migration is. Everything here is lost in a crash. */
  datatype Phase<D> =
    | Stopped
    | Moving(todo: set<string>)
    | Concatenating(todo: set<string>, buffer: Bytes)
    | Dropping
    | Reading(todo: set<string>, outputs: seq<D>)
    | Tracking(outputs: seq<D>)
    | Clearing
    | Sealing
    | Finished

  datatype Machine<!D> = Machine(disk: Disk<D>, phase: Phase<D>)

  datatype Action =
    | Begin
    | MoveOne(name: string)
    | MoveDone
    | AppendOne(name: string)
    | NothingToPersist
    | PersistBlob(key: string)
    | DropOne(name: string)
    | DropDone(processing: Dir)
    | ReadOne(name: string)
    | ReadDone
    | TrackOutputs
    | ClearSpendable(name: string)
    | ClearPending(name: string)
    | ClearDone(spendable: Dir, pending: Dir)
    | Seal
    | SealFails
    | Crash

  const FILE_NAME_LENGTH := 64

  /** Removing a directory is best effort: it may survive, and it is gone only after its last file. */
  predicate Removed(before: Dir, after: Dir) {
    after == before || (Listing(before) == map[] && after == Missing)
  }

  function StartReading<D>(disk: Disk<D>): (p: Phase<D>) {
    Reading(Listing(disk.spendable).Keys, [])
  }

  /** `fs::rename` replaces a file of the same name. */
  function Rename<D>(disk: Disk<D>, name: string): (r: Disk<D>)
    requires name in Listing(disk.pending)
  {
    var bytes := Listing(disk.pending)[name];
    disk.(pending := Present(Listing(disk.pending) - {name}),
          processing := Present(Listing(disk.processing)[name := bytes]))
  }

  ghost predicate Next<D(!new)>(codec: Codec<D>, m: Machine<D>, a: Action, m': Machine<D>)
    requires SelfDelimiting(codec)
  {
    var d := m.disk;
    match a
    case Begin =>
      m.phase.Stopped? && m' == m.(phase :=
        if d.sentinel then Finished
        else if d.pending.Missing? && d.processing.Missing? && d.spendable.Missing? then Sealing
        else Moving(Listing(d.pending).Keys))
    case MoveOne(name) =>
      && m.phase.Moving? && name in m.phase.todo && name in Listing(d.pending)
      && m' == Machine(if |name| == FILE_NAME_LENGTH then Rename(d, name) else d, Moving(m.phase.todo - {name}))
    case MoveDone =>
      && m.phase == Moving({})
      && m' == m.(phase := if d.processing.Missing? then StartReading(d)
                           else Concatenating(Listing(d.processing).Keys, []))
    case AppendOne(name) =>
      && m.phase.Concatenating? && name in m.phase.todo && name in Listing(d.processing)
      && m' == m.(phase := Concatenating(m.phase.todo - {name}, m.phase.buffer + Listing(d.processing)[name]))
    case NothingToPersist =>
      m.phase == Concatenating({}, []) && m' == m.(phase := StartReading(d))
    case PersistBlob(key) =>
      && m.phase.Concatenating? && m.phase.todo == {} && m.phase.buffer != [] && key !in Listing(d.spendable)
      && m' == Machine(d.(spendable := Present(Listing(d.spendable)[key := m.phase.buffer])), Dropping)
    case DropOne(name) =>
      && m.phase.Dropping? && name in Listing(d.processing)
      && m' == m.(disk := d.(processing := Present(Listing(d.processing) - {name})))
    case DropDone(processing) =>
      && m.phase.Dropping? && Removed(d.processing, processing)
      && m' == Machine(d.(processing := processing), StartReading(d))
    case ReadOne(name) =>
      && m.phase.Reading? && name in m.phase.todo && name in Listing(d.spendable)
      && m' == m.(phase := Reading(m.phase.todo - {name},
                                   m.phase.outputs + DecodeAll(codec, Listing(d.spendable)[name])))
    case ReadDone => m.phase.Reading? && m.phase.todo == {} && m' == m.(phase := Tracking(m.phase.outputs))
    case TrackOutputs =>
      m.phase.Tracking? && m' == Machine(d.(tracked := d.tracked + multiset(m.phase.outputs)), Clearing)
    case ClearSpendable(name) =>
      && m.phase.Clearing? && name in Listing(d.spendable)
      && m' == m.(disk := d.(spendable := Present(Listing(d.spendable) - {name})))
    case ClearPending(name) =>
      && m.phase.Clearing? && name in Listing(d.pending)
      && m' == m.(disk := d.(pending := Present(Listing(d.pending) - {name})))
    case ClearDone(spendable, pending) =>
      && m.phase.Clearing? && Removed(d.spendable, spendable) && Removed(d.pending, pending)
      && m' == Machine(d.(spendable := spendable, pending := pending), Sealing)
    case Seal => m.phase.Sealing? && m' == Machine(d.(sentinel := true), Finished)
    case SealFails => m.phase.Sealing? && m' == m.(phase := Finished)
    case Crash => m' == m.(phase := Stopped)
  }

  // ----- The descriptors in a directory -----

  /** The descriptors read from one file. */
  ghost function Of<D(!new)>(codec: Codec<D>, bytes: Bytes): (r: multiset<D>)
    requires SelfDelimiting(codec)
  {
    multiset(DecodeAll(codec, bytes))
  }

  ghost function Parts<D(!new)>(codec: Codec<D>, files: Files): (r: map<string, multiset<D>>)
    requires SelfDelimiting(codec)
  {
    map name | name in files :: Of(codec, files[name])
  }

  ghost function Content<D(!new)>(codec: Codec<D>, files: Files): (r: multiset<D>)
    requires SelfDelimiting(codec)
  {
    Sum(Parts(codec, files))
  }

  lemma {:induction false} ContentWithout<D(!new)>(codec: Codec<D>, files: Files, name: string)
    requires SelfDelimiting(codec) && name in files
    ensures Content(codec, files) == Of(codec, files[name]) + Content(codec, files - {name})
  {
    SumWithout(Parts(codec, files), name);
    assert Parts(codec, files) - {name} == Parts(codec, files - {name});
  }

  lemma {:induction false} ContentWith<D(!new)>(codec: Codec<D>, files: Files, name: string, bytes: Bytes)
    requires SelfDelimiting(codec)
    ensures Content(codec, files[name := bytes]) == Of(codec, bytes) + Content(codec, files - {name})
    ensures name !in files ==> files - {name} == files
  {
    PutRemove(files, name, bytes);
    ContentWithout(codec, files[name := bytes], name);
  }

  lemma {:induction false} PutRemove(files: Files, name: string, bytes: Bytes)
    ensures files[name := bytes] - {name} == files - {name}
    ensures name !in files ==> files - {name} == files
  {
  }

  ghost predicate AllWellFormed<D(!new)>(codec: Codec<D>, files: Files)
    requires SelfDelimiting(codec)
  {
    forall name | name in files :: WellFormed(codec, files[name])
  }

  function Only(files: Files, todo: set<string>): (r: Files) {
    map name | name in files && name in todo :: files[name]
  }

  lemma {:induction false} OnlyWithout<D(!new)>(codec: Codec<D>, files: Files, todo: set<string>, name: string)
    requires SelfDelimiting(codec) && name in files && name in todo
    ensures Content(codec, Only(files, todo)) ==
            Of(codec, files[name]) + Content(codec, Only(files, todo - {name}))
  {
    ContentWithout(codec, Only(files, todo), name);
    assert Only(files, todo) - {name} == Only(files, todo - {name});
  }

  lemma {:induction false} OnlyAll(files: Files)
    ensures Only(files, files.Keys) == files && Only(files, {}) == map[]
  {
  }

  lemma {:induction false} ContentUnion<D(!new)>(codec: Codec<D>, files: Files, more: Files)
    requires SelfDelimiting(codec) && files.Keys !! more.Keys
    ensures Content(codec, files + more) == Content(codec, more) + Content(codec, files)
    decreases |more|
  {
    if more == map[] {
      EmptyContent(codec);
      assert files + more == files;
    } else {
      var name :| name in more;
      var rest := more - {name};
      UnionWithout(files, more, name);
      calc {
        Content(codec, files + more);
      ==  { ContentWithout(codec, files + more, name); }
        Of(codec, more[name]) + Content(codec, files + rest);
      ==  { ContentUnion(codec, files, rest); }
        Of(codec, more[name]) + (Content(codec, rest) + Content(codec, files));
      ==
        (Of(codec, more[name]) + Content(codec, rest)) + Content(codec, files);
      ==  { ContentWithout(codec, more, name); }
        Content(codec, more) + Content(codec, files);
      }
    }
  }

  lemma {:induction false} UnionWithout(files: Files, more: Files, name: string)
    requires files.Keys !! more.Keys && name in more
    ensures (files + more) - {name} == files + (more - {name}) && (files + more)[name] == more[name]
    ensures |more - {name}| < |more|
  {
    assert (more - {name}).Keys == more.Keys - {name};
  }

  /** A rename keeps every descriptor exactly when it overwrites none. */
  lemma {:induction false} RenameKeeps<D(!new)>(codec: Codec<D>, disk: Disk<D>, name: string)
    requires SelfDelimiting(codec) && name in Listing(disk.pending)
    ensures var (d, d') := (disk, Rename(disk, name));
            Content(codec, Listing(d'.pending)) + Content(codec, Listing(d'.processing)) ==
            Content(codec, Listing(d.pending)) + Content(codec, Listing(d.processing))
            <==> name !in Listing(d.processing) || DecodeAll(codec, Listing(d.processing)[name]) == []
  {
    var (pending, processing) := (Listing(disk.pending), Listing(disk.processing));
    var bytes := pending[name];
    ContentWithout(codec, pending, name);
    ContentWith(codec, processing, name, bytes);
    if name in processing {
      ContentWithout(codec, processing, name);
      var overwritten := DecodeAll(codec, processing[name]);
      assert |multiset(overwritten)| == |overwritten|;
      Regroup(Content(codec, pending - {name}), Of(codec, bytes), Content(codec, processing - {name}),
              multiset(overwritten));
    } else {
      Regroup(Content(codec, pending - {name}), Of(codec, bytes), Content(codec, processing), multiset{});
    }
  }

  lemma {:induction false} Regroup<T>(a: multiset<T>, b: multiset<T>, c: multiset<T>, lost: multiset<T>)
    ensures a + (b + c) == (b + a) + (lost + c) <==> |lost| == 0
  {
    assert |a + (b + c)| + |lost| == |(b + a) + (lost + c)|;
    if |lost| == 0 {
      assert lost == multiset{};
    }
  }

  // ----- What the files of a disk come to -----

  /** The files that the move takes: those whose name has the expected length. */
  function Movable(files: Files): (r: Files) {
    map name | name in files && |name| == FILE_NAME_LENGTH :: files[name]
  }

  /** Those it leaves in the pending directory. */
  function Rest(files: Files): (r: Files) {
    map name | name in files && |name| != FILE_NAME_LENGTH :: files[name]
  }

  /** What the processing directory will hold when the move is done. */
  function Batch<D>(d: Disk<D>): (r: Files) {
    Listing(d.processing) + Movable(Listing(d.pending))
  }

  /** The files in the processing directory that the move will overwrite. */
  function Overwritten<D>(d: Disk<D>): (r: Files) {
    Only(Listing(d.processing), Movable(Listing(d.pending)).Keys)
  }

  ghost function InFiles<D(!new)>(codec: Codec<D>, d: Disk<D>): (r: multiset<D>)
    requires SelfDelimiting(codec)
  {
    Content(codec, Listing(d.pending)) + Content(codec, Listing(d.processing)) + Content(codec, Listing(d.spendable))
  }

  /** Every output on disk is in the batch, in a file that the move overwrites or leaves, or spendable. */
  lemma {:induction false} InFilesSplit<D(!new)>(codec: Codec<D>, d: Disk<D>)
    requires SelfDelimiting(codec)
    ensures InFiles(codec, d) ==
            Content(codec, Batch(d)) + Content(codec, Rest(Listing(d.pending)))
            + Content(codec, Overwritten(d)) + Content(codec, Listing(d.spendable))
  {
    var (pending, processing) := (Listing(d.pending), Listing(d.processing));
    var movable := Movable(pending);
    var others := processing - movable.Keys;
    FilesSplit(d);
    ContentUnion(codec, Rest(pending), movable);
    ContentUnion(codec, others, Overwritten(d));
    ContentUnion(codec, others, movable);
    Exchange(Content(codec, movable), Content(codec, Rest(pending)), Content(codec, Overwritten(d)),
             Content(codec, others), Content(codec, Listing(d.spendable)));
  }

  lemma {:induction false} FilesSplit<D>(d: Disk<D>)
    ensures var (pending, processing) := (Listing(d.pending), Listing(d.processing));
            var (movable, others) := (Movable(pending), processing - Movable(pending).Keys);
            && Rest(pending).Keys !! movable.Keys && Rest(pending) + movable == pending
            && others.Keys !! Overwritten(d).Keys && others + Overwritten(d) == processing
            && others.Keys !! movable.Keys && others + movable == Batch(d)
  {
  }

  lemma {:induction false} Exchange<T>(movable: multiset<T>, rest: multiset<T>, overwritten: multiset<T>,
                                       others: multiset<T>, spendable: multiset<T>)
    ensures (movable + rest) + (overwritten + others) + spendable ==
            (movable + others) + rest + overwritten + spendable
  {
  }

  // ----- The blob, for each order in which the directory may be listed -----

  /** A listing of `names`, in some order. */
  ghost predicate Ordering(order: seq<string>, names: set<string>) {
    Distinct(order) && forall name :: name in order <==> name in names
  }

  function Concat(files: Files, order: seq<string>): (r: Bytes)
    requires forall name | name in order :: name in files
  {
    if order == [] then []
    else Concat(files, order[..|order| - 1]) + files[order[|order| - 1]]
  }

  /** What is read from the blob that this order yields. */
  ghost function InBlob<D(!new)>(codec: Codec<D>, files: Files, order: seq<string>): (r: multiset<D>)
    requires SelfDelimiting(codec) && Ordering(order, files.Keys)
  {
    Of(codec, Concat(files, order))
  }

  /** The outputs `due` are in the files, and are read from their blob whatever the order. */
  ghost predicate Recoverable<D(!new)>(codec: Codec<D>, batch: Files, rest: Files, due: multiset<D>)
    requires SelfDelimiting(codec)
  {
    && due <= Content(codec, batch) + Content(codec, rest)
    && forall order | Ordering(order, batch.Keys) :: due <= InBlob(codec, batch, order)
  }

  /** The buffer holds the files that are not in `todo`, in some order. */
  ghost predicate Appended(files: Files, todo: set<string>, buffer: Bytes) {
    exists order :: Ordering(order, files.Keys - todo) && buffer == Concat(files, order)
  }

  lemma {:induction false} OrderingMore(order: seq<string>, names: set<string>, name: string)
    requires Ordering(order, names) && name !in names
    ensures Ordering(order + [name], names + {name})
  {
  }

  lemma {:induction false} AppendedMore(files: Files, todo: set<string>, buffer: Bytes, name: string)
    requires Appended(files, todo, buffer) && name in todo && name in files
    ensures Appended(files, todo - {name}, buffer + files[name])
  {
    var order :| Ordering(order, files.Keys - todo) && buffer == Concat(files, order);
    OrderingMore(order, files.Keys - todo, name);
    assert (files.Keys - todo) + {name} == files.Keys - (todo - {name});
    assert (order + [name])[..|order|] == order;
  }

  lemma {:induction false} AppendedNone(files: Files)
    ensures Appended(files, files.Keys, [])
  {
    assert Ordering([], files.Keys - files.Keys) && Concat(files, []) == [];
  }

  // ----- The invariant -----

  /** What there was before the first run: the batch, the files that are left in the pending directory, the outputs
      due from these, those in `spendable_outputs` and those tracked. */
  datatype Origin<!D> = Origin(
    batch: Files,
    rest: Files,
    due: multiset<D>,
    spendable: multiset<D>,
    tracked: multiset<D>)

  /** All outputs due have been handed to the sweeper. */
  ghost predicate AllTracked<D(!new)>(o: Origin<D>, d: Disk<D>) {
    o.tracked + (o.due + o.spendable) <= d.tracked
  }

  ghost predicate DueIn<D(!new)>(o: Origin<D>, d: Disk<D>, where: multiset<D>) {
    AllTracked(o, d) || o.due + o.spendable <= where
  }

  /** No blob has been written yet. */
  ghost predicate Unwritten<D(!new)>(codec: Codec<D>, o: Origin<D>, d: Disk<D>)
    requires SelfDelimiting(codec)
  {
    && Batch(d) == o.batch
    && Rest(Listing(d.pending)) == o.rest
    && o.spendable <= Content(codec, Listing(d.spendable))
  }

  /** All outputs due are tracked or in `spendable_outputs`. */
  ghost predicate Secured<D(!new)>(codec: Codec<D>, o: Origin<D>, d: Disk<D>)
    requires SelfDelimiting(codec)
  {
    DueIn(o, d, Content(codec, Listing(d.spendable)))
  }

  /** What each phase has established. */
  ghost predicate Staged<D(!new)>(codec: Codec<D>, o: Origin<D>, m: Machine<D>)
    requires SelfDelimiting(codec)
  {
    var d := m.disk;
    var spendable := Listing(d.spendable);
    match m.phase
    case Stopped | Finished => true
    case Moving(todo) => Movable(Listing(d.pending)).Keys <= todo
    case Concatenating(todo, buffer) =>
      Movable(Listing(d.pending)) == map[] && Appended(Listing(d.processing), todo, buffer)
    case Dropping => Secured(codec, o, d)
    case Reading(todo, outputs) =>
      && Secured(codec, o, d)
      && Content(codec, spendable) == multiset(outputs) + Content(codec, Only(spendable, todo))
    case Tracking(outputs) => DueIn(o, d, multiset(outputs))
    case Clearing | Sealing => AllTracked(o, d)
  }

  ghost predicate Inv<D(!new)>(codec: Codec<D>, o: Origin<D>, m: Machine<D>)
    requires SelfDelimiting(codec)
  {
    && o.tracked <= m.disk.tracked
    && (Secured(codec, o, m.disk) || Unwritten(codec, o, m.disk))
    && Staged(codec, o, m)
    && (m.disk.sentinel ==> AllTracked(o, m.disk) && (m.phase.Stopped? || m.phase.Finished?))
  }

  lemma {:induction false} EmptyContent<D(!new)>(codec: Codec<D>)
    requires SelfDelimiting(codec)
    ensures Content(codec, map[]) == multiset{} && DecodeAll(codec, []) == [] && WellFormed(codec, [])
  {
    assert Parts(codec, map[]) == map[];
    assert codec([]).Malformed?;
  }

  lemma {:induction false} StartReadingStaged<D(!new)>(codec: Codec<D>, o: Origin<D>, d: Disk<D>)
    requires SelfDelimiting(codec) && Secured(codec, o, d)
    ensures Staged(codec, o, Machine(d, StartReading(d)))
  {
    OnlyAll(Listing(d.spendable));
  }

  /** When the whole batch is in the buffer, so is everything due. */
  lemma {:induction false} DueInBuffer<D(!new)>(codec: Codec<D>, o: Origin<D>, d: Disk<D>, buffer: Bytes)
    requires SelfDelimiting(codec) && Unwritten(codec, o, d) && Recoverable(codec, o.batch, o.rest, o.due)
    requires Movable(Listing(d.pending)) == map[] && Appended(Listing(d.processing), {}, buffer)
    ensures o.due <= Of(codec, buffer)
  {
    var files := Listing(d.processing);
    assert Batch(d) == files;
    assert files.Keys - {} == files.Keys;
    var order :| Ordering(order, files.Keys) && buffer == Concat(files, order);
    assert o.due <= InBlob(codec, files, order);
  }

  lemma {:induction false} NothingDue<D(!new)>(codec: Codec<D>, o: Origin<D>, d: Disk<D>)
    requires SelfDelimiting(codec) && Unwritten(codec, o, d) && Recoverable(codec, o.batch, o.rest, o.due)
    requires Movable(Listing(d.pending)) == map[] && Appended(Listing(d.processing), {}, [])
    ensures Secured(codec, o, d)
  {
    DueInBuffer(codec, o, d, []);
    EmptyContent(codec);
  }

  lemma {:induction false} BeginKeeps<D(!new)>(codec: Codec<D>, o: Origin<D>, m: Machine<D>, m': Machine<D>)
    requires SelfDelimiting(codec) && Recoverable(codec, o.batch, o.rest, o.due)
    requires Inv(codec, o, m) && Next(codec, m, Begin, m')
    ensures Inv(codec, o, m')
  {
    EmptyContent(codec);
    if m'.phase.Sealing? && !Secured(codec, o, m.disk) {
      AppendedNone(map[]);
      NothingDue(codec, o, m.disk);
    }
  }

  lemma {:induction false} MoveOneKeeps<D(!new)>(codec: Codec<D>, o: Origin<D>, m: Machine<D>, name: string,
                                                 m': Machine<D>)
    requires SelfDelimiting(codec) && Inv(codec, o, m) && Next(codec, m, MoveOne(name), m')
    ensures Inv(codec, o, m')
  {
    FilesWithout(Listing(m.disk.pending), name);
    if |name| == FILE_NAME_LENGTH {
      RenameBatch(m.disk, name);
    }
  }

  lemma {:induction false} FilesWithout(files: Files, name: string)
    ensures Movable(files - {name}) == Movable(files) - {name}
    ensures Rest(files - {name}) == Rest(files) - {name}
  {
  }

  /** A rename changes neither the batch nor what is left. */
  lemma {:induction false} RenameBatch<D>(d: Disk<D>, name: string)
    requires name in Movable(Listing(d.pending))
    ensures Batch(Rename(d, name)) == Batch(d)
    ensures Rest(Listing(Rename(d, name).pending)) == Rest(Listing(d.pending))
  {
    FilesWithout(Listing(d.pending), name);
  }

  lemma {:induction false} MoveDoneKeeps<D(!new)>(codec: Codec<D>, o: Origin<D>, m: Machine<D>, m': Machine<D>)
    requires SelfDelimiting(codec) && Recoverable(codec, o.batch, o.rest, o.due)
    requires Inv(codec, o, m) && Next(codec, m, MoveDone, m')
    ensures Inv(codec, o, m')
  {
    var d := m.disk;
    assert Movable(Listing(d.pending)) == map[];
    AppendedNone(Listing(d.processing));
    if d.processing.Missing? {
      if !Secured(codec, o, d) {
        NothingDue(codec, o, d);
      }
      StartReadingStaged(codec, o, d);
    }
  }

  lemma {:induction false} AppendOneKeeps<D(!new)>(codec: Codec<D>, o: Origin<D>, m: Machine<D>, name: string,
                                                   m': Machine<D>)
    requires SelfDelimiting(codec) && Inv(codec, o, m) && Next(codec, m, AppendOne(name), m')
    ensures Inv(codec, o, m')
  {
    AppendedMore(Listing(m.disk.processing), m.phase.todo, m.phase.buffer, name);
  }

  lemma {:induction false} NothingToPersistKeeps<D(!new)>(codec: Codec<D>, o: Origin<D>, m: Machine<D>,
                                                          m': Machine<D>)
    requires SelfDelimiting(codec) && Recoverable(codec, o.batch, o.rest, o.due)
    requires Inv(codec, o, m) && Next(codec, m, NothingToPersist, m')
    ensures Inv(codec, o, m')
  {
    if !Secured(codec, o, m.disk) {
      NothingDue(codec, o, m.disk);
    }
    StartReadingStaged(codec, o, m.disk);
  }

  lemma {:induction false} PersistBlobKeeps<D(!new)>(codec: Codec<D>, o: Origin<D>, m: Machine<D>, key: string,
                                                     m': Machine<D>)
    requires SelfDelimiting(codec) && Recoverable(codec, o.batch, o.rest, o.due)
    requires Inv(codec, o, m) && Next(codec, m, PersistBlob(key), m')
    ensures Inv(codec, o, m')
  {
    ContentWith(codec, Listing(m.disk.spendable), key, m.phase.buffer);
    if !Secured(codec, o, m.disk) {
      DueInBuffer(codec, o, m.disk, m.phase.buffer);
    }
    assert Secured(codec, o, m'.disk);
  }

  lemma {:induction false} DropKeeps<D(!new)>(codec: Codec<D>, o: Origin<D>, m: Machine<D>, a: Action,
                                              m': Machine<D>)
    requires SelfDelimiting(codec) && Inv(codec, o, m)
    requires a.DropOne? || a.DropDone?
    requires Next(codec, m, a, m')
    ensures Inv(codec, o, m')
  {
    if a.DropDone? {
      StartReadingStaged(codec, o, m'.disk);
    }
  }

  lemma {:induction false} ReadOneKeeps<D(!new)>(codec: Codec<D>, o: Origin<D>, m: Machine<D>, name: string,
                                                 m': Machine<D>)
    requires SelfDelimiting(codec) && Inv(codec, o, m) && Next(codec, m, ReadOne(name), m')
    ensures Inv(codec, o, m')
  {
    OnlyWithout(codec, Listing(m.disk.spendable), m.phase.todo, name);
  }

  lemma {:induction false} ReadDoneKeeps<D(!new)>(codec: Codec<D>, o: Origin<D>, m: Machine<D>, m': Machine<D>)
    requires SelfDelimiting(codec) && Inv(codec, o, m) && Next(codec, m, ReadDone, m')
    ensures Inv(codec, o, m')
  {
    EmptyContent(codec);
    OnlyAll(Listing(m.disk.spendable));
  }

  lemma {:induction false} TrackOutputsKeeps<D(!new)>(codec: Codec<D>, o: Origin<D>, m: Machine<D>, m': Machine<D>)
    requires SelfDelimiting(codec) && Inv(codec, o, m) && Next(codec, m, TrackOutputs, m')
    ensures Inv(codec, o, m')
  {
  }

  lemma {:induction false} LastStepsKeep<D(!new)>(codec: Codec<D>, o: Origin<D>, m: Machine<D>, a: Action,
                                                  m': Machine<D>)
    requires SelfDelimiting(codec) && Inv(codec, o, m)
    requires a.ClearSpendable? || a.ClearPending? || a.ClearDone? || a.Seal? || a.SealFails? || a.Crash?
    requires Next(codec, m, a, m')
    ensures Inv(codec, o, m')
  {
  }

  lemma {:induction false} NextKeeps<D(!new)>(codec: Codec<D>, o: Origin<D>, m: Machine<D>, a: Action, m': Machine<D>)
    requires SelfDelimiting(codec) && Recoverable(codec, o.batch, o.rest, o.due)
    requires Inv(codec, o, m) && Next(codec, m, a, m')
    ensures Inv(codec, o, m')
  {
    match a
    case Begin => BeginKeeps(codec, o, m, m');
    case MoveOne(name) => MoveOneKeeps(codec, o, m, name, m');
    case MoveDone => MoveDoneKeeps(codec, o, m, m');
    case AppendOne(name) => AppendOneKeeps(codec, o, m, name, m');
    case NothingToPersist => NothingToPersistKeeps(codec, o, m, m');
    case PersistBlob(key) => PersistBlobKeeps(codec, o, m, key, m');
    case DropOne(_) | DropDone(_) => DropKeeps(codec, o, m, a, m');
    case ReadOne(name) => ReadOneKeeps(codec, o, m, name, m');
    case ReadDone => ReadDoneKeeps(codec, o, m, m');
    case TrackOutputs => TrackOutputsKeeps(codec, o, m, m');
    case ClearSpendable(_) | ClearPending(_) | ClearDone(_, _) => LastStepsKeep(codec, o, m, a, m');
    case Seal | SealFails | Crash => LastStepsKeep(codec, o, m, a, m');
  }

  // ----- Every run -----

  ghost predicate Init<D(!new)>(m: Machine<D>) {
    m.phase.Stopped? && !m.disk.sentinel
  }

  ghost function OriginOf<D(!new)>(codec: Codec<D>, d: Disk<D>, due: multiset<D>): (o: Origin<D>)
    requires SelfDelimiting(codec)
  {
    Origin(Batch(d), Rest(Listing(d.pending)), due, Content(codec, Listing(d.spendable)), d.tracked)
  }

  /** Some steps, in this order, take `m` to `m'`. */
  ghost predicate Leads<D(!new)>(codec: Codec<D>, m: Machine<D>, actions: seq<Action>, m': Machine<D>)
    requires SelfDelimiting(codec)
    decreases |actions|
  {
    if actions == [] then m == m'
    else exists mid :: Next(codec, m, actions[0], mid) && Leads(codec, mid, actions[1..], m')
  }

  lemma {:induction false} LeadsKeeps<D(!new)>(codec: Codec<D>, o: Origin<D>, m: Machine<D>, actions: seq<Action>,
                                               m': Machine<D>)
    requires SelfDelimiting(codec) && Recoverable(codec, o.batch, o.rest, o.due)
    requires Inv(codec, o, m) && Leads(codec, m, actions, m')
    ensures Inv(codec, o, m')
    decreases |actions|
  {
    if actions != [] {
      var mid :| Next(codec, m, actions[0], mid) && Leads(codec, mid, actions[1..], m');
      NextKeeps(codec, o, m, actions[0], mid);
      LeadsKeeps(codec, o, mid, actions[1..], m');
    }
  }

  /** Nothing due is ever lost, not even one copy: in every state of every run, with crashes between any two file
      operations and any number of restarts, the outputs in the three directories and those tracked together
      include all that were due or spendable or tracked at first; and once the sentinel exists all are tracked.
      Due may be any outputs that are read from the blob of the batch in whatever order it is written. */
  lemma {:induction false} MigrationLosesNothing<D(!new)>(codec: Codec<D>, m: Machine<D>, due: multiset<D>,
                                                          actions: seq<Action>, m': Machine<D>)
    requires SelfDelimiting(codec) && Init(m) && Leads(codec, m, actions, m')
    requires Recoverable(codec, Batch(m.disk), Rest(Listing(m.disk.pending)), due)
    ensures var all := m.disk.tracked + (due + Content(codec, Listing(m.disk.spendable)));
            && all <= InFiles(codec, m'.disk) + m'.disk.tracked
            && (m'.disk.sentinel ==> all <= m'.disk.tracked)
  {
    var o := OriginOf(codec, m.disk, due);
    assert Inv(codec, o, m);
    LeadsKeeps(codec, o, m, actions, m');
    NothingMissing(codec, o, m'.disk);
  }

  lemma {:induction false} NothingMissing<D(!new)>(codec: Codec<D>, o: Origin<D>, d: Disk<D>)
    requires SelfDelimiting(codec) && Recoverable(codec, o.batch, o.rest, o.due)
    requires o.tracked <= d.tracked && (Secured(codec, o, d) || Unwritten(codec, o, d))
    ensures o.tracked + (o.due + o.spendable) <= InFiles(codec, d) + d.tracked
  {
    if !Secured(codec, o, d) {
      InFilesSplit(codec, d);
      AddUp(o.due, Content(codec, o.batch), Content(codec, o.rest), Content(codec, Overwritten(d)),
            o.spendable, Content(codec, Listing(d.spendable)));
    }
    assert AllTracked(o, d) || o.due + o.spendable <= InFiles(codec, d);
  }

  lemma {:induction false} AddUp<T>(due: multiset<T>, batch: multiset<T>, rest: multiset<T>, overwritten: multiset<T>,
                                    spendable: multiset<T>, now: multiset<T>)
    requires due <= batch + rest && spendable <= now
    ensures due + spendable <= batch + rest + overwritten + now
  {
  }

  /** Once the sentinel exists, whatever happens next, the disk does not change. */
  lemma {:induction false} SentinelFreezesDisk<D(!new)>(codec: Codec<D>, m: Machine<D>, before: seq<Action>,
                                                        mid: Machine<D>, after: seq<Action>, m': Machine<D>)
    requires SelfDelimiting(codec) && Init(m)
    requires Leads(codec, m, before, mid) && mid.disk.sentinel && Leads(codec, mid, after, m')
    ensures m'.disk == mid.disk
  {
    var o := OriginOf(codec, m.disk, multiset{});
    LeadsKeeps(codec, o, m, before, mid);
    Frozen(codec, o, mid, after, m');
  }

  lemma {:induction false} Frozen<D(!new)>(codec: Codec<D>, o: Origin<D>, m: Machine<D>, actions: seq<Action>,
                                           m': Machine<D>)
    requires SelfDelimiting(codec) && Recoverable(codec, o.batch, o.rest, o.due)
    requires Inv(codec, o, m) && m.disk.sentinel && Leads(codec, m, actions, m')
    ensures m'.disk == m.disk
    decreases |actions|
  {
    if actions != [] {
      var mid :| Next(codec, m, actions[0], mid) && Leads(codec, mid, actions[1..], m');
      NextKeeps(codec, o, m, actions[0], mid);
      Frozen(codec, o, mid, actions[1..], m');
    }
  }
}
