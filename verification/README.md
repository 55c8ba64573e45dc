# A verified model of a Lightning node's own logic

The repository is a Lightning node on top of the LDK library. This project models the parts whose logic is the
node's own, and proves what they promise over every input, every interleaving and every run with crashes:

- **Probing** (`Reservoir`, `Tracker`, `Attempt`, `Ladder`, with `Sorting` and `Counting`). Peers are drawn by
  reservoir sampling, proved exactly uniform by counting the sequences of random choices. The probing loop and the
  event handler meet at a tracker of three maps; the tracker is a class whose methods are the critical sections, and
  `Attempt` interleaves the two actors in every possible way, with an arbitrary monotone clock.
- **Spendable-output migration** (`Descriptors`, `Sweep`, `SweepRuns`, `Migration`, with `Sums` and `Sequences`).
  `Sweep` is a machine with one step per file operation and a crash possible at every point; `SweepRuns` builds a
  completing run from every disk and for every directory order, and hence says, for every disk, exactly when every run
  keeps every output; `Migration` is one execution as imperative code, with its failing calls, and is proved to be a
  run of the machine. Descriptors are read by an arbitrary self-delimiting codec.
- **Payment ledgers** (`Store`, `PaymentFlow`). The ledger objects are classes; `Node` is the whole process: commands,
  events, writes completing in any order or failing, crashes and restarts.
- **Fee cache** (`Fees`), **rapid gossip sync** (`Decimal`, `RapidSync`), **hex codec** (`Hex`) and **DNS sampling**
  (`Dns`).

Clocks, random choices, RPC answers, HTTP chunks, DNS answers, probe outcomes and what the channel manager says are
inputs. Iteration orders of hash maps and directories are arbitrary. A protocol with several actors is a step relation
on values, and the theorem speaks of every sequence of steps.

Assumptions that belong to code outside the repository:

- the key-value store writes atomically and lets the latest-issued write to a key win, in whatever order writes
  complete; a write reported as failed may still have reached the disk;
- a descriptor decodes the same whatever bytes follow it, and takes at least one byte;
- outputs accepted by the sweeper are durable, and the random name of the migrated blob is new;
- probe hashes are fresh, each is reported at most once, and the tracker's mutex is not poisoned.

Some things one might expect are not so. For each there is a case, and a theorem that says exactly when it is so:

- the migration does not keep every output. From any disk, every run keeps every output if and only if no processing
  file that a pending file of the same name overwrites holds one, and the blob of the batch yields, in every order,
  all that its files hold and all that is left behind in the pending directory (`SweepRuns.KeepsAllIff`). When the
  files of the batch decode completely, this says that no overwritten file and no pending file whose name is not 64
  characters long holds an output (`SweepRuns.WellFormedKeepsAllIff`);
- concatenation does not keep every output: a second file is recovered as it is if and only if the undecodable tail of
  the first one does not change what it decodes to (`Descriptors.ConcatExactly`); a truncated file is a case
  (`Descriptors.TruncatedFileHidesNeighbour`);
- the early-result buffer may keep a result for ever: one that comes after its tombstone has expired, is gone, or is
  older than 4096 others always stays (`Attempt.LateResultLeaks`, with `Attempt.LeakExample`), and unless two
  probes time out at the same instant the buffer is clean if and only if none came so (`Attempt.CleanIff`);
- a configured probe amount of zero ends the ladder at once (`Ladder.ClimbFindsAllFeasible`);
- Succeeded is not a final status: over any stretch of any run it holds if and only if it was gained and not ended since
  (`PaymentFlow.SucceededExactly`); sending again and a crash are cases (`PaymentFlow.ResendForgets`,
  `PaymentFlow.CrashForgets`);
- a sync may skip changes, because the timestamp file may be ahead of the graph file at a restart: it never does in a run
  if and only if at no restart it is (`RapidSync.NeverAheadIff`, with `RapidSync.CrashSkips`).

`dafny verify dfyconfig.toml` verifies the project.

## Model

| member | source | states |
|---|---|---|
| `Reservoir.Sample` | src/probing/runner.rs:408-434 | for every sequence of random choices the sample holds the candidates at `Positions`, in order; a size of zero gives none |
| `Reservoir.Positions` | src/probing/runner.rs:415-431 | the sample has min(size, n) entries, all positions of candidates |
| `Reservoir.PositionsDistinct` | src/probing/runner.rs:415-431 | no candidate position is drawn twice |
| `Reservoir.PlaceKept` | src/probing/runner.rs:415-431 | a place of the sample that the generator never returned holds the candidate of its own position |
| `Reservoir.PlaceTaken` | src/probing/runner.rs:415-431 | any other place holds the last candidate for which the generator returned it |
| `Reservoir.AllChoicesExact` | src/probing/runner.rs:424-428 | the counted set is exactly the set of sequences that the random calls can return |
| `Reservoir.AllChoicesSize` | src/probing/runner.rs:424-428 | there are n!/size! of them |
| `Reservoir.Uniform` | src/probing/runner.rs:408-434 | every size-subset of the n positions is drawn by exactly (n - size)! of them, so sampling is exactly uniform |
| `Sorting.SortCorrect` | src/probing/runner.rs:74-75 | sorting by a key is ascending and a permutation |
| `Tracker.ProbeTracker.constructor` | src/probing/tracker.rs:21-27 | a new tracker is empty |
| `Tracker.ProbeTracker.RegisterProbe` | src/probing/tracker.rs:29-44 | one atomic step: prune, clear the tombstone, deliver an early result or keep the sender; returns the new receiver |
| `Tracker.ProbeTracker.CompleteProbe` | src/probing/tracker.rs:61-72 | one atomic step: prune, then swallow the result, deliver it, or buffer it |
| `Tracker.ProbeTracker.MarkTimedOutProbe` | src/probing/tracker.rs:54-59 | one atomic step: prune, drop sender and early result, stamp the tombstone |
| `Tracker.ProbeTracker.PruneTimedOutProbes` | src/probing/tracker.rs:74-95 | leaves at most 4096 tombstones, of up to 4096 exactly those marked at most 15 minutes ago; of more than 4096 unexpired ones exactly 4096, none older than an evicted one |
| `Tracker.EvictOldest` | src/probing/tracker.rs:84-94 | collecting, sorting and removing in a loop keeps all but `count` entries, and evicts none younger than a kept one |
| `Tracker.PrunedFits` | src/probing/tracker.rs:76-82 | pruning has one possible result when the unexpired fit: all of them |
| `Tracker.PrunedExactly` | src/probing/tracker.rs:4-95 | pruning in plain numbers: 15 minutes, 4096, oldest first |
| `Tracker.EvictionRule` | src/probing/tracker.rs:76-94 | an unexpired tombstone survives if fewer than 4096 others are as recent, and is evicted if 4096 are more recent |
| `Tracker.BufferedAfter15Minutes` | src/probing/tracker.rs:61-78 | while at most 4096 tombstones stand, a result for a marked hash is buffered iff it comes more than 15 minutes after the mark |
| `Tracker.RegisterEffect` | src/probing/tracker.rs:29-44 | what registering does to the hash: tombstone cleared, early result delivered or sender kept, earlier sender dropped |
| `Tracker.MarkEffect` | src/probing/tracker.rs:54-59 | what marking does to the hash: sender and early result gone, stamp set |
| `Tracker.CompleteEffect` | src/probing/tracker.rs:61-72 | what a result does to the hash: delivered to its sender if there is one; buffered if there is neither sender nor tombstone |
| `Tracker.OthersUntouched` | src/probing/tracker.rs:29-95 | no critical section touches what belongs to another hash, but for pruning |
| `Tracker.ReachableInv` | src/probing/tracker.rs:29-95 | over all runs the three maps have disjoint keys, each pending sender has a channel of its own, at most 4097 tombstones |
| `Tracker.TombstoneWindow` | src/probing/tracker.rs:54-95 | a marked hash stays marked while it is not named, at most 15 minutes have passed and fewer than 4096 others are as recent |
| `Tracker.Swallowed` | src/probing/tracker.rs:61-65 | the next result for such a hash changes nothing but the tombstone |
| `Tracker.RendezvousOrder` | src/probing/tracker.rs:29-72 | register-then-complete and complete-then-register reach the same states, and the receiver has the outcome |
| `Attempt.AttemptsAreHonest` | src/probing/runner.rs:351-393 | in every interleaving each probe sent gets one completion, in order, with its own outcome; never Dropped; at most one sender pending, none between attempts |
| `Attempt.ReportedIsReceived` | src/probing/runner.rs:375-378 | in every interleaving an attempt that waits for a probe whose result is in, early or not, can return exactly that outcome at once |
| `Attempt.NextIsTrackerStep` | src/probing/runner.rs:364-391 | the actors change the shared tracker only through its critical sections |
| `Attempt.BufferExactly` | src/probing/tracker.rs:35-72 | in every interleaving the early-result buffer holds exactly the early result of the unregistered probe and the results that found no tombstone, whose windows had closed |
| `Attempt.BufferDoesNotLeak` | src/probing/runner.rs:351-393 | if late results arrive within 15 minutes and before 4096 later time-outs, the buffer is empty or holds the unregistered probe |
| `Attempt.LateResultLeaks` | src/probing/tracker.rs:66-95 | a result for a timed-out probe whose tombstone is gone, expired, or older than 4096 unexpired ones stays in the buffer in every later state |
| `Attempt.CleanIff` | src/probing/tracker.rs:54-95 | unless two probes are marked at the same instant, the buffer is clean iff no result so far came that late |
| `Attempt.LeakExample` | src/probing/tracker.rs:66-71 | a run in which a result 15 minutes late stays in the buffer with no attempt under way |
| `Ladder.ProbePeer` | src/probing/runner.rs:111-140 | the attempts are a prefix of the ascending amounts, all but the last succeed, and it stops early only at one that did not |
| `Ladder.ClimbFindsAllFeasible` | src/probing/runner.rs:111-140 | for downward-closed success the successes are exactly the feasible amounts, iff no zero amount is configured or nothing is feasible |
| `Descriptors.ReadOutputsFromFile` | src/sweep.rs:283-332 | the loop ends and appends exactly the decoded descriptors, up to the end or the first failure |
| `Descriptors.DecodesLongestPrefix` | src/sweep.rs:301-331 | any encoding of descriptors that starts the file is a prefix of what is read, so the longest one is read |
| `Descriptors.ConcatExactly` | src/sweep.rs:224-226 | for any two files: decoding the concatenation is decoding the first and then its tail followed by the second; so it equals decoding each iff the tail does not change what the second decodes to |
| `Descriptors.DecodeConcat` | src/sweep.rs:224-226 | after a well-formed file, which has no tail, decoding the concatenation is decoding each |
| `Descriptors.DeadTailHidesRest` | src/sweep.rs:319-329 | the second file adds nothing iff the tail of the first followed by it does not decode; then the concatenation equals decoding each iff the second file holds nothing |
| `Descriptors.GroupingIrrelevant` | src/sweep.rs:211-245 | the outputs recovered from well-formed files do not depend on their order nor on how they are grouped into blobs |
| `Descriptors.TruncatedFileHidesNeighbour` | src/sweep.rs:211-245 | two files, one truncated, whose concatenation in one order loses the whole one's output |
| `Sweep.RenameKeeps` | src/sweep.rs:182-193 | a rename keeps all outputs iff it overwrites none |
| `Sweep.NextKeeps` | src/sweep.rs:52-248 | every file operation, crash and restart keeps the invariant of the migration, for any files |
| `Sweep.MigrationLosesNothing` | src/sweep.rs:52-111 | in every run, with crashes anywhere, all outputs that the batch's blob yields in every order, and all that were spendable, are in a file or tracked, with multiplicity; once the sentinel exists all are tracked |
| `Sweep.SentinelFreezesDisk` | src/sweep.rs:56-60 | after the sentinel exists no step changes the disk |
| `SweepRuns.SomeRunCompletes` | src/sweep.rs:77-103 | from every disk and for every order of the batch some run tracks exactly once each output that is spendable or that the blob yields, and leaves the sentinel and no outputs in files |
| `SweepRuns.KeepsAllIff` | src/sweep.rs:150-248 | for every disk: every run keeps every output iff no overwritten processing file holds one and in every order the blob yields all that its files and the files left behind hold |
| `SweepRuns.WellFormedKeepsAllIff` | src/sweep.rs:171-193 | when the batch decodes completely: every run keeps every output iff none is in an overwritten file nor in a pending file whose name is not 64 characters long |
| `Migration.MovePendingToProcessing` | src/sweep.rs:150-196 | the loop moves exactly the files with names of 64 characters, by steps of the machine; says exactly when it fails, and then the batch is unchanged |
| `SweepRuns.MoveExactly` | src/sweep.rs:171-193 | after the move a pending file is left iff its name is not 64 characters long; the others are in processing with the same bytes, and what was there stays unless overwritten |
| `Migration.FailsExactly` | src/sweep.rs:77-96 | when an execution fails, in terms of the directories, their files and the calls that fail |
| `Migration.ConcatenateFiles` | src/sweep.rs:211-235 | the buffer is the files one after the other in some order, each once |
| `Migration.ReadAllSpendableOutputs` | src/sweep.rs:253-281 | in any order, exactly the outputs of all files, with multiplicity |
| `Migration.DataDir.ConcatenateProcessingOutputs` | src/sweep.rs:201-248 | replaces the processing directory by one blob in `spendable_outputs`; says exactly when it fails, and then nothing changes |
| `Migration.DataDir.MigrateFiles` | src/sweep.rs:77-101 | either every output found is tracked once and counted and the directories are gone, or a call failed, nothing is tracked and the batch or its blob is still there |
| `Migration.DataDir.TryMigrate` | src/sweep.rs:52-111 | the call is a run of the step machine, so the theorems about every run apply; it says exactly when it fails and what the disk and the count are; with the sentinel it returns 0 and changes nothing |
| `Store.IssueValid` | src/cli/commands/payment.rs:65-65 | issuing a write keeps the ledger consistent and the ids growing |
| `Store.FinishValid` | src/events/mod.rs:192-197 | a completion takes no id off the disk; one that reached it leaves its ids there even if overtaken; the last one makes disk and memory equal |
| `PaymentFlow.Outbound.Insert` | src/cli/commands/payment.rs:54-66 | ids only grow, the record is pending without preimage with the given secret and amount, all others unchanged, records stay good |
| `PaymentFlow.Outbound.Fail` | src/cli/commands/payment.rs:88-94 | no id comes or goes; only the status of the record, if any, changes, to failed; records stay good |
| `PaymentFlow.Outbound.Succeed` | src/events/mod.rs:170-193 | the loop over all entries gives the one with the id the preimage and Succeeded, keeping secret and amount; no id comes or goes, all others unchanged, records stay good |
| `PaymentFlow.Outbound.Reconcile` | src/main.rs:725-736 | the loop fails exactly the pending entries that are not listed, and changes nothing else |
| `PaymentFlow.Inbound.ClaimPayment` | src/events/mod.rs:138-157 | ids only grow; the record is succeeded with the given preimage and secret, keeps its amount if it had one, all others unchanged |
| `PaymentFlow.WriteAhead` | src/cli/commands/payment.rs:54-79 | in every run an id handed to the channel manager is already on disk and stays there through failed, late and reordered writes, crashes and restarts |
| `PaymentFlow.RecordsAreGood` | src/events/mod.rs:170-193 | over all runs, on disk and in memory, a Succeeded outbound record has a preimage and a Pending one has none |
| `PaymentFlow.PendingIsAccounted` | src/main.rs:725-744 | over all runs, after reconciliation, every Pending id was listed by the channel manager at start or recorded by this process; while the process serves, on disk as well |
| `PaymentFlow.DiskIsSnapshot` | src/events/mod.rs:170-197 | the disk is always a snapshot that memory held; when the write issued last has succeeded, they are equal |
| `PaymentFlow.ReconcileExact` | src/main.rs:725-736 | ids, amounts, preimages, secrets and statuses other than Pending are unchanged; Pending remains iff known |
| `PaymentFlow.OutboundStep` | src/events/mod.rs:170-269 | the outbound record of any id after any step, restarts included, field by field |
| `PaymentFlow.InboundStep` | src/events/mod.rs:138-157 | the inbound record of any hash after any step, field by field |
| `PaymentFlow.RefusedEndsFailed` | src/cli/commands/payment.rs:85-94 | in every run a refused invoice payment or keysend is marked Failed and written before the command does anything else |
| `PaymentFlow.MarkedAfterRefusal` | src/cli/mod.rs:284-289 | in every run only such a payment is marked so, not an accepted one nor one for an offer or a name |
| `PaymentFlow.InvoiceIsRecorded` | src/cli/commands/payment.rs:181-189 | in every run a created invoice is recorded with secret and amount and written, and stays until claimed, invoiced again or the process ends |
| `PaymentFlow.SucceededEnds` | src/cli/commands/payment.rs:54-66 | after any step a payment is Succeeded iff the step gains the status, or it had it and the id is not recorded again, reported failed or refused, nor the process restarted before the disk said so |
| `PaymentFlow.SucceededExactly` | src/events/mod.rs:170-193 | the same over any stretch of any run, restarts included |
| `PaymentFlow.ResendForgets` | src/cli/commands/payment.rs:54-66 | a run from a first start in which paying the same invoice again forgets the preimage |
| `PaymentFlow.CrashForgets` | src/main.rs:715-736 | a run in which a crash before the write lands, and reconciliation, make a paid payment Failed |
| `Fees.FeeCache.PollOnce` | src/bitcoind_client.rs:191-273 | one round of five calls makes the eight stores, each computed from the slots before the round |
| `Fees.FeeCache.Poll` | src/bitcoind_client.rs:165-277 | the loop leaves the slots of `AfterRounds`, for any history of answers |
| `Fees.Rate` | src/bitcoind_client.rs:93-106 | the rate that a history of answers stands for is at least the floor |
| `Fees.TableRefinesHistory` | src/bitcoind_client.rs:165-276 | at each round boundary every slot is the floored or default value of its call's last answer that did not fail; the non-anchor minimum is the background rate less 250, unsaturated |
| `Fees.SlotAfterRound` | src/bitcoind_client.rs:93-106 | each slot starts with its default 253, 2000, 5000 or 50000; after a round it holds the estimate but at least 253, the default, or what it held if the call failed |
| `Fees.NonAnchorAfterRound` | src/bitcoind_client.rs:266-269 | the non-anchor minimum starts with 253 and after a round is the background slot less 250 |
| `Fees.StoresInOrder` | src/bitcoind_client.rs:260-273 | the order of the eight stores of a round |
| `Fees.ReadersSeeFloor` | src/bitcoind_client.rs:260-273 | a reader between any two stores sees the value from before or after the round, at least 253, or 3 in the non-anchor minimum |
| `Decimal.ParseU32` | src/rapid_sync.rs:220-220 | accepts exactly the non-empty digit strings, after at most one plus sign, of values below 4294967296, with that value |
| `Decimal.NumberRead` | src/rapid_sync.rs:217-221 | a number below 2^32 is read back also with blanks or line ends around it or a plus sign before it; a larger one counts as unreadable |
| `Decimal.GarbageUnread` | src/rapid_sync.rs:217-221 | a text with any other visible character counts as unreadable, so the sync starts from 0 |
| `Decimal.PrintText` | src/rapid_sync.rs:230-230 | the text of a number is its decimal digits, the last one last |
| `Decimal.TornSave` | src/rapid_sync.rs:215-233 | the whole printed text reads back as the value, any prefix of it as no more |
| `RapidSync.StartsFromApplied` | src/rapid_sync.rs:88-118 | over all runs, with a crash at any byte of a save, a sync starts no later than some snapshot that was applied; after a completed save exactly from it |
| `RapidSync.NeverAheadIff` | src/rapid_sync.rs:88-118 | over all runs the timestamp file is never ahead of the graph in memory iff at no restart it is ahead of the graph file |
| `RapidSync.SyncSkipsNothingIff` | src/rapid_sync.rs:88-97 | a sync asks for all that the graph lacks iff the file is not ahead or could not be read |
| `RapidSync.PersistedInTime` | src/main.rs:301-303 | a restart after the graph file was written, with no snapshot applied since, does no harm |
| `RapidSync.CrashSkips` | src/rapid_sync.rs:105-109 | a run in which a crash between the save and the write of the graph makes the next sync skip, and the graph still lacks the rest after it |
| `RapidSync.DownloadSnapshotAttempt` | src/rapid_sync.rs:171-213 | the data is the chunks in order or the first error; the counter is its length; how many progress lines, and at most 19 for a body no longer than its content length |
| `RapidSync.ReceivedExactly` | src/rapid_sync.rs:185-190 | the chunks taken are those up to the first error |
| `Sequences.PartInPlace` | src/rapid_sync.rs:189-190 | each chunk is in its place in the data |
| `RapidSync.AtMost19Lines` | src/rapid_sync.rs:177-203 | any chunking of a body no longer than its content length logs at most 19 lines |
| `RapidSync.OneByteChunks` | src/rapid_sync.rs:177-203 | a body of n bytes that comes byte by byte logs n lines if n < 10, else n / (n / 10), so the bound is attained at 19 |
| `RapidSync.TenChunks` | src/rapid_sync.rs:177-203 | a body in ten equal chunks logs ten lines |
| `Hex.HexStr` | src/hex_utils.rs:30-36 | the loop writes two lower-case digits for each byte |
| `Hex.ToVec` | src/hex_utils.rs:4-27 | succeeds exactly on even-length all-hex input, with the decoded bytes |
| `Hex.DigitsAreText` | src/hex_utils.rs:14-19 | the digits are the characters 0-9 and a-f, and A-F when read, with their values |
| `Hex.EncodeText` | src/hex_utils.rs:32-34 | each byte is written as its high and then its low digit, as characters |
| `Hex.DecodeEncode` | src/hex_utils.rs:4-36 | decoding the encoding of any bytes gives them back |
| `Hex.EncodeDecode` | src/hex_utils.rs:4-36 | encoding what was decoded gives the input in lower case |
| `Dns.SampleNodeAddrs` | src/dns_bootstrap/bootstrapper.rs:48-143 | the first `num_addrs` of all usable records in seed order, none of an ignored node and each from some seed's answer; an error iff there is none or none is wanted; seeds are queried and hosts looked up in order and not after the target is met |
| `Dns.OfferedExactly` | src/dns_bootstrap/bootstrapper.rs:89-132 | a peer is offered iff its node is not ignored and some seed's answer has a record with its key, address and port |
| `Dns.RecordsInOrder` | src/dns_bootstrap/bootstrapper.rs:89-132 | record by record, in order, which become peers, with which fields, and which are looked up |
| `Dns.SeedsInOrder` | src/dns_bootstrap/bootstrapper.rs:53-79 | seeds add the peers of their records in order, and nothing if they fail |
| `Dns.QuerySeeds` | src/dns_bootstrap/bootstrapper.rs:53-79 | the loop over the seeds stops at the first that meets the target |
| `Dns.AddPeers` | src/dns_bootstrap/bootstrapper.rs:89-133 | the loop over one seed's records keeps the usable ones in order, up to the target, and looks up no host after it |

## Left out

- LDK, bitcoind, HTTP, the DNS resolver, secp256k1 and bech32: what they answer is an input.
- The TLV encoding of the ledgers (src/state.rs): taken to be an exact round trip. A ledger file that cannot be read at
  start makes the node begin with an empty ledger (src/disk.rs:140-160); the model takes it to be readable.
- Skipped entries in the migration: a directory entry, rename or read that fails, and a `spendable_outputs` directory
  that cannot be listed, are logged and skipped, and the files may then be deleted with their directory. The model takes
  these calls to succeed; a call that aborts is a crash step.
- Poisoned mutexes in the probing loop and the event handler.
- The migration, the ledgers and the probing attempt as asynchronous code: their interleavings are step relations on
  values, connected to the classes by the functions that both use.
- Probe results for hashes that the probing loop did not send, and repeated results for one hash.
- How the timer and the channel race inside one poll: the model lets the timeout win even when a result is there.
- Tracker.ProbeTracker.MarkTimedOutProbe: the stamp is a second clock reading, assumed not to be before the first.
- Sorting.SortCorrect: the library's sort is modelled as insertion sort; ties may come in another order.
- RapidSync.DownloadSnapshotAttempt: the byte counter is unbounded, because a 64-bit one cannot wrap before memory runs
  out; log text and the HTTP status are not modelled.
- Dns.SampleNodeAddrs: the timeouts of the queries and the logging are not modelled.
- What peers' gossip adds to the network graph between syncs, and how LDK chooses when to write the graph file: it may be
  written at any time.
- The retry delay in `download_with_retry`, simple doubling with a cap.
- Amount checks before an invoice or offer is paid, and all terminal output.
- src/convert.rs, src/config.rs, src/args.rs, src/runtime_config.rs, src/persist.rs, src/logging.rs, channel, peer and
  funding commands, and the rest of src/main.rs: field access, defaults and sequences of library calls.
