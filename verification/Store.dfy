/** One key of the filesystem store, as the payment ledgers use it.

    A write is issued under the ledger's lock with a snapshot of its contents and performed outside it.
    Writes complete in any order and may fail; the store lets the latest-issued one win, so an older one that
    completes later changes nothing. Each write is atomic. The store is not part of the repository: this is
    what is assumed of it. */
module Store {
  import opened Wrappers

  datatype HTLCStatus = Pending | Succeeded | Failed

  datatype PaymentInfo = PaymentInfo(
    preimage: Option<nat>,
    secret: Option<nat>,
    status: HTLCStatus,
    amtMsat: Option<nat>)

  type PaymentId = nat

  type Payments = map<PaymentId, PaymentInfo>

  /** What is on disk; the snapshots written by this process in the order they were issued, after the contents
      loaded at start; the newest one on disk; and the writes that have not completed. The ledger in memory is
      the last snapshot: it only changes together with issuing a write. */
  datatype Ledger = Ledger(disk: Payments, snapshots: seq<Payments>, landed: nat, outstanding: set<nat>)

  function Memory(l: Ledger): (p: Payments)
    requires l.snapshots != []
  {
    l.snapshots[|l.snapshots| - 1]
  }

  /** At start the contents of the disk are loaded. */
  function Load(disk: Payments): (l: Ledger) {
    Ledger(disk, [disk], 0, {})
  }

  /** The new contents, and a write of them. */
  function Issue(l: Ledger, p: Payments): (r: Ledger) {
    l.(snapshots := l.snapshots + [p], outstanding := l.outstanding + {|l.snapshots|})
  }

  /** Write `v` completes. A failed write may nevertheless have reached the disk. */
  function Finish(l: Ledger, v: nat, reached: bool): (r: Ledger)
    requires v < |l.snapshots|
  {
    var done := l.(outstanding := l.outstanding - {v});
    if reached && v > l.landed then done.(disk := l.snapshots[v], landed := v) else done
  }

  /** No ledger entry is ever removed. */
  ghost predicate Growing(snapshots: seq<Payments>) {
    forall i, j | 0 <= i <= j < |snapshots| :: snapshots[i].Keys <= snapshots[j].Keys
  }

  ghost predicate Valid(l: Ledger) {
    && l.landed < |l.snapshots|
    && l.disk == l.snapshots[l.landed]
    && (forall v | v in l.outstanding :: v < |l.snapshots|)
    && Growing(l.snapshots)
  }

  lemma {:induction false} IssueValid(l: Ledger, p: Payments)
    requires Valid(l) && Memory(l).Keys <= p.Keys
    ensures Valid(Issue(l, p)) && Memory(Issue(l, p)) == p
    ensures Issue(l, p).disk == l.disk && Issue(l, p).landed == l.landed && l.snapshots <= Issue(l, p).snapshots
    ensures forall v :: v in Issue(l, p).outstanding <==> v in l.outstanding || v == |l.snapshots|
  {
    var r := Issue(l, p);
    forall i, j | 0 <= i <= j < |r.snapshots| ensures r.snapshots[i].Keys <= r.snapshots[j].Keys {
      if i < j == |l.snapshots| {
        assert l.snapshots[i].Keys <= l.snapshots[j - 1].Keys;
      }
    }
  }

  /** A completed write that reached the disk, or was overtaken by a later one, leaves all its ids on
      disk; and no completion takes an id off the disk. */
  lemma {:induction false} FinishValid(l: Ledger, v: nat, reached: bool)
    requires Valid(l) && v < |l.snapshots|
    ensures var r := Finish(l, v, reached);
            && Valid(r) && Memory(r) == Memory(l)
            && l.disk.Keys <= r.disk.Keys
            && (reached ==> l.snapshots[v].Keys <= r.disk.Keys)
            && (reached && v == |l.snapshots| - 1 ==> r.disk == Memory(r))
            && (r.disk == if reached && v > l.landed then l.snapshots[v] else l.disk)
            && (forall u :: u in r.outstanding <==> u in l.outstanding && u != v)
  {
  }
}
