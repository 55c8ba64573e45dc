/** The outbound and inbound payment ledgers: the command line, the event handler, the store and restarts.

    `Node` is the whole process; its steps interleave freely. Encoding and decoding a ledger are taken to be
    inverse, and the file is taken to be readable at start. */
module PaymentFlow {
  import opened Wrappers
  import opened Store

  // ----- What the code does to a ledger while it holds the lock -----

  function InsertPending(p: Payments, id: PaymentId, secret: Option<nat>, amt: nat): (r: Payments) {
    p[id := PaymentInfo(None, secret, Pending, Some(amt))]
  }

  function MarkFailed(p: Payments, id: PaymentId): (r: Payments) {
    if id in p then p[id := p[id].(status := Failed)] else p
  }

  function MarkSent(p: Payments, id: PaymentId, preimage: nat): (r: Payments) {
    if id in p then p[id := p[id].(preimage := Some(preimage), status := Succeeded)] else p
  }

  function Claim(p: Payments, hash: PaymentId, preimage: Option<nat>, secret: Option<nat>, amt: nat): (r: Payments) {
    if hash in p then p[hash := p[hash].(status := Succeeded, preimage := preimage, secret := secret)]
    else p[hash := PaymentInfo(preimage, secret, Succeeded, Some(amt))]
  }

  function ReconcileOne(info: PaymentInfo, known: bool): (r: PaymentInfo) {
    if info.status.Pending? && !known then info.(status := Failed) else info
  }

  function Reconciled(p: Payments, known: set<PaymentId>): (r: Payments) {
    map id | id in p :: ReconcileOne(p[id], id in known)
  }

  /** Every record but that of `id` is as it was. */
  ghost predicate Elsewhere(before: Payments, after: Payments, id: PaymentId) {
    forall other | other in before && other != id :: other in after && after[other] == before[other]
  }

  /** A settled payment has its preimage, an unsettled one has none. */
  ghost predicate Good(p: Payments) {
    forall id | id in p ::
      && (p[id].status.Succeeded? ==> p[id].preimage.Some?)
      && (p[id].status.Pending? ==> p[id].preimage.None?)
  }

  /** The ledger object. Each method is one critical section and returns the snapshot it writes. */
  class Outbound {
    var payments: Payments

    constructor (payments: Payments)
      ensures this.payments == payments
    {
      this.payments := payments;
    }

    /** The critical section of a send: a new pending record, and whatever was recorded under the id is gone. */
    method Insert(id: PaymentId, secret: Option<nat>, amt: nat) returns (snapshot: Payments)
      modifies this
      ensures payments == snapshot == InsertPending(old(payments), id, secret, amt)
      ensures payments.Keys == old(payments).Keys + {id} && Elsewhere(old(payments), payments, id)
      ensures payments[id].status.Pending? && payments[id].preimage.None?
      ensures payments[id].secret == secret && payments[id].amtMsat == Some(amt)
      ensures Good(old(payments)) ==> Good(payments)
    {
      payments := payments[id := PaymentInfo(None, secret, Pending, Some(amt))];
      snapshot := payments;
    }

    /** A refused or failed payment: nothing but the status of its record, if there is one. */
    method Fail(id: PaymentId) returns (snapshot: Payments)
      modifies this
      ensures payments == snapshot == MarkFailed(old(payments), id)
      ensures payments.Keys == old(payments).Keys && Elsewhere(old(payments), payments, id)
      ensures id in payments ==>
                payments[id].status.Failed? && payments[id].(status := old(payments)[id].status) == old(payments)[id]
      ensures Good(old(payments)) ==> Good(payments)
    {
      if id in payments {
        payments := payments[id := payments[id].(status := Failed)];
      }
      snapshot := payments;
    }

    /** `PaymentSent` walks over all entries and updates the one it is about. */
    method Succeed(id: PaymentId, preimage: nat) returns (snapshot: Payments)
      modifies this
      ensures payments == snapshot == MarkSent(old(payments), id, preimage)
      ensures payments.Keys == old(payments).Keys && Elsewhere(old(payments), payments, id)
      ensures id in payments ==>
                var was := old(payments)[id];
                payments[id] == PaymentInfo(Some(preimage), was.secret, Succeeded, was.amtMsat)
      ensures Good(old(payments)) ==> Good(payments)
    {
      var todo := payments.Keys;
      while todo != {}
        invariant todo <= payments.Keys
        invariant payments == if id in todo then old(payments) else MarkSent(old(payments), id, preimage)
        decreases |todo|
      {
        var next :| next in todo;
        if next == id {
          payments := payments[next := payments[next].(preimage := Some(preimage), status := Succeeded)];
        }
        todo := todo - {next};
      }
      snapshot := payments;
    }

    /** At start, pending payments that the channel manager does not list have failed. */
    method Reconcile(recent: seq<PaymentId>) returns (snapshot: Payments)
      modifies this
      ensures payments == snapshot == Reconciled(old(payments), set id | id in recent)
      ensures payments.Keys == old(payments).Keys
      ensures forall id | id in payments ::
                payments[id] == if old(payments)[id].status.Pending? && id !in recent
                                then old(payments)[id].(status := Failed) else old(payments)[id]
    {
      var todo := payments.Keys;
      while todo != {}
        invariant payments.Keys == old(payments).Keys && todo <= payments.Keys
        invariant forall id | id in payments ::
                    payments[id] == if id in todo then old(payments)[id]
                                    else ReconcileOne(old(payments)[id], id in recent)
        decreases |todo|
      {
        var id :| id in todo;
        if payments[id].status.Pending? && id !in recent {
          payments := payments[id := payments[id].(status := Failed)];
        }
        todo := todo - {id};
      }
      snapshot := payments;
    }
  }

  class Inbound {
    var payments: Payments

    constructor (payments: Payments)
      ensures this.payments == payments
    {
      this.payments := payments;
    }

    /** `PaymentClaimed`: an entry made by an invoice keeps its amount, a new one takes the claimed amount. */
    method ClaimPayment(hash: PaymentId, preimage: Option<nat>, secret: Option<nat>, amt: nat)
      returns (snapshot: Payments)
      modifies this
      ensures payments == snapshot == Claim(old(payments), hash, preimage, secret, amt)
      ensures payments.Keys == old(payments).Keys + {hash} && Elsewhere(old(payments), payments, hash)
      ensures payments[hash].status.Succeeded? && payments[hash].preimage == preimage
      ensures payments[hash].secret == secret
      ensures payments[hash].amtMsat == if hash in old(payments) then old(payments)[hash].amtMsat else Some(amt)
      ensures Good(old(payments)) && preimage.Some? ==> Good(payments)
    {
      if hash in payments {
        var payment := payments[hash];
        payment := payment.(status := Succeeded);
        payment := payment.(preimage := preimage);
        payment := payment.(secret := secret);
        payments := payments[hash := payment];
      } else {
        payments := payments[hash := PaymentInfo(preimage, secret, Succeeded, Some(amt))];
      }
      snapshot := payments;
    }
  }

  // ----- The process -----

  /** The command being executed. `marks`: a refused invoice payment or keysend is marked failed, a refused
      offer or human-readable-name payment is not. */
  datatype Cli =
    | Ready
    | Persisting(id: PaymentId, version: nat, marks: bool)
    | Sending(id: PaymentId, marks: bool)
    | Failing(id: PaymentId)

  /** Ledgers loaded, first write under way, serving, or given up after a failed first write. */
  datatype Process = Loaded | Booting(version: nat) | Running | Ended

  /** `handed` is the history of ids passed to the channel manager, over all restarts; `accounted` that of the ids
      it listed when this process started and those recorded since. */
  datatype Node = Node(
    outbound: Ledger,
    inbound: Ledger,
    process: Process,
    cli: Cli,
    handed: set<PaymentId>,
    accounted: set<PaymentId>)

  datatype Action =
    | Reconcile(known: set<PaymentId>)
    | FinishOutbound(version: nat, ok: bool, reached: bool)
    | FinishInbound(version: nat, reached: bool)
    | Insert(id: PaymentId, secret: Option<nat>, amt: nat, marks: bool)
    | Send(accepted: bool)
    | FailSend
    | SentEvent(id: PaymentId, preimage: nat)
    | FailedEvent(id: PaymentId)
    | Invoice(created: Option<(PaymentId, nat)>, amt: nat)
    | ClaimedEvent(hash: PaymentId, claimed: Option<nat>, secret: Option<nat>, amt: nat)
    | Crash

  /** Change the outbound ledger and write it. */
  function WriteOut(n: Node, p: Payments): (r: Node) {
    n.(outbound := Issue(n.outbound, p))
  }

  function WriteIn(n: Node, p: Payments): (r: Node) {
    n.(inbound := Issue(n.inbound, p))
  }

  function Answer(cli: Cli, version: nat, ok: bool): (r: Cli) {
    if cli.Persisting? && cli.version == version then
      if ok then Sending(cli.id, cli.marks) else Ready
    else cli
  }

  ghost predicate Next(n: Node, a: Action, n': Node) {
    && n.outbound.snapshots != [] && n.inbound.snapshots != []
    && var (outgoing, incoming) := (Memory(n.outbound), Memory(n.inbound));
    match a
    case Reconcile(known) =>
      && n.process.Loaded?
      && n' == WriteOut(n, Reconciled(outgoing, known))
               .(process := Booting(|n.outbound.snapshots|), accounted := known)
    case FinishOutbound(v, ok, reached) =>
      && v in n.outbound.outstanding && v < |n.outbound.snapshots| && (ok ==> reached)
      && n' == n.(outbound := Finish(n.outbound, v, reached),
                  process := if n.process == Booting(v) then (if ok then Running else Ended) else n.process,
                  cli := Answer(n.cli, v, ok))
    case FinishInbound(v, reached) =>
      && v in n.inbound.outstanding && v < |n.inbound.snapshots|
      && n' == n.(inbound := Finish(n.inbound, v, reached))
    case Insert(id, secret, amt, marks) =>
      && n.process.Running? && n.cli.Ready?
      && n' == WriteOut(n, InsertPending(outgoing, id, secret, amt))
               .(cli := Persisting(id, |n.outbound.snapshots|, marks), accounted := n.accounted + {id})
    case Send(accepted) =>
      && n.process.Running? && n.cli.Sending?
      && n' == n.(handed := n.handed + {n.cli.id},
                  cli := if accepted || !n.cli.marks then Ready else Failing(n.cli.id))
    case FailSend =>
      && n.process.Running? && n.cli.Failing?
      && n' == WriteOut(n, MarkFailed(outgoing, n.cli.id)).(cli := Ready)
    case SentEvent(id, preimage) => n.process.Running? && n' == WriteOut(n, MarkSent(outgoing, id, preimage))
    case FailedEvent(id) => n.process.Running? && n' == WriteOut(n, MarkFailed(outgoing, id))
    case Invoice(created, amt) =>
      && n.process.Running? && n.cli.Ready?
      && n' == WriteIn(n, match created
                          case None => incoming
                          case Some((hash, secret)) => InsertPending(incoming, hash, Some(secret), amt))
    case ClaimedEvent(hash, preimage, secret, amt) =>
      n.process.Running? && n' == WriteIn(n, Claim(incoming, hash, preimage, secret, amt))
    case Crash =>
      n' == Node(Load(n.outbound.disk), Load(n.inbound.disk), Loaded, Ready, n.handed, {})
  }

  // ----- The invariant -----

  ghost predicate AllGood(snapshots: seq<Payments>) {
    forall i | 0 <= i < |snapshots| :: Good(snapshots[i])
  }

  /** A record is on disk for what is being handed over and what has been. */
  ghost predicate Recorded(n: Node) {
    && n.handed <= n.outbound.disk.Keys
    && match n.cli
       case Persisting(id, v, _) => v < |n.outbound.snapshots| && id in n.outbound.snapshots[v]
       case Sending(id, _) => id in n.outbound.disk
       case _ => true
  }

  /** Once reconciled, no pending payment is a leftover that the channel manager does not know. */
  ghost predicate Accounted(n: Node)
    requires n.outbound.snapshots != []
  {
    !n.process.Loaded? ==>
      forall id | id in Memory(n.outbound) && Memory(n.outbound)[id].status.Pending? :: id in n.accounted
  }

  ghost predicate Stored(n: Node) {
    && Valid(n.outbound) && Valid(n.inbound)
    && AllGood(n.outbound.snapshots)
    && Recorded(n)
  }

  /** The process serves only after the reconciled ledger has been written, and every ledger it has held since then
      is accounted for. */
  ghost predicate Booted(n: Node) {
    && (n.process.Loaded? ==> |n.outbound.snapshots| == 1)
    && (n.process.Booting? ==> n.process.version == 1)
    && (n.process.Running? ==> n.outbound.landed >= 1)
    && (forall i, id | 1 <= i < |n.outbound.snapshots| && id in n.outbound.snapshots[i] ::
          n.outbound.snapshots[i][id].status.Pending? ==> id in n.accounted)
  }

  ghost predicate Inv(n: Node) {
    Stored(n) && Accounted(n) && Booted(n)
  }

  lemma {:induction false} WriteOutKeeps(n: Node, p: Payments)
    requires Stored(n) && Memory(n.outbound).Keys <= p.Keys && Good(p)
    ensures Stored(WriteOut(n, p))
  {
    IssueValid(n.outbound, p);
  }

  lemma {:induction false} AccountedKept(n: Node, a: Action, n': Node)
    requires Stored(n) && Accounted(n) && Next(n, a, n')
    ensures n'.outbound.snapshots != [] && Accounted(n')
  {
  }

  lemma {:induction false} BootedKept(n: Node, a: Action, n': Node)
    requires Stored(n) && Accounted(n) && Booted(n) && Next(n, a, n')
    ensures Booted(n')
  {
    AccountedKept(n, a, n');
    forall i, id | 1 <= i < |n'.outbound.snapshots| && id in n'.outbound.snapshots[i]
      ensures n'.outbound.snapshots[i][id].status.Pending? ==> id in n'.accounted
    {
      if i < |n.outbound.snapshots| {
        assert n'.outbound.snapshots[i] == n.outbound.snapshots[i];
      }
    }
  }

  lemma {:induction false} StoredKept(n: Node, a: Action, n': Node)
    requires Stored(n) && Next(n, a, n')
    ensures Stored(n')
  {
    var (outgoing, incoming) := (Memory(n.outbound), Memory(n.inbound));
    assert Good(outgoing);
    match a {
      case Reconcile(known) => WriteOutKeeps(n, Reconciled(outgoing, known));
      case FinishOutbound(v, ok, reached) => FinishValid(n.outbound, v, reached);
      case FinishInbound(v, reached) => FinishValid(n.inbound, v, reached);
      case Insert(id, secret, amt, marks) => WriteOutKeeps(n, InsertPending(outgoing, id, secret, amt));
      case Send(accepted) =>
      case FailSend => WriteOutKeeps(n, MarkFailed(outgoing, n.cli.id));
      case SentEvent(id, preimage) => WriteOutKeeps(n, MarkSent(outgoing, id, preimage));
      case FailedEvent(id) => WriteOutKeeps(n, MarkFailed(outgoing, id));
      case Invoice(created, amt) =>
        IssueValid(n.inbound, Memory(n'.inbound));
      case ClaimedEvent(hash, preimage, secret, amt) =>
        IssueValid(n.inbound, Claim(incoming, hash, preimage, secret, amt));
      case Crash =>
    }
  }

  // ----- What each step does to a record -----

  /** The outbound record of `id` after any step, restarts included. */
  lemma {:induction false} OutboundStep(n: Node, a: Action, n': Node, id: PaymentId)
    requires Stored(n) && Next(n, a, n')
    ensures n'.outbound.snapshots != []
    ensures var (was, now) := (Memory(n.outbound), Memory(n'.outbound));
            if a.Crash? then now == n.outbound.disk
            else if a.Insert? && a.id == id then
              id in now && now[id] == PaymentInfo(None, a.secret, Pending, Some(a.amt))
            else if id !in was then id !in now
            else if a.SentEvent? && a.id == id then
              id in now && now[id] == was[id].(preimage := Some(a.preimage), status := Succeeded)
            else if (a.FailedEvent? && a.id == id) || (a.FailSend? && n.cli.Failing? && n.cli.id == id) then
              id in now && now[id] == was[id].(status := Failed)
            else if a.Reconcile? && was[id].status.Pending? && id !in a.known then
              id in now && now[id] == was[id].(status := Failed)
            else id in now && now[id] == was[id]
  {
  }

  /** The inbound record of `hash` after any step. */
  lemma {:induction false} InboundStep(n: Node, a: Action, n': Node, hash: PaymentId)
    requires Stored(n) && Next(n, a, n')
    ensures n'.inbound.snapshots != []
    ensures var (was, now) := (Memory(n.inbound), Memory(n'.inbound));
            if a.Crash? then now == n.inbound.disk
            else if a.Invoice? && a.created.Some? && a.created.value.0 == hash then
              hash in now && now[hash] == PaymentInfo(None, Some(a.created.value.1), Pending, Some(a.amt))
            else if a.ClaimedEvent? && a.hash == hash then
              && hash in now
              && now[hash] == PaymentInfo(a.claimed, a.secret, Succeeded,
                                          if hash in was then was[hash].amtMsat else Some(a.amt))
            else if hash !in was then hash !in now
            else hash in now && now[hash] == was[hash]
  {
  }

  // ----- Every run -----

  /** A run starts with good ledgers on disk and nothing handed over. */
  ghost predicate Run(nodes: seq<Node>, actions: seq<Action>) {
    && |nodes| == |actions| + 1
    && (exists outbound, inbound ::
          Good(outbound) && nodes[0] == Node(Load(outbound), Load(inbound), Loaded, Ready, {}, {}))
    && forall i | 0 <= i < |actions| :: Next(nodes[i], actions[i], nodes[i + 1])
  }

  lemma {:induction false} RunInv(nodes: seq<Node>, actions: seq<Action>, i: nat)
    requires Run(nodes, actions) && i < |nodes|
    ensures Inv(nodes[i])
  {
    if i > 0 {
      RunInv(nodes, actions, i - 1);
      StoredKept(nodes[i - 1], actions[i - 1], nodes[i]);
      AccountedKept(nodes[i - 1], actions[i - 1], nodes[i]);
      BootedKept(nodes[i - 1], actions[i - 1], nodes[i]);
    }
  }

  /** Write-ahead: when an id is handed to the channel manager its record is already on disk, and from then on,
      through every event, failed write, late write and restart, the disk has a record of it. */
  lemma {:induction false} WriteAhead(nodes: seq<Node>, actions: seq<Action>, i: nat, j: nat)
    requires Run(nodes, actions) && i <= j < |nodes|
    ensures nodes[i].handed <= nodes[j].outbound.disk.Keys
    ensures i < j && actions[i].Send? ==> nodes[i].cli.Sending? && nodes[i].cli.id in nodes[i].outbound.disk
                                          && nodes[i].cli.id in nodes[j].outbound.disk
  {
    RunInv(nodes, actions, i);
    RunInv(nodes, actions, j);
    HandedGrows(nodes, actions, i, j);
    if i < j && actions[i].Send? {
      assert Next(nodes[i], actions[i], nodes[i + 1]);
      HandedGrows(nodes, actions, i + 1, j);
    }
  }

  lemma {:induction false} HandedGrows(nodes: seq<Node>, actions: seq<Action>, i: nat, j: nat)
    requires Run(nodes, actions) && i <= j < |nodes|
    ensures nodes[i].handed <= nodes[j].handed
    decreases j - i
  {
    if i < j {
      HandedGrows(nodes, actions, i, j - 1);
      assert Next(nodes[j - 1], actions[j - 1], nodes[j]);
    }
  }

  /** On disk and in memory, a Succeeded payment has a preimage and a Pending one has none. */
  lemma {:induction false} RecordsAreGood(nodes: seq<Node>, actions: seq<Action>, i: nat)
    requires Run(nodes, actions) && i < |nodes|
    ensures nodes[i].outbound.snapshots != []
    ensures Good(nodes[i].outbound.disk) && Good(Memory(nodes[i].outbound))
  {
    RunInv(nodes, actions, i);
  }

  /** From reconciliation on, every pending payment is one that the channel manager listed at start or one that this
      process recorded itself; and while the process serves, that is so of the disk as well. */
  lemma {:induction false} PendingIsAccounted(nodes: seq<Node>, actions: seq<Action>, i: nat, id: PaymentId)
    requires Run(nodes, actions) && i < |nodes| && !nodes[i].process.Loaded?
    ensures var out := nodes[i].outbound;
            && out.snapshots != []
            && (id in Memory(out) && Memory(out)[id].status.Pending? ==> id in nodes[i].accounted)
            && (nodes[i].process.Running? && id in out.disk && out.disk[id].status.Pending? ==>
                  id in nodes[i].accounted)
  {
    RunInv(nodes, actions, i);
  }

  // ----- What becomes of a refused payment, and of an invoice -----

  /** From a refused send to the write that follows it, the command is busy with it. */
  lemma {:induction false} StillFailing(nodes: seq<Node>, actions: seq<Action>, i: nat, k: nat)
    requires Run(nodes, actions) && i < k < |nodes| && actions[i] == Send(false)
    requires nodes[i].cli.Sending? && nodes[i].cli.marks
    requires forall j | i < j < k :: !actions[j].Crash? && !actions[j].FailSend?
    ensures nodes[k].cli == Failing(nodes[i].cli.id)
  {
    assert Next(nodes[k - 1], actions[k - 1], nodes[k]);
    if i < k - 1 {
      StillFailing(nodes, actions, i, k - 1);
    }
  }

  /** An invoice payment or keysend that the channel manager refuses ends as Failed: until the process ends, the next
      thing that the command does is to mark its record, which is there, and to write the ledger. */
  lemma {:induction false} RefusedEndsFailed(nodes: seq<Node>, actions: seq<Action>, i: nat, k: nat)
    requires Run(nodes, actions) && i < k < |actions| && actions[i] == Send(false)
    requires nodes[i].cli.Sending? && nodes[i].cli.marks
    requires forall j | i < j < k :: !actions[j].Crash? && !actions[j].FailSend?
    ensures !actions[k].Insert? && !actions[k].Send? && !actions[k].Invoice?
    ensures actions[k].FailSend? ==>
              var (id, out) := (nodes[i].cli.id, nodes[k + 1].outbound);
              && out.snapshots != [] && id in Memory(out) && Memory(out)[id].status.Failed?
              && |out.snapshots| - 1 in out.outstanding && nodes[k + 1].cli == Ready
  {
    StillFailing(nodes, actions, i, k);
    RunInv(nodes, actions, k);
    WriteAhead(nodes, actions, i, k);
    var (n, id) := (nodes[k], nodes[i].cli.id);
    assert Next(n, actions[k], nodes[k + 1]);
    assert id in Memory(n.outbound) by {
      assert id in n.outbound.snapshots[n.outbound.landed];
    }
    OutboundStep(n, actions[k], nodes[k + 1], id);
  }

  /** And only such a payment is marked so: an accepted one is not, nor one for an offer or a human-readable name. */
  lemma {:induction false} MarkedAfterRefusal(nodes: seq<Node>, actions: seq<Action>, k: nat) returns (i: nat)
    requires Run(nodes, actions) && k < |nodes| && nodes[k].cli.Failing?
    ensures i < k && actions[i] == Send(false) && nodes[i].cli == Sending(nodes[k].cli.id, true)
    ensures forall j | i < j < k :: !actions[j].Crash? && !actions[j].FailSend?
  {
    assert k > 0;
    assert Next(nodes[k - 1], actions[k - 1], nodes[k]);
    i := k - 1;
    if nodes[k - 1].cli.Failing? {
      i := MarkedAfterRefusal(nodes, actions, k - 1);
    }
  }

  ghost predicate InboundRecord(n: Node, hash: PaymentId, info: PaymentInfo) {
    n.inbound.snapshots != [] && hash in Memory(n.inbound) && Memory(n.inbound)[hash] == info
  }

  predicate Disturbs(a: Action, hash: PaymentId) {
    || a.Crash?
    || (a.ClaimedEvent? && a.hash == hash)
    || (a.Invoice? && a.created.Some? && a.created.value.0 == hash)
  }

  lemma {:induction false} InvoiceStep(n: Node, n': Node, hash: PaymentId, secret: nat, amt: nat)
    requires Stored(n) && Next(n, Invoice(Some((hash, secret)), amt), n')
    ensures InboundRecord(n', hash, PaymentInfo(None, Some(secret), Pending, Some(amt)))
    ensures |n'.inbound.snapshots| - 1 in n'.inbound.outstanding
  {
  }

  lemma {:induction false} InboundKept(n: Node, a: Action, n': Node, hash: PaymentId, info: PaymentInfo)
    requires Stored(n) && Next(n, a, n') && InboundRecord(n, hash, info) && !Disturbs(a, hash)
    ensures InboundRecord(n', hash, info)
  {
    InboundStep(n, a, n', hash);
  }

  /** An invoice that was created is recorded with its secret and amount, and its write issued, at once; the record
      stays as it is until the process ends, the payment is claimed or the same hash is invoiced again. */
  lemma {:induction false} InvoiceIsRecorded(nodes: seq<Node>, actions: seq<Action>, i: nat, k: nat, hash: PaymentId,
                                             secret: nat, amt: nat)
    requires Run(nodes, actions) && i < k < |nodes| && actions[i] == Invoice(Some((hash, secret)), amt)
    requires forall j | i < j < k :: !Disturbs(actions[j], hash)
    ensures InboundRecord(nodes[k], hash, PaymentInfo(None, Some(secret), Pending, Some(amt)))
    ensures |nodes[i + 1].inbound.snapshots| - 1 in nodes[i + 1].inbound.outstanding
    decreases k
  {
    RunInv(nodes, actions, k - 1);
    if i == k - 1 {
      InvoiceStep(nodes[i], nodes[k], hash, secret, amt);
    } else {
      InvoiceIsRecorded(nodes, actions, i, k - 1, hash, secret, amt);
      InboundKept(nodes[k - 1], actions[k - 1], nodes[k], hash, PaymentInfo(None, Some(secret), Pending, Some(amt)));
    }
  }

  datatype Side = Outgoing | Incoming

  function LedgerOf(n: Node, side: Side): (l: Ledger) {
    if side.Outgoing? then n.outbound else n.inbound
  }

  /** At some moment up to `i` the ledger in memory was `p`. */
  ghost predicate Held(nodes: seq<Node>, i: nat, side: Side, p: Payments)
    requires i < |nodes|
  {
    exists k | 0 <= k <= i :: LedgerOf(nodes[k], side).snapshots != [] && Memory(LedgerOf(nodes[k], side)) == p
  }

  /** The write of `side` issued last has just succeeded. */
  predicate LastWriteSucceeds(n: Node, a: Action, side: Side) {
    match side
    case Outgoing => a.FinishOutbound? && a.ok && a.version == |n.outbound.snapshots| - 1
    case Incoming => a.FinishInbound? && a.reached && a.version == |n.inbound.snapshots| - 1
  }

  /** The disk never holds anything but a snapshot that memory held under the lock; and once the write issued last
      has reached the disk, which it has when it succeeds, the two are equal. */
  lemma {:induction false} DiskIsSnapshot(nodes: seq<Node>, actions: seq<Action>, i: nat, side: Side)
    requires Run(nodes, actions) && i < |nodes|
    ensures Held(nodes, i, side, LedgerOf(nodes[i], side).disk)
    ensures var l := LedgerOf(nodes[i], side);
            l.landed + 1 == |l.snapshots| ==> l.disk == Memory(l)
    ensures i > 0 && LastWriteSucceeds(nodes[i - 1], actions[i - 1], side) ==>
              var l := LedgerOf(nodes[i], side);
              l.landed + 1 == |l.snapshots| && l.disk == Memory(l)
  {
    RunInv(nodes, actions, i);
    SnapshotsHeld(nodes, actions, i, side);
    if i > 0 && LastWriteSucceeds(nodes[i - 1], actions[i - 1], side) {
      RunInv(nodes, actions, i - 1);
      assert Next(nodes[i - 1], actions[i - 1], nodes[i]);
    }
  }

  lemma {:induction false} SnapshotsHeld(nodes: seq<Node>, actions: seq<Action>, i: nat, side: Side)
    requires Run(nodes, actions) && i < |nodes|
    ensures forall p | p in LedgerOf(nodes[i], side).snapshots :: Held(nodes, i, side, p)
  {
    RunInv(nodes, actions, i);
    var l := LedgerOf(nodes[i], side);
    assert Held(nodes, i, side, Memory(l));
    if i > 0 {
      SnapshotsHeld(nodes, actions, i - 1, side);
      RunInv(nodes, actions, i - 1);
      assert Next(nodes[i - 1], actions[i - 1], nodes[i]);
      var before := LedgerOf(nodes[i - 1], side);
      forall p | p in l.snapshots ensures Held(nodes, i, side, p) {
        assert p == Memory(l) || p in before.snapshots;
        if p in before.snapshots {
          assert Held(nodes, i - 1, side, p);
        }
      }
    }
  }

  /** Reconciliation changes nothing but the status of pending payments the channel manager does not know. */
  lemma {:induction false} ReconcileExact(p: Payments, known: set<PaymentId>)
    ensures var r := Reconciled(p, known);
            && r.Keys == p.Keys
            && forall id | id in p ::
                 && r[id].(status := p[id].status) == p[id]
                 && (r[id].status.Pending? <==> p[id].status.Pending? && id in known)
                 && (!p[id].status.Pending? ==> r[id].status == p[id].status)
                 && (p[id].status.Pending? && id !in known ==> r[id].status.Failed?)
  {
  }

  // ----- "Succeeded" is not final -----

  predicate Paid(p: Payments, id: PaymentId) {
    id in p && p[id].status.Succeeded?
  }

  /** What makes a payment Succeeded: the channel manager says so, or a restart finds it so on disk. */
  ghost predicate Gains(n: Node, a: Action, id: PaymentId)
    requires n.outbound.snapshots != []
  {
    || (a.SentEvent? && a.id == id && id in Memory(n.outbound))
    || (a.Crash? && Paid(n.outbound.disk, id))
  }

  /** What ends it: the same id is sent again, the channel manager reports it failed or refuses to send it, or the
      process restarts before the disk says so. */
  ghost predicate Ends(n: Node, a: Action, id: PaymentId) {
    || (a.Insert? && a.id == id)
    || (a.FailedEvent? && a.id == id)
    || (a.FailSend? && n.cli.Failing? && n.cli.id == id)
    || (a.Crash? && !Paid(n.outbound.disk, id))
  }

  /** One step: Succeeded afterwards if and only if it gains the status, or had it and does not end it. */
  lemma {:induction false} SucceededEnds(n: Node, a: Action, n': Node, id: PaymentId)
    requires Inv(n) && Next(n, a, n')
    ensures n'.outbound.snapshots != []
    ensures Paid(Memory(n'.outbound), id) <==> Gains(n, a, id) || (Paid(Memory(n.outbound), id) && !Ends(n, a, id))
  {
  }

  /** Whether the ledger in memory says at `i` that `id` was paid. */
  ghost predicate PaidAt(nodes: seq<Node>, i: nat, id: PaymentId)
    requires i < |nodes|
  {
    nodes[i].outbound.snapshots != [] && Paid(Memory(nodes[i].outbound), id)
  }

  ghost predicate GainsAt(nodes: seq<Node>, actions: seq<Action>, k: nat, id: PaymentId)
    requires k < |nodes| && k < |actions|
  {
    nodes[k].outbound.snapshots != [] && Gains(nodes[k], actions[k], id)
  }

  /** No step from `i` up to `j` ends the status. */
  ghost predicate Lasts(nodes: seq<Node>, actions: seq<Action>, i: nat, j: nat, id: PaymentId)
    requires j <= |nodes| && j <= |actions|
  {
    forall k | i <= k < j :: !Ends(nodes[k], actions[k], id)
  }

  ghost predicate GainedBetween(nodes: seq<Node>, actions: seq<Action>, i: nat, j: nat, id: PaymentId)
    requires j <= |nodes| && j <= |actions|
  {
    exists k | i <= k < j :: GainsAt(nodes, actions, k, id) && Lasts(nodes, actions, k + 1, j, id)
  }

  /** Over any stretch of any run, restarts included: a payment is Succeeded at its end if and only if the status was
      gained on the way and not ended since, or was there at the beginning and not ended at all. */
  lemma {:induction false} SucceededExactly(nodes: seq<Node>, actions: seq<Action>, i: nat, j: nat, id: PaymentId)
    requires Run(nodes, actions) && i <= j < |nodes|
    ensures PaidAt(nodes, j, id) <==>
            || GainedBetween(nodes, actions, i, j, id)
            || (PaidAt(nodes, i, id) && Lasts(nodes, actions, i, j, id))
    decreases j - i
  {
    if i < j {
      var k := j - 1;
      RunInv(nodes, actions, k);
      SucceededEnds(nodes[k], actions[k], nodes[j], id);
      SucceededExactly(nodes, actions, i, k, id);
      OneStepMore(nodes, actions, i, k, id);
    }
  }

  lemma {:induction false} OneStepMore(nodes: seq<Node>, actions: seq<Action>, i: nat, k: nat, id: PaymentId)
    requires i <= k < |nodes| && k < |actions|
    ensures GainedBetween(nodes, actions, i, k + 1, id) <==>
            || GainsAt(nodes, actions, k, id)
            || (GainedBetween(nodes, actions, i, k, id) && !Ends(nodes[k], actions[k], id))
    ensures Lasts(nodes, actions, i, k + 1, id) <==>
            Lasts(nodes, actions, i, k, id) && !Ends(nodes[k], actions[k], id)
  {
    if GainedBetween(nodes, actions, i, k + 1, id) && !GainsAt(nodes, actions, k, id) {
      var g :| i <= g < k + 1 && GainsAt(nodes, actions, g, id) && Lasts(nodes, actions, g + 1, k + 1, id);
      assert Lasts(nodes, actions, g + 1, k, id);
    }
    if GainedBetween(nodes, actions, i, k, id) && !Ends(nodes[k], actions[k], id) {
      var g :| i <= g < k && GainsAt(nodes, actions, g, id) && Lasts(nodes, actions, g + 1, k, id);
      assert Lasts(nodes, actions, g + 1, k + 1, id);
    }
    if GainsAt(nodes, actions, k, id) {
      assert Lasts(nodes, actions, k + 1, k + 1, id);
    }
  }

  // ----- Two runs that forget a payment -----

  ghost const EMPTY := Node(Load(map[]), Load(map[]), Loaded, Ready, {}, {})

  /** One more step of a run. */
  lemma {:induction false} Extend(nodes: seq<Node>, actions: seq<Action>, a: Action, n: Node)
    returns (nodes': seq<Node>, actions': seq<Action>)
    requires Run(nodes, actions) && Next(nodes[|actions|], a, n)
    ensures Run(nodes', actions') && nodes' == nodes + [n] && actions' == actions + [a]
  {
    nodes', actions' := nodes + [n], actions + [a];
  }

  function Sent(id: PaymentId, secret: Option<nat>, amt: nat): (p: Payments) {
    map[id := PaymentInfo(None, secret, Pending, Some(amt))]
  }

  function Settled(id: PaymentId, preimage: nat, secret: Option<nat>, amt: nat): (p: Payments) {
    map[id := PaymentInfo(Some(preimage), secret, Succeeded, Some(amt))]
  }

  /** The node while the first payment of its life is sent, its record on disk. */
  ghost function Paying(id: PaymentId, secret: Option<nat>, amt: nat): (n: Node) {
    var p := Sent(id, secret, amt);
    Node(Ledger(p, [map[], map[], p], 2, {}), Load(map[]), Running, Ready, {id}, {id})
  }

  ghost const STARTED := Node(Ledger(map[], [map[], map[]], 1, {}), Load(map[]), Running, Ready, {}, {})

  /** A first start: reconcile and write. */
  lemma {:induction false} FirstStart() returns (nodes: seq<Node>, actions: seq<Action>)
    ensures Run(nodes, actions) && nodes[|actions|] == STARTED
  {
    assert Good(map[]);
    assert Reconciled(map[], {}) == map[];
    var booting := Node(Ledger(map[], [map[], map[]], 0, {1}), Load(map[]), Booting(1), Ready, {}, {});
    nodes, actions := Extend([EMPTY], [], Reconcile({}), booting);
    nodes, actions := Extend(nodes, actions, FinishOutbound(1, true, true), STARTED);
  }

  /** Then a payment under way: record, write, send. */
  lemma {:induction false} PaymentUnderWay(id: PaymentId, secret: Option<nat>, amt: nat)
    returns (nodes: seq<Node>, actions: seq<Action>)
    ensures Run(nodes, actions) && nodes[|actions|] == Paying(id, secret, amt)
  {
    nodes, actions := FirstStart();
    var p := Sent(id, secret, amt);
    assert InsertPending(map[], id, secret, amt) == p;
    var inserted := WriteOut(STARTED, p).(cli := Persisting(id, 2, true), accounted := {id});
    nodes, actions := Extend(nodes, actions, Insert(id, secret, amt, true), inserted);
    var recorded := Paying(id, secret, amt).(cli := Sending(id, true), handed := {});
    assert recorded.outbound == Finish(inserted.outbound, 2, true);
    nodes, actions := Extend(nodes, actions, FinishOutbound(2, true, true), recorded);
    nodes, actions := Extend(nodes, actions, Send(true), Paying(id, secret, amt));
  }

  /** Then it is settled, the write of that still under way. */
  lemma {:induction false} PaymentSettled(id: PaymentId, preimage: nat, secret: Option<nat>, amt: nat)
    returns (nodes: seq<Node>, actions: seq<Action>)
    ensures Run(nodes, actions)
    ensures nodes[|actions|] == WriteOut(Paying(id, secret, amt), Settled(id, preimage, secret, amt))
  {
    nodes, actions := PaymentUnderWay(id, secret, amt);
    var settled := WriteOut(Paying(id, secret, amt), Settled(id, preimage, secret, amt));
    assert MarkSent(Sent(id, secret, amt), id, preimage) == Settled(id, preimage, secret, amt);
    nodes, actions := Extend(nodes, actions, SentEvent(id, preimage), settled);
  }

  /** A run in which paying the same invoice again forgets that it was paid, and its preimage. */
  lemma {:induction false} ResendForgets(id: PaymentId, preimage: nat, secret: Option<nat>, amt: nat)
    returns (nodes: seq<Node>, actions: seq<Action>)
    ensures Run(nodes, actions) && |actions| > 0
    ensures PaidAt(nodes, |actions| - 1, id) && actions[|actions| - 1] == Insert(id, secret, amt, true)
    ensures nodes[|actions|].outbound.snapshots != []
    ensures Memory(nodes[|actions|].outbound) == map[id := PaymentInfo(None, secret, Pending, Some(amt))]
  {
    nodes, actions := PaymentSettled(id, preimage, secret, amt);
    var n := nodes[|actions|];
    var p := InsertPending(Memory(n.outbound), id, secret, amt);
    assert p == Sent(id, secret, amt);
    var again := WriteOut(n, p).(cli := Persisting(id, |n.outbound.snapshots|, true), accounted := n.accounted + {id});
    nodes, actions := Extend(nodes, actions, Insert(id, secret, amt, true), again);
  }

  /** A run in which nobody names the payment: the process ends before the write that it was paid has landed, and
      reconciliation with a channel manager that no longer lists it makes it Failed. */
  lemma {:induction false} CrashForgets(id: PaymentId, preimage: nat, secret: Option<nat>, amt: nat)
    returns (nodes: seq<Node>, actions: seq<Action>)
    ensures Run(nodes, actions) && |actions| > 1
    ensures PaidAt(nodes, |actions| - 2, id) && actions[|actions| - 2..] == [Crash, Reconcile({})]
    ensures nodes[|actions|].outbound.snapshots != []
    ensures Memory(nodes[|actions|].outbound) == map[id := PaymentInfo(None, secret, Failed, Some(amt))]
  {
    nodes, actions := PaymentSettled(id, preimage, secret, amt);
    var n := nodes[|actions|];
    var p := Sent(id, secret, amt);
    var restarted := Node(Load(p), Load(map[]), Loaded, Ready, n.handed, {});
    nodes, actions := Extend(nodes, actions, Crash, restarted);
    var failed := map[id := PaymentInfo(None, secret, Failed, Some(amt))];
    assert Reconciled(p, {}) == failed;
    var end := WriteOut(restarted, failed).(process := Booting(1), accounted := {});
    nodes, actions := Extend(nodes, actions, Reconcile({}), end);
  }
}
