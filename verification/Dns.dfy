/** Sampling peers from DNS seeds (BOLT #10): nested loops with two early breaks. */
module Dns {
  import opened Wrappers

  datatype BootstrappedPeer = BootstrappedPeer(pubkey: nat, ip: nat, port: nat)

  /** An SRV record, with what decoding its hostname and resolving it would yield. */
  datatype SrvRecord = SrvRecord(pubkey: Option<nat>, ip: Option<nat>, port: nat)

  /** What a seed answers: an error, or its records. */
  type Answer = Option<seq<SrvRecord>>

  /** The record decodes and its node is not ignored, so its host is looked up. */
  predicate Candidate(srv: SrvRecord, ignore: set<nat>) {
    srv.pubkey.Some? && srv.pubkey.value !in ignore
  }

  /** And it resolves. */
  predicate Usable(srv: SrvRecord, ignore: set<nat>) {
    Candidate(srv, ignore) && srv.ip.Some?
  }

  function CandidatesOf(records: seq<SrvRecord>, ignore: set<nat>): (r: seq<SrvRecord>) {
    if records == [] then []
    else
      var srv := records[|records| - 1];
      CandidatesOf(records[..|records| - 1], ignore) + (if Candidate(srv, ignore) then [srv] else [])
  }

  function PeersOf(records: seq<SrvRecord>, ignore: set<nat>): (r: seq<BootstrappedPeer>) {
    if records == [] then []
    else
      var srv := records[|records| - 1];
      PeersOf(records[..|records| - 1], ignore) + PeerOf(srv, ignore)
  }

  /** All the peers a seed offers. */
  function Offered(answer: Answer, ignore: set<nat>): (r: seq<BootstrappedPeer>) {
    match answer
    case None => []
    case Some(records) => PeersOf(records, ignore)
  }

  /** All the peers that the seeds offer, in seed order. */
  function AllOffered(seeds: seq<Answer>, ignore: set<nat>): (r: seq<BootstrappedPeer>) {
    if seeds == [] then []
    else AllOffered(seeds[..|seeds| - 1], ignore) + Offered(seeds[|seeds| - 1], ignore)
  }

  /** All the candidates in the seeds' answers, in seed order. */
  function AllCandidates(seeds: seq<Answer>, ignore: set<nat>): (r: seq<SrvRecord>) {
    if seeds == [] then []
    else
      var answer := seeds[|seeds| - 1];
      AllCandidates(seeds[..|seeds| - 1], ignore) +
      (if answer.Some? then CandidatesOf(answer.value, ignore) else [])
  }

  function Take<T>(s: seq<T>, n: nat): (r: seq<T>) {
    if |s| <= n then s else s[..n]
  }

  /** Taking from a longer list changes nothing once enough are there. */
  lemma {:induction false} TakeEnough<T>(s: seq<T>, r: seq<T>, n: nat)
    requires s <= r && (|s| >= n || s == r)
    ensures Take(s, n) == Take(r, n)
  {
  }

  lemma {:induction false} OfferedGrows(seeds: seq<Answer>, ignore: set<nat>, i: nat)
    requires i <= |seeds|
    ensures AllOffered(seeds[..i], ignore) <= AllOffered(seeds, ignore)
    decreases |seeds|
  {
    if i < |seeds| {
      assert seeds[..|seeds| - 1][..i] == seeds[..i];
      OfferedGrows(seeds[..|seeds| - 1], ignore, i);
    } else {
      assert seeds[..i] == seeds;
    }
  }

  lemma {:induction false} PeersGrow(records: seq<SrvRecord>, ignore: set<nat>, i: nat)
    requires i <= |records|
    ensures PeersOf(records[..i], ignore) <= PeersOf(records, ignore)
    decreases |records|
  {
    if i < |records| {
      assert records[..|records| - 1][..i] == records[..i];
      PeersGrow(records[..|records| - 1], ignore, i);
    } else {
      assert records[..i] == records;
    }
  }

  /** The peer that a record yields, if any. */
  function PeerOf(srv: SrvRecord, ignore: set<nat>): (r: seq<BootstrappedPeer>) {
    if Usable(srv, ignore) then [BootstrappedPeer(srv.pubkey.value, srv.ip.value, srv.port)] else []
  }

  lemma {:induction false} OneMoreRecord(records: seq<SrvRecord>, ignore: set<nat>, i: nat)
    requires i < |records|
    ensures PeersOf(records[..i + 1], ignore) == PeersOf(records[..i], ignore) + PeerOf(records[i], ignore)
    ensures CandidatesOf(records[..i + 1], ignore) ==
            CandidatesOf(records[..i], ignore) + (if Candidate(records[i], ignore) then [records[i]] else [])
  {
    assert records[..i + 1][..i] == records[..i];
  }

  lemma {:induction false} CandidatesGrow(seeds: seq<Answer>, ignore: set<nat>, i: nat)
    requires i <= |seeds|
    ensures AllCandidates(seeds[..i], ignore) <= AllCandidates(seeds, ignore)
    decreases |seeds|
  {
    if i < |seeds| {
      assert seeds[..|seeds| - 1][..i] == seeds[..i];
      CandidatesGrow(seeds[..|seeds| - 1], ignore, i);
    } else {
      assert seeds[..i] == seeds;
    }
  }

  lemma {:induction false} SomeCandidates(records: seq<SrvRecord>, ignore: set<nat>, i: nat)
    requires i <= |records|
    ensures CandidatesOf(records[..i], ignore) <= CandidatesOf(records, ignore)
    decreases |records|
  {
    if i < |records| {
      assert records[..|records| - 1][..i] == records[..i];
      SomeCandidates(records[..|records| - 1], ignore, i);
    } else {
      assert records[..i] == records;
    }
  }

  // ----- What is offered, in terms of the records -----

  /** Record by record, in their order: a peer with its key, address and port if it has a key that is not ignored and an
      address; looked up if it has such a key. */
  lemma {:induction false} RecordsInOrder(records: seq<SrvRecord>, srv: SrvRecord, ignore: set<nat>)
    ensures PeersOf([], ignore) == [] && CandidatesOf([], ignore) == []
    ensures PeersOf(records + [srv], ignore) ==
            PeersOf(records, ignore) +
            (if srv.pubkey.Some? && srv.pubkey.value !in ignore && srv.ip.Some?
             then [BootstrappedPeer(srv.pubkey.value, srv.ip.value, srv.port)] else [])
    ensures CandidatesOf(records + [srv], ignore) ==
            CandidatesOf(records, ignore) + (if srv.pubkey.Some? && srv.pubkey.value !in ignore then [srv] else [])
  {
    assert (records + [srv])[..|records|] == records;
  }

  /** Seeds yield the peers of their records, in their order; one that fails yields none. */
  lemma {:induction false} SeedsInOrder(seeds: seq<Answer>, answer: Answer, ignore: set<nat>)
    ensures AllOffered([], ignore) == [] && AllCandidates([], ignore) == []
    ensures AllOffered(seeds + [answer], ignore) ==
            AllOffered(seeds, ignore) + (if answer.Some? then PeersOf(answer.value, ignore) else [])
    ensures AllCandidates(seeds + [answer], ignore) ==
            AllCandidates(seeds, ignore) + (if answer.Some? then CandidatesOf(answer.value, ignore) else [])
  {
    assert (seeds + [answer])[..|seeds|] == seeds;
  }

  /** The record that a peer is made from. */
  function RecordOf(peer: BootstrappedPeer): (srv: SrvRecord) {
    SrvRecord(Some(peer.pubkey), Some(peer.ip), peer.port)
  }

  lemma {:induction false} PeersFromRecords(records: seq<SrvRecord>, ignore: set<nat>, peer: BootstrappedPeer)
    ensures peer in PeersOf(records, ignore) <==>
            peer.pubkey !in ignore && SrvRecord(Some(peer.pubkey), Some(peer.ip), peer.port) in records
  {
    if records != [] {
      var (init, srv) := (records[..|records| - 1], records[|records| - 1]);
      PeersFromRecords(init, ignore, peer);
      assert records == init + [srv];
      assert peer in PeerOf(srv, ignore) <==> peer.pubkey !in ignore && srv == RecordOf(peer);
    }
  }

  /** Some seed's answer has this record. */
  ghost predicate Answered(seeds: seq<Answer>, srv: SrvRecord) {
    exists a | 0 <= a < |seeds| :: seeds[a].Some? && srv in seeds[a].value
  }

  lemma {:induction false} AnsweredMore(seeds: seq<Answer>, srv: SrvRecord)
    requires seeds != []
    ensures var n := |seeds| - 1;
            Answered(seeds, srv) <==> Answered(seeds[..n], srv) || (seeds[n].Some? && srv in seeds[n].value)
  {
    var n := |seeds| - 1;
    if Answered(seeds[..n], srv) {
      var a :| 0 <= a < n && seeds[..n][a].Some? && srv in seeds[..n][a].value;
      assert seeds[a] == seeds[..n][a];
    }
    if Answered(seeds, srv) {
      var a :| 0 <= a < |seeds| && seeds[a].Some? && srv in seeds[a].value;
      assert a < n ==> seeds[..n][a] == seeds[a];
    }
  }

  /** A peer is offered if and only if its node is not ignored and some seed's answer has its record. */
  lemma {:induction false} OfferedExactly(seeds: seq<Answer>, ignore: set<nat>, peer: BootstrappedPeer)
    ensures peer in AllOffered(seeds, ignore) <==>
            peer.pubkey !in ignore && Answered(seeds, SrvRecord(Some(peer.pubkey), Some(peer.ip), peer.port))
  {
    if seeds != [] {
      var (init, last) := (seeds[..|seeds| - 1], seeds[|seeds| - 1]);
      OfferedExactly(init, ignore, peer);
      AnsweredMore(seeds, RecordOf(peer));
      if last.Some? {
        PeersFromRecords(last.value, ignore, peer);
      }
    }
  }

  /** Each of these hosts was looked up when the peers found before it were too few. */
  ghost predicate Needed(lookups: seq<SrvRecord>, ignore: set<nat>, numAddrs: nat) {
    forall j | 0 <= j < |lookups| :: |PeersOf(lookups[..j], ignore)| < numAddrs
  }

  lemma {:induction false} NeededMore(lookups: seq<SrvRecord>, srv: SrvRecord, ignore: set<nat>, numAddrs: nat)
    requires Needed(lookups, ignore, numAddrs) && |PeersOf(lookups, ignore)| < numAddrs
    ensures Needed(lookups + [srv], ignore, numAddrs)
    ensures PeersOf(lookups + [srv], ignore) == PeersOf(lookups, ignore) + PeerOf(srv, ignore)
  {
    assert (lookups + [srv])[..|lookups|] == lookups;
    forall j | 0 <= j < |lookups + [srv]| ensures |PeersOf((lookups + [srv])[..j], ignore)| < numAddrs {
      assert (lookups + [srv])[..j] == lookups[..j];
      assert j == |lookups| ==> lookups[..j] == lookups;
    }
  }

  /** The first `numAddrs` of all offered peers, in order; an error exactly when there is none. Seed `j` was queried
      only if the seeds before it offered too few, and every seed was queried unless the target was met. The hosts
      looked up are the candidates in order, up to the one that meets the target. */
  method SampleNodeAddrs(numAddrs: nat, ignore: set<nat>, seeds: seq<Answer>)
    returns (result: Option<seq<BootstrappedPeer>>, queried: nat, lookups: seq<SrvRecord>)
    ensures result.None? <==> numAddrs == 0 || AllOffered(seeds, ignore) == []
    ensures result.Some? ==> result.value == Take(AllOffered(seeds, ignore), numAddrs)
    ensures result.Some? ==> 0 < |result.value| <= numAddrs
    ensures result.Some? ==> forall peer | peer in result.value ::
              && peer.pubkey !in ignore
              && Answered(seeds, SrvRecord(Some(peer.pubkey), Some(peer.ip), peer.port))
    ensures queried <= |seeds|
    ensures forall j | 0 <= j < queried :: |AllOffered(seeds[..j], ignore)| < numAddrs
    ensures queried < |seeds| ==> |AllOffered(seeds[..queried], ignore)| >= numAddrs
    ensures lookups <= AllCandidates(seeds, ignore) && Needed(lookups, ignore, numAddrs)
    ensures lookups != AllCandidates(seeds, ignore) ==> |PeersOf(lookups, ignore)| == numAddrs
  {
    var peers: seq<BootstrappedPeer>;
    peers, queried, lookups := QuerySeeds(numAddrs, ignore, seeds);
    OfferedGrows(seeds, ignore, queried);
    CandidatesGrow(seeds, ignore, queried);
    assert seeds[..|seeds|] == seeds;
    TakeEnough(AllOffered(seeds[..queried], ignore), AllOffered(seeds, ignore), numAddrs);
    if peers == [] {
      return None, queried, lookups;
    }
    forall peer | peer in peers
      ensures peer.pubkey !in ignore && Answered(seeds, RecordOf(peer))
    {
      assert peer in AllOffered(seeds, ignore);
      OfferedExactly(seeds, ignore, peer);
    }
    return Some(peers), queried, lookups;
  }

  /** The loop over the seeds. */
  method QuerySeeds(numAddrs: nat, ignore: set<nat>, seeds: seq<Answer>)
    returns (peers: seq<BootstrappedPeer>, queried: nat, lookups: seq<SrvRecord>)
    ensures queried <= |seeds| && Wanted(seeds, ignore, numAddrs, queried)
    ensures Sampled(seeds[..queried], ignore, numAddrs, peers, lookups) && Needed(lookups, ignore, numAddrs)
    ensures queried < |seeds| ==> |peers| >= numAddrs
  {
    peers, queried, lookups := [], 0, [];
    while queried < |seeds| && |peers| < numAddrs
      invariant 0 <= queried <= |seeds| && Needed(lookups, ignore, numAddrs)
      invariant Sampled(seeds[..queried], ignore, numAddrs, peers, lookups)
      invariant Wanted(seeds, ignore, numAddrs, queried)
    {
      var answer := seeds[queried];
      ghost var (before, asked) := (peers, lookups);
      if answer.Some? {
        peers, lookups := AddPeers(peers, lookups, answer.value, numAddrs, ignore);
      }
      SampledMore(seeds, queried, ignore, numAddrs, before, asked, peers, lookups);
      queried := queried + 1;
    }
  }

  /** Each of the seeds queried was queried when those before it had offered too few. */
  ghost predicate Wanted(seeds: seq<Answer>, ignore: set<nat>, numAddrs: nat, queried: nat)
    requires queried <= |seeds|
  {
    forall j | 0 <= j < queried :: |AllOffered(seeds[..j], ignore)| < numAddrs
  }

  /** What the seeds queried so far have given. */
  ghost predicate Sampled(seeds: seq<Answer>, ignore: set<nat>, numAddrs: nat, peers: seq<BootstrappedPeer>,
                          lookups: seq<SrvRecord>)
  {
    && peers == Take(AllOffered(seeds, ignore), numAddrs)
    && PeersOf(lookups, ignore) == peers
    && lookups <= AllCandidates(seeds, ignore)
    && (lookups == AllCandidates(seeds, ignore) || |peers| == numAddrs)
  }

  lemma {:induction false} SampledMore(seeds: seq<Answer>, i: nat, ignore: set<nat>, numAddrs: nat,
                                       before: seq<BootstrappedPeer>, asked: seq<SrvRecord>,
                                       peers: seq<BootstrappedPeer>, lookups: seq<SrvRecord>)
    requires i < |seeds| && Wanted(seeds, ignore, numAddrs, i)
    requires Sampled(seeds[..i], ignore, numAddrs, before, asked) && |before| < numAddrs
    requires seeds[i].None? ==> peers == before && lookups == asked
    requires seeds[i].Some? ==> Added(before, asked, seeds[i].value, numAddrs, ignore, peers, lookups)
    ensures Sampled(seeds[..i + 1], ignore, numAddrs, peers, lookups)
    ensures Wanted(seeds, ignore, numAddrs, i + 1)
  {
    SeedsInOrder(seeds[..i], seeds[i], ignore);
    assert seeds[..i + 1] == seeds[..i] + [seeds[i]];
    assert before == AllOffered(seeds[..i], ignore) && asked == AllCandidates(seeds[..i], ignore);
  }

  /** What the records of one seed add to the peers and the hosts looked up. */
  ghost predicate Added(before: seq<BootstrappedPeer>, asked: seq<SrvRecord>, records: seq<SrvRecord>, numAddrs: nat,
                        ignore: set<nat>, peers: seq<BootstrappedPeer>, lookups: seq<SrvRecord>)
  {
    && peers == Take(before + PeersOf(records, ignore), numAddrs)
    && PeersOf(lookups, ignore) == peers
    && asked <= lookups <= asked + CandidatesOf(records, ignore)
    && (lookups == asked + CandidatesOf(records, ignore) || |peers| == numAddrs)
  }

  /** The loop over one seed's records. */
  method AddPeers(before: seq<BootstrappedPeer>, asked: seq<SrvRecord>, records: seq<SrvRecord>, numAddrs: nat,
                  ignore: set<nat>)
    returns (peers: seq<BootstrappedPeer>, lookups: seq<SrvRecord>)
    requires |before| <= numAddrs && Needed(asked, ignore, numAddrs) && PeersOf(asked, ignore) == before
    ensures Added(before, asked, records, numAddrs, ignore, peers, lookups) && Needed(lookups, ignore, numAddrs)
  {
    peers, lookups := before, asked;
    var i := 0;
    while i < |records| && |peers| < numAddrs
      invariant 0 <= i <= |records| && |peers| <= numAddrs
      invariant Progress(before, asked, records[..i], ignore, numAddrs, peers, lookups)
    {
      var srv := records[i];
      ProgressMore(before, asked, records, i, ignore, numAddrs, peers, lookups);
      i := i + 1;
      if srv.pubkey.None? || srv.pubkey.value in ignore {
        continue;
      }
      lookups := lookups + [srv];
      if srv.ip.None? {
        continue;
      }
      peers := peers + [BootstrappedPeer(srv.pubkey.value, srv.ip.value, srv.port)];
    }
    EnoughRecords(before, asked, records, i, ignore, peers, lookups, numAddrs);
  }

  /** What the records of a seed that have been looked at add. */
  ghost predicate Progress(before: seq<BootstrappedPeer>, asked: seq<SrvRecord>, records: seq<SrvRecord>,
                           ignore: set<nat>, numAddrs: nat, peers: seq<BootstrappedPeer>, lookups: seq<SrvRecord>)
  {
    && peers == before + PeersOf(records, ignore)
    && lookups == asked + CandidatesOf(records, ignore)
    && PeersOf(lookups, ignore) == peers
    && Needed(lookups, ignore, numAddrs)
  }

  lemma {:induction false} ProgressMore(before: seq<BootstrappedPeer>, asked: seq<SrvRecord>, records: seq<SrvRecord>,
                                        i: nat, ignore: set<nat>, numAddrs: nat, peers: seq<BootstrappedPeer>,
                                        lookups: seq<SrvRecord>)
    requires i < |records| && Progress(before, asked, records[..i], ignore, numAddrs, peers, lookups)
    requires |peers| < numAddrs
    ensures var (srv, done) := (records[i], records[..i + 1]);
            if srv.pubkey.None? || srv.pubkey.value in ignore
            then Progress(before, asked, done, ignore, numAddrs, peers, lookups)
            else if srv.ip.None? then Progress(before, asked, done, ignore, numAddrs, peers, lookups + [srv])
            else Progress(before, asked, done, ignore, numAddrs,
                          peers + [BootstrappedPeer(srv.pubkey.value, srv.ip.value, srv.port)], lookups + [srv])
  {
    var (srv, done) := (records[i], records[..i + 1]);
    var (x, y) := (PeerOf(srv, ignore), if Candidate(srv, ignore) then [srv] else []);
    assert before + PeersOf(done, ignore) == peers + x by {
      OneMoreRecord(records, ignore, i);
      Regroup(before, PeersOf(records[..i], ignore), x);
    }
    assert asked + CandidatesOf(done, ignore) == lookups + y by {
      OneMoreRecord(records, ignore, i);
      Regroup(asked, CandidatesOf(records[..i], ignore), y);
    }
    if Candidate(srv, ignore) {
      NeededMore(lookups, srv, ignore, numAddrs);
    }
    assert peers + [] == peers && lookups + [] == lookups;
  }

  lemma {:induction false} Regroup<T>(a: seq<T>, b: seq<T>, c: seq<T>)
    ensures a + (b + c) == (a + b) + c
  {
  }

  lemma {:induction false} EnoughRecords(before: seq<BootstrappedPeer>, asked: seq<SrvRecord>, records: seq<SrvRecord>,
                                         i: nat, ignore: set<nat>, peers: seq<BootstrappedPeer>,
                                         lookups: seq<SrvRecord>, numAddrs: nat)
    requires i <= |records| && Progress(before, asked, records[..i], ignore, numAddrs, peers, lookups)
    requires |peers| <= numAddrs && (i == |records| || |peers| == numAddrs)
    ensures Added(before, asked, records, numAddrs, ignore, peers, lookups)
  {
    PeersGrow(records, ignore, i);
    SomeCandidates(records, ignore, i);
    assert i == |records| ==> records[..i] == records;
  }
}
