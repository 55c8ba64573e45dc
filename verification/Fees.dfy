/** The fee cache: eight atomic slots, one poller that stores into them, readers at any time. */
module Fees {
  import opened Words
  import opened Wrappers

  const MIN_FEERATE: u32 := 253

  datatype Target =
    | MaximumFeeEstimate
    | UrgentOnChainSweep
    | MinAllowedAnchorChannelRemoteFee
    | MinAllowedNonAnchorChannelRemoteFee
    | AnchorChannelFee
    | NonAnchorChannelFee
    | ChannelCloseMinimum
    | OutputSpendingFee

  type Slots = map<Target, u32>

  const INITIAL: Slots := map[
    MaximumFeeEstimate := 50000,
    UrgentOnChainSweep := 5000,
    MinAllowedAnchorChannelRemoteFee := MIN_FEERATE,
    MinAllowedNonAnchorChannelRemoteFee := MIN_FEERATE,
    AnchorChannelFee := MIN_FEERATE,
    NonAnchorChannelFee := 2000,
    ChannelCloseMinimum := MIN_FEERATE,
    OutputSpendingFee := MIN_FEERATE]

  /** The five calls of one round. */
  datatype Rpc = MempoolInfo | Background | Normal | HighPriority | VeryHighPriority

  datatype Response = RpcFailed | NoEstimate | Estimate(rate: u32)

  /** What each call of one round returns. */
  type Round = Rpc -> Response

  function Fallback(rpc: Rpc): (f: u32) {
    match rpc
    case MempoolInfo => MIN_FEERATE
    case Background => MIN_FEERATE
    case Normal => 2000
    case HighPriority => 5000
    case VeryHighPriority => 50000
  }

  /** The slot that keeps the previous value of a call. */
  function PreviousOf(rpc: Rpc): (t: Target) {
    match rpc
    case MempoolInfo => MinAllowedAnchorChannelRemoteFee
    case Background => AnchorChannelFee
    case Normal => NonAnchorChannelFee
    case HighPriority => UrgentOnChainSweep
    case VeryHighPriority => MaximumFeeEstimate
  }

  /** `load_current`, and what readers call: a missing slot reads as the minimum. */
  function Read(slots: Slots, t: Target): (v: u32) {
    if t in slots then slots[t] else MIN_FEERATE
  }

  function EstimateFee(slots: Slots, rpc: Rpc, response: Response): (v: u32) {
    match response
    case Estimate(rate) => if rate < MIN_FEERATE then MIN_FEERATE else rate
    case NoEstimate => Fallback(rpc)
    case RpcFailed => Read(slots, PreviousOf(rpc))
  }

  function SaturatingSub(a: u32, b: u32): (r: u32) {
    if a < b then 0 else a - b
  }

  /** The stores of one round, in order. */
  function Stores(slots: Slots, round: Round): (r: seq<(Target, u32)>)
    ensures |r| == 8
  {
    var background := EstimateFee(slots, Background, round(Background));
    [(MaximumFeeEstimate, EstimateFee(slots, VeryHighPriority, round(VeryHighPriority))),
     (UrgentOnChainSweep, EstimateFee(slots, HighPriority, round(HighPriority))),
     (MinAllowedAnchorChannelRemoteFee, EstimateFee(slots, MempoolInfo, round(MempoolInfo))),
     (MinAllowedNonAnchorChannelRemoteFee, SaturatingSub(background, 250)),
     (AnchorChannelFee, background),
     (NonAnchorChannelFee, EstimateFee(slots, Normal, round(Normal))),
     (ChannelCloseMinimum, background),
     (OutputSpendingFee, background)]
  }

  /** A store to a slot that does not exist is dropped. */
  function StoreOne(slots: Slots, store: (Target, u32)): (r: Slots) {
    if store.0 in slots then slots[store.0 := store.1] else slots
  }

  function StoreAll(slots: Slots, stores: seq<(Target, u32)>): (r: Slots) {
    if stores == [] then slots
    else StoreOne(StoreAll(slots, stores[..|stores| - 1]), stores[|stores| - 1])
  }

  /** The slots after all rounds so far. */
  function AfterRounds(history: seq<Round>): (r: Slots) {
    if history == [] then INITIAL
    else
      var before := AfterRounds(history[..|history| - 1]);
      StoreAll(before, Stores(before, history[|history| - 1]))
  }

  class FeeCache {
    var slots: Slots

    constructor ()
      ensures slots == INITIAL
    {
      slots := INITIAL;
    }

    /** `store_fee`, as the `k`-th of the stores of a round. */
    method Store(t: Target, value: u32, ghost before: Slots, ghost stores: seq<(Target, u32)>, ghost k: nat)
      requires k < |stores| && stores[k] == (t, value) && slots == StoreAll(before, stores[..k])
      modifies this
      ensures slots == StoreOne(old(slots), (t, value)) == StoreAll(before, stores[..k + 1])
    {
      StoresSplit(before, stores, k + 1);
      if t in slots {
        slots := slots[t := value];
      }
    }

    method PollOnce(round: Round)
      modifies this
      ensures slots == StoreAll(old(slots), Stores(old(slots), round))
    {
      ghost var stores := Stores(slots, round);
      var mempoolMin := EstimateFee(slots, MempoolInfo, round(MempoolInfo));
      var background := EstimateFee(slots, Background, round(Background));
      var normal := EstimateFee(slots, Normal, round(Normal));
      var high := EstimateFee(slots, HighPriority, round(HighPriority));
      var veryHigh := EstimateFee(slots, VeryHighPriority, round(VeryHighPriority));
      ghost var before := slots;
      assert stores[..0] == [] && stores[..8] == stores;
      Store(MaximumFeeEstimate, veryHigh, before, stores, 0);
      Store(UrgentOnChainSweep, high, before, stores, 1);
      Store(MinAllowedAnchorChannelRemoteFee, mempoolMin, before, stores, 2);
      Store(MinAllowedNonAnchorChannelRemoteFee, SaturatingSub(background, 250), before, stores, 3);
      Store(AnchorChannelFee, background, before, stores, 4);
      Store(NonAnchorChannelFee, normal, before, stores, 5);
      Store(ChannelCloseMinimum, background, before, stores, 6);
      Store(OutputSpendingFee, background, before, stores, 7);
    }

    /** The polling loop, for any number of rounds. */
    method Poll(history: seq<Round>)
      requires slots == INITIAL
      modifies this
      ensures slots == AfterRounds(history)
    {
      assert history[..0] == [];
      for i := 0 to |history|
        invariant slots == AfterRounds(history[..i])
      {
        PollOnce(history[i]);
        assert history[..i + 1][..i] == history[..i];
      }
      assert history[..|history|] == history;
    }
  }

  lemma {:induction false} StoresSplit(slots: Slots, s: seq<(Target, u32)>, k: nat)
    requires 0 < k <= |s|
    ensures StoreAll(slots, s[..k]) == StoreOne(StoreAll(slots, s[..k - 1]), s[k - 1])
    ensures s[..|s|] == s && s[..0] == []
  {
    assert s[..k][..k - 1] == s[..k - 1];
  }

  // ----- The table is a function of the history of answers -----

  /** The last answer of a call that was not a failure. */
  function LastAnswer(history: seq<Round>, rpc: Rpc): (r: Option<Response>) {
    if history == [] then None
    else
      var last := history[|history| - 1](rpc);
      if last.RpcFailed? then LastAnswer(history[..|history| - 1], rpc) else Some(last)
  }

  /** What the calls so far say about a rate: floored, or the default when there was no estimate or no answer. */
  function Rate(history: seq<Round>, rpc: Rpc): (v: u32)
    ensures v >= MIN_FEERATE
  {
    match LastAnswer(history, rpc)
    case Some(Estimate(rate)) => if rate < MIN_FEERATE then MIN_FEERATE else rate
    case _ => Fallback(rpc)
  }

  /** The table that a history of answers stands for. */
  function TableOf(history: seq<Round>): (r: Slots) {
    var background := Rate(history, Background);
    map[
      MaximumFeeEstimate := Rate(history, VeryHighPriority),
      UrgentOnChainSweep := Rate(history, HighPriority),
      MinAllowedAnchorChannelRemoteFee := Rate(history, MempoolInfo),
      MinAllowedNonAnchorChannelRemoteFee :=
        if history == [] then MIN_FEERATE else background - 250,
      AnchorChannelFee := background,
      NonAnchorChannelFee := Rate(history, Normal),
      ChannelCloseMinimum := background,
      OutputSpendingFee := background]
  }

  /** A failed call keeps its rate because its slot does. */
  lemma {:induction false} RateStep(history: seq<Round>, rpc: Rpc)
    requires history != []
    ensures Rate(history, rpc) ==
            EstimateFee(TableOf(history[..|history| - 1]), rpc, history[|history| - 1](rpc))
  {
  }

  /** Where each slot is stored in a round. */
  function StoreIndex(t: Target): (i: nat)
    ensures i < 8
  {
    match t
    case MaximumFeeEstimate => 0
    case UrgentOnChainSweep => 1
    case MinAllowedAnchorChannelRemoteFee => 2
    case MinAllowedNonAnchorChannelRemoteFee => 3
    case AnchorChannelFee => 4
    case NonAnchorChannelFee => 5
    case ChannelCloseMinimum => 6
    case OutputSpendingFee => 7
  }

  lemma {:induction false} StoresDistinct(slots: Slots, round: Round)
    ensures var s := Stores(slots, round);
            && (forall t :: s[StoreIndex(t)].0 == t)
            && (forall i, j | 0 <= i < j < |s| :: s[i].0 != s[j].0)
  {
  }

  /** The order of the stores, which is what a reader between two of them can tell; a slot that is missing reads as
      253. */
  lemma {:induction false} StoresInOrder(slots: Slots, round: Round, t: Target)
    ensures var s := Stores(slots, round);
            && s[0].0 == MaximumFeeEstimate && s[1].0 == UrgentOnChainSweep
            && s[2].0 == MinAllowedAnchorChannelRemoteFee && s[3].0 == MinAllowedNonAnchorChannelRemoteFee
            && s[4].0 == AnchorChannelFee && s[5].0 == NonAnchorChannelFee
            && s[6].0 == ChannelCloseMinimum && s[7].0 == OutputSpendingFee
    ensures t !in slots ==> Read(slots, t) == 253
  {
  }

  /** A whole round gives each slot the value stored into it. */
  lemma {:induction false} RoundStores(slots: Slots, round: Round, t: Target)
    requires t in slots
    ensures var after := StoreAll(slots, Stores(slots, round));
            after.Keys == slots.Keys && after[t] == Stores(slots, round)[StoreIndex(t)].1
  {
    var s := Stores(slots, round);
    StoresDistinct(slots, round);
    AfterStore(slots, s, StoreIndex(t), 8, t);
    SameKeys(slots, s, 8);
    assert s[..8] == s;
  }

  lemma {:induction false} SlotStep(history: seq<Round>, t: Target)
    requires history != []
    ensures TableOf(history)[t] ==
            Stores(TableOf(history[..|history| - 1]), history[|history| - 1])[StoreIndex(t)].1
  {
    match t {
      case MaximumFeeEstimate => RateStep(history, VeryHighPriority);
      case UrgentOnChainSweep => RateStep(history, HighPriority);
      case MinAllowedAnchorChannelRemoteFee => RateStep(history, MempoolInfo);
      case NonAnchorChannelFee => RateStep(history, Normal);
      case _ => RateStep(history, Background);
    }
  }

  /** At every round boundary the table is exactly what the answers so far say, whichever calls failed in
      which rounds; the subtraction for the non-anchor minimum never saturates. */
  lemma {:induction false} TableRefinesHistory(history: seq<Round>)
    ensures AfterRounds(history) == TableOf(history)
    ensures history != [] ==>
              AfterRounds(history)[MinAllowedNonAnchorChannelRemoteFee] == Rate(history, Background) - 250
    decreases |history|
  {
    if history != [] {
      TableRefinesHistory(history[..|history| - 1]);
      forall t | t in TableOf(history)
        ensures t in AfterRounds(history) && AfterRounds(history)[t] == TableOf(history)[t]
      {
        SlotRefines(history, t);
      }
      SlotRefines(history, AnchorChannelFee);
    }
  }

  lemma {:induction false} SlotRefines(history: seq<Round>, t: Target)
    requires history != []
    requires AfterRounds(history[..|history| - 1]) == TableOf(history[..|history| - 1])
    ensures AfterRounds(history).Keys == TableOf(history).Keys
    ensures t in AfterRounds(history) && AfterRounds(history)[t] == TableOf(history)[t]
  {
    var (earlier, round) := (history[..|history| - 1], history[|history| - 1]);
    TableKeys(history);
    TableKeys(earlier);
    assert AfterRounds(history)[t] == TableOf(history)[t] by {
      RoundStores(TableOf(earlier), round, t);
      SlotStep(history, t);
    }
    assert AfterRounds(history).Keys == TableOf(earlier).Keys by {
      RoundStores(TableOf(earlier), round, t);
    }
  }

  lemma {:induction false} TableKeys(history: seq<Round>)
    ensures forall t :: t in TableOf(history)
  {
    forall t: Target ensures t in TableOf(history) {
      var i := StoreIndex(t);
    }
  }

  /** One round in plain numbers. A slot starts with its default. After a round it holds the estimate of its call, but
      at least 253; the default if there was no estimate; what it held before if the call failed. */
  lemma {:induction false} SlotAfterRound(history: seq<Round>, round: Round, rpc: Rpc, t: Target, default: u32)
    requires Feeds(rpc, t, default)
    ensures t in AfterRounds([]) && AfterRounds([])[t] == default
    ensures var (before, after) := (AfterRounds(history), AfterRounds(history + [round]));
            && t in before && t in after
            && after[t] == match round(rpc)
                           case Estimate(rate) => if rate < 253 then 253 else rate
                           case NoEstimate => default
                           case RpcFailed => before[t]
  {
    SlotIsRate([], rpc, t, default);
    SlotIsRate(history, rpc, t, default);
    SlotIsRate(history + [round], rpc, t, default);
    assert (history + [round])[..|history|] == history;
  }

  /** Which call fills which slot, and the default. */
  predicate Feeds(rpc: Rpc, t: Target, default: nat) {
    match t
    case MaximumFeeEstimate => rpc == VeryHighPriority && default == 50000
    case UrgentOnChainSweep => rpc == HighPriority && default == 5000
    case MinAllowedAnchorChannelRemoteFee => rpc == MempoolInfo && default == 253
    case MinAllowedNonAnchorChannelRemoteFee => false
    case AnchorChannelFee => rpc == Background && default == 253
    case NonAnchorChannelFee => rpc == Normal && default == 2000
    case ChannelCloseMinimum => rpc == Background && default == 253
    case OutputSpendingFee => rpc == Background && default == 253
  }

  lemma {:induction false} SlotIsRate(history: seq<Round>, rpc: Rpc, t: Target, default: u32)
    requires Feeds(rpc, t, default)
    ensures t in AfterRounds(history) && AfterRounds(history)[t] == Rate(history, rpc) && default == Fallback(rpc)
  {
    TableRefinesHistory(history);
    TableKeys(history);
  }

  /** The eighth slot starts with 253, and after every round is the background rate less 250. */
  lemma {:induction false} NonAnchorAfterRound(history: seq<Round>, round: Round)
    ensures MinAllowedNonAnchorChannelRemoteFee in AfterRounds([])
    ensures AfterRounds([])[MinAllowedNonAnchorChannelRemoteFee] == 253
    ensures var after := AfterRounds(history + [round]);
            && AnchorChannelFee in after && MinAllowedNonAnchorChannelRemoteFee in after
            && after[MinAllowedNonAnchorChannelRemoteFee] as int == after[AnchorChannelFee] as int - 250
  {
    TableRefinesHistory(history + [round]);
    TableKeys(history + [round]);
  }

  /** A reader in the middle of a round, after `k` of its eight stores, sees in each slot the value from before or
      after the round; at least the minimum fee rate, except that the non-anchor minimum is at least 3. */
  lemma {:induction false} ReadersSeeFloor(history: seq<Round>, round: Round, k: nat, t: Target)
    requires k <= 8
    ensures var before := AfterRounds(history);
            var now := StoreAll(before, Stores(before, round)[..k]);
            && (Read(now, t) == Read(before, t) || Read(now, t) == Read(AfterRounds(history + [round]), t))
            && Read(now, t) >= if t == MinAllowedNonAnchorChannelRemoteFee then 3 else 253
  {
    var before := AfterRounds(history);
    assert AfterRounds(history + [round]) == StoreAll(before, Stores(before, round)) by {
      assert (history + [round])[..|history|] == history;
    }
    assert Read(before, t) >= if t == MinAllowedNonAnchorChannelRemoteFee then 3 else MIN_FEERATE by {
      TableRefinesHistory(history);
      TableFloor(history, t);
    }
    assert Read(AfterRounds(history + [round]), t) >=
           if t == MinAllowedNonAnchorChannelRemoteFee then 3 else MIN_FEERATE by {
      TableRefinesHistory(history + [round]);
      TableFloor(history + [round], t);
    }
    StoresDistinct(before, round);
    OldOrNew(before, Stores(before, round), k, t);
  }

  lemma {:induction false} TableFloor(history: seq<Round>, t: Target)
    ensures Read(TableOf(history), t) >= if t == MinAllowedNonAnchorChannelRemoteFee then 3 else MIN_FEERATE
  {
  }

  /** Stores to distinct slots: each slot changes at most once. */
  lemma {:induction false} OldOrNew(slots: Slots, stores: seq<(Target, u32)>, k: nat, t: Target)
    requires k <= |stores|
    requires forall i, j | 0 <= i < j < |stores| :: stores[i].0 != stores[j].0
    ensures var now := StoreAll(slots, stores[..k]);
            Read(now, t) == Read(slots, t) || Read(now, t) == Read(StoreAll(slots, stores), t)
  {
    if exists i :: 0 <= i < k && stores[i].0 == t {
      var i :| 0 <= i < k && stores[i].0 == t;
      AfterStore(slots, stores, i, k, t);
      AfterStore(slots, stores, i, |stores|, t);
      assert stores[..|stores|] == stores;
    } else {
      Untouched(slots, stores, k, t);
    }
  }

  lemma {:induction false} Untouched(slots: Slots, stores: seq<(Target, u32)>, k: nat, t: Target)
    requires k <= |stores|
    requires forall i | 0 <= i < k :: stores[i].0 != t
    ensures Read(StoreAll(slots, stores[..k]), t) == Read(slots, t)
    ensures StoreAll(slots, stores[..k]).Keys == slots.Keys
  {
    if k > 0 {
      StoresSplit(slots, stores, k);
      Untouched(slots, stores, k - 1, t);
    }
  }

  lemma {:induction false} SameKeys(slots: Slots, stores: seq<(Target, u32)>, k: nat)
    requires k <= |stores|
    ensures StoreAll(slots, stores[..k]).Keys == slots.Keys
  {
    if k > 0 {
      StoresSplit(slots, stores, k);
      SameKeys(slots, stores, k - 1);
    }
  }

  lemma {:induction false} AfterStore(slots: Slots, stores: seq<(Target, u32)>, i: nat, k: nat, t: Target)
    requires i < k <= |stores| && stores[i].0 == t
    requires forall i, j | 0 <= i < j < |stores| :: stores[i].0 != stores[j].0
    ensures Read(StoreAll(slots, stores[..k]), t) == if t in slots then stores[i].1 else MIN_FEERATE
    decreases k
  {
    StoresSplit(slots, stores, k);
    SameKeys(slots, stores, k - 1);
    if k > i + 1 {
      AfterStore(slots, stores, i, k - 1, t);
    }
  }
}
