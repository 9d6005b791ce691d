/** What holds over whole runs of the miner: any sequence of calls on a fresh miner. */
module MinerRuns {
  import opened Basics
  import opened L1Chain
  import opened Miner

  /**
   * The miner together with what it has done so far: every block it mined, in mining order and
   * whether or not it was later discarded; every block a reorg discarded; and everything submitted
   * to its two queues.
   */
  datatype History = History(
    miner: State,
    mined: seq<L1Block>,
    discarded: seq<L1Block>,
    submitted: seq<PendingTransaction>,
    enqueued: seq<Sidecar>)

  ghost function MinedBy(m: State, op: Op): seq<L1Block>
    requires m.blocks != []
  {
    if op.Mine? then [NextBlock(m, op.bloom)] else []
  }

  ghost function DiscardedBy(m: State, op: Op): seq<L1Block>
    requires m.blocks != []
  {
    if op.Reorg? && Accepts(m, op.target) then m.blocks[op.target + 1..] else []
  }

  ghost function SubmittedBy(m: State, op: Op): seq<PendingTransaction> {
    match op
    case Submit(tx) => [tx]
    case EnqueueLog(log, success) => [EventTransaction(m, log, success)]
    case _ => []
  }

  ghost function EnqueuedBy(op: Op): seq<Sidecar> {
    if op.EnqueueBlob? then [op.sidecar] else []
  }

  ghost function Extend(h: History, op: Op): (n: History)
    requires h.miner.blocks != []
    ensures n.miner.blocks != []
  {
    History(
      Apply(h.miner, op),
      h.mined + MinedBy(h.miner, op),
      h.discarded + DiscardedBy(h.miner, op),
      h.submitted + SubmittedBy(h.miner, op),
      h.enqueued + EnqueuedBy(op))
  }

  ghost function Fresh(config: Config): (h: History)
    ensures h.miner.blocks != []
  {
    History(Initial(config), [], [], [], [])
  }

  /** The history after the first `k` calls of a run on a fresh miner. */
  ghost function HistoryAt(config: Config, ops: seq<Op>, k: nat): (h: History)
    requires k <= |ops|
    ensures h.miner.blocks != []
  {
    if k == 0 then Fresh(config) else Extend(HistoryAt(config, ops, k - 1), ops[k - 1])
  }

  /** The miner after the first `k` calls of a run. */
  ghost function StateAt(config: Config, ops: seq<Op>, k: nat): (m: State)
    requires k <= |ops|
    ensures m.blocks != []
  {
    HistoryAt(config, ops, k).miner
  }

  /** The history belongs to some run. */
  ghost predicate Reachable(h: History) {
    exists config, ops, k: nat :: RunTo(h, config, ops, k)
  }

  ghost predicate RunTo(h: History, config: Config, ops: seq<Op>, k: nat) {
    k <= |ops| && h == HistoryAt(config, ops, k)
  }

  lemma {:induction false} RunPrefix(config: Config, ops: seq<Op>, more: seq<Op>, k: nat)
    requires k <= |ops|
    ensures HistoryAt(config, ops, k) == HistoryAt(config, ops + more, k)
  {
    if k > 0 {
      RunPrefix(config, ops, more, k - 1);
    }
  }

  lemma TakeAndDrop<T>(s: seq<T>, k: nat)
    requires k <= |s|
    ensures s[..k] + s[k..] == s
  {
  }

  lemma CutRun(config: Config, ops: seq<Op>, k: nat)
    requires k <= |ops|
    ensures HistoryAt(config, ops, k) == HistoryAt(config, ops[..k], k)
  {
    RunPrefix(config, ops[..k], ops[k..], k);
    TakeAndDrop(ops, k);
  }

  lemma OneMoreCall(config: Config, ops: seq<Op>, op: Op)
    ensures HistoryAt(config, ops + [op], |ops| + 1) == Extend(HistoryAt(config, ops, |ops|), op)
  {
    RunPrefix(config, ops, [op], |ops|);
  }

  lemma ReachableAt(config: Config, ops: seq<Op>, k: nat)
    requires k <= |ops|
    ensures Reachable(HistoryAt(config, ops, k))
  {
    assert RunTo(HistoryAt(config, ops, k), config, ops, k);
  }

  /** One more call leads from a reachable history to a reachable one. */
  lemma ReachableExtend(h: History, op: Op)
    requires Reachable(h)
    ensures h.miner.blocks != [] && Reachable(Extend(h, op))
  {
    var config, ops, k: nat :| RunTo(h, config, ops, k);
    var init := ops[..k];
    CutRun(config, ops, k);
    OneMoreCall(config, init, op);
    ReachableAt(config, init + [op], k + 1);
  }

  lemma ReachableIfCalled(h: History, op: Op)
    requires h.miner.blocks != []
    ensures Reachable(h) ==> Reachable(Extend(h, op))
  {
    if Reachable(h) {
      ReachableExtend(h, op);
    }
  }

  lemma FreshReachable(config: Config)
    ensures Reachable(Fresh(config))
  {
    assert RunTo(Fresh(config), config, [], 0);
  }

  lemma {:induction false} RunInduction(config: Config, ops: seq<Op>, k: nat, inv: History -> bool)
    requires k <= |ops|
    requires inv(Fresh(config))
    requires forall h: History, op: Op :: h.miner.blocks != [] && inv(h) ==> inv(Extend(h, op))
    ensures inv(HistoryAt(config, ops, k))
  {
    if k > 0 {
      RunInduction(config, ops, k - 1, inv);
    }
  }

  /** What holds of a fresh miner and is kept by every call holds throughout every run. */
  lemma ReachableInduction(h: History, inv: History -> bool)
    requires Reachable(h)
    requires forall config :: inv(Fresh(config))
    requires forall g: History, op: Op :: g.miner.blocks != [] && inv(g) ==> inv(Extend(g, op))
    ensures inv(h)
  {
    var config, ops, k: nat :| RunTo(h, config, ops, k);
    RunInduction(config, ops, k, inv);
  }

  /** In every reachable state the chain is numbered, linked and aligned, and both pointers are on it. */
  lemma ReachableValid(h: History)
    requires Reachable(h)
    ensures Valid(h.miner)
  {
    forall config {
      InitialValid(config);
    }
    forall g: History, op: Op | Valid(g.miner) ensures Valid(Extend(g, op).miner) {
      ApplyValid(g.miner, op);
    }
    ReachableInduction(h, (g: History) => Valid(g.miner));
  }

  lemma RunValid(config: Config, ops: seq<Op>, k: nat)
    requires k <= |ops|
    ensures Valid(StateAt(config, ops, k))
  {
    ReachableAt(config, ops, k);
    ReachableValid(HistoryAt(config, ops, k));
  }

  ghost predicate FinalizedBelowSafe(m: State) {
    m.finalized <= m.safe
  }

  /** Call `k` of a run sets safe below finalized. */
  ghost predicate SetsSafeBelowFinalized(config: Config, ops: seq<Op>, k: nat)
    requires k < |ops|
  {
    ops[k].SetSafe? && ops[k].number < StateAt(config, ops, k).finalized
  }

  lemma OneCallOn(config: Config, ops: seq<Op>, k: nat)
    requires k < |ops|
    ensures FinalizedBelowSafe(StateAt(config, ops, k)) ==>
              (FinalizedBelowSafe(StateAt(config, ops, k + 1)) <==> !SetsSafeBelowFinalized(config, ops, k))
  {
    var m := StateAt(config, ops, k);
    RunValid(config, ops, k);
    if FinalizedBelowSafe(m) {
      FinalizedStaysBelowSafeUnless(m, ops[k]);
    }
  }

  lemma {:induction false} BelowSafeUnlessSet(config: Config, ops: seq<Op>, k: nat)
    requires k <= |ops| && (forall j :: 0 <= j < |ops| ==> !SetsSafeBelowFinalized(config, ops, j))
    ensures FinalizedBelowSafe(StateAt(config, ops, k))
  {
    if k > 0 {
      BelowSafeUnlessSet(config, ops, k - 1);
      OneCallOn(config, ops, k - 1);
    }
  }

  /** Finalized stays at or below safe throughout a run if and only if safe is never set below finalized. */
  lemma FinalizedBelowSafeIff(config: Config, ops: seq<Op>)
    ensures (forall k :: 0 <= k <= |ops| ==> FinalizedBelowSafe(StateAt(config, ops, k))) <==>
            (forall k :: 0 <= k < |ops| ==> !SetsSafeBelowFinalized(config, ops, k))
  {
    if forall k :: 0 <= k < |ops| ==> !SetsSafeBelowFinalized(config, ops, k) {
      forall k | 0 <= k <= |ops| ensures FinalizedBelowSafe(StateAt(config, ops, k)) {
        BelowSafeUnlessSet(config, ops, k);
      }
    }
    if forall k :: 0 <= k <= |ops| ==> FinalizedBelowSafe(StateAt(config, ops, k)) {
      forall k | 0 <= k < |ops| ensures !SetsSafeBelowFinalized(config, ops, k) {
        OneCallOn(config, ops, k);
        assert FinalizedBelowSafe(StateAt(config, ops, k + 1));
      }
    }
  }

  lemma SomethingMined(config: Config) returns (h: History)
    ensures Reachable(h) && h.miner.blocks != [] && Tip(h.miner) > 0 && h.miner.safe == h.miner.finalized == 0
  {
    var start := Fresh(config);
    FreshReachable(config);
    h := Extend(start, Mine(0));
    ReachableIfCalled(start, Mine(0));
    assert h.miner.blocks == start.miner.blocks + [NextBlock(start.miner, 0)];
  }

  lemma SomethingSafe(config: Config) returns (h: History)
    ensures Reachable(h) && h.miner.blocks != [] && h.miner.safe > 0 && h.miner.finalized == 0
  {
    var mined := SomethingMined(config);
    h := Extend(mined, SafeNext);
    ReachableIfCalled(mined, SafeNext);
  }

  lemma SomethingFinalized(config: Config) returns (h: History)
    ensures Reachable(h) && h.miner.blocks != [] && h.miner.finalized > 0
  {
    var safe := SomethingSafe(config);
    h := Extend(safe, FinalizeNext);
    ReachableIfCalled(safe, FinalizeNext);
  }

  /** A run can leave the finalized pointer above the safe one: the safe pointer may be set back below it. */
  lemma FinalizedCanPassSafe(config: Config) returns (h: History)
    ensures Reachable(h) && h.miner.safe < h.miner.finalized
  {
    var final := SomethingFinalized(config);
    h := Extend(final, SetSafe(0));
    ReachableIfCalled(final, SetSafe(0));
  }

  // ---- Two moments of one run ----

  /** The lower of the tip at moment `i` and the lowest reorg carried out between moments `i` and `j`. */
  ghost function ForkPoint(config: Config, ops: seq<Op>, i: nat, j: nat): nat
    requires i <= j <= |ops|
    decreases j - i
  {
    if i == j then Tip(StateAt(config, ops, i))
    else LowerFork(ForkPoint(config, ops, i, j - 1), StateAt(config, ops, j - 1), ops[j - 1])
  }

  ghost function LowerFork(p: nat, m: State, op: Op): nat
    requires m.blocks != []
  {
    if op.Reorg? && Accepts(m, op.target) then Min(p, op.target) else p
  }

  /**
   * Chains `a` and `b` share the blocks up to height `p`, and if that cuts `a` short then everything
   * `b` holds above it was mined under a later fork counter.
   */
  ghost predicate SplitAt(a: State, b: State, p: nat) {
    && p < |a.blocks| && p < |b.blocks|
    && a.forkId <= b.forkId
    && a.blocks[..p + 1] == b.blocks[..p + 1]
    && (p < |a.blocks| - 1 ==> a.forkId < b.forkId && forall h :: p < h < |b.blocks| ==>
          b.blocks[h].header.extraData.Some? && a.forkId < b.blocks[h].header.extraData.value)
  }

  lemma SplitMine(a: State, b: State, p: nat, bloom: nat)
    requires Valid(b)
    ensures SplitAt(a, b, p) ==> SplitAt(a, Apply(b, Mine(bloom)), p)
  {
    if SplitAt(a, b, p) {
      assert Apply(b, Mine(bloom)).blocks[..p + 1] == b.blocks[..p + 1];
    }
  }

  lemma ShorterPrefix<T>(s: seq<T>, t: seq<T>, p: nat, q: nat)
    requires q <= p <= |s| && p <= |t| && s[..p] == t[..p]
    ensures s[..q] == t[..q]
  {
    assert s[..q] == s[..p][..q];
  }

  lemma SplitReorg(a: State, b: State, p: nat, target: nat)
    requires Valid(b) && Accepts(b, target)
    ensures SplitAt(a, b, p) ==> SplitAt(a, Apply(b, Reorg(target)), Min(p, target))
  {
    if SplitAt(a, b, p) {
      var q, n := Min(p, target), Apply(b, Reorg(target));
      ShorterPrefix(a.blocks, b.blocks, p + 1, q + 1);
      assert n.blocks == b.blocks[..target + 1];
      assert n.blocks[..q + 1] == b.blocks[..q + 1];
    }
  }

  lemma SplitStep(a: State, b: State, p: nat, op: Op)
    requires b.blocks != []
    ensures Valid(b) && SplitAt(a, b, p) ==> SplitAt(a, Apply(b, op), LowerFork(p, b, op))
  {
    if Valid(b) {
      if op.Mine? {
        SplitMine(a, b, p, op.bloom);
      } else if op.Reorg? && Accepts(b, op.target) {
        SplitReorg(a, b, p, op.target);
      }
    }
  }

  lemma SplitFromSelf(m: State)
    ensures Valid(m) ==> SplitAt(m, m, Tip(m))
  {
  }

  lemma NextState(config: Config, ops: seq<Op>, i: nat, j: nat)
    requires i <= j < |ops|
    ensures StateAt(config, ops, j + 1) == Apply(StateAt(config, ops, j), ops[j])
    ensures ForkPoint(config, ops, i, j + 1)
         == LowerFork(ForkPoint(config, ops, i, j), StateAt(config, ops, j), ops[j])
  {
  }

  ghost predicate SplitBetween(config: Config, ops: seq<Op>, i: nat, j: nat)
    requires i <= j <= |ops|
  {
    SplitAt(StateAt(config, ops, i), StateAt(config, ops, j), ForkPoint(config, ops, i, j))
  }

  lemma SplitOneMore(config: Config, ops: seq<Op>, i: nat, j: nat)
    requires i <= j < |ops|
    ensures SplitBetween(config, ops, i, j) ==> SplitBetween(config, ops, i, j + 1)
  {
    RunValid(config, ops, j);
    NextState(config, ops, i, j);
    SplitStep(StateAt(config, ops, i), StateAt(config, ops, j), ForkPoint(config, ops, i, j), ops[j]);
  }

  lemma SplitAtStart(config: Config, ops: seq<Op>, i: nat)
    requires i <= |ops|
    ensures SplitBetween(config, ops, i, i)
  {
    RunValid(config, ops, i);
    SplitFromSelf(StateAt(config, ops, i));
  }

  lemma {:induction false} UpTo(i: nat, j: nat, inv: nat -> bool)
    requires i <= j && inv(i) && forall k :: i <= k < j && inv(k) ==> inv(k + 1)
    ensures inv(j)
  {
    if i < j {
      UpTo(i, j - 1, inv);
    }
  }

  lemma ChainsSplitAtForkPoint(config: Config, ops: seq<Op>, i: nat, j: nat)
    requires i <= j <= |ops|
    ensures SplitBetween(config, ops, i, j)
  {
    SplitAtStart(config, ops, i);
    forall k | i <= k < j ensures SplitBetween(config, ops, i, k) ==> SplitBetween(config, ops, i, k + 1) {
      SplitOneMore(config, ops, i, k);
    }
    UpTo(i, j, (k: nat) => i <= k <= |ops| && SplitBetween(config, ops, i, k));
  }

  /** The chains share the blocks up to height `p`, and no block hash at any higher height. */
  ghost predicate ForkedAbove(a: State, b: State, p: nat) {
    && p < |a.blocks| && p < |b.blocks|
    && a.blocks[..p + 1] == b.blocks[..p + 1]
    && (forall h :: p < h < |a.blocks| && h < |b.blocks| ==> a.blocks[h].Hash() != b.blocks[h].Hash())
  }

  lemma SplitMeansForked(a: State, b: State, p: nat)
    ensures Valid(a) && Valid(b) && SplitAt(a, b, p) ==> ForkedAbove(a, b, p)
  {
  }

  /**
   * Take any two moments of any run. The two chains share exactly the blocks up to the fork point,
   * and at every higher height present in both the block hashes differ, even when the two blocks
   * have the same parent, number, timestamp and contents.
   */
  lemma ForksNeverShareHashes(config: Config, ops: seq<Op>, i: nat, j: nat)
    requires i <= j <= |ops|
    ensures ForkedAbove(StateAt(config, ops, i), StateAt(config, ops, j), ForkPoint(config, ops, i, j))
  {
    ChainsSplitAtForkPoint(config, ops, i, j);
    RunValid(config, ops, i);
    RunValid(config, ops, j);
    SplitMeansForked(StateAt(config, ops, i), StateAt(config, ops, j), ForkPoint(config, ops, i, j));
  }

  // ---- Everything ever mined ----

  /** Blocks are stamped with a fork counter and a height, and this pair only ever goes up. */
  ghost predicate MinedBefore(a: L1Block, b: L1Block) {
    && a.header.extraData.Some? && b.header.extraData.Some?
    && (a.header.extraData.value < b.header.extraData.value
        || (a.header.extraData.value == b.header.extraData.value && a.Number() < b.Number()))
  }

  ghost predicate InMiningOrder(h: History) {
    && (forall i, j :: 0 <= i < j < |h.mined| ==> MinedBefore(h.mined[i], h.mined[j]))
    && (forall i :: 0 <= i < |h.mined| ==>
          && h.mined[i].header.extraData.Some?
          && h.mined[i].header.extraData.value <= h.miner.forkId
          && (h.mined[i].header.extraData.value == h.miner.forkId ==> h.mined[i].Number() < |h.miner.blocks|))
  }

  lemma MiningOrderStep(h: History, op: Op)
    requires Valid(h.miner)
    ensures InMiningOrder(h) ==> InMiningOrder(Extend(h, op))
  {
  }

  lemma MiningOrder(h: History)
    requires Reachable(h)
    ensures InMiningOrder(h)
  {
    forall config {
      InitialValid(config);
    }
    forall g: History, op: Op | Valid(g.miner) ensures Valid(Extend(g, op).miner) {
      ApplyValid(g.miner, op);
    }
    forall g: History, op: Op | Valid(g.miner) {
      MiningOrderStep(g, op);
    }
    ReachableInduction(h, (g: History) => Valid(g.miner) && InMiningOrder(g));
  }

  /** The mined blocks are the canonical ones after genesis together with the discarded ones. */
  ghost predicate Partitioned(h: History) {
    h.miner.blocks != [] && multiset(h.mined) == multiset(h.miner.blocks[1..]) + multiset(h.discarded)
  }

  lemma PartitionMined<T>(mined: seq<T>, chain: seq<T>, discarded: seq<T>, b: T)
    requires chain != []
    ensures multiset(mined) == multiset(chain[1..]) + multiset(discarded) ==>
              multiset(mined + [b]) == multiset((chain + [b])[1..]) + multiset(discarded)
  {
    assert (chain + [b])[1..] == chain[1..] + [b];
  }

  lemma PartitionCut<T>(mined: seq<T>, chain: seq<T>, discarded: seq<T>, at: nat)
    requires at < |chain|
    ensures multiset(mined) == multiset(chain[1..]) + multiset(discarded) ==>
              multiset(mined) == multiset(chain[..at + 1][1..]) + multiset(discarded + chain[at + 1..])
  {
    assert chain[1..] == chain[..at + 1][1..] + chain[at + 1..];
  }

  lemma PartitionMine(h: History, bloom: nat)
    requires h.miner.blocks != []
    ensures Partitioned(h) ==> Partitioned(Extend(h, Mine(bloom)))
  {
    var n, b := Extend(h, Mine(bloom)), NextBlock(h.miner, bloom);
    assert n.mined == h.mined + [b] && n.miner.blocks == h.miner.blocks + [b] && n.discarded == h.discarded;
    PartitionMined(h.mined, h.miner.blocks, h.discarded, b);
  }

  lemma PartitionReorg(h: History, target: nat)
    requires h.miner.blocks != [] && Accepts(h.miner, target)
    ensures Partitioned(h) ==> Partitioned(Extend(h, Reorg(target)))
  {
    var n := Extend(h, Reorg(target));
    assert n.mined == h.mined && n.miner.blocks == h.miner.blocks[..target + 1];
    assert n.discarded == h.discarded + h.miner.blocks[target + 1..];
    PartitionCut(h.mined, h.miner.blocks, h.discarded, target);
  }

  lemma PartitionStep(h: History, op: Op)
    requires h.miner.blocks != []
    ensures Partitioned(h) ==> Partitioned(Extend(h, op))
  {
    if op.Mine? {
      PartitionMine(h, op.bloom);
    } else if op.Reorg? && Accepts(h.miner, op.target) {
      PartitionReorg(h, op.target);
    } else {
      var n := Extend(h, op);
      assert n.mined == h.mined && n.discarded == h.discarded && n.miner.blocks == h.miner.blocks;
    }
  }

  /** Every block ever mined is on the chain or discarded, with multiplicity. */
  lemma MinedIsKeptOrDiscarded(h: History)
    requires Reachable(h)
    ensures Partitioned(h)
  {
    forall g: History, op: Op | g.miner.blocks != [] {
      PartitionStep(g, op);
    }
    ReachableInduction(h, g => Partitioned(g));
  }

  /** The blocks one miner has ever shown anyone: genesis and everything it mined. */
  ghost predicate EverSeen(h: History, b: L1Block) {
    b == Genesis(h.miner.config) || b in h.mined
  }

  /** Canonical and discarded blocks have been seen. */
  lemma KeptAndDiscardedWereSeen(h: History, b: L1Block)
    requires Reachable(h)
    requires b in h.miner.blocks || b in h.discarded
    ensures EverSeen(h, b)
  {
    ReachableValid(h);
    MinedIsKeptOrDiscarded(h);
    assert h.miner.blocks == [Genesis(h.miner.config)] + h.miner.blocks[1..];
    assert b in multiset(h.mined) || b == Genesis(h.miner.config);
  }

  /** Every block ever seen, discarded ones included, has aligned bodies and receipts. */
  lemma SeenAligned(h: History, b: L1Block)
    requires Reachable(h) && EverSeen(h, b)
    ensures ReceiptsAligned(b)
  {
    BuiltReceiptsAligned(Genesis(h.miner.config), [], []);
    forall g: History, op: Op | g.miner.blocks != [] && AllAligned(g.mined) ensures AllAligned(Extend(g, op).mined) {
      if op.Mine? {
        NextBlockAligned(g.miner, op.bloom);
      }
    }
    ReachableInduction(h, (g: History) => AllAligned(g.mined));
  }

  /**
   * The header commits to no transaction, yet over everything one miner ever mined, kept or discarded,
   * a block hash determines the whole block: transactions, receipts and blobs included.
   */
  lemma HashIdentifiesBlock(h: History, a: L1Block, b: L1Block)
    requires Reachable(h) && EverSeen(h, a) && EverSeen(h, b)
    requires a.Hash() == b.Hash()
    ensures a == b
  {
    MiningOrder(h);
    if a in h.mined && b in h.mined {
      var i :| 0 <= i < |h.mined| && h.mined[i] == a;
      var j :| 0 <= j < |h.mined| && h.mined[j] == b;
      assert !MinedBefore(h.mined[i], h.mined[j]) && !MinedBefore(h.mined[j], h.mined[i]);
    }
  }

  lemma {:induction false} MinedOnce(mined: seq<L1Block>, b: L1Block)
    requires forall i, j :: 0 <= i < j < |mined| ==> MinedBefore(mined[i], mined[j])
    ensures multiset(mined)[b] <= 1
  {
    if mined != [] {
      var last := |mined| - 1;
      MinedOnce(mined[..last], b);
      assert mined == mined[..last] + [mined[last]];
      assert forall i :: 0 <= i < last ==> MinedBefore(mined[i], mined[last]);
      assert mined[last] !in mined[..last];
    }
  }

  lemma OncePartitioned<T>(mined: seq<T>, kept: seq<T>, discarded: seq<T>, b: T)
    requires multiset(mined) == multiset(kept) + multiset(discarded)
    requires multiset(mined)[b] <= 1 && b in discarded
    ensures b in mined && b !in kept
  {
    assert b in multiset(discarded);
    assert b in multiset(mined);
    assert multiset(kept)[b] == 0;
    assert b !in multiset(kept);
  }

  lemma DiscardedIsNotKept(h: History, b: L1Block)
    requires Reachable(h) && b in h.discarded && h.miner.blocks != []
    ensures b in h.mined && b !in h.miner.blocks[1..]
  {
    MinedIsKeptOrDiscarded(h);
    MiningOrder(h);
    MinedOnce(h.mined, b);
    OncePartitioned(h.mined, h.miner.blocks[1..], h.discarded, b);
  }

  lemma DiscardedIsNotGenesis(h: History, b: L1Block)
    requires Reachable(h) && b in h.mined
    ensures h.miner.blocks != [] && b != h.miner.blocks[0]
  {
    MiningOrder(h);
    ReachableValid(h);
  }

  /** A discarded block never comes back: its hash is on no later chain of the run. */
  lemma DiscardedHashIsGone(h: History, b: L1Block, c: L1Block)
    requires Reachable(h) && b in h.discarded && c in h.miner.blocks
    ensures c.Hash() != b.Hash()
  {
    KeptAndDiscardedWereSeen(h, b);
    KeptAndDiscardedWereSeen(h, c);
    DiscardedIsNotKept(h, b);
    DiscardedIsNotGenesis(h, b);
    if c.Hash() == b.Hash() {
      HashIdentifiesBlock(h, b, c);
    }
  }

  // ---- Conservation ----

  /** The submissions a block contains, read back from its body and consensus receipts. */
  ghost function Contents(b: L1Block): seq<PendingTransaction> {
    if |b.transactions| != |b.receipts| then []
    else seq(|b.transactions|, i requires 0 <= i < |b.transactions| =>
               PendingTransaction(b.transactions[i], b.receipts[i].logs, b.receipts[i].status))
  }

  ghost function AllContents(blocks: seq<L1Block>): seq<PendingTransaction> {
    FlatMap(Contents, blocks)
  }

  ghost function AllSidecars(blocks: seq<L1Block>): seq<Sidecar> {
    FlatMap((b: L1Block) => b.sidecars, blocks)
  }

  lemma NextBlockContents(m: State, bloom: nat)
    requires m.blocks != []
    ensures Contents(NextBlock(m, bloom)) == m.queue
  {
  }

  /** Everything submitted was mined in submission order or is still queued, and so with blobs. */
  ghost predicate Drained(h: History) {
    && h.submitted == AllContents(h.mined) + h.miner.queue
    && h.enqueued == AllSidecars(h.mined) + h.miner.blobs
  }

  lemma DrainStep(h: History, op: Op)
    requires h.miner.blocks != []
    ensures Drained(h) ==> Drained(Extend(h, op))
  {
    if op.Mine? {
      var b := NextBlock(h.miner, op.bloom);
      NextBlockContents(h.miner, op.bloom);
      FlatMapAppend(Contents, h.mined, b);
      FlatMapAppend((b: L1Block) => b.sidecars, h.mined, b);
    } else {
      assert Extend(h, op).mined == h.mined;
    }
  }

  /** Nothing is lost, duplicated or reordered on the way into blocks, and neither are blobs. */
  lemma SubmissionsAreMinedInOrder(h: History)
    requires Reachable(h)
    ensures Drained(h)
  {
    forall g: History, op: Op | g.miner.blocks != [] {
      DrainStep(g, op);
    }
    ReachableInduction(h, g => Drained(g));
  }

  /** As multisets, everything submitted is queued, on the chain, or in a discarded block. */
  ghost predicate Conserved(h: History) {
    multiset(h.submitted)
    == multiset(h.miner.queue) + multiset(AllContents(h.miner.blocks)) + multiset(AllContents(h.discarded))
  }

  lemma ConservedMine(h: History, bloom: nat)
    requires h.miner.blocks != []
    ensures Conserved(h) ==> Conserved(Extend(h, Mine(bloom)))
  {
    var n := Extend(h, Mine(bloom));
    NextBlockContents(h.miner, bloom);
    FlatMapAppend(Contents, h.miner.blocks, NextBlock(h.miner, bloom));
    assert n.submitted == h.submitted && n.discarded == h.discarded;
  }

  lemma ConservedCut(h: History, target: nat)
    requires h.miner.blocks != [] && Accepts(h.miner, target)
    ensures Conserved(h) ==> Conserved(Extend(h, Reorg(target)))
  {
    var n, cut := Extend(h, Reorg(target)), h.miner.blocks[target + 1..];
    assert h.miner.blocks == n.miner.blocks + cut;
    FlatMapConcat(Contents, n.miner.blocks, cut);
    FlatMapConcat(Contents, h.discarded, cut);
    assert n.submitted == h.submitted;
    CutMoves(multiset(h.submitted), multiset(h.miner.queue), AllContents(n.miner.blocks), AllContents(cut),
             AllContents(h.discarded));
  }

  lemma CutMoves<T>(all: multiset<T>, queue: multiset<T>, kept: seq<T>, cut: seq<T>, gone: seq<T>)
    ensures all == queue + multiset(kept + cut) + multiset(gone) ==> all == queue + multiset(kept) + multiset(gone + cut)
  {
  }

  lemma AppendBoth<T>(xs: seq<T>, ys: seq<T>, more: seq<T>, a: multiset<T>, b: multiset<T>)
    ensures multiset(xs) == multiset(ys) + a + b ==> multiset(xs + more) == multiset(ys + more) + a + b
  {
  }

  lemma ConservedOther(h: History, op: Op)
    requires h.miner.blocks != [] && !op.Mine? && !(op.Reorg? && Accepts(h.miner, op.target))
    ensures Conserved(h) ==> Conserved(Extend(h, op))
  {
    var n, more := Extend(h, op), SubmittedBy(h.miner, op);
    assert n.discarded == h.discarded && n.miner.blocks == h.miner.blocks;
    assert n.miner.queue == h.miner.queue + more;
    AppendBoth(h.submitted, h.miner.queue, more,
               multiset(AllContents(h.miner.blocks)), multiset(AllContents(h.discarded)));
  }

  lemma ConservationStep(h: History, op: Op)
    requires h.miner.blocks != []
    ensures Conserved(h) ==> Conserved(Extend(h, op))
  {
    if op.Mine? {
      ConservedMine(h, op.bloom);
    } else if op.Reorg? && Accepts(h.miner, op.target) {
      ConservedCut(h, op.target);
    } else {
      ConservedOther(h, op);
    }
  }

  lemma SubmissionsAreConserved(h: History)
    requires Reachable(h)
    ensures Conserved(h)
  {
    forall g: History, op: Op | g.miner.blocks != [] {
      ConservationStep(g, op);
    }
    forall config ensures Conserved(Fresh(config)) {
      FlatMapAppend(Contents, [], Genesis(config));
      assert [] + [Genesis(config)] == [Genesis(config)];
    }
    ReachableInduction(h, g => Conserved(g));
  }
}
