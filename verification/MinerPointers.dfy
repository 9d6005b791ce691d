/**
 * How the calls on the miner move its safe and finalized pointers, what a pointer says about the run that
 * led to it, and what mined headers, event transactions and logs look like.
 */
module MinerPointers {
  import opened Basics
  import opened L1Chain
  import opened Miner
  import opened MinerRuns

  // ---- One call ----

  /** Two calls raise safe, by one or to a named height, only up to the tip; only reorgs and naming lower it. */
  ghost predicate SafeMoved(m: State, op: Op, n: State) {
    match op
    case SafeNext => n.safe == m.safe + if m.safe + 1 < |m.blocks| then 1 else 0
    case SetSafe(number) => n.safe == if number < |m.blocks| then number else m.safe
    case Reorg(target) => if target < m.safe then n.safe == target else n.safe == m.safe
    case _ => n.safe == m.safe
  }

  /** Finalized is raised by one or to a named height, only up to safe; it comes down to safe when it is above. */
  ghost predicate FinalizedMoved(m: State, op: Op, n: State) {
    match op
    case FinalizeNext => n.finalized == if m.finalized < m.safe then m.finalized + 1 else m.safe
    case SetFinalized(number) => n.finalized == if number <= m.safe then number else m.finalized
    case Reorg(target) =>
      if target < |m.blocks| && n.safe < m.finalized then n.finalized == n.safe else n.finalized == m.finalized
    case _ => n.finalized == m.finalized
  }

  lemma PointersMove(m: State, op: Op)
    requires Valid(m)
    ensures SafeMoved(m, op, Apply(m, op)) && FinalizedMoved(m, op, Apply(m, op))
  {
  }

  ghost function SafeBlocks(m: State): seq<L1Block>
    requires Valid(m)
  {
    m.blocks[..m.safe + 1]
  }

  ghost function FinalBlocks(m: State): seq<L1Block>
    requires Valid(m)
  {
    m.blocks[..m.finalized + 1]
  }

  lemma ReorgCutsMarks(m: State, target: nat)
    requires Valid(m) && target < |m.blocks|
    ensures var n := Apply(m, Reorg(target));
            && Valid(n) && n.blocks == m.blocks[..target + 1]
            && SafeBlocks(n) == m.blocks[..Min(m.safe + 1, target + 1)]
            && FinalBlocks(n) == m.blocks[..Min(m.finalized + 1, n.safe + 1)]
  {
    var n := Apply(m, Reorg(target));
    ApplyValid(m, Reorg(target));
    CutAgain(m.blocks, target + 1, n.safe + 1);
    CutAgain(m.blocks, target + 1, n.finalized + 1);
  }

  /** After a reorg exactly the safe blocks still on the chain are safe, and the finalized ones among these final. */
  lemma ReorgKeepsMarks(m: State, target: nat, b: L1Block)
    requires Valid(m) && target < |m.blocks|
    ensures var n := Apply(m, Reorg(target));
            && Valid(n) && n.blocks == m.blocks[..target + 1]
            && (b in SafeBlocks(n) <==> b in SafeBlocks(m) && b in n.blocks)
            && (b in FinalBlocks(n) <==> b in FinalBlocks(m) && b in SafeBlocks(n))
  {
    var n := Apply(m, Reorg(target));
    ReorgCutsMarks(m, target);
    NumberedTwice(m.blocks, m.safe + 1, target + 1, b);
    NumberedTwice(m.blocks, m.finalized + 1, n.safe + 1, b);
  }

  lemma CutAgain<T>(s: seq<T>, i: nat, j: nat)
    requires j <= i <= |s|
    ensures s[..i][..j] == s[..j]
  {
  }

  /** In a numbered chain a block of two prefixes is a block of the shorter one. */
  lemma NumberedTwice(blocks: seq<L1Block>, i: nat, j: nat, b: L1Block)
    requires i <= |blocks| && j <= |blocks| && forall k :: 0 <= k < |blocks| ==> blocks[k].Number() == k
    ensures b in blocks[..i] && b in blocks[..j] <==> b in blocks[..Min(i, j)]
  {
    if b in blocks[..i] && b in blocks[..j] {
      assert b == blocks[..Min(i, j)][b.Number()];
    }
    CutAgain(blocks, i, Min(i, j));
    CutAgain(blocks, j, Min(i, j));
  }

  // ---- Whole runs ----

  /** A call leaves the blocks up to a height alone if safe is at or above it afterwards. */
  lemma SafeBlockStays(m: State, op: Op, n: nat)
    requires Valid(m) && n < |m.blocks| && n <= Apply(m, op).safe
    ensures n < |Apply(m, op).blocks| && Apply(m, op).blocks[n] == m.blocks[n]
  {
    PointersMove(m, op);
  }

  /** Call `j` marks the block at height `n` as safe. */
  ghost predicate MarksSafe(config: Config, ops: seq<Op>, j: nat, n: nat)
    requires j < |ops|
  {
    && (ops[j].SafeNext? || ops[j].SetSafe?)
    && StateAt(config, ops, j).safe < n <= StateAt(config, ops, j + 1).safe
    && n < |StateAt(config, ops, j).blocks|
  }

  /** At moment `i` the block at height `n` is safe and is the one that was there at moment `j`. */
  ghost predicate SafeSince(config: Config, ops: seq<Op>, j: nat, i: nat, n: nat)
    requires j <= i <= |ops|
  {
    var before, now := StateAt(config, ops, j), StateAt(config, ops, i);
    n <= now.safe && n < |before.blocks| && n < |now.blocks| && now.blocks[n] == before.blocks[n]
  }

  lemma StaysSafe(config: Config, ops: seq<Op>, j: nat, i: nat, n: nat)
    requires j <= i < |ops| && n <= StateAt(config, ops, i + 1).safe
    ensures SafeSince(config, ops, j, i, n) ==> SafeSince(config, ops, j, i + 1, n)
  {
    RunValid(config, ops, i);
    if SafeSince(config, ops, j, i, n) {
      SafeBlockStays(StateAt(config, ops, i), ops[i], n);
    }
  }

  lemma RaisedByMark(config: Config, ops: seq<Op>, j: nat, n: nat)
    requires j < |ops| && StateAt(config, ops, j).safe < n <= StateAt(config, ops, j + 1).safe
    ensures MarksSafe(config, ops, j, n) && SafeSince(config, ops, j, j + 1, n)
  {
    var m := StateAt(config, ops, j);
    RunValid(config, ops, j);
    PointersMove(m, ops[j]);
    SafeBlockStays(m, ops[j], n);
  }

  /**
   * Nothing is safe by accident: a block at or below the safe pointer was marked safe by a call that meant
   * to, while it was on the chain, and has been on the chain and safe ever since.
   */
  lemma SafeWasMarked(config: Config, ops: seq<Op>, k: nat, n: nat) returns (j: nat)
    requires k <= |ops| && 0 < n <= StateAt(config, ops, k).safe
    ensures j < k && MarksSafe(config, ops, j, n)
    ensures forall i :: j < i <= k ==> SafeSince(config, ops, j, i, n)
  {
    var heights := seq(k + 1, i requires 0 <= i <= k => StateAt(config, ops, i).safe);
    j := LastRise(heights, n);
    forall i | j < i <= k ensures n <= StateAt(config, ops, i).safe {
      assert heights[i] >= n;
    }
    assert heights[j] < n;
    RaisedByMark(config, ops, j, n);
    forall i | j < i <= k ensures SafeSince(config, ops, j, i, n) {
      SafeEverSince(config, ops, j, i, n);
    }
  }

  /** Where a sequence that ends at or above `n` rose to it for the last time. */
  lemma {:induction false} LastRise(heights: seq<nat>, n: nat) returns (j: nat)
    requires |heights| > 0 && heights[0] < n <= heights[|heights| - 1]
    ensures j < |heights| - 1 && heights[j] < n
    ensures forall i :: j < i < |heights| ==> n <= heights[i]
  {
    var last := |heights| - 1;
    if n <= heights[last - 1] {
      j := LastRise(heights[..last], n);
      assert forall i :: 0 <= i < last ==> heights[..last][i] == heights[i];
    } else {
      j := last - 1;
    }
  }

  lemma SafeEverSince(config: Config, ops: seq<Op>, j: nat, i: nat, n: nat)
    requires j < i <= |ops| && SafeSince(config, ops, j, j + 1, n)
    requires forall l :: j < l <= i ==> n <= StateAt(config, ops, l).safe
    ensures SafeSince(config, ops, j, i, n)
  {
    forall l | j < l < i ensures SafeSince(config, ops, j, l, n) ==> SafeSince(config, ops, j, l + 1, n) {
      StaysSafe(config, ops, j, l, n);
    }
    UpTo(j + 1, i, (l: nat) => j <= l <= |ops| && SafeSince(config, ops, j, l, n));
  }

  ghost predicate MarksFinalized(config: Config, ops: seq<Op>, j: nat, n: nat)
    requires j < |ops|
  {
    && (ops[j].FinalizeNext? || ops[j].SetFinalized?)
    && StateAt(config, ops, j).finalized < n <= StateAt(config, ops, j + 1).finalized
    && n <= StateAt(config, ops, j).safe
  }

  lemma RaisedByFinalizing(config: Config, ops: seq<Op>, j: nat, n: nat)
    requires j < |ops| && StateAt(config, ops, j).finalized < n <= StateAt(config, ops, j + 1).finalized
    ensures MarksFinalized(config, ops, j, n)
  {
    RunValid(config, ops, j);
    PointersMove(StateAt(config, ops, j), ops[j]);
  }

  /** A block at or below the finalized pointer was finalized by a call that meant to, while it was safe. */
  lemma FinalizedWasMarked(config: Config, ops: seq<Op>, k: nat, n: nat) returns (j: nat)
    requires k <= |ops| && 0 < n <= StateAt(config, ops, k).finalized
    ensures j < k && MarksFinalized(config, ops, j, n)
    ensures forall i :: j < i <= k ==> n <= StateAt(config, ops, i).finalized
  {
    var heights := seq(k + 1, i requires 0 <= i <= k => StateAt(config, ops, i).finalized);
    j := LastRise(heights, n);
    forall i | j < i <= k ensures n <= StateAt(config, ops, i).finalized {
      assert heights[i] >= n;
    }
    RaisedByFinalizing(config, ops, j, n);
  }

  // ---- What is counted ----

  /** How many of the first `k` calls enqueue an event log. */
  ghost function EventsBefore(ops: seq<Op>, k: nat): nat
    requires k <= |ops|
  {
    Marked(seq(|ops|, i requires 0 <= i < |ops| => ops[i].EnqueueLog?), k)
  }

  ghost predicate CarriesOutReorg(config: Config, ops: seq<Op>, k: nat)
    requires k < |ops|
  {
    ops[k].Reorg? && ops[k].target < |StateAt(config, ops, k).blocks|
  }

  /** How many of the first `k` calls are reorgs to a block of the chain of their time. */
  ghost function ReorgsBefore(config: Config, ops: seq<Op>, k: nat): nat
    requires k <= |ops|
  {
    Marked(seq(|ops|, i requires 0 <= i < |ops| => CarriesOutReorg(config, ops, i)), k)
  }

  lemma CallCounts(m: State, op: Op)
    requires Valid(m)
    ensures var n := Apply(m, op);
            && n.config == m.config
            && n.eventNonce == m.eventNonce + (if op.EnqueueLog? then 1 else 0)
            && n.forkId == m.forkId + if op.Reorg? && op.target < |m.blocks| then 1 else 0
  {
  }

  lemma OneCallCounts(config: Config, ops: seq<Op>, k: nat)
    requires k < |ops|
    ensures var m, n := StateAt(config, ops, k), StateAt(config, ops, k + 1);
            && n.config == m.config
            && n.eventNonce == m.eventNonce + (if ops[k].EnqueueLog? then 1 else 0)
            && n.forkId == m.forkId + if CarriesOutReorg(config, ops, k) then 1 else 0
  {
    RunValid(config, ops, k);
    CallCounts(StateAt(config, ops, k), ops[k]);
  }

  lemma {:induction false} ConfigStays(config: Config, ops: seq<Op>, k: nat)
    requires k <= |ops|
    ensures StateAt(config, ops, k).config == config
  {
    if k > 0 {
      ConfigStays(config, ops, k - 1);
      OneCallCounts(config, ops, k - 1);
    }
  }

  /** The event nonce counts the events so far. */
  lemma EventNonceCounts(config: Config, ops: seq<Op>, k: nat)
    requires k <= |ops|
    ensures StateAt(config, ops, k).eventNonce == EventsBefore(ops, k)
  {
    var values := seq(|ops| + 1, i requires 0 <= i <= |ops| => StateAt(config, ops, i).eventNonce);
    var marks := seq(|ops|, i requires 0 <= i < |ops| => ops[i].EnqueueLog?);
    forall i | 0 <= i < |ops| ensures values[i + 1] == values[i] + if marks[i] then 1 else 0 {
      OneCallCounts(config, ops, i);
    }
    GoesUpAtMarks(values, marks, k);
  }

  /** The fork counter counts the reorgs carried out so far. */
  lemma ForkIdCounts(config: Config, ops: seq<Op>, k: nat)
    requires k <= |ops|
    ensures StateAt(config, ops, k).forkId == ReorgsBefore(config, ops, k)
  {
    var values := seq(|ops| + 1, i requires 0 <= i <= |ops| => StateAt(config, ops, i).forkId);
    var marks := seq(|ops|, i requires 0 <= i < |ops| => CarriesOutReorg(config, ops, i));
    forall i | 0 <= i < |ops| ensures values[i + 1] == values[i] + if marks[i] then 1 else 0 {
      OneCallCounts(config, ops, i);
    }
    GoesUpAtMarks(values, marks, k);
  }

  // ---- Event transactions ----

  /** What is queued for an event: a transaction of the event signer to the emitting contract, with the one log. */
  ghost predicate CarriesEvent(config: Config, nonce: nat, log: Log, success: bool, tx: PendingTransaction) {
    && tx.envelope.signer == config.eventSigner && tx.envelope.chainId == 0 && tx.envelope.nonce == nonce
    && tx.envelope.to == log.address && tx.envelope.value == 0 && tx.envelope.gasLimit == 21_000
    && tx.envelope.input == [] && tx.envelope.blobHashes == []
    && tx.logs == [log] && tx.success == success
  }

  /** The transaction that a call queues. */
  ghost predicate Queues(config: Config, ops: seq<Op>, k: nat, tx: PendingTransaction)
    requires k < |ops|
  {
    StateAt(config, ops, k + 1).queue == StateAt(config, ops, k).queue + [tx]
  }

  /** The event of call `k` is queued under the number of events before it as its nonce. */
  lemma EventIsQueued(config: Config, ops: seq<Op>, k: nat) returns (tx: PendingTransaction)
    requires k < |ops| && ops[k].EnqueueLog?
    ensures Queues(config, ops, k, tx)
    ensures CarriesEvent(config, EventsBefore(ops, k), ops[k].log, ops[k].success, tx)
  {
    ConfigStays(config, ops, k);
    EventNonceCounts(config, ops, k);
    tx := EventTransaction(StateAt(config, ops, k), ops[k].log, ops[k].success);
  }

  lemma EventsGrow(ops: seq<Op>, i: nat, j: nat)
    requires i < j <= |ops| && ops[i].EnqueueLog?
    ensures EventsBefore(ops, i) < EventsBefore(ops, j)
  {
    var marks := seq(|ops|, k requires 0 <= k < |ops| => ops[k].EnqueueLog?);
    assert Marked(marks, i + 1) == Marked(marks, i) + 1;
    MarkedOnlyGrows(marks, i + 1, j);
  }

  /** No two events of a run share a transaction, even if their logs are equal. */
  lemma EventsAreDistinct(config: Config, ops: seq<Op>, i: nat, j: nat, a: PendingTransaction, b: PendingTransaction)
    requires i < j < |ops| && ops[i].EnqueueLog? && ops[j].EnqueueLog?
    requires Queues(config, ops, i, a) && Queues(config, ops, j, b)
    ensures TxHashOf(a.envelope) != TxHashOf(b.envelope)
  {
    var a' := EventIsQueued(config, ops, i);
    var b' := EventIsQueued(config, ops, j);
    LastOf(StateAt(config, ops, i).queue, a, a');
    LastOf(StateAt(config, ops, j).queue, b, b');
    EventsGrow(ops, i, j);
  }

  lemma LastOf<T>(xs: seq<T>, x: T, y: T)
    requires xs + [x] == xs + [y]
    ensures x == y
  {
    assert (xs + [x])[|xs|] == x && (xs + [y])[|xs|] == y;
  }

  // ---- Mined blocks ----

  lemma {:induction false} TimestampsAreEven(blocks: seq<L1Block>, config: Config, forkId: nat, i: nat)
    requires Linked(blocks, config, forkId) && i < |blocks|
    ensures blocks[i].header.timestamp == config.genesisTimestamp + i * config.blockTime
  {
    if i > 0 {
      TimestampsAreEven(blocks, config, forkId, i - 1);
      assert i * config.blockTime == (i - 1) * config.blockTime + config.blockTime;
    }
  }

  /** The body of a block is what was queued, transaction by transaction with its status and logs, and the blobs. */
  ghost predicate HoldsQueue(m: State, b: L1Block) {
    && |b.transactions| == |b.receipts| == |m.queue|
    && (forall i :: 0 <= i < |m.queue| ==>
          && b.transactions[i] == m.queue[i].envelope
          && b.receipts[i].status == m.queue[i].success && b.receipts[i].logs == m.queue[i].logs)
    && b.sidecars == m.blobs
  }

  lemma NextHoldsQueue(m: State, bloom: nat)
    requires m.blocks != []
    ensures HoldsQueue(m, NextBlock(m, bloom))
  {
  }

  /**
   * Mining empties both queues into one block on top of the chain: its height is the chain's length, its
   * time a whole number of block times after genesis, its stamp the number of reorgs so far.
   */
  lemma MinedBlockIs(config: Config, ops: seq<Op>, k: nat) returns (b: L1Block)
    requires k < |ops| && ops[k].Mine?
    ensures var m, n := StateAt(config, ops, k), StateAt(config, ops, k + 1);
            && n.blocks == m.blocks + [b] && n.queue == [] && n.blobs == []
            && HoldsQueue(m, b)
            && b.header == Header(|m.blocks|, config.genesisTimestamp + |m.blocks| * config.blockTime,
                                  HashOf(m.blocks[|m.blocks| - 1].header), ops[k].bloom,
                                  Some(1_000_000_000), Some(ReorgsBefore(config, ops, k)))
  {
    var m := StateAt(config, ops, k);
    RunValid(config, ops, k);
    ConfigStays(config, ops, k);
    ForkIdCounts(config, ops, k);
    TimestampsAreEven(m.blocks, m.config, m.forkId, |m.blocks| - 1);
    b := NextBlock(m, ops[k].bloom);
    NextHoldsQueue(m, ops[k].bloom);
    assert |m.blocks| * config.blockTime == (|m.blocks| - 1) * config.blockTime + config.blockTime;
  }

  /** Every chain starts with the same empty block at the configured time. */
  lemma GenesisIs(config: Config, ops: seq<Op>, k: nat)
    requires k <= |ops|
    ensures StateAt(config, ops, k).blocks[0]
         == L1Block(Header(0, config.genesisTimestamp, ZeroHash, 0, None, None), [], [], [], [])
  {
    RunValid(config, ops, k);
    ConfigStays(config, ops, k);
  }

  // ---- Logs ----

  /** Every RPC log says where it stands, and the RPC logs of a transaction are its consensus logs. */
  ghost predicate LogsSayWhere(b: L1Block, i: nat)
    requires i < |b.transactions| == |b.receipts| == |b.rpcReceipts|
  {
    var rpc, logs := b.rpcReceipts[i], b.receipts[i].logs;
    && rpc.gasUsed == 21_000
    && |rpc.logs| == |logs|
    && (forall k :: 0 <= k < |logs| ==>
          && rpc.logs[k].inner == logs[k]
          && rpc.logs[k].blockHash == HashOf(b.header)
          && rpc.logs[k].blockNumber == b.header.number
          && rpc.logs[k].blockTimestamp == b.header.timestamp
          && rpc.logs[k].transactionHash == TxHashOf(b.transactions[i])
          && rpc.logs[k].transactionIndex == i)
  }

  ghost predicate AllLogsSayWhere(b: L1Block) {
    && |b.transactions| == |b.receipts| == |b.rpcReceipts|
    && forall i :: 0 <= i < |b.transactions| ==> LogsSayWhere(b, i)
  }

  lemma NextLogsSayWhere(m: State, bloom: nat)
    requires m.blocks != []
    ensures AllLogsSayWhere(NextBlock(m, bloom))
  {
  }

  ghost predicate MinedLogsSayWhere(h: History) {
    forall b :: b in h.mined ==> AllLogsSayWhere(b)
  }

  lemma MinedLogsStep(h: History, op: Op)
    requires h.miner.blocks != []
    ensures MinedLogsSayWhere(h) ==> MinedLogsSayWhere(Extend(h, op))
  {
    if op.Mine? {
      NextLogsSayWhere(h.miner, op.bloom);
    } else {
      assert Extend(h, op).mined == h.mined;
    }
  }

  /** In every block ever mined, every RPC log carries its own block, transaction and position. */
  lemma LogsSayWhereTheyStand(h: History, b: L1Block)
    requires Reachable(h) && EverSeen(h, b)
    ensures AllLogsSayWhere(b)
  {
    forall g: History, op: Op | g.miner.blocks != [] {
      MinedLogsStep(g, op);
    }
    ReachableInduction(h, g => MinedLogsSayWhere(g));
  }
}
