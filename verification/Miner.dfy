/**
 * The simulated L1 block producer: an in-memory chain that can be extended by mining and cut back by
 * a reorg, with queues of transactions and blobs waiting for the next block.
 */
module Miner {
  import opened Basics
  import opened L1Chain

  datatype PendingTransaction = PendingTransaction(envelope: Envelope, logs: seq<Log>, success: bool)

  datatype Config = Config(blockTime: nat, genesisTimestamp: nat, eventSigner: Address)

  datatype ReorgError = BeyondTip(requested: nat, tip: nat)

  const EVENT_TX_CHAIN_ID: nat := 0
  const EVENT_TX_GAS: nat := 21_000
  const BASE_FEE: nat := 1_000_000_000

  /** The miner's state as a value. */
  datatype State = State(
    config: Config,
    blocks: seq<L1Block>,
    queue: seq<PendingTransaction>,
    blobs: seq<Sidecar>,
    forkId: nat,
    safe: nat,
    finalized: nat,
    eventNonce: nat)

  function Genesis(config: Config): L1Block {
    L1Block(Header(0, config.genesisTimestamp, ZeroHash, 0, None, None), [], [], [], [])
  }

  function Initial(config: Config): State {
    State(config, [Genesis(config)], [], [], 0, 0, 0, 0)
  }

  function Envelopes(queue: seq<PendingTransaction>): seq<Envelope> {
    seq(|queue|, i requires 0 <= i < |queue| => queue[i].envelope)
  }

  function QueuedLogs(queue: seq<PendingTransaction>): seq<seq<Log>> {
    seq(|queue|, i requires 0 <= i < |queue| => queue[i].logs)
  }

  function Statuses(queue: seq<PendingTransaction>): seq<bool> {
    seq(|queue|, i requires 0 <= i < |queue| => queue[i].success)
  }

  /** The synthetic transaction that carries an event log. */
  function EventTransaction(m: State, log: Log, success: bool): PendingTransaction {
    PendingTransaction(
      Envelope(m.config.eventSigner, EVENT_TX_CHAIN_ID, m.eventNonce, log.address, 0, EVENT_TX_GAS, [], []),
      [log], success)
  }

  /**
   * The header of the next block. It carries the fork counter but commits to no transaction: the only
   * trace of the block body is the bloom filter, which is computed elsewhere and may be anything.
   */
  function NextHeader(m: State, bloom: nat): Header
    requires m.blocks != []
  {
    var parent := m.blocks[|m.blocks| - 1];
    Header(parent.Number() + 1, parent.header.timestamp + m.config.blockTime, parent.Hash(), bloom,
           Some(BASE_FEE), Some(m.forkId))
  }

  /** The block the miner would mine now. */
  function NextBlock(m: State, bloom: nat): L1Block
    requires m.blocks != []
  {
    var header := NextHeader(m, bloom);
    var txs, logs, statuses := Envelopes(m.queue), QueuedLogs(m.queue), Statuses(m.queue);
    L1Block(header, txs, BuildReceipts(logs, statuses), RpcReceipts(txs, logs, statuses, header), m.blobs)
  }

  // ---- Steps ----

  datatype Op =
    | Submit(tx: PendingTransaction)
    | EnqueueLog(log: Log, success: bool)
    | EnqueueBlob(sidecar: Sidecar)
    | Mine(bloom: nat)
    | Reorg(target: nat)
    | SafeNext
    | FinalizeNext
    | SetSafe(number: nat)
    | SetFinalized(number: nat)

  function Tip(m: State): nat
    requires m.blocks != []
  {
    m.blocks[|m.blocks| - 1].Number()
  }

  /** Whether a reorg to `target` is carried out: the target is on the chain. */
  predicate Accepts(m: State, target: nat)
    requires m.blocks != []
  {
    target <= Tip(m) && target < |m.blocks|
  }

  /**
   * One call on the miner. A reorg beyond the tip is refused, and a pointer move beyond its bound
   * aborts before it changes anything; both leave the state as it was.
   */
  function Apply(m: State, op: Op): State
    requires m.blocks != []
  {
    match op
    case Submit(tx) => m.(queue := m.queue + [tx])
    case EnqueueLog(log, success) =>
      m.(queue := m.queue + [EventTransaction(m, log, success)], eventNonce := m.eventNonce + 1)
    case EnqueueBlob(sidecar) => m.(blobs := m.blobs + [sidecar])
    case Mine(bloom) => m.(blocks := m.blocks + [NextBlock(m, bloom)], queue := [], blobs := [])
    case Reorg(target) =>
      if !Accepts(m, target) then m
      else
        var safe := Min(m.safe, target);
        m.(blocks := m.blocks[..target + 1], forkId := m.forkId + 1,
           safe := safe, finalized := Min(m.finalized, safe))
    case SafeNext => m.(safe := Min(m.safe + 1, Tip(m)))
    case FinalizeNext => m.(finalized := Min(m.finalized + 1, m.safe))
    case SetSafe(number) => if number > Tip(m) then m else m.(safe := number)
    case SetFinalized(number) => if number > m.safe then m else m.(finalized := number)
  }

  // ---- The invariant of every reachable state ----

  /** The blocks are numbered from genesis, linked by parent hash, and stamped with past fork counters. */
  ghost predicate Linked(blocks: seq<L1Block>, config: Config, forkId: nat) {
    && |blocks| > 0
    && blocks[0] == Genesis(config)
    && (forall i :: 0 <= i < |blocks| ==> blocks[i].Number() == i)
    && (forall i :: 0 < i < |blocks| ==>
          && blocks[i].header.parentHash == blocks[i - 1].Hash()
          && blocks[i].header.timestamp == blocks[i - 1].header.timestamp + config.blockTime
          && blocks[i].header.extraData.Some?
          && blocks[i].header.extraData.value <= forkId)
  }

  ghost predicate AllAligned(blocks: seq<L1Block>) {
    forall b {:trigger ReceiptsAligned(b)} :: b in blocks ==> ReceiptsAligned(b)
  }

  ghost predicate Valid(m: State) {
    && Linked(m.blocks, m.config, m.forkId)
    && AllAligned(m.blocks)
    && m.safe < |m.blocks|
    && m.finalized < |m.blocks|
  }

  lemma InitialValid(config: Config)
    ensures Valid(Initial(config))
  {
    BuiltReceiptsAligned(Genesis(config), [], []);
  }

  lemma NextBlockAligned(m: State, bloom: nat)
    requires m.blocks != []
    ensures ReceiptsAligned(NextBlock(m, bloom))
  {
    BuiltReceiptsAligned(NextBlock(m, bloom), QueuedLogs(m.queue), Statuses(m.queue));
  }

  /** Every call keeps the chain numbered, linked and aligned, and both pointers on the chain. */
  lemma ApplyValid(m: State, op: Op)
    requires Valid(m)
    ensures Valid(Apply(m, op))
  {
    match op
    case Mine(bloom) =>
      MineValid(m, bloom);
    case Reorg(target) =>
      if target <= Tip(m) {
        CutValid(m, target);
      }
    case _ =>
  }

  lemma CutValid(m: State, target: nat)
    requires Valid(m) && target < |m.blocks|
    ensures Linked(m.blocks[..target + 1], m.config, m.forkId + 1) && AllAligned(m.blocks[..target + 1])
  {
  }

  lemma MineValid(m: State, bloom: nat)
    requires Valid(m)
    ensures Linked(m.blocks + [NextBlock(m, bloom)], m.config, m.forkId)
    ensures AllAligned(m.blocks + [NextBlock(m, bloom)])
  {
    NextBlockAligned(m, bloom);
    NextBlockLinks(m, bloom);
  }

  lemma NextBlockLinks(m: State, bloom: nat)
    requires Valid(m)
    ensures Linked(m.blocks + [NextBlock(m, bloom)], m.config, m.forkId)
  {
  }

  /** A reorg within the chain keeps the blocks up to its target, and the last of them is the target. */
  lemma ReorgCuts(m: State, target: nat)
    requires Valid(m)
    ensures Valid(Apply(m, Reorg(target))) && Tip(m) == m.blocks[|m.blocks| - 1].Number() == |m.blocks| - 1
    ensures target < |m.blocks| ==>
              m.blocks[..target + 1] + m.blocks[target + 1..] == m.blocks && m.blocks[target].Number() == target
  {
    ApplyValid(m, Reorg(target));
  }

  /**
   * The finalized pointer is capped at the safe one whenever it moves, yet a call leaves it above the
   * safe pointer exactly when it moves the safe pointer back below it.
   */
  lemma FinalizedStaysBelowSafeUnless(m: State, op: Op)
    requires Valid(m) && m.finalized <= m.safe
    ensures var n := Apply(m, op);
            n.finalized <= n.safe <==> !(op.SetSafe? && op.number < m.finalized)
  {
  }

  // ---- The miner itself ----

  class L1Miner {
    const config: Config
    var blocks: seq<L1Block>
    var pendingTransactions: seq<PendingTransaction>
    var pendingBlobs: seq<Sidecar>
    var forkId: nat
    var safeNumber: nat
    var finalizedNumber: nat
    var eventNonce: nat

    ghost function View(): State
      reads this
    {
      State(config, blocks, pendingTransactions, pendingBlobs, forkId, safeNumber, finalizedNumber, eventNonce)
    }

    constructor (config: Config)
      ensures View() == Initial(config) && Valid(View())
    {
      this.config := config;
      blocks := [Genesis(config)];
      pendingTransactions, pendingBlobs := [], [];
      forkId, safeNumber, finalizedNumber, eventNonce := 0, 0, 0, 0;
      new;
      InitialValid(config);
    }

    function LatestNumber(): nat
      requires blocks != []
      reads this
    {
      blocks[|blocks| - 1].Number()
    }

    method SubmitTransaction(tx: PendingTransaction)
      requires Valid(View())
      modifies this`pendingTransactions
      ensures View() == Apply(old(View()), Submit(tx)) && Valid(View())
    {
      pendingTransactions := pendingTransactions + [tx];
    }

    method EnqueueLogWithStatus(log: Log, success: bool)
      requires Valid(View())
      modifies this`pendingTransactions, this`eventNonce
      ensures View() == Apply(old(View()), EnqueueLog(log, success)) && Valid(View())
    {
      var tx := Envelope(
        config.eventSigner, EVENT_TX_CHAIN_ID, eventNonce, log.address, 0, EVENT_TX_GAS, [], []);
      eventNonce := eventNonce + 1;
      SubmitTransaction(PendingTransaction(tx, [log], success));
    }

    method EnqueueSidecar(sidecar: Sidecar)
      requires Valid(View())
      modifies this`pendingBlobs
      ensures View() == Apply(old(View()), EnqueueBlob(sidecar)) && Valid(View())
    {
      pendingBlobs := pendingBlobs + [sidecar];
    }

    /** Mines the next block, draining both queues. `bloom` is the bloom filter of the queued logs. */
    method MineBlock(bloom: nat) returns (block: L1Block)
      requires Valid(View())
      modifies this`blocks, this`pendingTransactions, this`pendingBlobs
      ensures View() == Apply(old(View()), Mine(bloom)) && Valid(View())
      ensures block == blocks[|blocks| - 1]
    {
      ghost var before := View();
      var parent := blocks[|blocks| - 1];
      var pending := pendingTransactions;
      var sidecars := pendingBlobs;
      pendingTransactions, pendingBlobs := [], [];
      var txs, logs, statuses := Envelopes(pending), QueuedLogs(pending), Statuses(pending);
      var header := Header(
        parent.Number() + 1, parent.header.timestamp + config.blockTime, parent.Hash(), bloom,
        Some(BASE_FEE), Some(forkId));
      var rpcReceipts := BuildTransactionReceipts(txs, logs, statuses, header);
      block := L1Block(header, txs, BuildReceipts(logs, statuses), rpcReceipts, sidecars);
      blocks := blocks + [block];
      ApplyValid(before, Mine(bloom));
    }

    /** Cuts the chain back to `number` and returns the discarded blocks, lowest first. */
    method ReorgTo(number: nat) returns (r: Result<seq<L1Block>, ReorgError>)
      requires Valid(View())
      modifies this`blocks, this`forkId, this`safeNumber, this`finalizedNumber
      ensures View() == Apply(old(View()), Reorg(number)) && Valid(View())
      ensures r.Err? <==> number > old(LatestNumber())
      ensures r.Err? ==> r.error == BeyondTip(number, old(LatestNumber()))
      ensures r.Ok? ==> blocks + r.value == old(blocks) && LatestNumber() == number && forkId == old(forkId) + 1
      ensures r.Ok? ==> safeNumber == if number < old(safeNumber) then number else old(safeNumber)
      ensures r.Ok? ==>
                finalizedNumber == if safeNumber < old(finalizedNumber) then safeNumber else old(finalizedNumber)
    {
      var tip := LatestNumber();
      ReorgCuts(View(), number);
      if number > tip {
        return Err(BeyondTip(number, tip));
      }
      forkId := forkId + 1;
      safeNumber := Min(safeNumber, number);
      finalizedNumber := Min(finalizedNumber, safeNumber);
      var discarded := blocks[number + 1..];
      blocks := blocks[..number + 1];
      r := Ok(discarded);
    }

    method ActSafeNext()
      requires Valid(View())
      modifies this`safeNumber
      ensures View() == Apply(old(View()), SafeNext) && Valid(View())
    {
      safeNumber := Min(safeNumber + 1, LatestNumber());
    }

    method ActFinalizeNext()
      requires Valid(View())
      modifies this`finalizedNumber
      ensures View() == Apply(old(View()), FinalizeNext) && Valid(View())
    {
      finalizedNumber := Min(finalizedNumber + 1, safeNumber);
    }

    method ActSafe(number: nat)
      requires Valid(View()) && number <= LatestNumber()
      modifies this`safeNumber
      ensures View() == Apply(old(View()), SetSafe(number)) && Valid(View())
    {
      safeNumber := number;
    }

    method ActFinalize(number: nat)
      requires Valid(View()) && number <= safeNumber
      modifies this`finalizedNumber
      ensures View() == Apply(old(View()), SetFinalized(number)) && Valid(View())
    {
      finalizedNumber := number;
    }
  }
}
