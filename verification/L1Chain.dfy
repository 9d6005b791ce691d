/** The L1 block format: headers, transactions and the two kinds of receipts. */
module L1Chain {
  import opened Basics

  type Address = nat

  /** A 32-byte word. */
  type Word = w: seq<byte> | |w| == 32 witness seq(32, i => 0)

  datatype Log = Log(address: Address, topics: seq<Word>, data: seq<byte>)

  datatype Header = Header(
    number: nat,
    timestamp: nat,
    parentHash: Hash,
    logsBloom: nat,
    baseFee: Option<nat>,
    extraData: Option<nat>)

  /** Header hashing is modelled as injective: a digest remembers the header it was taken of. */
  datatype Hash = ZeroHash | Digest(header: Header)

  function HashOf(header: Header): Hash {
    Digest(header)
  }

  /** A signed L1 transaction. Its hash is injective in the same way. */
  datatype Envelope = Envelope(
    signer: Address,
    chainId: nat,
    nonce: nat,
    to: Address,
    value: nat,
    gasLimit: nat,
    input: seq<byte>,
    blobHashes: seq<nat>)

  datatype TxHash = TxDigest(envelope: Envelope)

  function TxHashOf(envelope: Envelope): TxHash {
    TxDigest(envelope)
  }

  /** A consensus receipt. */
  datatype Receipt = Receipt(status: bool, cumulativeGasUsed: nat, logs: seq<Log>)

  datatype RpcLog = RpcLog(
    inner: Log,
    blockHash: Hash,
    blockNumber: nat,
    blockTimestamp: nat,
    transactionHash: TxHash,
    transactionIndex: nat,
    logIndex: nat)

  /** A receipt as an RPC server returns it. */
  datatype RpcReceipt = RpcReceipt(
    status: bool,
    cumulativeGasUsed: nat,
    logs: seq<RpcLog>,
    transactionHash: TxHash,
    transactionIndex: nat,
    blockHash: Hash,
    blockNumber: nat,
    gasUsed: nat,
    from: Address,
    to: Address)

  /** A blob sidecar: versioned hash and contents. */
  datatype Sidecar = Sidecar(versionedHash: nat, blob: nat)

  datatype L1Block = L1Block(
    header: Header,
    transactions: seq<Envelope>,
    receipts: seq<Receipt>,
    rpcReceipts: seq<RpcReceipt>,
    sidecars: seq<Sidecar>)
  {
    function Number(): nat { header.number }
    function Hash(): Hash { HashOf(header) }
  }

  const GAS_PER_TRANSACTION: nat := 21_000

  // ---- Receipts ----

  /** Consensus receipts, one per transaction. */
  function BuildReceipts(logs: seq<seq<Log>>, statuses: seq<bool>): seq<Receipt>
    requires |logs| == |statuses|
  {
    seq(|logs|, i requires 0 <= i < |logs| =>
      Receipt(statuses[i], GAS_PER_TRANSACTION * (i + 1), logs[i]))
  }

  /** The number of logs emitted by the first `n` transactions. */
  function LogsBefore(logs: seq<seq<Log>>, n: nat): nat
    requires n <= |logs|
  {
    if n == 0 then 0 else LogsBefore(logs, n - 1) + |logs[n - 1]|
  }

  /** RPC logs of one transaction, numbered from `first`. */
  function RpcLogs(first: nat, tx: Envelope, index: nat, header: Header, logs: seq<Log>): seq<RpcLog> {
    seq(|logs|, k requires 0 <= k < |logs| =>
      RpcLog(logs[k], HashOf(header), header.number, header.timestamp, TxHashOf(tx), index, first + k))
  }

  /** The RPC receipt of transaction `i`, given the logs of the whole block. */
  function RpcReceiptAt(txs: seq<Envelope>, logs: seq<seq<Log>>, statuses: seq<bool>, header: Header, i: nat)
    : RpcReceipt
    requires i < |txs| == |logs| == |statuses|
  {
    RpcReceipt(
      statuses[i],
      GAS_PER_TRANSACTION * (i + 1),
      RpcLogs(LogsBefore(logs, i), txs[i], i, header, logs[i]),
      TxHashOf(txs[i]), i, HashOf(header), header.number,
      GAS_PER_TRANSACTION, txs[i].signer, txs[i].to)
  }

  function RpcReceipts(txs: seq<Envelope>, logs: seq<seq<Log>>, statuses: seq<bool>, header: Header)
    : seq<RpcReceipt>
    requires |txs| == |logs| == |statuses|
  {
    seq(|txs|, i requires 0 <= i < |txs| => RpcReceiptAt(txs, logs, statuses, header, i))
  }

  /** Builds the RPC receipts in one pass, keeping a running count of the logs already numbered. */
  method BuildTransactionReceipts(
    txs: seq<Envelope>, logs: seq<seq<Log>>, statuses: seq<bool>, header: Header)
    returns (receipts: seq<RpcReceipt>)
    requires |txs| == |logs| == |statuses|
    ensures receipts == RpcReceipts(txs, logs, statuses, header)
  {
    var previousLogCount := 0;
    receipts := [];
    for index := 0 to |txs|
      invariant previousLogCount == LogsBefore(logs, index)
      invariant |receipts| == index
      invariant forall i :: 0 <= i < index ==> receipts[i] == RpcReceiptAt(txs, logs, statuses, header, i)
    {
      var rpcLogs := RpcLogs(previousLogCount, txs[index], index, header, logs[index]);
      previousLogCount := previousLogCount + |rpcLogs|;
      receipts := receipts + [RpcReceipt(
        statuses[index], GAS_PER_TRANSACTION * (index + 1), rpcLogs, TxHashOf(txs[index]), index,
        HashOf(header), header.number, GAS_PER_TRANSACTION, txs[index].signer, txs[index].to)];
    }
  }

  /** All RPC logs of a block in receipt order. */
  ghost function AllLogs(receipts: seq<RpcReceipt>): seq<RpcLog> {
    FlatMap((r: RpcReceipt) => r.logs, receipts)
  }

  /** All consensus logs of a block in receipt order. */
  ghost function AllConsensusLogs(receipts: seq<Receipt>): seq<Log> {
    FlatMap((r: Receipt) => r.logs, receipts)
  }

  /**
   * What a client relies on when it reads a block: bodies and both receipt lists line up index by
   * index, gas accumulates 21000 per transaction, and reading the logs in order the log indices
   * count 0, 1, 2, ... over exactly the logs of the consensus receipts.
   */
  ghost predicate ReceiptsAligned(b: L1Block) {
    && |b.transactions| == |b.receipts| == |b.rpcReceipts|
    && (forall i :: 0 <= i < |b.transactions| ==>
          && b.rpcReceipts[i].transactionHash == TxHashOf(b.transactions[i])
          && b.rpcReceipts[i].transactionIndex == i
          && b.rpcReceipts[i].blockHash == b.Hash()
          && b.rpcReceipts[i].blockNumber == b.Number()
          && b.rpcReceipts[i].from == b.transactions[i].signer
          && b.rpcReceipts[i].to == b.transactions[i].to
          && b.rpcReceipts[i].status == b.receipts[i].status
          && b.rpcReceipts[i].cumulativeGasUsed == b.receipts[i].cumulativeGasUsed == 21_000 * (i + 1))
    && var rpc, consensus := AllLogs(b.rpcReceipts), AllConsensusLogs(b.receipts);
       && |rpc| == |consensus|
       && (forall k :: 0 <= k < |rpc| ==> rpc[k].logIndex == k && rpc[k].inner == consensus[k])
  }

  lemma {:induction false} LogIndicesCount(
    txs: seq<Envelope>, logs: seq<seq<Log>>, statuses: seq<bool>, header: Header, n: nat)
    requires |txs| == |logs| == |statuses| && n <= |txs|
    ensures var rpc := AllLogs(RpcReceipts(txs, logs, statuses, header)[..n]);
            var consensus := AllConsensusLogs(BuildReceipts(logs, statuses)[..n]);
            && |rpc| == |consensus| == LogsBefore(logs, n)
            && (forall k :: 0 <= k < |rpc| ==> rpc[k].logIndex == k && rpc[k].inner == consensus[k])
  {
    if n > 0 {
      LogIndicesCount(txs, logs, statuses, header, n - 1);
      var rpc, consensus := RpcReceipts(txs, logs, statuses, header), BuildReceipts(logs, statuses);
      assert rpc[..n][..n - 1] == rpc[..n - 1];
      assert consensus[..n][..n - 1] == consensus[..n - 1];
    }
  }

  /** Receipts built together for one block are aligned. */
  lemma BuiltReceiptsAligned(b: L1Block, logs: seq<seq<Log>>, statuses: seq<bool>)
    requires |b.transactions| == |logs| == |statuses|
    requires b.receipts == BuildReceipts(logs, statuses)
    requires b.rpcReceipts == RpcReceipts(b.transactions, logs, statuses, b.header)
    ensures ReceiptsAligned(b)
  {
    LogIndicesCount(b.transactions, logs, statuses, b.header, |logs|);
    assert b.receipts[..|logs|] == b.receipts;
    assert b.rpcReceipts[..|logs|] == b.rpcReceipts;
  }
}
