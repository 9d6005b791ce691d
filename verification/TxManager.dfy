/**
 * The transaction manager that routes batcher submissions through the L1 miner. A submission is queued
 * as pending, staged to the miner, and finally confirmed by a receipt, failed, or dropped. Each submission
 * carries a one-shot responder; sending on it, or dropping it, is an effect the batch driver observes.
 */
module TxManager {
  import opened Basics
  import opened L1Chain
  import opened Miner

  /** Identifies the one-shot channel through which one submission is answered. */
  type Handle = nat

  datatype SendError = Rpc | AlreadyReserved | Sign

  datatype Response = Confirmed(receipt: RpcReceipt) | Failed(error: SendError)

  datatype Pending = Pending(envelope: Envelope, blobs: seq<Sidecar>, responder: Handle)

  datatype Effect =
    | Resolve(handle: Handle, response: Response)
    | Close(handle: Handle)
    | NewHead(number: nat)

  /** What the batcher asks to send: a recipient if not the inbox, a value, a gas limit, calldata and blobs. */
  datatype Candidate = Candidate(
    to: Option<Address>,
    value: nat,
    gasLimit: nat,
    input: seq<byte>,
    blobs: seq<Sidecar>)

  datatype ManagerConfig = ManagerConfig(signer: Address, inbox: Address, chainId: nat, publishesHeads: bool)

  /** The state behind the manager's mutex. */
  datatype Inner = Inner(
    pending: seq<Pending>,
    staged: seq<Pending>,
    nextNonce: nat,
    failRemaining: nat,
    blockedRemaining: nat,
    cancellations: nat)

  const MIN_GAS: nat := 21_000

  const EMPTY: Inner := Inner([], [], 0, 0, 0, 0)

  // ---- The locked sections as functions ----

  /** The first section of a send: consume an injected failure or rejection, if one is scheduled. */
  function Admit(s: Inner): (Inner, Option<SendError>) {
    if s.failRemaining > 0 then (s.(failRemaining := s.failRemaining - 1), Some(Rpc))
    else if s.blockedRemaining > 0 then (s.(blockedRemaining := s.blockedRemaining - 1), Some(AlreadyReserved))
    else (s, None)
  }

  /** The envelope signed for a candidate once it has a nonce. */
  function SignedEnvelope(config: ManagerConfig, c: Candidate, nonce: nat): Envelope {
    Envelope(
      config.signer, config.chainId, nonce,
      if c.to.Some? then c.to.value else config.inbox,
      c.value, Max(c.gasLimit, MIN_GAS), c.input,
      seq(|c.blobs|, i requires 0 <= i < |c.blobs| => c.blobs[i].versionedHash))
  }

  /** The envelope says, field by field, what the candidate asks for. */
  ghost predicate CarriesOut(config: ManagerConfig, c: Candidate, e: Envelope) {
    && e.signer == config.signer
    && e.chainId == config.chainId
    && (match c.to case Some(recipient) => e.to == recipient case None => e.to == config.inbox)
    && e.value == c.value
    && e.gasLimit >= c.gasLimit && e.gasLimit >= 21_000 && (e.gasLimit == c.gasLimit || e.gasLimit == 21_000)
    && e.input == c.input
    && |e.blobHashes| == |c.blobs|
    && forall i :: 0 <= i < |c.blobs| ==> e.blobHashes[i] == c.blobs[i].versionedHash
  }

  function Submission(config: ManagerConfig, c: Candidate, nonce: nat, responder: Handle): Pending {
    Pending(SignedEnvelope(config, c, nonce), c.blobs, responder)
  }

  /** The miner after staging submissions in order. */
  function StagedMiner(m: State, ps: seq<Pending>): State {
    m.(queue := m.queue + StagedQueue(ps), blobs := m.blobs + StagedBlobs(ps))
  }

  function StagedQueue(ps: seq<Pending>): seq<PendingTransaction> {
    seq(|ps|, i requires 0 <= i < |ps| => PendingTransaction(ps[i].envelope, [], true))
  }

  function StagedBlobs(ps: seq<Pending>): seq<Sidecar> {
    if ps == [] then [] else StagedBlobs(ps[..|ps| - 1]) + ps[|ps| - 1].blobs
  }

  /** Staging one submission more is submitting its transaction and enqueueing its blobs. */
  lemma StagedMinerAppend(m: State, ps: seq<Pending>, p: Pending)
    ensures var before, tx := StagedMiner(m, ps), PendingTransaction(p.envelope, [], true);
            StagedMiner(m, ps + [p]) == before.(queue := before.queue + [tx], blobs := before.blobs + p.blobs)
  {
    assert (ps + [p])[..|ps + [p]| - 1] == ps;
    assert StagedQueue(ps + [p]) == StagedQueue(ps) + [PendingTransaction(p.envelope, [], true)];
    Associative(m.queue, StagedQueue(ps), [PendingTransaction(p.envelope, [], true)]);
    Associative(m.blobs, StagedBlobs(ps), p.blobs);
  }

  /** The first receipt with the given transaction hash. */
  function FindReceipt(receipts: seq<RpcReceipt>, hash: TxHash): (r: Option<RpcReceipt>)
    ensures r.Some? ==> r.value in receipts && r.value.transactionHash == hash
    ensures r.None? ==> forall i :: 0 <= i < |receipts| ==> receipts[i].transactionHash != hash
  {
    if receipts == [] then None
    else if receipts[0].transactionHash == hash then Some(receipts[0])
    else FindReceipt(receipts[1..], hash)
  }

  function ReceiptFor(p: Pending, block: L1Block): Option<RpcReceipt> {
    FindReceipt(block.rpcReceipts, TxHashOf(p.envelope))
  }

  /** The staged submissions without a receipt in the block, in order. */
  function StillStaged(ps: seq<Pending>, block: L1Block): seq<Pending> {
    if ps == [] then []
    else
      var last := ps[|ps| - 1];
      StillStaged(ps[..|ps| - 1], block) + if ReceiptFor(last, block).Some? then [] else [last]
  }

  /** The answers to the staged submissions with a receipt in the block, in order. */
  function Confirmations(ps: seq<Pending>, block: L1Block): seq<Effect> {
    if ps == [] then []
    else
      var last := ps[|ps| - 1];
      var receipt := ReceiptFor(last, block);
      Confirmations(ps[..|ps| - 1], block)
      + if receipt.Some? then [Resolve(last.responder, Confirmed(receipt.value))] else []
  }

  function Failures(ps: seq<Pending>): seq<Effect> {
    seq(|ps|, i requires 0 <= i < |ps| => Resolve(ps[i].responder, Failed(Rpc)))
  }

  function Closures(ps: seq<Pending>): seq<Effect> {
    seq(|ps|, i requires 0 <= i < |ps| => Close(ps[i].responder))
  }

  function HeadEvent(config: ManagerConfig, number: nat): seq<Effect> {
    if config.publishesHeads then [NewHead(number)] else []
  }

  // ---- Receipts of well-formed blocks ----

  /** The first position of a transaction in a block. */
  ghost predicate FirstAt(txs: seq<Envelope>, e: Envelope, i: nat) {
    i < |txs| && txs[i] == e && forall j :: 0 <= j < i ==> txs[j] != e
  }

  lemma {:induction false} FindReceiptFirst(receipts: seq<RpcReceipt>, txs: seq<Envelope>, e: Envelope, i: nat)
    requires |receipts| == |txs| && FirstAt(txs, e, i)
    requires forall k :: 0 <= k < |txs| ==> receipts[k].transactionHash == TxHashOf(txs[k])
    ensures FindReceipt(receipts, TxHashOf(e)) == Some(receipts[i])
  {
    if i > 0 {
      FindReceiptFirst(receipts[1..], txs[1..], e, i - 1);
    }
  }

  /** In a block with aligned receipts a submission has a receipt exactly if the block contains its transaction. */
  lemma ReceiptIffIncluded(p: Pending, block: L1Block)
    requires ReceiptsAligned(block)
    ensures ReceiptFor(p, block).Some? <==> p.envelope in block.transactions
    ensures forall i: nat :: FirstAt(block.transactions, p.envelope, i) ==>
              ReceiptFor(p, block) == Some(block.rpcReceipts[i])
  {
    forall i: nat | FirstAt(block.transactions, p.envelope, i)
      ensures ReceiptFor(p, block) == Some(block.rpcReceipts[i])
    {
      FindReceiptFirst(block.rpcReceipts, block.transactions, p.envelope, i);
    }
    if ReceiptFor(p, block).Some? {
      var k :| 0 <= k < |block.rpcReceipts| && block.rpcReceipts[k] == ReceiptFor(p, block).value;
      assert TxHashOf(block.transactions[k]) == TxHashOf(p.envelope);
    }
    forall k | 0 <= k < |block.transactions| && block.transactions[k] == p.envelope
      ensures ReceiptFor(p, block).Some?
    {
      assert block.rpcReceipts[k].transactionHash == TxHashOf(p.envelope);
    }
  }

  /** What keeps waiting was waiting, and has no receipt in the block. */
  lemma {:induction false} StillStagedIn(ps: seq<Pending>, block: L1Block, p: Pending)
    ensures p in StillStaged(ps, block) <==> p in ps && ReceiptFor(p, block).None?
  {
    if ps != [] {
      var init, last := ps[..|ps| - 1], ps[|ps| - 1];
      StillStagedIn(init, block, p);
      assert ps == init + [last];
    }
  }

  /** The answers are exactly those of the waiting submissions that have a receipt in the block. */
  lemma {:induction false} ConfirmationsIn(ps: seq<Pending>, block: L1Block, e: Effect)
    ensures e in Confirmations(ps, block) <==>
            exists p :: p in ps && ReceiptFor(p, block).Some?
                        && e == Resolve(p.responder, Confirmed(ReceiptFor(p, block).value))
  {
    if ps != [] {
      var init, last := ps[..|ps| - 1], ps[|ps| - 1];
      ConfirmationsIn(init, block, e);
      assert ps == init + [last];
    }
  }

  // ---- The manager itself ----

  class L1MinerTxManager {
    const config: ManagerConfig
    var pending: seq<Pending>
    var staged: seq<Pending>
    var nextNonce: nat
    var failRemaining: nat
    var blockedRemaining: nat
    var cancellations: nat
    /** Everything sent so far on responders and on the head channel. */
    var effects: seq<Effect>

    ghost function View(): Inner
      reads this
    {
      Inner(pending, staged, nextNonce, failRemaining, blockedRemaining, cancellations)
    }

    constructor (config: ManagerConfig)
      ensures View() == EMPTY && effects == [] && this.config == config
    {
      this.config := config;
      pending, staged, nextNonce, failRemaining, blockedRemaining, cancellations := [], [], 0, 0, 0, 0;
      effects := [];
    }

    method FailNextN(n: nat)
      modifies this
      ensures View() == old(View()).(failRemaining := old(failRemaining) + n) && effects == old(effects)
    {
      failRemaining := failRemaining + n;
    }

    method BlockNextN(n: nat)
      modifies this
      ensures View() == old(View()).(blockedRemaining := old(blockedRemaining) + n) && effects == old(effects)
    {
      blockedRemaining := blockedRemaining + n;
    }

    method CancelTx()
      modifies this
      ensures View() == old(View()).(cancellations := old(cancellations) + 1) && effects == old(effects)
    {
      cancellations := cancellations + 1;
    }

    /** Drops the first `n` pending submissions; their responders close unanswered. */
    method DropN(n: nat) returns (count: nat)
      modifies this
      ensures count == Min(n, |old(pending)|)
      ensures View() == old(View()).(pending := old(pending)[count..])
      ensures effects == old(effects) + Closures(old(pending)[..count])
    {
      count := Min(n, |pending|);
      effects := effects + Closures(pending[..count]);
      pending := pending[count..];
    }

    /** First section of a send. */
    method SendAdmit() returns (rejected: Option<SendError>)
      modifies this
      ensures (View(), rejected) == Admit(old(View())) && effects == old(effects)
      ensures rejected == if old(failRemaining) > 0 then Some(Rpc)
                          else if old(blockedRemaining) > 0 then Some(AlreadyReserved) else None
      ensures old(failRemaining) - failRemaining == if rejected == Some(Rpc) then 1 else 0
      ensures old(blockedRemaining) - blockedRemaining == if rejected == Some(AlreadyReserved) then 1 else 0
    {
      if failRemaining > 0 {
        failRemaining := failRemaining - 1;
        return Some(Rpc);
      }
      if blockedRemaining > 0 {
        blockedRemaining := blockedRemaining - 1;
        return Some(AlreadyReserved);
      }
      return None;
    }

    /** Second section of a send. */
    method SendAllocateNonce() returns (nonce: nat)
      modifies this
      ensures nonce == old(nextNonce)
      ensures View() == old(View()).(nextNonce := old(nextNonce) + 1) && effects == old(effects)
    {
      nonce := nextNonce;
      nextNonce := nextNonce + 1;
    }

    /** Third section of a send. */
    method SendEnqueue(p: Pending)
      modifies this
      ensures View() == old(View()).(pending := old(pending) + [p]) && effects == old(effects)
    {
      pending := pending + [p];
    }

    /** A send that nothing interrupts. `signs` is whether building the sidecar and signing succeed. */
    method SendAsync(candidate: Candidate, responder: Handle, signs: bool)
      modifies this
      ensures var (admitted, rejected) := Admit(old(View()));
              match rejected
              case Some(error) =>
                View() == admitted && effects == old(effects) + [Resolve(responder, Failed(error))]
              case None =>
                var nonce := old(nextNonce);
                var numbered := admitted.(nextNonce := nonce + 1);
                if signs
                then View() == numbered.(pending := old(pending) + [Submission(config, candidate, nonce, responder)])
                     && effects == old(effects)
                else View() == numbered && effects == old(effects) + [Resolve(responder, Failed(Sign))]
      ensures Admit(old(View())).1.None? && signs ==>
                && |pending| == |old(pending)| + 1
                && var p := pending[|old(pending)|];
                   && CarriesOut(config, candidate, p.envelope) && p.envelope.nonce == old(nextNonce)
                   && p.blobs == candidate.blobs && p.responder == responder
    {
      var rejected := SendAdmit();
      if rejected.Some? {
        effects := effects + [Resolve(responder, Failed(rejected.value))];
        return;
      }
      var nonce := SendAllocateNonce();
      if !signs {
        effects := effects + [Resolve(responder, Failed(Sign))];
        return;
      }
      SendEnqueue(Submission(config, candidate, nonce, responder));
    }

    /** Moves the first `n` pending submissions into the miner's queues and the staged buffer. */
    method StageNToL1(l1: L1Miner, n: nat) returns (count: nat)
      requires Valid(l1.View())
      modifies this, l1`pendingTransactions, l1`pendingBlobs
      ensures count == Min(n, |old(pending)|)
      ensures var moved := old(pending)[..count];
              && View() == old(View()).(pending := old(pending)[count..], staged := old(staged) + moved)
              && l1.View() == StagedMiner(old(l1.View()), moved)
      ensures Valid(l1.View()) && effects == old(effects)
    {
      count := Min(n, |pending|);
      var toStage := pending[..count];
      pending := pending[count..];
      for i := 0 to |toStage|
        invariant l1.View() == StagedMiner(old(l1.View()), toStage[..i])
        invariant Valid(l1.View())
        invariant View() == old(View()).(pending := old(pending)[count..]) && effects == old(effects)
      {
        StageOne(l1, toStage[i], toStage[..i], old(l1.View()));
        assert toStage[..i + 1] == toStage[..i] + [toStage[i]];
      }
      assert toStage[..|toStage|] == toStage;
      staged := staged + toStage;
    }

    /** Submits one envelope and then its blobs. */
    static method StageOne(l1: L1Miner, p: Pending, ghost earlier: seq<Pending>, ghost start: State)
      requires Valid(l1.View()) && l1.View() == StagedMiner(start, earlier)
      modifies l1`pendingTransactions, l1`pendingBlobs
      ensures Valid(l1.View()) && l1.View() == StagedMiner(start, earlier + [p])
    {
      l1.SubmitTransaction(PendingTransaction(p.envelope, [], true));
      ghost var submitted := l1.View();
      for k := 0 to |p.blobs|
        invariant Valid(l1.View())
        invariant l1.View() == submitted.(blobs := submitted.blobs + p.blobs[..k])
      {
        l1.EnqueueSidecar(p.blobs[k]);
      }
      assert p.blobs[..|p.blobs|] == p.blobs;
      StagedMinerAppend(start, earlier, p);
    }

    /** Answers the staged submissions included in `block`; the rest keep waiting. */
    method ConfirmBlock(block: L1Block)
      modifies this
      ensures View() == old(View()).(staged := StillStaged(old(staged), block))
      ensures effects == old(effects) + Confirmations(old(staged), block) + HeadEvent(config, block.Number())
    {
      var waiting := staged;
      var stillStaged: seq<Pending> := [];
      var responses: seq<Effect> := [];
      for i := 0 to |waiting|
        invariant stillStaged == StillStaged(waiting[..i], block)
        invariant responses == Confirmations(waiting[..i], block)
      {
        var p := waiting[i];
        assert waiting[..i + 1][..|waiting[..i + 1]| - 1] == waiting[..i];
        var receipt := FindReceipt(block.rpcReceipts, TxHashOf(p.envelope));
        if receipt.Some? {
          responses := responses + [Resolve(p.responder, Confirmed(receipt.value))];
        } else {
          stillStaged := stillStaged + [p];
        }
      }
      assert waiting[..|waiting|] == waiting;
      staged := stillStaged;
      effects := effects + responses;
      if config.publishesHeads {
        effects := effects + [NewHead(block.Number())];
      }
    }

    /** Answers submissions with a failure, in order. */
    method FailEach(drained: seq<Pending>)
      modifies this`effects
      ensures effects == old(effects) + Failures(drained)
    {
      for i := 0 to |drained|
        invariant effects == old(effects) + Failures(drained[..i])
      {
        effects := effects + [Resolve(drained[i].responder, Failed(Rpc))];
      }
      assert drained[..|drained|] == drained;
    }

    /** Cuts the chain back, fails every pending and then every staged submission, and only then announces the head. */
    method ReorgTo(number: nat, l1: L1Miner)
      requires Valid(l1.View()) && number <= l1.LatestNumber()
      modifies this, l1
      ensures l1.View() == Apply(old(l1.View()), Reorg(number)) && Valid(l1.View())
      ensures View() == old(View()).(pending := [], staged := [])
      ensures effects == old(effects) + Failures(old(pending) + old(staged)) + HeadEvent(config, number)
    {
      var discarded := l1.ReorgTo(number);
      var drained := pending + staged;
      pending, staged := [], [];
      FailEach(drained);
      if config.publishesHeads {
        effects := effects + [NewHead(number)];
      }
    }

    /** Stages everything pending, mines one block and answers what it includes. */
    method MineBlock(l1: L1Miner, bloom: nat) returns (number: nat)
      requires Valid(l1.View())
      modifies this, l1
      ensures Valid(l1.View())
      ensures l1.View() == Apply(StagedMiner(old(l1.View()), old(pending)), Mine(bloom))
      ensures number == l1.LatestNumber()
      ensures var block, all := l1.blocks[|l1.blocks| - 1], old(staged) + old(pending);
              && View() == old(View()).(pending := [], staged := StillStaged(all, block))
              && effects == old(effects) + Confirmations(all, block) + HeadEvent(config, number)
    {
      var count := StageNToL1(l1, |pending|);
      assert old(pending)[..count] == old(pending);
      var block := l1.MineBlock(bloom);
      number := block.Number();
      ConfirmBlock(block);
    }
  }
}
