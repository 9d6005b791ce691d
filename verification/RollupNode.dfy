/**
 * The in-process rollup node: three L2 head pointers driven by gossip, derivation, finality signals and
 * resets, with the per-block records tests read back.
 */
module RollupNode {
  import opened Basics

  type Address = nat
  type Digest = nat

  datatype BlockNumHash = BlockNumHash(number: nat, hash: Digest)

  const NO_ORIGIN: BlockNumHash := BlockNumHash(0, 0)

  datatype L2BlockInfo = L2BlockInfo(
    number: nat,
    hash: Digest,
    parentHash: Digest,
    timestamp: nat,
    origin: BlockNumHash,
    seqNum: nat)

  /** A payload received over gossip. `origin` is the epoch decoded from its first deposit, if that decodes. */
  datatype Gossip = Gossip(
    number: nat,
    hash: Digest,
    parentHash: Digest,
    timestamp: nat,
    origin: Option<BlockNumHash>,
    payloadHash: Digest,
    signature: nat)

  /** Derived payload attributes. `origin` is the epoch decoded from the first deposit, if that decodes. */
  datatype Attributes = Attributes(
    number: nat,
    timestamp: nat,
    transactions: seq<seq<byte>>,
    origin: Option<BlockNumHash>,
    derivedFrom: Option<BlockNumHash>)

  /** Signature checking is active only when both the signer and the chain ID are configured. */
  datatype Verifier = Verifier(
    expectedSigner: Option<Address>,
    chainId: Option<nat>,
    recover: (nat, Digest, nat) -> Option<Address>)

  predicate SignatureValid(v: Verifier, e: Gossip) {
    if v.expectedSigner.None? || v.chainId.None? then true
    else v.recover(e.signature, e.payloadHash, v.chainId.value) == Some(v.expectedSigner.value)
  }

  const DEPOSIT_TYPE: byte := 0x7E

  predicate IsDeposit(tx: seq<byte>) {
    tx != [] && tx[0] == DEPOSIT_TYPE
  }

  function UserTxCount(txs: seq<seq<byte>>): nat {
    if txs == [] then 0
    else UserTxCount(txs[..|txs| - 1]) + if IsDeposit(txs[|txs| - 1]) then 0 else 1
  }

  /** The transactions that are not deposits: empty ones, and those that do not start with byte 0x7E. */
  ghost function UserTxs(txs: seq<seq<byte>>): set<nat> {
    set i: nat | i < |txs| && (txs[i] == [] || txs[i][0] != 0x7E)
  }

  lemma {:induction false} UserTxCountIs(txs: seq<seq<byte>>)
    ensures UserTxCount(txs) == |UserTxs(txs)|
  {
    if txs == [] {
      assert UserTxs(txs) == {};
    } else {
      var n := |txs| - 1;
      UserTxCountIs(txs[..n]);
      UserTxsAppend(txs[..n], txs[n]);
      SplitLast(txs);
    }
  }

  lemma UserTxsAppend(txs: seq<seq<byte>>, tx: seq<byte>)
    ensures var more := UserTxs(txs + [tx]);
            more == UserTxs(txs) + (if tx == [] || tx[0] != 0x7E then {|txs|} else {}) && |txs| !in UserTxs(txs)
  {
  }

  /** The node's state as a value. */
  datatype State = State(
    safe: L2BlockInfo,
    unsafeHead: L2BlockInfo,
    finalized: L2BlockInfo,
    finalizedL1: Option<nat>,
    safeL1: nat,
    history: seq<(L2BlockInfo, nat)>,
    txCounts: seq<(nat, nat)>,
    userTxCounts: seq<(nat, nat)>,
    l1Infos: seq<(nat, BlockNumHash)>,
    provider: map<nat, L2BlockInfo>,
    inbox: seq<Gossip>)

  function Initial(genesis: L2BlockInfo): State {
    State(genesis, genesis, genesis, None, 0, [], [], [], [], map[genesis.number := genesis], [])
  }

  /** The sequence number of a block on top of `parent`: one more within the same epoch, else zero. */
  function NextSeqNum(parent: L2BlockInfo, origin: BlockNumHash): nat {
    if origin == parent.origin then parent.seqNum + 1 else 0
  }

  // ---- Gossip ----

  /** The unsafe head after one payload: only the strictly next block is taken. */
  function Follow(head: L2BlockInfo, e: Gossip): L2BlockInfo {
    if e.number != head.number + 1 then head
    else L2BlockInfo(
      e.number, e.hash, e.parentHash, e.timestamp,
      if e.origin.Some? then e.origin.value else NO_ORIGIN,
      if e.origin.Some? then NextSeqNum(head, e.origin.value) else 0)
  }

  /** The unsafe head after a queue of payloads, skipping those with an invalid signature. */
  function FollowAll(v: Verifier, head: L2BlockInfo, inbox: seq<Gossip>): L2BlockInfo {
    if inbox == [] then head
    else
      var last := inbox[|inbox| - 1];
      var before := FollowAll(v, head, inbox[..|inbox| - 1]);
      if SignatureValid(v, last) then Follow(before, last) else before
  }

  // ---- Finalization ----

  /** The most recent safe block whose L1 origin is at or below `limit`. */
  function LastWithin(history: seq<(L2BlockInfo, nat)>, limit: nat): Option<L2BlockInfo> {
    if history == [] then None
    else
      var last := history[|history| - 1];
      if last.1 <= limit then Some(last.0) else LastWithin(history[..|history| - 1], limit)
  }

  function Finalize(s: State): State {
    match s.finalizedL1
    case None => s
    case Some(limit) =>
      match LastWithin(s.history, limit)
      case None => s
      case Some(candidate) => if candidate.number > s.finalized.number then s.(finalized := candidate) else s
  }

  // ---- Steps ----

  /** The L1 origin of derived attributes: the decoded epoch, else the block they were derived from. */
  function OriginOf(a: Attributes): BlockNumHash {
    if a.origin.Some? then a.origin.value
    else if a.derivedFrom.Some? then a.derivedFrom.value
    else NO_ORIGIN
  }

  /** The block derived attributes become on top of `parent`; the engine answers with its hash. */
  function DerivedInfo(parent: L2BlockInfo, a: Attributes, hash: Digest): L2BlockInfo {
    L2BlockInfo(a.number, hash, parent.hash, a.timestamp, OriginOf(a), NextSeqNum(parent, OriginOf(a)))
  }

  /** The number of the L1 block that attributes belong to. */
  ghost function L1NumberOf(a: Attributes): nat {
    match (a.origin, a.derivedFrom)
    case (Some(epoch), _) => epoch.number
    case (None, Some(from)) => from.number
    case (None, None) => 0
  }

  /** The block has the number, time and epoch of the attributes and the hash the engine answered. */
  ghost predicate StandsFor(b: L2BlockInfo, a: Attributes, hash: Digest) {
    && b.number == a.number && b.timestamp == a.timestamp && b.hash == hash
    && (a.origin.Some? ==> b.origin == a.origin.value)
    && (a.origin.None? && a.derivedFrom.Some? ==> b.origin == a.derivedFrom.value)
    && (a.origin.None? && a.derivedFrom.None? ==> b.origin == BlockNumHash(0, 0))
  }

  lemma DerivedStandsFor(parent: L2BlockInfo, a: Attributes, hash: Digest)
    ensures StandsFor(DerivedInfo(parent, a, hash), a, hash)
    ensures DerivedInfo(parent, a, hash).origin.number == L1NumberOf(a)
  {
  }

  /** Records a derived block and makes it the safe head. */
  function Record(s: State, a: Attributes, hash: Digest): State {
    var safe := DerivedInfo(s.safe, a, hash);
    s.(safe := safe,
       history := s.history + [(safe, safe.origin.number)],
       txCounts := s.txCounts + [(a.number, |a.transactions|)],
       userTxCounts := s.userTxCounts + [(a.number, UserTxCount(a.transactions))],
       l1Infos := s.l1Infos + if a.origin.Some? then [(a.number, a.origin.value)] else [],
       provider := s.provider[a.number := safe])
  }

  /** Executes derived attributes: record, retry finalization, and catch the unsafe head up. */
  function Derive(s: State, a: Attributes, hash: Digest): State {
    var derived := Finalize(Record(s, a, hash));
    if derived.safe.number >= derived.unsafeHead.number then derived.(unsafeHead := derived.safe) else derived
  }

  /** A finalized L1 block was signalled; signals below an earlier one are ignored. */
  function Signal(s: State, number: nat): State {
    if s.finalizedL1.Some? && number < s.finalizedL1.value then s
    else Finalize(s.(finalizedL1 := Some(number)))
  }

  function Reset(s: State, base: L2BlockInfo): State {
    s.(safe := base, unsafeHead := base, finalized := base, safeL1 := 0,
       history := [], txCounts := [], userTxCounts := [], l1Infos := [])
  }

  datatype DerivedBlock = DerivedBlock(number: nat, txCount: nat, userTxCount: nat)

  function FindCount(counts: seq<(nat, nat)>, number: nat): Option<nat> {
    if counts == [] then None
    else if counts[0].0 == number then Some(counts[0].1)
    else FindCount(counts[1..], number)
  }

  /** The recorded transaction counts of a derived block, if that height was derived since the last reset. */
  function Derived(s: State, number: nat): Option<DerivedBlock> {
    match FindCount(s.txCounts, number)
    case None => None
    case Some(txCount) =>
      var userTxCount := FindCount(s.userTxCounts, number);
      Some(DerivedBlock(number, txCount, if userTxCount.Some? then userTxCount.value else 0))
  }

  // ---- The node itself ----

  class TestRollupNode {
    const recover: (nat, Digest, nat) -> Option<Address>
    var expectedSigner: Option<Address>
    var chainId: Option<nat>
    var safeHead: L2BlockInfo
    var unsafeHead: L2BlockInfo
    var finalizedHead: L2BlockInfo
    var finalizedL1Number: Option<nat>
    var safeL1Number: nat
    var safeHeadHistory: seq<(L2BlockInfo, nat)>
    var derivedTxCounts: seq<(nat, nat)>
    var derivedUserTxCounts: seq<(nat, nat)>
    var derivedL1Infos: seq<(nat, BlockNumHash)>
    var l2Blocks: map<nat, L2BlockInfo>
    var inbox: seq<Gossip>

    ghost function View(): State
      reads this
    {
      State(safeHead, unsafeHead, finalizedHead, finalizedL1Number, safeL1Number, safeHeadHistory,
            derivedTxCounts, derivedUserTxCounts, derivedL1Infos, l2Blocks, inbox)
    }

    function Keys(): Verifier
      reads this
    {
      Verifier(expectedSigner, chainId, recover)
    }

    constructor (genesis: L2BlockInfo, recover: (nat, Digest, nat) -> Option<Address>)
      ensures View() == Initial(genesis)
      ensures expectedSigner == None && chainId == None && this.recover == recover
    {
      this.recover := recover;
      expectedSigner, chainId := None, None;
      safeHead, unsafeHead, finalizedHead := genesis, genesis, genesis;
      finalizedL1Number, safeL1Number := None, 0;
      safeHeadHistory, derivedTxCounts, derivedUserTxCounts, derivedL1Infos := [], [], [], [];
      l2Blocks := map[genesis.number := genesis];
      inbox := [];
    }

    /** Takes payloads off the queue until one has a valid signature; the ones before it are discarded. */
    method TryNextUnsafeBlock() returns (r: Option<Gossip>, ghost discarded: seq<Gossip>)
      modifies this`inbox
      ensures forall e :: e in discarded ==> !SignatureValid(Keys(), e)
      ensures match r
              case None => inbox == [] && discarded == old(inbox)
              case Some(e) => SignatureValid(Keys(), e) && discarded + [e] + inbox == old(inbox)
    {
      discarded := [];
      while inbox != []
        invariant discarded + inbox == old(inbox)
        invariant forall e :: e in discarded ==> !SignatureValid(Keys(), e)
        decreases |inbox|
      {
        var e := inbox[0];
        assert inbox == [e] + inbox[1..];
        inbox := inbox[1..];
        if SignatureValid(Keys(), e) {
          return Some(e), discarded;
        }
        discarded := discarded + [e];
      }
      return None, discarded;
    }

    /** Drains the gossip queue, advancing the unsafe head. */
    method DrainGossip()
      modifies this`inbox, this`unsafeHead
      ensures View() == old(View()).(inbox := [], unsafeHead := FollowAll(Keys(), old(unsafeHead), old(inbox)))
    {
      ghost var seen: seq<Gossip>, discarded: seq<Gossip> := [], [];
      var next: Option<Gossip>;
      next, discarded := TryNextUnsafeBlock();
      while next.Some?
        invariant match next
                  case Some(e) => SignatureValid(Keys(), e) && seen + discarded + [e] + inbox == old(inbox)
                  case None => inbox == [] && seen + discarded == old(inbox)
        invariant forall e :: e in discarded ==> !SignatureValid(Keys(), e)
        invariant unsafeHead == FollowAll(Keys(), old(unsafeHead), seen)
        invariant View() == old(View()).(inbox := inbox, unsafeHead := unsafeHead)
        decreases next.Some?, |inbox|
      {
        var e := next.value;
        FollowAllSkip(Keys(), old(unsafeHead), seen, discarded, e);
        if e.number == unsafeHead.number + 1 {
          var seqNum := if e.origin.Some? && e.origin.value == unsafeHead.origin then unsafeHead.seqNum + 1 else 0;
          var origin := if e.origin.Some? then e.origin.value else NO_ORIGIN;
          unsafeHead := L2BlockInfo(e.number, e.hash, e.parentHash, e.timestamp, origin, seqNum);
        }
        seen := seen + discarded + [e];
        next, discarded := TryNextUnsafeBlock();
      }
      FollowAllInvalid(Keys(), old(unsafeHead), seen, discarded);
    }

    /** Takes a block directly, as if received by gossip. Its first transaction must be a valid L1 info deposit. */
    method ActL2UnsafeGossipReceive(block: Gossip)
      requires block.number == unsafeHead.number + 1 ==> block.origin.Some?
      modifies this`unsafeHead
      ensures View() == old(View()).(unsafeHead := Follow(old(unsafeHead), block))
    {
      if block.number != unsafeHead.number + 1 {
        return;
      }
      var origin := block.origin.value;
      var seqNum := if origin == unsafeHead.origin then unsafeHead.seqNum + 1 else 0;
      unsafeHead := L2BlockInfo(block.number, block.hash, block.parentHash, block.timestamp, origin, seqNum);
    }

    /** Retries finalization with the retained signal, searching the safe history from its end. */
    method TryFinalizePending()
      modifies this`finalizedHead
      ensures View() == Finalize(old(View()))
    {
      if finalizedL1Number.None? {
        return;
      }
      var limit := finalizedL1Number.value;
      var i := |safeHeadHistory|;
      assert safeHeadHistory[..i] == safeHeadHistory;
      while i > 0 && safeHeadHistory[i - 1].1 > limit
        invariant 0 <= i <= |safeHeadHistory|
        invariant LastWithin(safeHeadHistory, limit) == LastWithin(safeHeadHistory[..i], limit)
      {
        assert safeHeadHistory[..i][..i - 1] == safeHeadHistory[..i - 1];
        i := i - 1;
      }
      if i > 0 && safeHeadHistory[i - 1].0.number > finalizedHead.number {
        finalizedHead := safeHeadHistory[i - 1].0;
      }
    }

    method ActL1FinalizedSignal(number: nat)
      modifies this`finalizedHead, this`finalizedL1Number
      ensures View() == Signal(old(View()), number)
    {
      if finalizedL1Number.Some? && number < finalizedL1Number.value {
        return;
      }
      finalizedL1Number := Some(number);
      TryFinalizePending();
    }

    method ActL1SafeSignal(number: nat)
      modifies this`safeL1Number
      ensures View() == old(View()).(safeL1 := number)
    {
      safeL1Number := number;
    }

    /** Counts the transactions that are not deposits. */
    static method CountUserTxs(txs: seq<seq<byte>>) returns (count: nat)
      ensures count == UserTxCount(txs) == |UserTxs(txs)|
    {
      UserTxCountIs(txs);
      count := 0;
      for i := 0 to |txs|
        invariant count == UserTxCount(txs[..i])
      {
        assert txs[..i + 1][..i] == txs[..i];
        if !IsDeposit(txs[i]) {
          count := count + 1;
        }
      }
      assert txs[..|txs|] == txs;
    }

    /** The first half of taking in a derived block: its counts and the new safe head. */
    method RecordDerived(attrs: Attributes, blockHash: Digest)
      modifies this`safeHead, this`safeHeadHistory, this`derivedTxCounts, this`derivedUserTxCounts,
               this`derivedL1Infos, this`l2Blocks
      ensures View() == Record(old(View()), attrs, blockHash)
      ensures StandsFor(safeHead, attrs, blockHash) && safeHead.parentHash == old(safeHead.hash)
    {
      var parentHash := safeHead.hash;
      derivedTxCounts := derivedTxCounts + [(attrs.number, |attrs.transactions|)];
      var userTxCount := CountUserTxs(attrs.transactions);
      derivedUserTxCounts := derivedUserTxCounts + [(attrs.number, userTxCount)];
      if attrs.origin.Some? {
        derivedL1Infos := derivedL1Infos + [(attrs.number, attrs.origin.value)];
      }
      var origin := NO_ORIGIN;
      if attrs.origin.Some? {
        origin := attrs.origin.value;
      } else if attrs.derivedFrom.Some? {
        origin := attrs.derivedFrom.value;
      }
      var seqNum := if origin == safeHead.origin then safeHead.seqNum + 1 else 0;
      DerivedStandsFor(safeHead, attrs, blockHash);
      safeHead := L2BlockInfo(attrs.number, blockHash, parentHash, attrs.timestamp, origin, seqNum);
      l2Blocks := l2Blocks[safeHead.number := safeHead];
      safeHeadHistory := safeHeadHistory + [(safeHead, origin.number)];
    }

    /** Records and applies derived attributes on top of the safe head. `blockHash` is the engine's answer. */
    method ExecuteAndAdvance(attrs: Attributes, blockHash: Digest)
      modifies this`safeHead, this`unsafeHead, this`finalizedHead, this`safeHeadHistory, this`derivedTxCounts,
               this`derivedUserTxCounts, this`derivedL1Infos, this`l2Blocks
      ensures View() == Derive(old(View()), attrs, blockHash)
    {
      RecordDerived(attrs, blockHash);
      TryFinalizePending();
      if safeHead.number >= unsafeHead.number {
        unsafeHead := safeHead;
      }
    }

    method ActReset(base: L2BlockInfo)
      modifies this`safeHead, this`unsafeHead, this`finalizedHead, this`safeL1Number, this`safeHeadHistory,
               this`derivedTxCounts, this`derivedUserTxCounts, this`derivedL1Infos
      ensures View() == Reset(old(View()), base) && Keys() == old(Keys())
    {
      safeHead, unsafeHead, finalizedHead := base, base, base;
      safeL1Number := 0;
      safeHeadHistory, derivedTxCounts, derivedUserTxCounts, derivedL1Infos := [], [], [], [];
    }
  }

  /** Payloads with invalid signatures leave the unsafe head alone. */
  lemma {:induction false} FollowAllInvalid(v: Verifier, head: L2BlockInfo, inbox: seq<Gossip>, invalid: seq<Gossip>)
    requires forall e :: e in invalid ==> !SignatureValid(v, e)
    ensures FollowAll(v, head, inbox + invalid) == FollowAll(v, head, inbox)
  {
    if invalid == [] {
      assert inbox + invalid == inbox;
    } else {
      var init := invalid[..|invalid| - 1];
      FollowAllInvalid(v, head, inbox, init);
      assert (inbox + invalid)[..|inbox + invalid| - 1] == inbox + init;
    }
  }

  lemma FollowAllSkip(v: Verifier, head: L2BlockInfo, seen: seq<Gossip>, invalid: seq<Gossip>, e: Gossip)
    requires SignatureValid(v, e) && forall x :: x in invalid ==> !SignatureValid(v, x)
    ensures FollowAll(v, head, seen + invalid + [e]) == Follow(FollowAll(v, head, seen), e)
  {
    FollowAllInvalid(v, head, seen, invalid);
    var all := seen + invalid + [e];
    assert all[..|all| - 1] == seen + invalid;
  }
}
