/**
 * The shared view of the L1 chain that the in-process providers read: a copy of the miner's chain kept
 * up to date by pushing mined blocks and truncating after reorgs, with lookups by number and by hash,
 * and the blob lookup on top of it.
 */
module Mirror {
  import opened Basics
  import opened L1Chain
  import opened Miner
  import opened MinerRuns

  datatype BlockInfo = BlockInfo(hash: Hash, number: nat, parentHash: Hash, timestamp: nat)

  function BlockInfoFrom(b: L1Block): BlockInfo {
    BlockInfo(b.Hash(), b.Number(), b.header.parentHash, b.header.timestamp)
  }

  // ---- Lookups ----

  function GetBlock(chain: seq<L1Block>, number: nat): Option<L1Block> {
    if number < |chain| then Some(chain[number]) else None
  }

  /** The first block with the given hash. */
  function BlockByHash(chain: seq<L1Block>, hash: Hash): (r: Option<L1Block>)
    ensures r.Some? ==> r.value in chain && r.value.Hash() == hash
    ensures r.None? ==> forall b :: b in chain ==> b.Hash() != hash
  {
    if chain == [] then None
    else if chain[0].Hash() == hash then Some(chain[0])
    else BlockByHash(chain[1..], hash)
  }

  datatype LookupError = BlockNotFound(number: nat) | HashNotFound

  function HeaderByHash(chain: seq<L1Block>, hash: Hash): Result<Header, LookupError> {
    match BlockByHash(chain, hash)
    case Some(b) => Ok(b.header)
    case None => Err(HashNotFound)
  }

  function BlockInfoByNumber(chain: seq<L1Block>, number: nat): Result<BlockInfo, LookupError> {
    match GetBlock(chain, number)
    case Some(b) => Ok(BlockInfoFrom(b))
    case None => Err(BlockNotFound(number))
  }

  /** Unlike the other lookups, an unknown hash has no receipts rather than being an error. */
  function ReceiptsByHash(chain: seq<L1Block>, hash: Hash): seq<Receipt> {
    match BlockByHash(chain, hash)
    case Some(b) => b.receipts
    case None => []
  }

  function TransactionsByHash(chain: seq<L1Block>, hash: Hash): Result<(BlockInfo, seq<Envelope>), LookupError> {
    match BlockByHash(chain, hash)
    case Some(b) => Ok((BlockInfoFrom(b), b.transactions))
    case None => Err(HashNotFound)
  }

  class SharedL1Chain {
    var blocks: seq<L1Block>

    constructor FromBlocks(blocks: seq<L1Block>)
      ensures this.blocks == blocks
    {
      this.blocks := blocks;
    }

    method Push(block: L1Block)
      modifies this
      ensures blocks == old(blocks) + [block]
    {
      blocks := blocks + [block];
    }

    /** Retains only blocks `0..=number`. */
    method TruncateTo(number: nat)
      modifies this
      ensures blocks == Truncated(old(blocks), number) && blocks <= old(blocks)
      ensures |blocks| == if number < |old(blocks)| then number + 1 else |old(blocks)|
    {
      if number + 1 < |blocks| {
        blocks := blocks[..number + 1];
      }
    }
  }

  function Truncated(chain: seq<L1Block>, number: nat): seq<L1Block> {
    if number + 1 < |chain| then chain[..number + 1] else chain
  }

  // ---- Blobs ----

  datatype BlobError = NoSuchBlock(number: nat) | NoSuchBlob(hash: nat)

  /** The first sidecar with the given versioned hash. */
  function FindBlob(sidecars: seq<Sidecar>, hash: nat): (r: Option<nat>)
    ensures r.Some? ==> Sidecar(hash, r.value) in sidecars
    ensures r.None? ==> forall s :: s in sidecars ==> s.versionedHash != hash
  {
    if sidecars == [] then None
    else if sidecars[0].versionedHash == hash then Some(sidecars[0].blob)
    else FindBlob(sidecars[1..], hash)
  }

  /** Of several sidecars under one hash the first is found. */
  lemma {:induction false} FindBlobIsFirst(sidecars: seq<Sidecar>, hash: nat, i: nat)
    requires i < |sidecars| && sidecars[i].versionedHash == hash
    requires forall j :: 0 <= j < i ==> sidecars[j].versionedHash != hash
    ensures FindBlob(sidecars, hash) == Some(sidecars[i].blob)
  {
    if i > 0 {
      FindBlobIsFirst(sidecars[1..], hash, i - 1);
    }
  }

  /** The block at the named height, provided its hash is the named one. */
  function NamedBlock(chain: seq<L1Block>, named: BlockInfo): Option<L1Block> {
    match GetBlock(chain, named.number)
    case Some(b) => if b.Hash() == named.hash then Some(b) else None
    case None => None
  }

  /** The first requested hash that none of the sidecars carries. */
  ghost predicate FirstMissing(sidecars: seq<Sidecar>, hashes: seq<nat>, k: int) {
    && 0 <= k < |hashes| && FindBlob(sidecars, hashes[k]).None?
    && forall j :: 0 <= j < k ==> FindBlob(sidecars, hashes[j]).Some?
  }

  /** Collects one blob per requested hash, stopping at the first hash the named block does not carry. */
  method GetAndValidateBlobs(chain: seq<L1Block>, named: BlockInfo, hashes: seq<nat>)
    returns (r: Result<seq<nat>, BlobError>)
    ensures NamedBlock(chain, named).None? ==> r == Err(NoSuchBlock(named.number))
    ensures NamedBlock(chain, named).Some? ==>
              var sidecars := NamedBlock(chain, named).value.sidecars;
              match r
              case Ok(blobs) => |blobs| == |hashes|
                && forall i :: 0 <= i < |hashes| ==> FindBlob(sidecars, hashes[i]) == Some(blobs[i])
              case Err(e) => exists k :: FirstMissing(sidecars, hashes, k) && e == NoSuchBlob(hashes[k])
  {
    var found := GetBlock(chain, named.number);
    if found.None? || found.value.Hash() != named.hash {
      return Err(NoSuchBlock(named.number));
    }
    var blobs := [];
    for i := 0 to |hashes|
      invariant |blobs| == i
      invariant forall k :: 0 <= k < i ==> FindBlob(found.value.sidecars, hashes[k]) == Some(blobs[k])
    {
      var blob := FindBlob(found.value.sidecars, hashes[i]);
      if blob.None? {
        assert FirstMissing(found.value.sidecars, hashes, i);
        return Err(NoSuchBlob(hashes[i]));
      }
      blobs := blobs + [blob.value];
    }
    r := Ok(blobs);
  }

  // ---- Keeping the mirror up to date ----

  /**
   * The miner with its history, the mirror, and how many of the mirror's blocks, counted from genesis,
   * are known to agree with the miner. A reorg of the miner can leave the rest of the mirror stale.
   */
  datatype System = System(history: History, chain: seq<L1Block>, agreed: nat)

  datatype Step = MinerCall(op: Op) | PushBlock(block: L1Block) | Truncate(number: nat)

  ghost predicate InSync(s: System) {
    s.agreed == |s.chain|
  }

  /**
   * The miner may run ahead of the mirror in any way, and the mirror may be stale. Only blocks of the miner
   * are pushed, and only at their own height: the mirror finds blocks by position.
   */
  ghost predicate Allowed(s: System, step: Step) {
    step.PushBlock? ==> EverSeen(s.history, step.block) && step.block.Number() == |s.chain|
  }

  /** How much of the mirror agrees after a call: an accepted reorg makes what lies above its target stale. */
  ghost function StillAgreed(m: State, op: Op, agreed: nat): nat
    requires m.blocks != []
  {
    if op.Reorg? && Accepts(m, op.target) then Min(agreed, op.target + 1) else agreed
  }

  /** Whether a pushed block is the miner's next one after a mirror without stale blocks. */
  ghost predicate ExtendsAgreed(s: System, b: L1Block) {
    InSync(s) && |s.chain| < |s.history.miner.blocks| && s.history.miner.blocks[|s.chain|] == b
  }

  ghost function Next(s: System, step: Step): System
    requires s.history.miner.blocks != [] && Allowed(s, step)
  {
    match step
    case MinerCall(op) =>
      System(Extend(s.history, op), s.chain, StillAgreed(s.history.miner, op, s.agreed))
    case PushBlock(b) =>
      System(s.history, s.chain + [b], s.agreed + if ExtendsAgreed(s, b) then 1 else 0)
    case Truncate(number) =>
      var chain := Truncated(s.chain, number);
      System(s.history, chain, Min(s.agreed, |chain|))
  }

  ghost predicate Reached(s: System, t: System) {
    exists step :: s.history.miner.blocks != [] && Allowed(s, step) && t == Next(s, step)
  }

  /** The states of a run of a fresh miner and a mirror created from its chain. */
  ghost predicate IsRun(config: Config, states: seq<System>) {
    && |states| > 0
    && states[0] == System(Fresh(config), [Genesis(config)], 1)
    && (forall i :: 0 < i < |states| ==> Reached(states[i - 1], states[i]))
  }

  /** Every mirrored block, stale or not, came from the miner, and the agreed ones are still on its chain. */
  ghost predicate Mirrored(s: System) {
    && Reachable(s.history)
    && s.agreed <= |s.chain| && s.agreed <= |s.history.miner.blocks|
    && s.chain[..s.agreed] == s.history.miner.blocks[..s.agreed]
    && (forall i :: 0 <= i < |s.chain| ==> s.chain[i].Number() == i && EverSeen(s.history, s.chain[i]))
  }

  lemma CallKeepsAgreed(m: State, op: Op, agreed: nat)
    requires m.blocks != [] && agreed <= |m.blocks|
    ensures var kept := StillAgreed(m, op, agreed);
            kept <= |Apply(m, op).blocks| && Apply(m, op).blocks[..kept] == m.blocks[..kept]
  {
  }

  lemma SeenStaysSeen(h: History, op: Op, b: L1Block)
    requires h.miner.blocks != []
    ensures EverSeen(h, b) ==> EverSeen(Extend(h, op), b)
  {
  }

  lemma MinerCallMirrored(s: System, op: Op)
    requires Mirrored(s) && s.history.miner.blocks != []
    ensures Mirrored(Next(s, MinerCall(op)))
  {
    var t := Next(s, MinerCall(op));
    ReachableIfCalled(s.history, op);
    CallKeepsAgreed(s.history.miner, op, s.agreed);
    ShorterPrefix(s.chain, s.history.miner.blocks, s.agreed, t.agreed);
    forall i | 0 <= i < |s.chain| ensures EverSeen(t.history, s.chain[i]) {
      SeenStaysSeen(s.history, op, s.chain[i]);
    }
  }

  lemma PushAgreed(s: System, b: L1Block)
    requires Mirrored(s) && ExtendsAgreed(s, b)
    ensures (s.chain + [b])[..s.agreed + 1] == s.history.miner.blocks[..s.agreed + 1]
  {
    assert s.chain == s.history.miner.blocks[..s.agreed];
  }

  lemma PushMirrored(s: System, b: L1Block)
    requires Mirrored(s) && Allowed(s, PushBlock(b)) && s.history.miner.blocks != []
    ensures Mirrored(Next(s, PushBlock(b)))
  {
    if ExtendsAgreed(s, b) {
      PushAgreed(s, b);
    } else {
      assert (s.chain + [b])[..s.agreed] == s.chain[..s.agreed];
    }
  }

  /** A mirror with every block at its own height keeps that on a push, if and only if the block's height is next. */
  lemma PushKeepsHeightsIff(chain: seq<L1Block>, b: L1Block)
    requires forall i :: 0 <= i < |chain| ==> chain[i].Number() == i
    ensures var more := chain + [b];
            (forall i :: 0 <= i < |more| ==> more[i].Number() == i) <==> b.Number() == |chain|
  {
    assert (chain + [b])[|chain|] == b;
  }

  /** Truncating keeps exactly the mirrored blocks up to the given number, in order. */
  lemma TruncateKeeps(s: System, number: nat, b: L1Block)
    requires Mirrored(s)
    ensures Truncated(s.chain, number) <= s.chain
    ensures b in Truncated(s.chain, number) <==> b in s.chain && b.Number() <= number
  {
    if b in s.chain && b.Number() <= number {
      assert s.chain[b.Number()] == b == Truncated(s.chain, number)[b.Number()];
    }
  }

  lemma TruncateMirrored(s: System, number: nat)
    requires Mirrored(s) && s.history.miner.blocks != []
    ensures Mirrored(Next(s, Truncate(number)))
  {
    var t, blocks := Next(s, Truncate(number)), s.history.miner.blocks;
    assert t.chain[..t.agreed] == s.chain[..s.agreed][..t.agreed];
    assert blocks[..t.agreed] == blocks[..s.agreed][..t.agreed];
  }

  lemma {:induction false} RunMirrored(config: Config, states: seq<System>)
    requires IsRun(config, states)
    ensures Mirrored(states[|states| - 1])
  {
    var last := |states| - 1;
    if last == 0 {
      FreshReachable(config);
    } else {
      RunMirrored(config, states[..last]);
      var s := states[last - 1];
      assert Reached(s, states[last]);
      var step :| Allowed(s, step) && states[last] == Next(s, step);
      match step
      case MinerCall(op) => MinerCallMirrored(s, op);
      case PushBlock(b) => PushMirrored(s, b);
      case Truncate(number) => TruncateMirrored(s, number);
    }
  }

  // ---- What the providers can rely on ----

  /** Between a reorg and the truncation after it the mirror may be stale; otherwise it is a prefix of the chain. */
  lemma InSyncIsPrefix(config: Config, states: seq<System>)
    requires IsRun(config, states)
    ensures var s := states[|states| - 1]; InSync(s) ==> s.chain <= s.history.miner.blocks
  {
    RunMirrored(config, states);
  }

  /**
   * Stale or not, the mirror's two indices agree: looking up any block the miner ever mined by its hash
   * finds exactly that block, at its own number, if it is mirrored, and nothing otherwise.
   */
  lemma LookupsAgree(config: Config, states: seq<System>, b: L1Block)
    requires IsRun(config, states) && EverSeen(states[|states| - 1].history, b)
    ensures var s := states[|states| - 1];
            && BlockByHash(s.chain, b.Hash()) == NamedBlock(s.chain, BlockInfoFrom(b))
                                              == (if b in s.chain then Some(b) else None)
            && (b in s.chain ==> GetBlock(s.chain, b.Number()) == Some(b))
            && (b in s.chain ==> BlockInfoByNumber(s.chain, b.Number()) == Ok(BlockInfoFrom(b)))
  {
    RunMirrored(config, states);
    var s := states[|states| - 1];
    forall i | 0 <= i < |s.chain| && s.chain[i].Hash() == b.Hash() ensures s.chain[i] == b {
      HashIdentifiesBlock(s.history, s.chain[i], b);
    }
  }

  /** What the lookups of a mirrored block answer, and what they answer for a block that is not mirrored. */
  ghost predicate Answers(chain: seq<L1Block>, b: L1Block) {
    if b in chain then
      var info := BlockInfo(HashOf(b.header), b.header.number, b.header.parentHash, b.header.timestamp);
      && HeaderByHash(chain, HashOf(b.header)) == Ok(b.header)
      && BlockInfoByNumber(chain, b.header.number) == Ok(info)
      && ReceiptsByHash(chain, HashOf(b.header)) == b.receipts
      && TransactionsByHash(chain, HashOf(b.header)) == Ok((info, b.transactions))
    else
      && HeaderByHash(chain, HashOf(b.header)) == Err(HashNotFound)
      && ReceiptsByHash(chain, HashOf(b.header)) == []
      && TransactionsByHash(chain, HashOf(b.header)) == Err(HashNotFound)
  }

  /**
   * At every moment of every run the providers answer for a mirrored block with exactly its header,
   * transactions, receipts and position, and for any other block the miner ever mined with nothing; a height
   * has an answer exactly if the mirror reaches it.
   */
  lemma ProvidersAnswer(config: Config, states: seq<System>, b: L1Block, number: nat)
    requires IsRun(config, states) && EverSeen(states[|states| - 1].history, b)
    ensures Answers(states[|states| - 1].chain, b)
    ensures var chain := states[|states| - 1].chain;
            match BlockInfoByNumber(chain, number)
            case Ok(info) => number < |chain| && info.number == number
            case Err(error) => number >= |chain| && error == BlockNotFound(number)
  {
    LookupsAgree(config, states, b);
    RunMirrored(config, states);
  }

  /**
   * Once the mirror is in sync, a request that names a reorged-out block finds nothing: not the header,
   * not the transactions, not the receipts, and never the blobs of the block that replaced it.
   */
  lemma ReorgedOutBlocksAreGone(config: Config, states: seq<System>, b: L1Block)
    requires IsRun(config, states)
    requires InSync(states[|states| - 1]) && b in states[|states| - 1].history.discarded
    ensures var chain := states[|states| - 1].chain;
            && NamedBlock(chain, BlockInfoFrom(b)) == None
            && HeaderByHash(chain, b.Hash()) == Err(HashNotFound)
            && TransactionsByHash(chain, b.Hash()) == Err(HashNotFound)
            && ReceiptsByHash(chain, b.Hash()) == []
  {
    var s := states[|states| - 1];
    RunMirrored(config, states);
    InSyncIsPrefix(config, states);
    KeptAndDiscardedWereSeen(s.history, b);
    if b in s.chain {
      assert b in s.history.miner.blocks;
      DiscardedHashIsGone(s.history, b, b);
    }
    LookupsAgree(config, states, b);
  }
}
