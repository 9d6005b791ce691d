/**
 * How the rollup node's blocks, counts and heads follow from the attributes, payloads and signals it was
 * given, over every run.
 */
module RollupNodeDerived {
  import opened Basics
  import opened RollupNode
  import opened RollupNodeRuns

  // ---- Derived blocks stand for their attributes ----

  /** The safe history stands, block by block, for the attributes derived since the last reset. */
  ghost predicate StandsForDerived(h: History) {
    && |h.node.history| == |h.derived| == |h.hashes|
    && forall i :: 0 <= i < |h.derived| ==>
         StandsFor(h.node.history[i].0, h.derived[i], h.hashes[i]) && h.node.history[i].1 == L1NumberOf(h.derived[i])
  }

  lemma StandsExecute(h: History, attrs: Attributes, hash: Digest)
    ensures StandsForDerived(h) ==> StandsForDerived(Extend(h, Execute(attrs, hash)))
  {
    var n, b := Extend(h, Execute(attrs, hash)), DerivedInfo(h.node.safe, attrs, hash);
    DerivedStandsFor(h.node.safe, attrs, hash);
    assert n.node.history == h.node.history + [(b, b.origin.number)];
    assert n.derived == h.derived + [attrs] && n.hashes == h.hashes + [hash];
  }

  lemma StandsStep(h: History, op: Op)
    requires Enabled(h, op)
    ensures StandsForDerived(h) ==> StandsForDerived(Extend(h, op))
  {
    if op.Execute? {
      StandsExecute(h, op.attrs, op.hash);
    }
  }

  /** In every run each derived block has the time, epoch and hash of the attributes it was derived from. */
  lemma DerivedBlocksStandForAttributes(states: seq<History>)
    requires IsRun(states)
    ensures StandsForDerived(Last(states))
  {
    forall h, op | Enabled(h, op) {
      StandsStep(h, op);
    }
    RunInduction(states, h => StandsForDerived(h));
  }

  // ---- Finalization in terms of attributes ----

  /** Whether the `i`-th attributes since the reset belong to an L1 block already signalled as final. */
  ghost predicate AttributesSettled(h: History, i: int) {
    && 0 < i <= |h.derived|
    && exists signal :: signal in h.signals && L1NumberOf(h.derived[i - 1]) <= signal
  }

  /** The `i`-th is the last of the attributes that are settled, or none is and `i` is zero. */
  ghost predicate LastSettled(h: History, i: nat) {
    (i > 0 ==> AttributesSettled(h, i)) && forall j :: AttributesSettled(h, j) ==> j <= i
  }

  lemma {:induction false} LargestIsLargest(signals: seq<nat>)
    ensures Largest(signals).Some? <==> signals != []
    ensures Largest(signals).Some? ==> Largest(signals).value in signals
    ensures forall n :: n in signals ==> n <= Largest(signals).value
  {
    if signals != [] {
      LargestIsLargest(signals[..|signals| - 1]);
      SplitLast(signals);
    }
  }

  lemma SettledMeansSettled(h: History, i: int)
    requires StandsForDerived(h)
    ensures Settled(h, i) <==> AttributesSettled(h, i)
  {
    LargestIsLargest(h.signals);
    if 0 < i <= |h.derived| {
      assert Segment(h)[i] == h.node.history[i - 1].0;
      assert StandsFor(h.node.history[i - 1].0, h.derived[i - 1], h.hashes[i - 1]);
    }
  }

  /** The finalized head is the reset point or the block of the last attributes whose L1 block is final. */
  ghost predicate FinalizedByAttributes(h: History, i: nat) {
    && i <= |h.derived| && LastSettled(h, i)
    && if i == 0 then h.node.finalized == h.base
       else i <= |h.hashes| && StandsFor(h.node.finalized, h.derived[i - 1], h.hashes[i - 1])
  }

  /**
   * In every run the finalized head stands for the last attributes derived since the reset that belong to an
   * L1 block at or below some finality signal ever received; if there are none it is the reset point.
   */
  lemma FinalizedHeadFollowsAttributes(states: seq<History>) returns (i: nat)
    requires IsRun(states)
    ensures FinalizedByAttributes(Last(states), i)
  {
    var h := Last(states);
    DerivedBlocksStandForAttributes(states);
    FinalizedHeadIsAsSpecified(states);
    i :| HighestSettled(h, i) && h.node.finalized == Segment(h)[i];
    forall j ensures Settled(h, j) <==> AttributesSettled(h, j) {
      SettledMeansSettled(h, j);
    }
  }

  /** Retrying finalization leaves the finalized head or moves it up, to a block of the history within the signal. */
  lemma FinalizeOnlyAdvances(s: State)
    ensures var f := Finalize(s).finalized;
            && Finalize(s) == s.(finalized := f)
            && (f == s.finalized
                || (f.number > s.finalized.number && s.finalizedL1.Some?
                    && exists i :: 0 <= i < |s.history| && s.history[i].0 == f
                                   && s.history[i].1 <= s.finalizedL1.value))
  {
    if s.finalizedL1.Some? {
      var i := LastWithinIs(s.history, s.finalizedL1.value);
    }
  }

  // ---- What tests read back ----

  /** A height has a summary exactly since the reset, with the number of its transactions and of the user's. */
  lemma DerivedBlockCounts(states: seq<History>, number: nat)
    requires IsRun(states)
    ensures var h := Last(states);
            && h.node.safe.number == h.base.number + |h.derived|
            && Derived(h.node, number)
               == if h.base.number < number <= h.node.safe.number
                  then var txs := h.derived[number - h.base.number - 1].transactions;
                       Some(DerivedBlock(number, |txs|, |UserTxs(txs)|))
                  else None
  {
    DerivedBlocksAreRecorded(states, number);
    var h := Last(states);
    if h.base.number < number <= h.node.safe.number {
      UserTxCountIs(h.derived[number - h.base.number - 1].transactions);
    }
  }

  /** The recorded epochs are those of the derived attributes that have one, by height. */
  ghost predicate EpochsRecorded(h: History) {
    && (forall n: nat, epoch :: (n, epoch) in h.node.l1Infos <==>
          exists i :: 0 <= i < |h.derived| && h.derived[i].number == n && h.derived[i].origin == Some(epoch))
    && (forall i, j :: 0 <= i < j < |h.node.l1Infos| ==> h.node.l1Infos[i].0 < h.node.l1Infos[j].0)
    && (forall i :: 0 <= i < |h.derived| ==> h.derived[i].number <= h.node.safe.number)
  }

  lemma EpochsExecute(h: History, attrs: Attributes, hash: Digest)
    requires Enabled(h, Execute(attrs, hash)) && EpochsRecorded(h)
    ensures EpochsRecorded(Extend(h, Execute(attrs, hash)))
  {
    var n := Extend(h, Execute(attrs, hash));
    assert n.derived == h.derived + [attrs] && n.derived[|h.derived|] == attrs;
    assert n.node.l1Infos == h.node.l1Infos + if attrs.origin.Some? then [(attrs.number, attrs.origin.value)] else [];
    forall k: nat, epoch ensures (k, epoch) in n.node.l1Infos <==>
      exists i :: 0 <= i < |n.derived| && n.derived[i].number == k && n.derived[i].origin == Some(epoch)
    {
      EpochsAppend(h, attrs, k, epoch);
    }
    forall i | 0 <= i < |h.node.l1Infos| ensures h.node.l1Infos[i].0 <= h.node.safe.number {
      assert (h.node.l1Infos[i].0, h.node.l1Infos[i].1) in h.node.l1Infos;
    }
  }

  lemma EpochsAppend(h: History, attrs: Attributes, n: nat, epoch: BlockNumHash)
    requires EpochsRecorded(h)
    ensures var more := h.derived + [attrs];
            (exists i :: 0 <= i < |more| && more[i].number == n && more[i].origin == Some(epoch)) <==>
            (n, epoch) in h.node.l1Infos || (attrs.number == n && attrs.origin == Some(epoch))
  {
    var more := h.derived + [attrs];
    if (n, epoch) in h.node.l1Infos {
      var i :| 0 <= i < |h.derived| && h.derived[i].number == n && h.derived[i].origin == Some(epoch);
      assert more[i] == h.derived[i];
    }
    assert more[|h.derived|] == attrs;
  }

  lemma EpochsStep(h: History, op: Op)
    requires Enabled(h, op)
    ensures EpochsRecorded(h) ==> EpochsRecorded(Extend(h, op))
  {
    if EpochsRecorded(h) && op.Execute? {
      EpochsExecute(h, op.attrs, op.hash);
    }
  }

  lemma EpochsAreRecorded(states: seq<History>)
    requires IsRun(states)
    ensures EpochsRecorded(Last(states))
  {
    forall h, op | Enabled(h, op) {
      EpochsStep(h, op);
    }
    RunInduction(states, h => EpochsRecorded(h));
  }

  // ---- Gossip ----

  /** Whether a payload is signed as required; nothing is required unless both signer and chain are configured. */
  ghost predicate SignedAsRequired(v: Verifier, e: Gossip) {
    v.expectedSigner.Some? && v.chainId.Some? ==>
      v.recover(e.signature, e.payloadHash, v.chainId.value) == v.expectedSigner
  }

  /** The block a payload becomes on top of `head`: its own fields, counted within its epoch if it has one. */
  ghost predicate FollowsOn(head: L2BlockInfo, e: Gossip, b: L2BlockInfo) {
    && b.number == e.number && b.hash == e.hash && b.parentHash == e.parentHash && b.timestamp == e.timestamp
    && match e.origin
       case Some(epoch) => b.origin == epoch && b.seqNum == if epoch == head.origin then head.seqNum + 1 else 0
       case None => b.origin == BlockNumHash(0, 0) && b.seqNum == 0
  }

  /** The unsafe head while payloads are taken off the queue one by one. */
  ghost predicate Follows(v: Verifier, inbox: seq<Gossip>, heads: seq<L2BlockInfo>) {
    && |heads| == |inbox| + 1
    && forall i :: 0 <= i < |inbox| ==>
         if SignedAsRequired(v, inbox[i]) && inbox[i].number == heads[i].number + 1
         then FollowsOn(heads[i], inbox[i], heads[i + 1])
         else heads[i + 1] == heads[i]
  }

  lemma FollowIs(head: L2BlockInfo, e: Gossip)
    ensures if e.number == head.number + 1 then FollowsOn(head, e, Follow(head, e)) else Follow(head, e) == head
  {
  }

  lemma SignatureValidIs(v: Verifier, e: Gossip)
    ensures SignatureValid(v, e) <==> SignedAsRequired(v, e)
  {
  }

  /** Draining takes the payloads in order, each exactly if it is signed as required and is the next block. */
  lemma {:induction false} DrainFollows(v: Verifier, head: L2BlockInfo, inbox: seq<Gossip>)
    returns (heads: seq<L2BlockInfo>)
    ensures Follows(v, inbox, heads) && heads[0] == head && heads[|inbox|] == FollowAll(v, head, inbox)
  {
    if inbox == [] {
      heads := [head];
    } else {
      var init, last := inbox[..|inbox| - 1], inbox[|inbox| - 1];
      var earlier := DrainFollows(v, head, init);
      heads := earlier + [FollowAll(v, head, inbox)];
      SignatureValidIs(v, last);
      FollowIs(FollowAll(v, head, init), last);
      assert forall i :: 0 <= i < |init| ==> inbox[i] == init[i];
    }
  }

  // ---- The unsafe head ----

  /** How a step moves the unsafe head. */
  ghost predicate UnsafeMoved(h: History, op: Op, n: History) {
    var before, after := h.node.unsafeHead, n.node.unsafeHead;
    match op
    case ResetTo(target) => after == target
    case Execute(_, _) => if n.node.safe.number >= before.number then after == n.node.safe else after == before
    case Receive(e) => if e.number == before.number + 1 then FollowsOn(before, e, after) else after == before
    case Drain(keys) => exists heads :: Follows(keys, h.node.inbox, heads)
                                        && heads[0] == before && heads[|h.node.inbox|] == after
    case _ => after == before
  }

  lemma UnsafeMoves(h: History, op: Op)
    requires Enabled(h, op)
    ensures UnsafeMoved(h, op, Extend(h, op))
  {
    if op.Drain? {
      var heads := DrainFollows(op.keys, h.node.unsafeHead, h.node.inbox);
    } else if op.Receive? {
      FollowIs(h.node.unsafeHead, op.block);
    }
  }

  /** The unsafe head is above the safe head or is the safe head itself. */
  ghost predicate UnsafeMeetsSafe(h: History) {
    h.node.unsafeHead.number > h.node.safe.number || h.node.unsafeHead == h.node.safe
  }

  lemma FollowAllMovesUp(keys: Verifier, head: L2BlockInfo, inbox: seq<Gossip>)
    ensures FollowAll(keys, head, inbox) == head || FollowAll(keys, head, inbox).number > head.number
  {
    DrainAcceptsConsecutive(keys, head, inbox);
  }

  lemma UnsafeMeetsSafeStep(h: History, op: Op)
    requires Enabled(h, op)
    ensures UnsafeMeetsSafe(h) ==> UnsafeMeetsSafe(Extend(h, op))
  {
    if op.Drain? {
      FollowAllMovesUp(op.keys, h.node.unsafeHead, h.node.inbox);
    }
  }

  /** Two different blocks are never unsafe and safe head at the same height. */
  lemma UnsafeHeadMeetsSafeHead(states: seq<History>)
    requires IsRun(states)
    ensures UnsafeMeetsSafe(Last(states))
  {
    forall h, op | Enabled(h, op) {
      UnsafeMeetsSafeStep(h, op);
    }
    RunInduction(states, h => UnsafeMeetsSafe(h));
  }

  // ---- What is kept ----

  /** The queue holds what was delivered since it was last drained, and the safe L1 number is the last one signalled. */
  ghost predicate Kept(h: History) {
    && h.node.inbox == h.delivered
    && h.node.safeL1 == if h.safeSignals == [] then 0 else h.safeSignals[|h.safeSignals| - 1]
  }

  lemma KeptStep(h: History, op: Op)
    requires Enabled(h, op)
    ensures Kept(h) ==> Kept(Extend(h, op))
  {
  }

  /** A reset forgets the safe L1 signal and keeps the queue; nothing but a drain loses a delivered payload. */
  lemma DeliveredIsKept(states: seq<History>)
    requires IsRun(states)
    ensures Kept(Last(states))
  {
    forall h, op | Enabled(h, op) {
      KeptStep(h, op);
    }
    RunInduction(states, h => Kept(h));
  }
}
