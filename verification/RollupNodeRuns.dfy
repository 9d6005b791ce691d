/** What holds of the rollup node under any interleaving of gossip, derivation, signals and resets. */
module RollupNodeRuns {
  import opened Basics
  import opened RollupNode

  /**
   * The node with what led to it: the block it started from or was last reset to, the attributes derived
   * since then with the hashes the engine answered, every finality signal ever received, the safe signals
   * since the last reset, the payloads delivered since the last drain, and the safe chain as far back as it
   * is known, from genesis on as long as the run is `anchored`: every reset so far went to a block of the safe
   * chain of its time.
   */
  datatype History = History(
    genesis: L2BlockInfo,
    node: State,
    base: L2BlockInfo,
    derived: seq<Attributes>,
    hashes: seq<Digest>,
    signals: seq<nat>,
    safeSignals: seq<nat>,
    delivered: seq<Gossip>,
    chain: seq<L2BlockInfo>,
    anchored: bool)

  datatype Op =
    | Deliver(e: Gossip)
    | Drain(keys: Verifier)
    | Receive(block: Gossip)
    | Execute(attrs: Attributes, hash: Digest)
    | FinalizedSignal(number: nat)
    | SafeSignal(number: nat)
    | ResetTo(target: L2BlockInfo)

  ghost function Fresh(genesis: L2BlockInfo): History {
    History(genesis, Initial(genesis), genesis, [], [], [], [], [], [genesis], true)
  }

  /** Derived attributes extend the safe head by one; a directly injected next block must carry its epoch. */
  ghost predicate Enabled(h: History, op: Op) {
    match op
    case Execute(attrs, _) => attrs.number == h.node.safe.number + 1
    case Receive(block) => block.number == h.node.unsafeHead.number + 1 ==> block.origin.Some?
    case _ => true
  }

  /** Whether a block stands on a chain at its own height. */
  ghost predicate OnChain(chain: seq<L2BlockInfo>, b: L2BlockInfo) {
    |chain| > 0 && 0 <= b.number - chain[0].number < |chain| && chain[b.number - chain[0].number] == b
  }

  ghost function Extend(h: History, op: Op): History {
    match op
    case Deliver(e) => h.(node := h.node.(inbox := h.node.inbox + [e]), delivered := h.delivered + [e])
    case Drain(keys) =>
      h.(node := h.node.(inbox := [], unsafeHead := FollowAll(keys, h.node.unsafeHead, h.node.inbox)),
         delivered := [])
    case Receive(block) => h.(node := h.node.(unsafeHead := Follow(h.node.unsafeHead, block)))
    case Execute(attrs, hash) =>
      var node := Derive(h.node, attrs, hash);
      h.(node := node, derived := h.derived + [attrs], hashes := h.hashes + [hash], chain := h.chain + [node.safe])
    case FinalizedSignal(number) => h.(node := Signal(h.node, number), signals := h.signals + [number])
    case SafeSignal(number) => h.(node := h.node.(safeL1 := number), safeSignals := h.safeSignals + [number])
    case ResetTo(target) =>
      var kept := OnChain(h.chain, target);
      h.(node := Reset(h.node, target), base := target, derived := [], hashes := [], safeSignals := [],
         chain := if kept then h.chain[..target.number - h.chain[0].number + 1] else [target],
         anchored := h.anchored && kept)
  }

  ghost predicate Reached(g: History, h: History) {
    exists op :: Enabled(g, op) && h == Extend(g, op)
  }

  ghost predicate IsRun(states: seq<History>) {
    && |states| > 0
    && (exists genesis :: states[0] == Fresh(genesis))
    && (forall i :: 0 < i < |states| ==> Reached(states[i - 1], states[i]))
  }

  ghost function Last(states: seq<History>): History
    requires |states| > 0
  {
    states[|states| - 1]
  }

  /** What holds at the start and is kept by every step holds throughout every run. */
  lemma {:induction false} RunInduction(states: seq<History>, inv: History -> bool)
    requires IsRun(states)
    requires forall genesis :: inv(Fresh(genesis))
    requires forall h, op :: inv(h) && Enabled(h, op) ==> inv(Extend(h, op))
    ensures inv(Last(states))
  {
    var n := |states| - 1;
    if n > 0 {
      RunInduction(states[..n], inv);
      assert Reached(states[n - 1], states[n]);
    }
  }

  // ---- The safe history ----

  /** The reset point followed by the blocks derived since. */
  ghost function Segment(h: History): seq<L2BlockInfo> {
    [h.base] + seq(|h.node.history|, i requires 0 <= i < |h.node.history| => h.node.history[i].0)
  }

  /** The run of blocks with the same L1 origin that ends at `i` starts at `start`. */
  ghost predicate EpochStart(blocks: seq<L2BlockInfo>, start: nat, i: nat) {
    && start <= i < |blocks|
    && (forall j :: start <= j <= i ==> blocks[j].origin == blocks[i].origin)
    && (start > 0 ==> blocks[start - 1].origin != blocks[i].origin)
  }

  /** The sequence number counts from the start of the epoch, continuing the base's own count if it reaches it. */
  ghost predicate SeqNumCounts(blocks: seq<L2BlockInfo>, i: nat) {
    exists start: nat ::
      && EpochStart(blocks, start, i)
      && blocks[i].seqNum == (i - start) + if start == 0 then blocks[0].seqNum else 0
  }

  /** Numbered without gaps, linked by parent hash, and counted within epochs. */
  ghost predicate IsChain(blocks: seq<L2BlockInfo>) {
    && (forall i :: 0 < i < |blocks| ==>
          && blocks[i].number == blocks[0].number + i
          && blocks[i].parentHash == blocks[i - 1].hash)
    && (forall i :: 0 <= i < |blocks| ==> SeqNumCounts(blocks, i))
  }

  ghost predicate Linked(h: History) {
    && IsChain(Segment(h))
    && h.node.safe == Segment(h)[|Segment(h)| - 1]
    && (forall i :: 0 <= i < |h.node.history| ==> h.node.history[i].1 == h.node.history[i].0.origin.number)
  }

  lemma SegmentExecute(h: History, attrs: Attributes, hash: Digest)
    ensures var n := Extend(h, Execute(attrs, hash)); Segment(n) == Segment(h) + [n.node.safe]
  {
  }

  lemma SeqNumExtends(blocks: seq<L2BlockInfo>, b: L2BlockInfo, i: nat)
    requires i < |blocks| && SeqNumCounts(blocks, i)
    ensures SeqNumCounts(blocks + [b], i)
  {
    var start: nat :| EpochStart(blocks, start, i)
                 && blocks[i].seqNum == (i - start) + if start == 0 then blocks[0].seqNum else 0;
    assert EpochStart(blocks + [b], start, i);
  }

  lemma SeqNumNext(blocks: seq<L2BlockInfo>, b: L2BlockInfo)
    requires |blocks| > 0 && SeqNumCounts(blocks, |blocks| - 1)
    requires b.seqNum == NextSeqNum(blocks[|blocks| - 1], b.origin)
    ensures SeqNumCounts(blocks + [b], |blocks|)
  {
    var last := |blocks| - 1;
    var start: nat :| EpochStart(blocks, start, last)
                 && blocks[last].seqNum == (last - start) + if start == 0 then blocks[0].seqNum else 0;
    if b.origin == blocks[last].origin {
      assert EpochStart(blocks + [b], start, |blocks|);
    } else {
      assert EpochStart(blocks + [b], |blocks|, |blocks|);
    }
  }

  lemma ChainAppend(blocks: seq<L2BlockInfo>, b: L2BlockInfo)
    requires |blocks| > 0 && IsChain(blocks)
    requires b.number == blocks[|blocks| - 1].number + 1 && b.parentHash == blocks[|blocks| - 1].hash
    requires b.seqNum == NextSeqNum(blocks[|blocks| - 1], b.origin)
    ensures IsChain(blocks + [b])
  {
    SeqNumNext(blocks, b);
    forall i | 0 <= i < |blocks| ensures SeqNumCounts(blocks + [b], i) {
      SeqNumExtends(blocks, b, i);
    }
  }

  lemma LinkedExecute(h: History, attrs: Attributes, hash: Digest)
    requires Enabled(h, Execute(attrs, hash)) && Linked(h)
    ensures Linked(Extend(h, Execute(attrs, hash)))
  {
    SegmentExecute(h, attrs, hash);
    ChainAppend(Segment(h), Extend(h, Execute(attrs, hash)).node.safe);
  }

  lemma LinkedReset(h: History, target: L2BlockInfo)
    ensures Linked(Extend(h, ResetTo(target)))
  {
    var blocks := Segment(Extend(h, ResetTo(target)));
    assert blocks == [target];
    assert EpochStart(blocks, 0, 0);
  }

  lemma LinkedStep(h: History, op: Op)
    requires Enabled(h, op)
    ensures Linked(h) ==> Linked(Extend(h, op))
  {
    if Linked(h) {
      match op
      case Execute(attrs, hash) => LinkedExecute(h, attrs, hash);
      case ResetTo(target) => LinkedReset(h, target);
      case _ => assert Segment(Extend(h, op)) == Segment(h);
    }
  }

  /**
   * The safe history is a gap-free parent-hash chain from the reset point to the safe head, and every
   * sequence number is the distance to the start of its epoch.
   */
  lemma SafeHistoryIsLinked(states: seq<History>)
    requires IsRun(states)
    ensures Linked(Last(states))
  {
    forall h, op | Enabled(h, op) {
      LinkedStep(h, op);
    }
    forall genesis ensures Linked(Fresh(genesis)) {
      LinkedReset(Fresh(genesis), genesis);
      assert Segment(Fresh(genesis)) == [genesis];
      assert EpochStart([genesis], 0, 0);
    }
    RunInduction(states, h => Linked(h));
  }

  // ---- Finalization ----

  /** The largest finalized L1 block ever signalled. */
  ghost function Largest(signals: seq<nat>): Option<nat> {
    if signals == [] then None
    else
      var last := signals[|signals| - 1];
      match Largest(signals[..|signals| - 1])
      case None => Some(last)
      case Some(n) => Some(Max(n, last))
  }

  /** Whether the block at position `i` of the segment was derived from an L1 block already signalled as final. */
  ghost predicate Settled(h: History, i: int) {
    && Largest(h.signals).Some?
    && 0 < i < |Segment(h)|
    && Segment(h)[i].origin.number <= Largest(h.signals).value
  }

  /** Position `i` is the highest settled one, or the reset point if there is none. */
  ghost predicate HighestSettled(h: History, i: nat) {
    && i < |Segment(h)|
    && (i > 0 ==> Settled(h, i))
    && (forall j :: Settled(h, j) ==> j <= i)
  }

  /** The specification of the finalized head, in terms of what was derived and signalled and nothing else. */
  ghost predicate FinalizedAsSpecified(h: History) {
    && h.node.finalizedL1 == Largest(h.signals)
    && exists i: nat :: HighestSettled(h, i) && h.node.finalized == Segment(h)[i]
  }

  ghost predicate FoundAt(history: seq<(L2BlockInfo, nat)>, limit: nat, b: L2BlockInfo, i: int) {
    && 0 <= i < |history| && history[i].0 == b && history[i].1 <= limit
    && forall j :: i < j < |history| ==> history[j].1 > limit
  }

  lemma {:induction false} LastWithinIs(history: seq<(L2BlockInfo, nat)>, limit: nat) returns (i: int)
    ensures match LastWithin(history, limit)
            case None => forall j :: 0 <= j < |history| ==> history[j].1 > limit
            case Some(b) => FoundAt(history, limit, b, i)
  {
    if history == [] {
      i := 0;
    } else if history[|history| - 1].1 <= limit {
      i := |history| - 1;
    } else {
      i := LastWithinIs(history[..|history| - 1], limit);
    }
  }

  /** The search finds the highest settled block. */
  lemma SearchFindsHighest(h: History) returns (k: nat)
    requires Linked(h) && Largest(h.signals).Some?
    ensures HighestSettled(h, k)
    ensures LastWithin(h.node.history, Largest(h.signals).value) == if k == 0 then None else Some(Segment(h)[k])
  {
    var blocks, limit := Segment(h), Largest(h.signals).value;
    assert forall j :: 0 < j < |blocks| ==> blocks[j] == h.node.history[j - 1].0;
    var i := LastWithinIs(h.node.history, limit);
    k := if LastWithin(h.node.history, limit).None? then 0 else i + 1;
  }

  /**
   * Retrying finalization reaches the specification from any state in which the finalized head is the
   * reset point or some settled block.
   */
  lemma FinalizeMeetsSpecification(h: History, i: nat)
    requires Linked(h) && h.node.finalizedL1 == Largest(h.signals)
    requires i < |Segment(h)| && h.node.finalized == Segment(h)[i]
    requires i > 0 ==> Settled(h, i)
    ensures FinalizedAsSpecified(h.(node := Finalize(h.node)))
  {
    var n := h.(node := Finalize(h.node));
    assert Segment(n) == Segment(h);
    var k := i;
    if Largest(h.signals).Some? {
      k := SearchFindsHighest(h);
      assert Segment(h)[k].number > Segment(h)[i].number <==> k > i;
    }
    assert forall j :: Settled(n, j) <==> Settled(h, j);
    assert HighestSettled(n, k) && n.node.finalized == Segment(n)[k];
  }

  /** The history just after a derived block is recorded, before finalization is retried. */
  ghost function Recorded(h: History, attrs: Attributes, hash: Digest): History {
    Extend(h, Execute(attrs, hash)).(node := Record(h.node, attrs, hash))
  }

  lemma RecordedKeeps(h: History, attrs: Attributes, hash: Digest, i: nat)
    requires Enabled(h, Execute(attrs, hash)) && Linked(h) && i < |Segment(h)|
    ensures var r := Recorded(h, attrs, hash);
            && Linked(r) && i < |Segment(r)| && Segment(r)[i] == Segment(h)[i]
            && (Settled(h, i) ==> Settled(r, i))
  {
    var r := Recorded(h, attrs, hash);
    assert Segment(r) == Segment(h) + [r.node.safe];
    ChainAppend(Segment(h), r.node.safe);
  }

  lemma FinalizedExecute(h: History, attrs: Attributes, hash: Digest)
    requires Enabled(h, Execute(attrs, hash)) && Linked(h) && FinalizedAsSpecified(h)
    ensures FinalizedAsSpecified(Extend(h, Execute(attrs, hash)))
  {
    var r := Recorded(h, attrs, hash);
    var i: nat :| HighestSettled(h, i) && h.node.finalized == Segment(h)[i];
    RecordedKeeps(h, attrs, hash, i);
    FinalizeMeetsSpecification(r, i);
    FinalizedSame(r.(node := Finalize(r.node)), Extend(h, Execute(attrs, hash)));
  }

  /** The specification looks only at the reset point, the history, the largest signal and the finalized head. */
  lemma FinalizedSame(g: History, h: History)
    requires g.base == h.base && Largest(g.signals) == Largest(h.signals) && g.node.history == h.node.history
    requires g.node.finalized == h.node.finalized && g.node.finalizedL1 == h.node.finalizedL1
    requires FinalizedAsSpecified(g)
    ensures FinalizedAsSpecified(h)
  {
    assert Segment(g) == Segment(h);
    var i: nat :| HighestSettled(g, i) && g.node.finalized == Segment(g)[i];
    assert forall j :: Settled(g, j) <==> Settled(h, j);
    assert HighestSettled(h, i);
  }

  lemma LargestOfMore(signals: seq<nat>, number: nat)
    ensures Largest(signals + [number])
         == match Largest(signals) case None => Some(number) case Some(n) => Some(Max(n, number))
  {
    assert (signals + [number])[..|signals|] == signals;
  }

  /** The history just after a signal is taken in, before finalization is retried. */
  ghost function Received(h: History, number: nat): History {
    h.(node := h.node.(finalizedL1 := Some(number)), signals := h.signals + [number])
  }

  lemma ReceivedKeeps(h: History, number: nat, i: nat)
    requires Linked(h) && Largest(h.signals + [number]) == Some(number) && i < |Segment(h)|
    ensures var r := Received(h, number);
            Linked(r) && Segment(r) == Segment(h) && (Settled(h, i) ==> Settled(r, i))
  {
    assert Segment(Received(h, number)) == Segment(h);
    LargestOfMore(h.signals, number);
  }

  lemma FinalizedReceived(h: History, number: nat)
    requires Linked(h) && FinalizedAsSpecified(h) && Largest(h.signals + [number]) == Some(number)
    ensures var r := Received(h, number); FinalizedAsSpecified(r.(node := Finalize(r.node)))
  {
    var i: nat :| HighestSettled(h, i) && h.node.finalized == Segment(h)[i];
    ReceivedKeeps(h, number, i);
    FinalizeMeetsSpecification(Received(h, number), i);
  }

  lemma FinalizedSignalled(h: History, number: nat)
    requires Linked(h) && FinalizedAsSpecified(h)
    ensures FinalizedAsSpecified(Extend(h, FinalizedSignal(number)))
  {
    LargestOfMore(h.signals, number);
    if h.node.finalizedL1.Some? && number < h.node.finalizedL1.value {
      FinalizedSame(h, Extend(h, FinalizedSignal(number)));
    } else {
      FinalizedReceived(h, number);
      ReceivedIsSignalled(h, number);
    }
  }

  lemma ReceivedIsSignalled(h: History, number: nat)
    requires h.node.finalizedL1.Some? ==> h.node.finalizedL1.value <= number
    ensures var r := Received(h, number); Extend(h, FinalizedSignal(number)) == r.(node := Finalize(r.node))
  {
  }

  lemma FinalizedReset(h: History, target: L2BlockInfo)
    requires h.node.finalizedL1 == Largest(h.signals)
    ensures FinalizedAsSpecified(Extend(h, ResetTo(target)))
  {
    var n := Extend(h, ResetTo(target));
    assert Segment(n) == [target];
    assert HighestSettled(n, 0);
  }

  lemma FinalizedStep(h: History, op: Op)
    requires Enabled(h, op)
    ensures Linked(h) && FinalizedAsSpecified(h) ==> FinalizedAsSpecified(Extend(h, op))
  {
    if Linked(h) && FinalizedAsSpecified(h) {
      match op
      case Execute(attrs, hash) => FinalizedExecute(h, attrs, hash);
      case FinalizedSignal(number) => FinalizedSignalled(h, number);
      case ResetTo(target) => FinalizedReset(h, target);
      case _ => FinalizedSame(h, Extend(h, op));
    }
  }

  /**
   * In every reachable state the finalized head is the highest block derived since the last reset whose L1
   * origin is at or below the largest finalized L1 block ever signalled, or else the reset point.
   */
  lemma FinalizedHeadIsAsSpecified(states: seq<History>)
    requires IsRun(states)
    ensures Linked(Last(states)) && FinalizedAsSpecified(Last(states))
  {
    forall h, op | Enabled(h, op) {
      LinkedStep(h, op);
    }
    forall h, op | Enabled(h, op) {
      FinalizedStep(h, op);
    }
    forall genesis ensures Linked(Fresh(genesis)) && FinalizedAsSpecified(Fresh(genesis)) {
      assert Segment(Fresh(genesis)) == [genesis];
      assert EpochStart([genesis], 0, 0);
      assert HighestSettled(Fresh(genesis), 0);
    }
    RunInduction(states, h => Linked(h) && FinalizedAsSpecified(h));
  }

  /** So the order of signals and derivations does not matter: only what was derived and the largest signal do. */
  lemma OrderOfSignalsDoesNotMatter(a: seq<History>, b: seq<History>)
    requires IsRun(a) && IsRun(b)
    requires Last(a).base == Last(b).base && Last(a).node.history == Last(b).node.history
    requires Largest(Last(a).signals) == Largest(Last(b).signals)
    ensures Last(a).node.finalized == Last(b).node.finalized
  {
    FinalizedHeadIsAsSpecified(a);
    FinalizedHeadIsAsSpecified(b);
    var g, h := Last(a), Last(b);
    assert Segment(g) == Segment(h);
    var i: nat :| HighestSettled(g, i) && g.node.finalized == Segment(g)[i];
    var j: nat :| HighestSettled(h, j) && h.node.finalized == Segment(h)[j];
    assert forall k :: Settled(g, k) <==> Settled(h, k);
    assert i == j;
  }

  // ---- The three heads ----

  lemma {:induction false} FollowAllAdvances(keys: Verifier, head: L2BlockInfo, inbox: seq<Gossip>)
    ensures FollowAll(keys, head, inbox).number >= head.number
  {
    if inbox != [] {
      FollowAllAdvances(keys, head, inbox[..|inbox| - 1]);
    }
  }

  lemma SafeBelowUnsafeStep(h: History, op: Op)
    requires Enabled(h, op)
    ensures h.node.safe.number <= h.node.unsafeHead.number ==>
              Extend(h, op).node.safe.number <= Extend(h, op).node.unsafeHead.number
  {
    if op.Drain? {
      FollowAllAdvances(op.keys, h.node.unsafeHead, h.node.inbox);
    }
  }

  /**
   * The finalized head is the reset point or a block of the safe history, and by number finalized is at or
   * below safe and safe is at or below unsafe.
   */
  lemma HeadsAreOrdered(states: seq<History>)
    requires IsRun(states)
    ensures var h := Last(states);
            && h.node.finalized in Segment(h)
            && h.node.finalized.number <= h.node.safe.number <= h.node.unsafeHead.number
  {
    FinalizedHeadIsAsSpecified(states);
    forall h, op | Enabled(h, op) {
      SafeBelowUnsafeStep(h, op);
    }
    RunInduction(states, (h: History) => h.node.safe.number <= h.node.unsafeHead.number);
  }

  // ---- What tests read back ----

  /** One count per derived block, in order, starting right after the reset point. */
  ghost predicate Counted(h: History) {
    && |h.node.txCounts| == |h.node.userTxCounts| == |h.node.history| == |h.derived|
    && (forall i :: 0 <= i < |h.derived| ==>
          && h.node.txCounts[i] == (h.base.number + 1 + i, |h.derived[i].transactions|)
          && h.node.userTxCounts[i] == (h.base.number + 1 + i, UserTxCount(h.derived[i].transactions)))
  }

  lemma CountedExecute(h: History, attrs: Attributes, hash: Digest)
    requires Counted(h) && attrs.number == h.base.number + |h.node.history| + 1
    ensures Counted(Extend(h, Execute(attrs, hash)))
  {
    var n := Extend(h, Execute(attrs, hash));
    assert n.derived == h.derived + [attrs] && |n.node.history| == |n.derived|;
    assert n.node.txCounts == h.node.txCounts + [(attrs.number, |attrs.transactions|)];
    assert n.node.userTxCounts == h.node.userTxCounts + [(attrs.number, UserTxCount(attrs.transactions))];
  }

  lemma CountedStep(h: History, op: Op)
    requires Enabled(h, op)
    ensures Linked(h) && Counted(h) ==> Counted(Extend(h, op))
  {
    if Linked(h) && Counted(h) && op.Execute? {
      var blocks := Segment(h);
      assert h.node.safe.number == blocks[|blocks| - 1].number == h.base.number + |h.node.history|;
      CountedExecute(h, op.attrs, op.hash);
    }
  }

  lemma {:induction false} FindConsecutive(counts: seq<(nat, nat)>, first: nat, number: nat)
    requires forall i :: 0 <= i < |counts| ==> counts[i].0 == first + i
    ensures FindCount(counts, number)
         == if first <= number < first + |counts| then Some(counts[number - first].1) else None
  {
    if counts != [] && counts[0].0 != number {
      FindConsecutive(counts[1..], first + 1, number);
    }
  }

  /** The summary that tests should find at a height. */
  ghost function SummaryAt(h: History, number: nat): Option<DerivedBlock>
    requires h.node.safe.number == h.base.number + |h.derived|
  {
    if h.base.number < number <= h.node.safe.number
    then var txs := h.derived[number - h.base.number - 1].transactions;
         Some(DerivedBlock(number, |txs|, UserTxCount(txs)))
    else None
  }

  lemma CountedIsRecorded(h: History, number: nat)
    requires Linked(h) && Counted(h)
    ensures h.node.safe.number == h.base.number + |h.derived| && Derived(h.node, number) == SummaryAt(h, number)
  {
    assert Segment(h)[|Segment(h)| - 1].number == h.base.number + |h.node.history|;
    FindConsecutive(h.node.txCounts, h.base.number + 1, number);
    FindConsecutive(h.node.userTxCounts, h.base.number + 1, number);
  }

  /**
   * A derived-block summary exists exactly for the heights after the reset point up to the safe head, and
   * it carries the counts of the attributes that block was derived from.
   */
  lemma DerivedBlocksAreRecorded(states: seq<History>, number: nat)
    requires IsRun(states)
    ensures var h := Last(states);
            h.node.safe.number == h.base.number + |h.derived| && Derived(h.node, number) == SummaryAt(h, number)
  {
    forall h, op | Enabled(h, op) {
      LinkedStep(h, op);
    }
    forall h, op | Enabled(h, op) {
      CountedStep(h, op);
    }
    forall genesis ensures Linked(Fresh(genesis)) {
      assert Segment(Fresh(genesis)) == [genesis];
      assert EpochStart([genesis], 0, 0);
    }
    RunInduction(states, h => Linked(h) && Counted(h));
    CountedIsRecorded(Last(states), number);
  }

  // ---- The L2 provider ----

  /** The provider answers with the safe chain's block at every height of that chain. */
  ghost predicate Agrees(h: History) {
    forall i :: 0 <= i < |h.chain| ==>
      h.chain[i].number in h.node.provider && h.node.provider[h.chain[i].number] == h.chain[i]
  }

  /** Numbered without gaps and linked by parent hash. */
  ghost predicate IsLinked(chain: seq<L2BlockInfo>) {
    && |chain| > 0
    && (forall i :: 0 <= i < |chain| ==> chain[i].number == chain[0].number + i)
    && (forall i :: 0 < i < |chain| ==> chain[i].parentHash == chain[i - 1].hash)
  }

  /** The safe chain leads to the safe head, and in an anchored run it starts at genesis and is provided. */
  ghost predicate Provided(h: History) {
    && IsLinked(h.chain)
    && h.chain[|h.chain| - 1] == h.node.safe
    && (h.anchored ==> h.chain[0] == h.genesis && Agrees(h))
  }

  lemma ProvidedStep(h: History, op: Op)
    requires Enabled(h, op)
    ensures Provided(h) ==> Provided(Extend(h, op))
  {
    match op
    case Execute(attrs, hash) => ProvidedExecute(h, attrs, hash);
    case ResetTo(target) => ProvidedReset(h, target);
    case _ =>
  }

  lemma ProvidedExecute(h: History, attrs: Attributes, hash: Digest)
    requires attrs.number == h.node.safe.number + 1
    ensures Provided(h) ==> Provided(Extend(h, Execute(attrs, hash)))
  {
    var n := Extend(h, Execute(attrs, hash));
    assert n.node.provider == h.node.provider[attrs.number := n.node.safe] && n.chain == h.chain + [n.node.safe];
  }

  lemma ProvidedReset(h: History, target: L2BlockInfo)
    ensures Provided(h) ==> Provided(Extend(h, ResetTo(target)))
  {
  }

  /**
   * As long as every reset goes to a block of the current safe chain, that chain is linked by parent hash
   * from genesis to the safe head, and looking up any of its heights finds its block there, even though
   * entries above a reset point are never removed.
   */
  lemma ProviderFollowsSafeChain(states: seq<History>, i: nat)
    requires IsRun(states) && Last(states).anchored && i < |Last(states).chain|
    ensures var h := Last(states);
            && h.chain[0] == h.genesis && h.chain[|h.chain| - 1] == h.node.safe && IsLinked(h.chain)
            && h.genesis.number + i in h.node.provider
            && h.node.provider[h.genesis.number + i] == h.chain[i]
  {
    forall h, op | Enabled(h, op) {
      ProvidedStep(h, op);
    }
    RunInduction(states, h => Provided(h));
    var h := Last(states);
    assert Provided(h);
    assert h.chain[i].number == h.chain[0].number + i;
  }

  // ---- Exactly which resets keep the provider right ----

  ghost predicate IsStep(states: seq<History>, i: nat, op: Op)
    requires i + 1 < |states|
  {
    Enabled(states[i], op) && states[i + 1] == Extend(states[i], op)
  }

  /** A property kept by exactly the steps that pass a test holds throughout exactly the runs whose steps all pass. */
  lemma {:induction false} KeptIff(states: seq<History>, good: History -> bool, passes: (History, Op) -> bool)
    requires IsRun(states)
    requires forall genesis :: good(Fresh(genesis))
    requires forall h, op :: good(h) && Enabled(h, op) ==> (good(Extend(h, op)) <==> passes(h, op))
    ensures (forall i :: 0 <= i < |states| ==> good(states[i])) <==>
            (forall i, op :: 0 <= i < |states| - 1 && IsStep(states, i, op) ==> passes(states[i], op))
  {
    if forall i, op :: 0 <= i < |states| - 1 && IsStep(states, i, op) ==> passes(states[i], op) {
      KeptIfPassed(states, good, passes, |states|);
    }
  }

  lemma {:induction false} KeptIfPassed(states: seq<History>, good: History -> bool, passes: (History, Op) -> bool,
                                        n: nat)
    requires IsRun(states) && n <= |states|
    requires forall genesis :: good(Fresh(genesis))
    requires forall h, op :: good(h) && Enabled(h, op) ==> (good(Extend(h, op)) <==> passes(h, op))
    requires forall i, op :: 0 <= i < |states| - 1 && IsStep(states, i, op) ==> passes(states[i], op)
    ensures forall i :: 0 <= i < n ==> good(states[i])
  {
    if n > 1 {
      KeptIfPassed(states, good, passes, n - 1);
      assert Reached(states[n - 2], states[n - 1]);
      var op :| Enabled(states[n - 2], op) && states[n - 1] == Extend(states[n - 2], op);
      assert IsStep(states, n - 2, op);
    }
  }

  /** Whether a reset goes to a block that the provider already holds at its height. */
  ghost predicate ResetsToHeld(h: History, op: Op) {
    op.ResetTo? ==> op.target.number in h.node.provider && h.node.provider[op.target.number] == op.target
  }

  /** A step keeps the provider in agreement with the safe chain, if and only if it resets to no block not held. */
  lemma AgreesStepIff(h: History, op: Op)
    requires Enabled(h, op)
    ensures Provided(h) && Agrees(h) ==> Provided(Extend(h, op)) && (Agrees(Extend(h, op)) <==> ResetsToHeld(h, op))
  {
    ProvidedStep(h, op);
    if op.ResetTo? {
      AgreesResetIff(h, op.target);
    }
  }

  lemma AgreesResetIff(h: History, target: L2BlockInfo)
    ensures Provided(h) && Agrees(h) ==> (Agrees(Extend(h, ResetTo(target))) <==> ResetsToHeld(h, ResetTo(target)))
  {
    if Provided(h) && Agrees(h) {
      var n := Extend(h, ResetTo(target));
      assert n.node.provider == h.node.provider;
      if OnChain(h.chain, target) {
        assert forall i :: 0 <= i < |n.chain| ==> n.chain[i] == h.chain[i];
      } else {
        assert n.chain == [target] && n.chain[0] == target;
      }
    }
  }

  /** For a reset within the heights of an agreeing safe chain this is to say that the block is on that chain. */
  lemma HeldIffOnChain(h: History, target: L2BlockInfo)
    requires Provided(h) && Agrees(h) && h.chain[0].number <= target.number <= h.node.safe.number
    ensures ResetsToHeld(h, ResetTo(target)) <==> OnChain(h.chain, target)
  {
    var i := target.number - h.chain[0].number;
    assert h.chain[i].number == target.number;
  }

  /** Throughout a run the provider agrees with the safe chain, if and only if every reset goes to a block it holds. */
  lemma ProviderAgreesIff(states: seq<History>)
    requires IsRun(states)
    ensures (forall i :: 0 <= i < |states| ==> Provided(states[i]) && Agrees(states[i])) <==>
            (forall i, op :: 0 <= i < |states| - 1 && IsStep(states, i, op) ==> ResetsToHeld(states[i], op))
  {
    forall h, op | Enabled(h, op) {
      AgreesStepIff(h, op);
    }
    KeptIff(states, h => Provided(h) && Agrees(h), (h, op) => ResetsToHeld(h, op));
  }

  /** The entries at heights `n - 1` and `n` are those of a block and its parent. */
  ghost predicate LinkedAt(provider: map<nat, L2BlockInfo>, n: nat) {
    && n > 0 && n in provider && n - 1 in provider
    && provider[n].number == n && provider[n].parentHash == provider[n - 1].hash
  }

  /** Read by itself, from genesis to the safe head, the provider is a chain linked by parent hash. */
  ghost predicate ProviderIsChain(h: History) {
    && h.genesis.number <= h.node.safe.number
    && h.genesis.number in h.node.provider && h.node.provider[h.genesis.number] == h.genesis
    && h.node.safe.number in h.node.provider && h.node.provider[h.node.safe.number] == h.node.safe
    && (forall n: nat :: h.genesis.number < n <= h.node.safe.number ==> LinkedAt(h.node.provider, n))
  }

  /**
   * Whether a reset goes to a block from genesis on that the provider holds and, if that block is above the
   * safe head, reaches over linked entries.
   */
  ghost predicate ResetsAlongProvider(h: History, op: Op) {
    op.ResetTo? ==>
      && h.genesis.number <= op.target.number && ResetsToHeld(h, op)
      && (forall n: nat :: h.node.safe.number < n <= op.target.number ==> LinkedAt(h.node.provider, n))
  }

  lemma ChainStepIff(h: History, op: Op)
    requires Enabled(h, op)
    ensures ProviderIsChain(h) ==> (ProviderIsChain(Extend(h, op)) <==> ResetsAlongProvider(h, op))
  {
    if ProviderIsChain(h) && op.Execute? {
      ChainGrows(h, op.attrs, op.hash);
    }
  }

  lemma ChainGrows(h: History, attrs: Attributes, hash: Digest)
    requires ProviderIsChain(h) && attrs.number == h.node.safe.number + 1
    ensures ProviderIsChain(Extend(h, Execute(attrs, hash)))
  {
    var n := Extend(h, Execute(attrs, hash));
    assert n.node.provider == h.node.provider[attrs.number := n.node.safe];
    forall k: nat | h.genesis.number < k <= n.node.safe.number ensures LinkedAt(n.node.provider, k) {
      assert k <= h.node.safe.number ==> LinkedAt(h.node.provider, k);
    }
  }

  /**
   * Throughout a run the provider, read from genesis to the safe head, is a chain linked by parent hash, if
   * and only if every reset goes to a held block, over linked entries if it goes up.
   */
  lemma ProviderIsChainIff(states: seq<History>)
    requires IsRun(states)
    ensures (forall i :: 0 <= i < |states| ==> ProviderIsChain(states[i])) <==>
            (forall i, op :: 0 <= i < |states| - 1 && IsStep(states, i, op) ==> ResetsAlongProvider(states[i], op))
  {
    forall h, op | Enabled(h, op) {
      ChainStepIff(h, op);
    }
    KeptIff(states, h => ProviderIsChain(h), (h, op) => ResetsAlongProvider(h, op));
  }

  /** A reset elsewhere leaves the provider answering with the abandoned block at the reset height. */
  lemma ForeignResetGoesStale(genesis: L2BlockInfo, hash: Digest)
    requires hash != genesis.hash
    ensures exists states :: IsRun(states) && var node := Last(states).node;
              node.safe.number in node.provider && node.provider[node.safe.number] != node.safe
  {
    var target := genesis.(hash := hash);
    var states := [Fresh(genesis), Extend(Fresh(genesis), ResetTo(target))];
    assert Enabled(states[0], ResetTo(target));
    assert Reached(states[0], states[1]);
    assert IsRun(states);
  }

  // ---- Gossip ----

  /** The payloads the node takes from a queue: valid ones that carry the next number in turn. */
  ghost function Accepted(keys: Verifier, first: nat, inbox: seq<Gossip>): seq<Gossip> {
    if inbox == [] then []
    else
      var last := inbox[|inbox| - 1];
      var before := Accepted(keys, first, inbox[..|inbox| - 1]);
      if SignatureValid(keys, last) && last.number == first + |before| then before + [last] else before
  }

  ghost function OnlyValid(keys: Verifier, inbox: seq<Gossip>): seq<Gossip> {
    if inbox == [] then []
    else
      var last := inbox[|inbox| - 1];
      OnlyValid(keys, inbox[..|inbox| - 1]) + if SignatureValid(keys, last) then [last] else []
  }

  /**
   * Draining accepts a run of consecutive block numbers that starts right after the unsafe head, and ends
   * on the last accepted payload.
   */
  lemma {:induction false} DrainAcceptsConsecutive(keys: Verifier, head: L2BlockInfo, inbox: seq<Gossip>)
    ensures var accepted, end := Accepted(keys, head.number + 1, inbox), FollowAll(keys, head, inbox);
            && (forall i :: 0 <= i < |accepted| ==> accepted[i].number == head.number + 1 + i)
            && (forall e :: e in accepted ==> e in inbox && SignatureValid(keys, e))
            && end.number == head.number + |accepted|
            && (if accepted == [] then end == head
                else var e := accepted[|accepted| - 1];
                     end.hash == e.hash && end.parentHash == e.parentHash && end.timestamp == e.timestamp)
  {
    if inbox != [] {
      DrainAcceptsConsecutive(keys, head, inbox[..|inbox| - 1]);
    }
  }

  /** Invalidly signed payloads make no difference: removing them first gives the same head. */
  lemma {:induction false} InvalidSignaturesMakeNoDifference(keys: Verifier, head: L2BlockInfo, inbox: seq<Gossip>)
    ensures FollowAll(keys, head, inbox) == FollowAll(keys, head, OnlyValid(keys, inbox))
  {
    if inbox != [] {
      var init, last := inbox[..|inbox| - 1], inbox[|inbox| - 1];
      InvalidSignaturesMakeNoDifference(keys, head, init);
      var valid := OnlyValid(keys, init);
      assert (valid + [last])[..|valid + [last]| - 1] == valid;
      assert valid + [] == valid;
    }
  }
}
