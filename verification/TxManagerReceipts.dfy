/** Which receipt can confirm which submission, over every interleaving. */
module TxManagerReceipts {
  import opened Basics
  import opened L1Chain
  import opened Miner
  import opened MinerRuns
  import opened TxManager
  import R = TxManagerRuns

  type System = R.System

  // ---- Every handle has its own envelope ----

  /** Nonces in flight and signed are all different, and queued envelopes are those signed for their handle. */
  ghost predicate Registered(s: System) {
    && (forall h :: h in s.issued ==>
          h < s.nextHandle && s.issued[h].signer == s.config.signer && s.issued[h].nonce < s.inner.nextNonce)
    && (forall g, h :: g in s.issued && h in s.issued && g != h ==> s.issued[g].nonce != s.issued[h].nonce)
    && (forall h :: h in s.calls ==> CallRegistered(s, h))
    && (forall g, h :: g in s.calls && h in s.calls && s.calls[g].Numbered? && s.calls[h].Numbered? && g != h ==>
          s.calls[g].nonce != s.calls[h].nonce)
    && QueueRegistered(s, s.inner.pending)
    && QueueRegistered(s, s.inner.staged)
  }

  ghost predicate CallRegistered(s: System, h: Handle)
    requires h in s.calls
  {
    && h < s.nextHandle
    && match s.calls[h]
       case Entered(_) => h !in s.issued
       case Numbered(_, nonce) =>
         && h !in s.issued && nonce < s.inner.nextNonce
         && (forall g :: g in s.issued ==> s.issued[g].nonce != nonce)
       case Signed(p) => h in s.issued && p.responder == h && s.issued[h] == p.envelope
  }

  ghost predicate QueueRegistered(s: System, ps: seq<Pending>) {
    forall p :: p in ps ==> p.responder in s.issued && s.issued[p.responder] == p.envelope
  }

  lemma RegisteredAllocate(s: System, h: Handle)
    requires R.Enabled(s, R.AllocateNonce(h))
    ensures Registered(s) ==> Registered(R.Next(s, R.AllocateNonce(h)))
  {
  }

  lemma RegisteredSign(s: System, h: Handle, signs: bool)
    requires R.Enabled(s, R.SignCall(h, signs))
    ensures Registered(s) ==> Registered(R.SignStep(s, h, signs))
  {
    if Registered(s) && signs {
      var t := R.SignStep(s, h, signs);
      assert CallRegistered(s, h);
      forall g | g in t.calls ensures CallRegistered(t, g) {
        SignedCallRegistered(s, h, g);
      }
      SignedQueuesRegistered(s, h, s.inner.pending);
      SignedQueuesRegistered(s, h, s.inner.staged);
    }
  }

  /** Signing one call leaves every call registered. */
  lemma SignedCallRegistered(s: System, h: Handle, g: Handle)
    requires R.Enabled(s, R.SignCall(h, true)) && Registered(s) && g in s.calls
    ensures CallRegistered(R.SignStep(s, h, true), g)
  {
    assert CallRegistered(s, h) && CallRegistered(s, g);
  }

  lemma SignedQueuesRegistered(s: System, h: Handle, ps: seq<Pending>)
    requires R.Enabled(s, R.SignCall(h, true)) && CallRegistered(s, h) && QueueRegistered(s, ps)
    ensures QueueRegistered(R.SignStep(s, h, true), ps)
  {
  }

  /** Steps that hand out no nonce and sign nothing only move or remove queued submissions. */
  lemma RegisteredMoves(s: System, t: System)
    requires Registered(s)
    requires t.config == s.config && t.issued == s.issued && t.inner.nextNonce == s.inner.nextNonce
    requires t.nextHandle >= s.nextHandle
    requires forall h :: h in t.calls ==>
               (h in s.calls && t.calls[h] == s.calls[h]) || (t.calls[h].Entered? && h == s.nextHandle < t.nextHandle)
    requires QueueRegistered(s, t.inner.pending) && QueueRegistered(s, t.inner.staged)
    ensures Registered(t)
  {
    forall h | h in t.calls ensures CallRegistered(t, h) {
      if h in s.calls {
        assert CallRegistered(s, h);
      }
    }
  }

  lemma RegisteredEnter(s: System, c: Candidate)
    ensures Registered(s) ==> Registered(R.EnterStep(s, c))
  {
    if Registered(s) {
      RegisteredMoves(s, R.EnterStep(s, c));
    }
  }

  lemma RegisteredEnqueue(s: System, h: Handle)
    requires R.Enabled(s, R.Enqueue(h))
    ensures Registered(s) ==> Registered(R.Next(s, R.Enqueue(h)))
  {
    if Registered(s) {
      assert CallRegistered(s, h);
      RegisteredMoves(s, R.Next(s, R.Enqueue(h)));
    }
  }

  lemma RegisteredConfirm(s: System, block: L1Block)
    ensures Registered(s) ==> Registered(R.ConfirmStep(s, block))
  {
    if Registered(s) {
      forall p | p in StillStaged(s.inner.staged, block) ensures p in s.inner.staged {
        StillStagedIn(s.inner.staged, block, p);
      }
      RegisteredMoves(s, R.ConfirmStep(s, block));
    }
  }

  /** The other steps leave the sends in flight alone and queue nothing new. */
  lemma RegisteredOther(s: System, step: R.Step)
    requires R.Enabled(s, step) && !step.AllocateNonce? && !step.SignCall?
    requires !step.Enqueue? && !step.Confirm? && !step.Enter?
    ensures Registered(s) ==> Registered(R.Next(s, step))
  {
    if Registered(s) {
      RegisteredMoves(s, R.Next(s, step));
    }
  }

  lemma RegisteredStep(s: System, step: R.Step)
    requires R.Enabled(s, step)
    ensures Registered(s) ==> Registered(R.Next(s, step))
  {
    match step
    case AllocateNonce(h) => RegisteredAllocate(s, h);
    case SignCall(h, signs) => RegisteredSign(s, h, signs);
    case Enqueue(h) => RegisteredEnqueue(s, h);
    case Confirm(block) => RegisteredConfirm(s, block);
    case Enter(c) => RegisteredEnter(s, c);
    case _ => RegisteredOther(s, step);
  }

  // ---- Staging is a sequence of calls on the miner ----

  ghost function WithBlobs(h: History, blobs: seq<Sidecar>): History {
    h.(miner := h.miner.(blobs := h.miner.blobs + blobs), enqueued := h.enqueued + blobs)
  }

  lemma WithBlobsAppend(h: History, blobs: seq<Sidecar>, blob: Sidecar)
    requires h.miner.blocks != []
    ensures Extend(WithBlobs(h, blobs), EnqueueBlob(blob)) == WithBlobs(h, blobs + [blob])
  {
    var g := WithBlobs(h, blobs);
    assert g.mined + [] == g.mined && g.discarded + [] == g.discarded && g.submitted + [] == g.submitted;
    assert h.miner.blobs + blobs + [blob] == h.miner.blobs + (blobs + [blob]);
    assert h.enqueued + blobs + [blob] == h.enqueued + (blobs + [blob]);
  }

  lemma {:induction false} BlobsReachable(h: History, blobs: seq<Sidecar>)
    requires h.miner.blocks != []
    ensures Reachable(h) ==> Reachable(WithBlobs(h, blobs))
  {
    if blobs == [] {
      assert WithBlobs(h, blobs) == h;
    } else {
      var init, last := blobs[..|blobs| - 1], blobs[|blobs| - 1];
      SplitLast(blobs);
      BlobsReachable(h, init);
      ReachableIfCalled(WithBlobs(h, init), EnqueueBlob(last));
      WithBlobsAppend(h, init, last);
    }
  }

  lemma StagedAppend(h: History, ps: seq<Pending>, p: Pending)
    requires h.miner.blocks != []
    ensures WithBlobs(Extend(R.StagedHistory(h, ps), Submit(PendingTransaction(p.envelope, [], true))), p.blobs)
         == R.StagedHistory(h, ps + [p])
  {
    var g, tx := R.StagedHistory(h, ps), PendingTransaction(p.envelope, [], true);
    assert StagedQueue(ps + [p]) == StagedQueue(ps) + [tx];
    assert (ps + [p])[..|ps + [p]| - 1] == ps;
    assert g.mined + [] == g.mined && g.discarded + [] == g.discarded && g.enqueued + [] == g.enqueued;
    assert h.submitted + StagedQueue(ps) + [tx] == h.submitted + (StagedQueue(ps) + [tx]);
    assert h.miner.queue + StagedQueue(ps) + [tx] == h.miner.queue + (StagedQueue(ps) + [tx]);
    assert h.enqueued + StagedBlobs(ps) + p.blobs == h.enqueued + (StagedBlobs(ps) + p.blobs);
    assert h.miner.blobs + StagedBlobs(ps) + p.blobs == h.miner.blobs + (StagedBlobs(ps) + p.blobs);
  }

  lemma StagedOneMore(h: History, ps: seq<Pending>, p: Pending)
    requires h.miner.blocks != []
    ensures Reachable(R.StagedHistory(h, ps)) ==> Reachable(R.StagedHistory(h, ps + [p]))
  {
    var g, tx := R.StagedHistory(h, ps), PendingTransaction(p.envelope, [], true);
    ReachableIfCalled(g, Submit(tx));
    BlobsReachable(Extend(g, Submit(tx)), p.blobs);
    StagedAppend(h, ps, p);
  }

  lemma {:induction false} StagedReachable(h: History, ps: seq<Pending>)
    requires h.miner.blocks != []
    ensures Reachable(h) ==> Reachable(R.StagedHistory(h, ps))
  {
    if ps == [] {
      assert R.StagedHistory(h, ps) == h;
    } else {
      var init, last := ps[..|ps| - 1], ps[|ps| - 1];
      SplitLast(ps);
      StagedReachable(h, init);
      StagedOneMore(h, init, last);
    }
  }

  // ---- What was submitted, and by whom ----

  ghost function StagedHandles(origins: seq<Option<Handle>>): seq<Handle> {
    if origins == [] then []
    else
      var last := origins[|origins| - 1];
      StagedHandles(origins[..|origins| - 1]) + if last.Some? then [last.value] else []
  }

  ghost function ForeignOf(envelopes: seq<Envelope>, origins: seq<Option<Handle>>): seq<Envelope>
    requires |envelopes| == |origins|
  {
    if origins == [] then []
    else
      var n := |origins| - 1;
      ForeignOf(envelopes[..n], origins[..n]) + if origins[n].None? then [envelopes[n]] else []
  }

  /** The envelopes submitted to the miner by anyone but this manager, in order. */
  ghost function Foreign(s: System): seq<Envelope>
    requires |s.l1.submitted| == |s.origins|
  {
    ForeignOf(Envelopes(s.l1.submitted), s.origins)
  }

  ghost predicate OriginsMatch(envelopes: seq<Envelope>, origins: seq<Option<Handle>>, issued: map<Handle, Envelope>) {
    && |envelopes| == |origins|
    && forall i :: 0 <= i < |origins| && origins[i].Some? ==>
         origins[i].value in issued && envelopes[i] == issued[origins[i].value]
  }

  /** This manager's submissions are the envelopes of the handles staged so far, in the order they were staged. */
  ghost predicate Recorded(s: System) {
    && OriginsMatch(Envelopes(s.l1.submitted), s.origins, s.issued)
    && StagedHandles(s.origins) == s.stagedEver
  }

  lemma {:induction false} StagedHandlesOwn(origins: seq<Option<Handle>>, hs: seq<Handle>)
    ensures StagedHandles(origins + R.OwnOrigins(hs)) == StagedHandles(origins) + hs
  {
    if hs == [] {
      assert origins + R.OwnOrigins(hs) == origins && StagedHandles(origins) + hs == StagedHandles(origins);
    } else {
      var init, last := hs[..|hs| - 1], hs[|hs| - 1];
      StagedHandlesOwn(origins, init);
      var all := origins + R.OwnOrigins(hs);
      assert all[..|all| - 1] == origins + R.OwnOrigins(init);
      assert hs == init + [last];
    }
  }

  lemma {:induction false} StagedHandlesForeign(origins: seq<Option<Handle>>, n: nat)
    ensures StagedHandles(origins + R.ForeignOrigins(n)) == StagedHandles(origins)
  {
    if n == 0 {
      assert origins + R.ForeignOrigins(n) == origins;
    } else {
      StagedHandlesForeign(origins, n - 1);
      var all := origins + R.ForeignOrigins(n);
      assert all[..|all| - 1] == origins + R.ForeignOrigins(n - 1);
    }
  }

  /** Staging submits the moved envelopes and records their handles. */
  lemma StageRecords(s: System, n: nat, moved: seq<Pending>)
    requires moved == s.inner.pending[..Min(n, |s.inner.pending|)]
    ensures var t := R.StageStep(s, n);
            && t.stagedEver == s.stagedEver + R.Responders(moved) && t.issued == s.issued
            && t.origins == s.origins + R.OwnOrigins(R.Responders(moved))
            && t.l1.submitted == s.l1.submitted + StagedQueue(moved)
  {
  }

  lemma EnvelopesConcat(a: seq<PendingTransaction>, b: seq<PendingTransaction>)
    ensures Envelopes(a + b) == Envelopes(a) + Envelopes(b)
  {
  }

  lemma OriginsMatchOwn(envelopes: seq<Envelope>, origins: seq<Option<Handle>>, issued: map<Handle, Envelope>,
                        moved: seq<Pending>)
    requires OriginsMatch(envelopes, origins, issued)
    requires forall p :: p in moved ==> p.responder in issued && issued[p.responder] == p.envelope
    ensures OriginsMatch(envelopes + Envelopes(StagedQueue(moved)), origins + R.OwnOrigins(R.Responders(moved)), issued)
  {
    var own := R.OwnOrigins(R.Responders(moved));
    forall i | 0 <= i < |moved|
      ensures own[i] == Some(moved[i].responder) && Envelopes(StagedQueue(moved))[i] == moved[i].envelope
    {
    }
    assert forall i :: 0 <= i < |moved| ==> moved[i] in moved;
  }

  lemma RecordedStage(s: System, n: nat)
    ensures Registered(s) && Recorded(s) ==> Recorded(R.StageStep(s, n))
  {
    if Registered(s) && Recorded(s) {
      var moved := s.inner.pending[..Min(n, |s.inner.pending|)];
      StageRecords(s, n, moved);
      EnvelopesConcat(s.l1.submitted, StagedQueue(moved));
      assert forall p :: p in moved ==> p in s.inner.pending;
      OriginsMatchOwn(Envelopes(s.l1.submitted), s.origins, s.issued, moved);
      StagedHandlesOwn(s.origins, R.Responders(moved));
    }
  }

  lemma OriginsMatchForeign(envelopes: seq<Envelope>, origins: seq<Option<Handle>>, issued: map<Handle, Envelope>,
                            more: seq<Envelope>)
    requires OriginsMatch(envelopes, origins, issued)
    ensures OriginsMatch(envelopes + more, origins + R.ForeignOrigins(|more|), issued)
  {
  }

  lemma RecordedCall(s: System, op: Op)
    requires R.Enabled(s, R.MinerCall(op))
    ensures Recorded(s) ==> Recorded(R.Next(s, R.MinerCall(op)))
  {
    if Recorded(s) {
      var more, t := SubmittedBy(s.l1.miner, op), R.Next(s, R.MinerCall(op));
      assert t.l1.submitted == s.l1.submitted + more && t.stagedEver == s.stagedEver && t.issued == s.issued;
      EnvelopesConcat(s.l1.submitted, more);
      OriginsMatchForeign(Envelopes(s.l1.submitted), s.origins, s.issued, Envelopes(more));
      StagedHandlesForeign(s.origins, |more|);
    }
  }

  lemma RecordedSign(s: System, h: Handle, signs: bool)
    requires R.Enabled(s, R.SignCall(h, signs))
    ensures Registered(s) && Recorded(s) ==> Recorded(R.SignStep(s, h, signs))
  {
    if Registered(s) && Recorded(s) && signs {
      assert CallRegistered(s, h);
    }
  }

  lemma RecordedStep(s: System, step: R.Step)
    requires R.Enabled(s, step)
    ensures Registered(s) && Recorded(s) ==> Recorded(R.Next(s, step))
  {
    match step
    case SignCall(h, signs) => RecordedSign(s, h, signs);
    case Stage(n) => RecordedStage(s, n);
    case MinerCall(op) => RecordedCall(s, op);
    case _ =>
  }

  // ---- No handle is staged twice ----

  ghost function Travelled(s: System, h: Handle): nat {
    (if h in s.calls then 1 else 0) + multiset(R.Responders(s.inner.pending))[h] + multiset(s.stagedEver)[h]
  }

  ghost predicate StagedOnce(s: System) {
    forall h: Handle :: Travelled(s, h) <= if h < s.nextHandle then 1 else 0
  }

  lemma TravelledQueue(s: System, n: nat, h: Handle)
    ensures Travelled(R.DropStep(s, n), h) <= Travelled(s, h)
    ensures Travelled(R.StageStep(s, n), h) == Travelled(s, h)
  {
    R.RespondersSplit(s.inner.pending, Min(n, |s.inner.pending|));
  }

  lemma TravelledEnqueue(s: System, g: Handle, h: Handle)
    requires R.Enabled(s, R.Enqueue(g)) && s.calls[g].p.responder == g
    ensures Travelled(R.Next(s, R.Enqueue(g)), h) == Travelled(s, h)
  {
    R.RespondersAppend(s.inner.pending, s.calls[g].p);
  }

  /** The other steps move nothing between the calls, the pending queue and what was staged. */
  lemma TravelledOther(s: System, step: R.Step, h: Handle)
    requires R.Enabled(s, step) && !step.Enqueue? && !step.DropPending? && !step.Stage? && !step.FailAll?
    ensures Travelled(R.Next(s, step), h) <= Travelled(s, h) + if step.Enter? && h == s.nextHandle then 1 else 0
  {
    var t := R.Next(s, step);
    assert t.inner.pending == s.inner.pending && t.stagedEver == s.stagedEver;
  }

  lemma TravelledStep(s: System, step: R.Step, h: Handle)
    requires R.Enabled(s, step)
    ensures Registered(s) ==>
              Travelled(R.Next(s, step), h) <= Travelled(s, h) + if step.Enter? && h == s.nextHandle then 1 else 0
  {
    if Registered(s) {
      match step
      case Enqueue(g) =>
        assert CallRegistered(s, g);
        TravelledEnqueue(s, g, h);
      case DropPending(n) => TravelledQueue(s, n, h);
      case Stage(n) => TravelledQueue(s, n, h);
      case FailAll(_) => assert R.Responders([]) == [];
      case _ => TravelledOther(s, step, h);
    }
  }

  lemma StagedOnceStep(s: System, step: R.Step)
    requires R.Enabled(s, step)
    ensures Registered(s) && StagedOnce(s) ==> StagedOnce(R.Next(s, step))
  {
    if Registered(s) && StagedOnce(s) {
      var t := R.Next(s, step);
      assert t.nextHandle == s.nextHandle + if step.Enter? then 1 else 0;
      forall h: Handle ensures Travelled(t, h) <= if h < t.nextHandle then 1 else 0 {
        TravelledStep(s, step, h);
      }
    }
  }

  // ---- Receipts ----

  ghost predicate StagedKnown(s: System) {
    forall p :: p in s.inner.staged ==> p.responder in s.stagedEver
  }

  lemma StagedKnownStep(s: System, step: R.Step)
    requires R.Enabled(s, step)
    ensures StagedKnown(s) ==> StagedKnown(R.Next(s, step))
  {
    if StagedKnown(s) && step.Confirm? {
      forall p | p in StillStaged(s.inner.staged, step.block) ensures p in s.inner.staged {
        StillStagedIn(s.inner.staged, step.block, p);
      }
    } else if StagedKnown(s) && step.Stage? {
      var moved := s.inner.pending[..Min(step.n, |s.inner.pending|)];
      forall p | p in moved ensures p.responder in R.Responders(moved) {
        var i :| 0 <= i < |moved| && moved[i] == p;
        assert R.Responders(moved)[i] == p.responder;
      }
    }
  }

  /** Receipt `r` stands in some block the miner produced, at the index where `e` stands in its body. */
  ghost predicate ReceiptOf(h: History, r: RpcReceipt, e: Envelope) {
    exists b, i :: ReceiptAt(h, r, e, b, i)
  }

  ghost predicate ReceiptAt(h: History, r: RpcReceipt, e: Envelope, b: L1Block, i: int) {
    && EverSeen(h, b)
    && 0 <= i < |b.transactions| == |b.rpcReceipts|
    && b.transactions[i] == e && b.rpcReceipts[i] == r
  }

  /** If the effect confirms a handle, it does so with the receipt of that handle's own envelope. */
  ghost predicate OwnReceipt(s: System, e: Effect) {
    e.Resolve? && e.response.Confirmed? ==>
      && e.handle in s.stagedEver && e.handle in s.issued
      && ReceiptOf(s.l1, e.response.receipt, s.issued[e.handle])
  }

  ghost predicate Answered(s: System) {
    forall k, i :: 0 <= k < |s.plans| && 0 <= i < |s.plans[k]| ==> OwnReceipt(s, s.plans[k][i])
  }

  ghost predicate Later(s: System, t: System) {
    && (forall h :: h in s.stagedEver ==> h in t.stagedEver)
    && (forall h :: h in s.issued ==> h in t.issued && t.issued[h] == s.issued[h])
    && (forall b :: EverSeen(s.l1, b) ==> EverSeen(t.l1, b))
  }

  lemma OwnReceiptKept(s: System, t: System, e: Effect)
    requires Later(s, t)
    ensures OwnReceipt(s, e) ==> OwnReceipt(t, e)
  {
    if OwnReceipt(s, e) && e.Resolve? && e.response.Confirmed? {
      var r, envelope := e.response.receipt, s.issued[e.handle];
      var b, i :| ReceiptAt(s.l1, r, envelope, b, i);
      assert ReceiptAt(t.l1, r, envelope, b, i);
    }
  }

  lemma StepIsLater(s: System, step: R.Step)
    requires R.Enabled(s, step)
    ensures Registered(s) ==> Later(s, R.Next(s, step))
  {
    match step
    case SignCall(h, signs) => SignIsLater(s, h, signs);
    case Stage(n) => StageIsLater(s, n);
    case MinerCall(op) => MinerCallIsLater(s, op);
    case _ => // the rest keep what was staged and issued, and the miner
  }

  lemma SignIsLater(s: System, h: Handle, signs: bool)
    requires R.Enabled(s, R.SignCall(h, signs))
    ensures Registered(s) ==> Later(s, R.SignStep(s, h, signs))
  {
    if Registered(s) {
      assert CallRegistered(s, h);
    }
  }

  lemma StageIsLater(s: System, n: nat)
    ensures Later(s, R.StageStep(s, n))
  {
  }

  lemma MinerCallIsLater(s: System, op: Op)
    requires R.Enabled(s, R.MinerCall(op))
    ensures Later(s, R.Next(s, R.MinerCall(op)))
  {
  }

  /** What a confirmation answers, it answers with the submission's own receipt. */
  lemma ConfirmationIsOwn(s: System, block: L1Block, e: Effect)
    requires Reachable(s.l1) && Registered(s) && StagedKnown(s) && EverSeen(s.l1, block)
    requires e in Confirmations(s.inner.staged, block)
    ensures OwnReceipt(s, e)
  {
    ConfirmationsIn(s.inner.staged, block, e);
    var p :| p in s.inner.staged && ReceiptFor(p, block).Some?
             && e == Resolve(p.responder, Confirmed(ReceiptFor(p, block).value));
    SeenAligned(s.l1, block);
    var r := ReceiptFor(p, block).value;
    var i :| 0 <= i < |block.rpcReceipts| && block.rpcReceipts[i] == r;
    assert block.rpcReceipts[i].transactionHash == TxHashOf(block.transactions[i]);
    assert ReceiptAt(s.l1, r, p.envelope, block, i);
  }

  ghost predicate AllOwn(s: System, effects: seq<Effect>) {
    forall e :: e in effects ==> OwnReceipt(s, e)
  }

  lemma AnsweredConfirm(s: System, block: L1Block)
    requires Reachable(s.l1) && Registered(s) && StagedKnown(s) && EverSeen(s.l1, block)
    ensures AllOwn(s, Confirmations(s.inner.staged, block) + HeadEvent(s.config, block.Number()))
  {
    forall e | e in Confirmations(s.inner.staged, block) ensures OwnReceipt(s, e) {
      ConfirmationIsOwn(s, block, e);
    }
  }

  /** A step owes nothing new, or one more section whose answers are the submissions' own. */
  ghost predicate OwesOwn(s: System, t: System) {
    t.plans == s.plans || exists effects :: t.plans == s.plans + [effects] && AllOwn(s, effects)
  }

  lemma StepOwesOwn(s: System, step: R.Step)
    requires R.Enabled(s, step) && Reachable(s.l1) && Registered(s) && StagedKnown(s)
    ensures OwesOwn(s, R.Next(s, step))
  {
    var t := R.Next(s, step);
    if step.Confirm? {
      AnsweredConfirm(s, step.block);
    } else if |t.plans| > |s.plans| {
      assert t.plans == s.plans + [t.plans[|s.plans|]];
      assert AllOwn(s, t.plans[|s.plans|]);
    }
  }

  lemma AnsweredLater(s: System, t: System)
    requires Answered(s) && Later(s, t) && OwesOwn(s, t)
    ensures Answered(t)
  {
    forall k, i | 0 <= k < |t.plans| && 0 <= i < |t.plans[k]| ensures OwnReceipt(t, t.plans[k][i]) {
      if k < |s.plans| {
        assert t.plans[k] == s.plans[k];
      }
      OwnReceiptKept(s, t, t.plans[k][i]);
    }
  }

  lemma AnsweredStep(s: System, step: R.Step)
    requires R.Enabled(s, step)
    ensures Reachable(s.l1) && Registered(s) && StagedKnown(s) && Answered(s) ==> Answered(R.Next(s, step))
  {
    if Reachable(s.l1) && Registered(s) && StagedKnown(s) && Answered(s) {
      StepIsLater(s, step);
      StepOwesOwn(s, step);
      AnsweredLater(s, R.Next(s, step));
    }
  }

  // ---- Every run ----

  ghost predicate Sound(s: System) {
    && Reachable(s.l1) && s.l1.miner.blocks != []
    && Registered(s) && Recorded(s) && StagedOnce(s) && StagedKnown(s) && Answered(s)
  }

  lemma ReachableStep(s: System, step: R.Step)
    requires R.Enabled(s, step) && Reachable(s.l1) && s.l1.miner.blocks != []
    ensures Reachable(R.Next(s, step).l1) && R.Next(s, step).l1.miner.blocks != []
  {
    if step.MinerCall? {
      ReachableExtend(s.l1, step.op);
    } else if step.Stage? {
      StagedReachable(s.l1, s.inner.pending[..Min(step.n, |s.inner.pending|)]);
    }
  }

  lemma SoundStep(s: System, step: R.Step)
    requires R.Enabled(s, step)
    ensures Sound(s) ==> Sound(R.Next(s, step))
  {
    if Sound(s) {
      ReachableStep(s, step);
      RegisteredStep(s, step);
      RecordedStep(s, step);
      StagedOnceStep(s, step);
      StagedKnownStep(s, step);
      AnsweredStep(s, step);
    }
  }

  lemma SoundStart(config: ManagerConfig, l1: Config)
    ensures Sound(R.Start(config, l1))
  {
    FreshReachable(l1);
    RecordedStart(config, l1);
    StagedOnceStart(config, l1);
  }

  lemma RecordedStart(config: ManagerConfig, l1: Config)
    ensures Recorded(R.Start(config, l1))
  {
  }

  lemma StagedOnceStart(config: ManagerConfig, l1: Config)
    ensures StagedOnce(R.Start(config, l1))
  {
    assert forall h: Handle :: Travelled(R.Start(config, l1), h) == 0;
  }

  lemma RunSound(states: seq<System>)
    requires R.IsRun(states)
    ensures Sound(R.Last(states))
  {
    forall s, step | R.Enabled(s, step) {
      SoundStep(s, step);
    }
    forall config: ManagerConfig, l1: Config {
      SoundStart(config, l1);
    }
    R.RunInduction(states, s => Sound(s));
  }

  // ---- How often an envelope was submitted ----

  lemma CountAppend<T>(xs: seq<T>, x: T, y: T)
    ensures multiset(xs + [x])[y] == multiset(xs)[y] + if x == y then 1 else 0
  {
  }

  lemma StagedHandlesAppend(origins: seq<Option<Handle>>, o: Option<Handle>)
    ensures StagedHandles(origins + [o]) == StagedHandles(origins) + if o.Some? then [o.value] else []
  {
    assert (origins + [o])[..|origins|] == origins;
  }

  lemma ForeignOfAppend(envelopes: seq<Envelope>, e: Envelope, origins: seq<Option<Handle>>, o: Option<Handle>)
    requires |envelopes| == |origins|
    ensures ForeignOf(envelopes + [e], origins + [o]) == ForeignOf(envelopes, origins) + if o.None? then [e] else []
  {
    assert (origins + [o])[..|origins|] == origins && (envelopes + [e])[..|origins|] == envelopes;
  }

  /** Whether `e` is counted as often among all as handle `h` among the staged and `e` among the foreign. */
  ghost predicate CountsAgree(all: seq<Envelope>, staged: seq<Handle>, foreign: seq<Envelope>, e: Envelope, h: Handle) {
    multiset(all)[e] == multiset(staged)[h] + multiset(foreign)[e]
  }

  lemma CountOwn(all: seq<Envelope>, staged: seq<Handle>, foreign: seq<Envelope>, e: Envelope, h: Handle,
                 last: Envelope, g: Handle)
    requires CountsAgree(all, staged, foreign, e, h) && (last == e <==> g == h)
    ensures CountsAgree(all + [last], staged + [g], foreign, e, h)
  {
    CountAppend(all, last, e);
    CountAppend(staged, g, h);
  }

  lemma CountForeign(all: seq<Envelope>, staged: seq<Handle>, foreign: seq<Envelope>, e: Envelope, h: Handle,
                     last: Envelope)
    requires CountsAgree(all, staged, foreign, e, h)
    ensures CountsAgree(all + [last], staged, foreign + [last], e, h)
  {
    CountAppend(all, last, e);
    CountAppend(foreign, last, e);
  }

  /** An envelope was submitted once for each time its handle was staged and once by each foreign submission of it. */
  lemma {:induction false} CountByOrigin(envelopes: seq<Envelope>, origins: seq<Option<Handle>>,
                                         issued: map<Handle, Envelope>, h: Handle)
    requires OriginsMatch(envelopes, origins, issued) && h in issued
    requires forall g :: g in issued && g != h ==> issued[g] != issued[h]
    ensures CountsAgree(envelopes, StagedHandles(origins), ForeignOf(envelopes, origins), issued[h], h)
  {
    if origins != [] {
      var n := |origins| - 1;
      var before, e, earlier, o := envelopes[..n], envelopes[n], origins[..n], origins[n];
      SplitLast(envelopes);
      SplitLast(origins);
      CountByOrigin(before, earlier, issued, h);
      StagedHandlesAppend(earlier, o);
      ForeignOfAppend(before, e, earlier, o);
      if o.Some? {
        CountOwn(before, StagedHandles(earlier), ForeignOf(before, earlier), issued[h], h, e, o.value);
      } else {
        CountForeign(before, StagedHandles(earlier), ForeignOf(before, earlier), issued[h], h, e);
      }
    }
  }

  /** The envelope of a staged handle has reached the miner exactly once, if and only if nobody else submitted it. */
  lemma SubmittedExactlyOnce(s: System, h: Handle)
    requires Sound(s) && h in s.stagedEver
    ensures h in s.issued
    ensures multiset(Envelopes(s.l1.submitted))[s.issued[h]] == 1 + multiset(Foreign(s))[s.issued[h]]
    ensures multiset(Envelopes(s.l1.submitted))[s.issued[h]] == 1 <==> s.issued[h] !in Foreign(s)
  {
    StagedIsIssued(s, h);
    CountByOrigin(Envelopes(s.l1.submitted), s.origins, s.issued, h);
    assert Travelled(s, h) <= 1;
    assert h in multiset(s.stagedEver);
    assert s.issued[h] in Foreign(s) <==> s.issued[h] in multiset(Foreign(s));
  }

  lemma {:induction false} StagedHandleHasOrigin(origins: seq<Option<Handle>>, h: Handle)
    ensures h in StagedHandles(origins) ==> Some(h) in origins
  {
    if origins != [] {
      StagedHandleHasOrigin(origins[..|origins| - 1], h);
    }
  }

  lemma StagedIsIssued(s: System, h: Handle)
    requires Recorded(s) && h in s.stagedEver
    ensures h in s.issued
  {
    StagedHandleHasOrigin(s.origins, h);
  }

  // ---- What a confirmation means ----

  lemma {:induction false} SeenTransactionWasMined(blocks: seq<L1Block>, b: L1Block, e: Envelope)
    requires b in blocks && |b.transactions| == |b.receipts| && e in b.transactions
    ensures e in Envelopes(AllContents(blocks))
  {
    var init, last := blocks[..|blocks| - 1], blocks[|blocks| - 1];
    assert blocks == init + [last];
    FlatMapAppend(Contents, init, last);
    EnvelopesConcat(AllContents(init), Contents(last));
    if b == last {
      assert Envelopes(Contents(b)) == b.transactions;
    } else {
      SeenTransactionWasMined(init, b, e);
    }
  }

  lemma OnceMinedIsNotQueued<T>(all: seq<T>, mined: seq<T>, queued: seq<T>, x: T)
    requires all == mined + queued && multiset(all)[x] == 1 && x in mined
    ensures x !in queued
  {
    assert x in multiset(mined);
    assert multiset(all)[x] == multiset(mined)[x] + multiset(queued)[x];
    assert multiset(queued)[x] == 0;
    assert x in queued ==> x in multiset(queued);
  }

  /** A receipt for an envelope that was submitted once means that this submission has been mined. */
  lemma ReceiptMeansMined(h: History, r: RpcReceipt, e: Envelope)
    requires Reachable(h) && ReceiptOf(h, r, e) && multiset(Envelopes(h.submitted))[e] == 1
    ensures e in Envelopes(AllContents(h.mined)) && e !in Envelopes(h.miner.queue)
  {
    var b, i :| ReceiptAt(h, r, e, b, i);
    SeenAligned(h, b);
    assert b in h.mined;
    SeenTransactionWasMined(h.mined, b, e);
    SubmissionsAreMinedInOrder(h);
    EnvelopesConcat(AllContents(h.mined), h.miner.queue);
    OnceMinedIsNotQueued(Envelopes(h.submitted), Envelopes(AllContents(h.mined)), Envelopes(h.miner.queue), e);
  }

  /**
   * No handle is ever confirmed by the receipt of another of the manager's submissions, whatever others
   * submit. A confirmed handle was staged, the receipt stands beside an envelope equal to its own in a block
   * the miner produced, and it is the receipt of no other handle's envelope. In particular a transaction
   * that a reorg left in the miner's queue, mined later, cannot confirm the frame that was resubmitted for
   * it. And unless somebody else submitted an equal envelope, the handle's own submission is the one mined.
   */
  lemma ReceiptsNeverCross(states: seq<System>, section: nat, index: nat)
    requires R.IsRun(states)
    requires section < |R.Last(states).plans| && index < |R.Last(states).plans[section]|
    requires var e := R.Last(states).plans[section][index]; e.Resolve? && e.response.Confirmed?
    ensures var s, e := R.Last(states), R.Last(states).plans[section][index];
            && Recorded(s) && e.handle in s.stagedEver && e.handle in s.issued
            && ReceiptOf(s.l1, e.response.receipt, s.issued[e.handle])
            && (forall g :: g in s.issued && ReceiptOf(s.l1, e.response.receipt, s.issued[g]) ==> g == e.handle)
            && (s.issued[e.handle] !in Foreign(s) ==>
                  && multiset(Envelopes(s.l1.submitted))[s.issued[e.handle]] == 1
                  && s.issued[e.handle] in Envelopes(AllContents(s.l1.mined))
                  && s.issued[e.handle] !in Envelopes(s.l1.miner.queue))
  {
    RunSound(states);
    var s, e := R.Last(states), R.Last(states).plans[section][index];
    assert OwnReceipt(s, e);
    SubmittedExactlyOnce(s, e.handle);
    forall g | g in s.issued && ReceiptOf(s.l1, e.response.receipt, s.issued[g]) ensures g == e.handle {
      ReceiptNamesEnvelope(s.l1, e.response.receipt, s.issued[g]);
      ReceiptNamesEnvelope(s.l1, e.response.receipt, s.issued[e.handle]);
    }
    if s.issued[e.handle] !in Foreign(s) {
      ReceiptMeansMined(s.l1, e.response.receipt, s.issued[e.handle]);
    }
  }

  lemma ReceiptNamesEnvelope(h: History, r: RpcReceipt, e: Envelope)
    requires Reachable(h) && ReceiptOf(h, r, e)
    ensures r.transactionHash == TxHashOf(e)
  {
    var b, i :| ReceiptAt(h, r, e, b, i);
    SeenAligned(h, b);
  }

  // ---- When somebody else uses the same key ----

  /** How many of the transactions ever submitted have been mined; they are the first ones. */
  ghost function MinedCount(h: History): nat {
    |AllContents(h.mined)|
  }

  /** The handle's own submission is the one at index `k`, and it is still in the miner's queue. */
  ghost predicate OwnStillQueued(s: System, h: Handle, k: nat) {
    MinedCount(s.l1) <= k < |s.origins| && s.origins[k] == Some(h)
  }

  /** Index `m` is a mined submission of the envelope by somebody else. */
  ghost predicate MinedForeign(s: System, e: Envelope, m: nat) {
    m < MinedCount(s.l1) && m < |s.origins| == |s.l1.submitted|
    && s.origins[m].None? && s.l1.submitted[m].envelope == e
  }

  /** Some block of the miner would confirm the submission. */
  ghost predicate Confirmable(s: System, p: Pending) {
    exists b :: EverSeen(s.l1, b) && ReceiptFor(p, b).Some?
  }

  lemma {:induction false} CountOrigins(origins: seq<Option<Handle>>, h: Handle)
    ensures multiset(StagedHandles(origins))[h] == multiset(origins)[Some(h)]
  {
    if origins != [] {
      var init, last := origins[..|origins| - 1], origins[|origins| - 1];
      CountOrigins(init, h);
      assert origins == init + [last];
      CountAppend(init, last, Some(h));
      if last.Some? {
        CountAppend(StagedHandles(init), last.value, h);
      }
    }
  }

  lemma TwoPlaces<T>(xs: seq<T>, i: nat, j: nat)
    requires i < j < |xs| && xs[i] == xs[j]
    ensures multiset(xs)[xs[i]] >= 2
  {
    assert xs == xs[..j] + xs[j..];
    assert xs[i] in multiset(xs[..j]) && xs[j] in multiset(xs[j..]);
  }

  /** A handle's envelope has only one own submission, so any other one of it is foreign. */
  lemma OtherSubmissionIsForeign(s: System, h: Handle, k: nat, m: nat)
    requires Sound(s) && k < |s.origins| && s.origins[k] == Some(h) && m < |s.origins| && m != k
    requires h in s.issued && s.l1.submitted[m].envelope == s.issued[h]
    ensures s.origins[m].None?
  {
    assert Envelopes(s.l1.submitted)[m] == s.issued[h];
    assert Travelled(s, h) <= 1;
    CountOrigins(s.origins, h);
    if s.origins[m] == Some(h) {
      TwoPlaces(s.origins, if k < m then k else m, if k < m then m else k);
    }
  }

  lemma SubmittedAt(h: History, m: nat)
    requires Reachable(h) && m < MinedCount(h)
    ensures m < |h.submitted| && AllContents(h.mined)[m] == h.submitted[m]
  {
    SubmissionsAreMinedInOrder(h);
  }

  lemma {:induction false} MinedInSomeBlock(blocks: seq<L1Block>, m: nat) returns (b: L1Block)
    requires m < |AllContents(blocks)|
    ensures b in blocks && AllContents(blocks)[m].envelope in b.transactions
  {
    var init, last := blocks[..|blocks| - 1], blocks[|blocks| - 1];
    assert blocks == init + [last];
    FlatMapAppend(Contents, init, last);
    if m < |AllContents(init)| {
      b := MinedInSomeBlock(init, m);
    } else {
      b := last;
      assert AllContents(blocks)[m] == Contents(last)[m - |AllContents(init)|];
    }
  }

  lemma ConfirmableMeansMinedForeign(s: System, p: Pending, k: nat) returns (m: nat)
    requires Sound(s) && p in s.inner.staged && OwnStillQueued(s, p.responder, k) && Confirmable(s, p)
    ensures MinedForeign(s, p.envelope, m)
  {
    var b :| EverSeen(s.l1, b) && ReceiptFor(p, b).Some?;
    SeenAligned(s.l1, b);
    ReceiptIffIncluded(p, b);
    assert b in s.l1.mined;
    SeenTransactionWasMined(s.l1.mined, b, p.envelope);
    m :| 0 <= m < MinedCount(s.l1) && Envelopes(AllContents(s.l1.mined))[m] == p.envelope;
    SubmittedAt(s.l1, m);
    OtherSubmissionIsForeign(s, p.responder, k, m);
  }

  lemma MinedForeignMeansConfirmable(s: System, p: Pending, m: nat)
    requires Sound(s) && MinedForeign(s, p.envelope, m)
    ensures Confirmable(s, p)
  {
    SubmittedAt(s.l1, m);
    var b := MinedInSomeBlock(s.l1.mined, m);
    assert EverSeen(s.l1, b);
    SeenAligned(s.l1, b);
    ReceiptIffIncluded(p, b);
  }

  /**
   * At any moment of any run, a staged submission that is itself still in the miner's queue can be confirmed,
   * if and only if somebody else's submission of an equal envelope has been mined.
   */
  lemma ConfirmableWhileQueuedIff(states: seq<System>, p: Pending, k: nat)
    requires R.IsRun(states) && p in R.Last(states).inner.staged && OwnStillQueued(R.Last(states), p.responder, k)
    ensures Confirmable(R.Last(states), p) <==> exists m: nat :: MinedForeign(R.Last(states), p.envelope, m)
  {
    var s := R.Last(states);
    RunSound(states);
    if Confirmable(s, p) {
      var m := ConfirmableMeansMinedForeign(s, p, k);
    }
    if m: nat :| MinedForeign(s, p.envelope, m) {
      MinedForeignMeansConfirmable(s, p, m);
    }
  }

  /** Somebody else submits an envelope and it is mined before this manager does anything. */
  lemma SubmittedByOther(config: ManagerConfig, l1: Config, e: Envelope) returns (states: seq<System>, block: L1Block)
    ensures R.IsRun(states)
    ensures var s := R.Last(states);
            && s == R.Start(config, l1).(l1 := s.l1, origins := [None])
            && s.l1.miner.blocks != [] && s.l1.miner.queue == [] && s.l1.mined == [block] && block.transactions == [e]
  {
    var tx := PendingTransaction(e, [], true);
    states := [R.Start(config, l1)];
    R.RunStarts(config, l1);
    states := R.OneMoreStep(states, R.MinerCall(Submit(tx)));
    assert R.Last(states).l1.miner.queue == [tx];
    block := NextBlock(R.Last(states).l1.miner, 0);
    states := R.OneMoreStep(states, R.MinerCall(Mine(0)));
    assert R.Last(states).origins == [None];
  }

  /** Then the manager sends a candidate that signs to the same envelope. */
  lemma SameEnvelopeSigned(config: ManagerConfig, l1: Config, c: Candidate, e: Envelope)
    returns (states: seq<System>, block: L1Block)
    requires e == SignedEnvelope(config, c, 0)
    ensures R.IsRun(states)
    ensures var s := R.Last(states);
            && s.inner.staged == [] && s.inner.pending == [Submission(config, c, 0, 0)]
            && s.issued == map[0 := e] && s.stagedEver == [] && s.plans == [] && s.origins == [None]
            && s.l1.miner.blocks != [] && s.l1.miner.queue == [] && s.l1.mined == [block] && block.transactions == [e]
  {
    states, block := SubmittedByOther(config, l1, e);
    states := R.OneMoreStep(states, R.Enter(c));
    states := R.OneMoreStep(states, R.AllocateNonce(0));
    states := R.OneMoreStep(states, R.SignCall(0, true));
    states := R.OneMoreStep(states, R.Enqueue(0));
  }

  lemma SameEnvelopeStaged(config: ManagerConfig, l1: Config, c: Candidate, e: Envelope)
    returns (states: seq<System>, block: L1Block)
    requires e == SignedEnvelope(config, c, 0)
    ensures R.IsRun(states)
    ensures var s := R.Last(states);
            && s.inner.staged == [Submission(config, c, 0, 0)] && s.plans == []
            && s.issued == map[0 := e] && s.stagedEver == [0] && s.origins == [None, Some(0)]
            && s.l1.miner.queue == [PendingTransaction(e, [], true)]
            && block in s.l1.mined && block.transactions == [e]
  {
    states, block := SameEnvelopeSigned(config, l1, c, e);
    var pending := R.Last(states).inner.pending;
    assert pending[..1] == pending;
    states := R.OneMoreStep(states, R.Stage(1));
  }

  lemma IncludedIsConfirmed(s: System, p: Pending, block: L1Block)
    requires Sound(s) && p in s.inner.staged && block in s.l1.mined && p.envelope in block.transactions
    ensures exists r :: Resolve(p.responder, Confirmed(r)) in Confirmations(s.inner.staged, block)
  {
    SeenAligned(s.l1, block);
    ReceiptIffIncluded(p, block);
    ConfirmationsIn(s.inner.staged, block, Resolve(p.responder, Confirmed(ReceiptFor(p, block).value)));
  }

  /**
   * If somebody else has submitted an equal envelope under the same key, its receipt confirms the handle
   * while the handle's own submission is still in the miner's queue.
   */
  lemma ForeignReceiptCanConfirm(config: ManagerConfig, l1: Config, c: Candidate) returns (states: seq<System>)
    ensures R.IsRun(states)
    ensures var s, e := R.Last(states), SignedEnvelope(config, c, 0);
            && s.issued == map[0 := e] && s.stagedEver == [0] && s.origins == [None, Some(0)]
            && s.l1.miner.queue == [PendingTransaction(e, [], true)]
            && |s.plans| == 1 && exists r :: Resolve(0, Confirmed(r)) in s.plans[0]
  {
    var block;
    states, block := SameEnvelopeStaged(config, l1, c, SignedEnvelope(config, c, 0));
    RunSound(states);
    var s := R.Last(states);
    IncludedIsConfirmed(s, s.inner.staged[0], block);
    states := R.OneMoreStep(states, R.Confirm(block));
    assert R.Last(states).plans == [Confirmations(s.inner.staged, block) + HeadEvent(s.config, block.Number())];
  }
}
