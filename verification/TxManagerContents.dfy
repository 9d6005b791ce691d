/** What the manager's submissions carry, under which nonce, and together with what, over every interleaving. */
module TxManagerContents {
  import opened Basics
  import opened L1Chain
  import opened Miner
  import opened MinerRuns
  import opened TxManager
  import R = TxManagerRuns
  import Receipts = TxManagerReceipts

  type System = R.System

  // ---- Submissions carry what was asked for ----

  /** A submission carries out what its handle was asked for, with the same blobs. */
  ghost predicate Serves(config: ManagerConfig, asked: map<Handle, Candidate>, p: Pending) {
    && p.responder in asked
    && CarriesOut(config, asked[p.responder], p.envelope)
    && p.blobs == asked[p.responder].blobs
  }

  ghost predicate CallServes(config: ManagerConfig, asked: map<Handle, Candidate>, h: Handle, phase: R.Phase) {
    && h in asked
    && match phase
       case Entered(c) => asked[h] == c
       case Numbered(c, _) => asked[h] == c
       case Signed(p) => p.responder == h && Serves(config, asked, p)
  }

  ghost predicate AllServe(config: ManagerConfig, asked: map<Handle, Candidate>, ps: seq<Pending>) {
    forall p :: p in ps ==> Serves(config, asked, p)
  }

  /** In flight, signed, pending or staged, everything carries out what its handle was asked for. */
  ghost predicate Faithful(s: System) {
    && (forall h :: h in s.asked ==> h < s.nextHandle)
    && (forall h :: h in s.calls ==> CallServes(s.config, s.asked, h, s.calls[h]))
    && (forall h :: h in s.issued ==> h in s.asked && CarriesOut(s.config, s.asked[h], s.issued[h]))
    && AllServe(s.config, s.asked, s.inner.pending)
    && AllServe(s.config, s.asked, s.inner.staged)
  }

  lemma SubmissionServes(config: ManagerConfig, asked: map<Handle, Candidate>, nonce: nat, h: Handle)
    requires h in asked
    ensures Serves(config, asked, Submission(config, asked[h], nonce, h))
  {
  }

  lemma CallStillServes(config: ManagerConfig, asked: map<Handle, Candidate>, h: Handle, phase: R.Phase,
                        g: Handle, c: Candidate)
    requires CallServes(config, asked, h, phase) && g !in asked
    ensures CallServes(config, asked[g := c], h, phase)
  {
  }

  lemma FaithfulEnter(s: System, c: Candidate)
    ensures Faithful(s) ==> Faithful(R.EnterStep(s, c))
  {
    if Faithful(s) {
      var t := R.EnterStep(s, c);
      assert s.nextHandle !in s.asked && t.asked == s.asked[s.nextHandle := c];
      forall h | h in t.calls ensures CallServes(t.config, t.asked, h, t.calls[h]) {
        if h in s.calls {
          CallStillServes(s.config, s.asked, h, s.calls[h], s.nextHandle, c);
        }
      }
    }
  }

  lemma FaithfulSign(s: System, h: Handle, signs: bool)
    requires R.Enabled(s, R.SignCall(h, signs))
    ensures Faithful(s) ==> Faithful(R.SignStep(s, h, signs))
  {
    if Faithful(s) {
      assert CallServes(s.config, s.asked, h, s.calls[h]);
      SubmissionServes(s.config, s.asked, s.calls[h].nonce, h);
    }
  }

  /** Steps that neither take nor sign anything new only number, move or remove what is there. */
  lemma FaithfulMoves(s: System, t: System)
    requires Faithful(s) && t.config == s.config && t.asked == s.asked && t.issued == s.issued
    requires t.nextHandle == s.nextHandle
    requires forall h :: h in t.calls ==> CallServes(s.config, s.asked, h, t.calls[h])
    requires forall p :: p in t.inner.pending + t.inner.staged ==> Serves(s.config, s.asked, p)
    ensures Faithful(t)
  {
    assert forall p :: p in t.inner.pending ==> p in t.inner.pending + t.inner.staged;
    assert forall p :: p in t.inner.staged ==> p in t.inner.pending + t.inner.staged;
  }

  lemma FaithfulConfirm(s: System, block: L1Block)
    ensures Faithful(s) ==> Faithful(R.ConfirmStep(s, block))
  {
    if Faithful(s) {
      forall p | p in StillStaged(s.inner.staged, block) ensures p in s.inner.staged {
        StillStagedIn(s.inner.staged, block, p);
      }
      FaithfulMoves(s, R.ConfirmStep(s, block));
    }
  }

  lemma FaithfulEnqueue(s: System, h: Handle)
    requires R.Enabled(s, R.Enqueue(h))
    ensures Faithful(s) ==> Faithful(R.Next(s, R.Enqueue(h)))
  {
    if Faithful(s) {
      assert CallServes(s.config, s.asked, h, s.calls[h]);
      FaithfulMoves(s, R.Next(s, R.Enqueue(h)));
    }
  }

  lemma FaithfulOther(s: System, step: R.Step)
    requires R.Enabled(s, step) && !step.Enter? && !step.SignCall? && !step.Enqueue? && !step.Confirm?
    ensures Faithful(s) ==> Faithful(R.Next(s, step))
  {
    if Faithful(s) {
      FaithfulMoves(s, R.Next(s, step));
    }
  }

  lemma FaithfulStep(s: System, step: R.Step)
    requires R.Enabled(s, step)
    ensures Faithful(s) ==> Faithful(R.Next(s, step))
  {
    match step
    case Enter(c) => FaithfulEnter(s, c);
    case SignCall(h, signs) => FaithfulSign(s, h, signs);
    case Enqueue(h) => FaithfulEnqueue(s, h);
    case Confirm(block) => FaithfulConfirm(s, block);
    case _ => FaithfulOther(s, step);
  }

  /** However sends interleave, every submission carries what its own caller asked to send. */
  lemma SubmissionsCarryTheirCandidates(states: seq<System>)
    requires R.IsRun(states)
    ensures Faithful(R.Last(states))
  {
    forall s, step | R.Enabled(s, step) {
      FaithfulStep(s, step);
    }
    R.RunInduction(states, s => Faithful(s));
  }

  /** The receipt stands in a block the miner produced, beside a transaction that carries out the candidate. */
  ghost predicate ReceiptFor(s: System, r: RpcReceipt, c: Candidate, b: L1Block, i: int) {
    && EverSeen(s.l1, b)
    && 0 <= i < |b.transactions| == |b.rpcReceipts|
    && b.rpcReceipts[i] == r && CarriesOut(s.config, c, b.transactions[i])
  }

  /** The transaction beside a confirming receipt carries what the confirmed handle was asked to send. */
  lemma ConfirmedCarriesCandidate(states: seq<System>, section: nat, index: nat)
    requires R.IsRun(states)
    requires section < |R.Last(states).plans| && index < |R.Last(states).plans[section]|
    requires var e := R.Last(states).plans[section][index]; e.Resolve? && e.response.Confirmed?
    ensures var s, e := R.Last(states), R.Last(states).plans[section][index];
            e.handle in s.asked && exists b, i :: ReceiptFor(s, e.response.receipt, s.asked[e.handle], b, i)
  {
    var s, e := R.Last(states), R.Last(states).plans[section][index];
    SubmissionsCarryTheirCandidates(states);
    Receipts.ReceiptsNeverCross(states, section, index);
    var b, i :| Receipts.ReceiptAt(s.l1, e.response.receipt, s.issued[e.handle], b, i);
    assert ReceiptFor(s, e.response.receipt, s.asked[e.handle], b, i);
  }

  // ---- Nonces ----

  /** A handle's nonce is its place in the order in which sends were numbered. */
  ghost predicate NoncesCount(s: System) {
    && |s.numbered| == s.inner.nextNonce
    && (forall i :: 0 <= i < |s.numbered| ==> s.numbered[i] < s.nextHandle)
    && (forall i, j :: 0 <= i < j < |s.numbered| ==> s.numbered[i] != s.numbered[j])
    && (forall h :: h in s.calls ==> h < s.nextHandle && (s.calls[h].Entered? ==> h !in s.numbered))
    && (forall h :: h in s.calls && s.calls[h].Numbered? ==> IsNumber(s, h, s.calls[h].nonce))
    && (forall h :: h in s.issued ==> IsNumber(s, h, s.issued[h].nonce))
  }

  ghost predicate IsNumber(s: System, h: Handle, nonce: nat) {
    nonce < |s.numbered| && s.numbered[nonce] == h
  }

  lemma NoncesAllocate(s: System, h: Handle)
    requires R.Enabled(s, R.AllocateNonce(h))
    ensures NoncesCount(s) ==> NoncesCount(R.Next(s, R.AllocateNonce(h)))
  {
    if NoncesCount(s) {
      var t := R.Next(s, R.AllocateNonce(h));
      assert t.numbered == s.numbered + [h] && t.numbered[|s.numbered|] == h;
      forall g | g in t.calls && t.calls[g].Numbered? ensures IsNumber(t, g, t.calls[g].nonce) {
        assert g != h ==> IsNumber(s, g, s.calls[g].nonce);
      }
      forall g | g in t.issued ensures IsNumber(t, g, t.issued[g].nonce) {
        assert IsNumber(s, g, s.issued[g].nonce);
      }
    }
  }

  lemma NoncesEnter(s: System, c: Candidate)
    ensures NoncesCount(s) ==> NoncesCount(R.EnterStep(s, c))
  {
    if NoncesCount(s) {
      NoncesKept(s, R.EnterStep(s, c));
    }
  }

  lemma NoncesSign(s: System, h: Handle, signs: bool)
    requires R.Enabled(s, R.SignCall(h, signs))
    ensures NoncesCount(s) ==> NoncesCount(R.SignStep(s, h, signs))
  {
    if NoncesCount(s) {
      assert IsNumber(s, h, s.calls[h].nonce);
      NoncesKept(s, R.SignStep(s, h, signs));
    }
  }

  lemma NoncesOther(s: System, step: R.Step)
    requires R.Enabled(s, step) && !step.AllocateNonce? && !step.Enter? && !step.SignCall?
    ensures NoncesCount(s) ==> NoncesCount(R.Next(s, step))
  {
    if NoncesCount(s) {
      NoncesKept(s, R.Next(s, step));
    }
  }

  /** Steps that number nothing keep the numbers. */
  lemma NoncesKept(s: System, t: System)
    requires NoncesCount(s) && t.numbered == s.numbered && t.inner.nextNonce == s.inner.nextNonce
    requires t.nextHandle >= s.nextHandle
    requires forall h :: h in t.calls ==>
               || (h in s.calls && t.calls[h] == s.calls[h])
               || (t.calls[h].Entered? && h == s.nextHandle < t.nextHandle)
               || (t.calls[h].Signed? && h in s.calls)
    requires forall h :: h in t.issued ==>
               (h in s.issued && t.issued[h] == s.issued[h]) || IsNumber(s, h, t.issued[h].nonce)
    ensures NoncesCount(t)
  {
    forall h | h in t.calls && t.calls[h].Numbered? ensures IsNumber(t, h, t.calls[h].nonce) {
      assert IsNumber(s, h, s.calls[h].nonce);
    }
    forall h | h in t.issued ensures IsNumber(t, h, t.issued[h].nonce) {
      if h in s.issued {
        assert IsNumber(s, h, s.issued[h].nonce);
      }
    }
  }

  lemma NoncesStep(s: System, step: R.Step)
    requires R.Enabled(s, step)
    ensures NoncesCount(s) ==> NoncesCount(R.Next(s, step))
  {
    match step
    case AllocateNonce(h) => NoncesAllocate(s, h);
    case Enter(c) => NoncesEnter(s, c);
    case SignCall(h, signs) => NoncesSign(s, h, signs);
    case _ => NoncesOther(s, step);
  }

  /** Nonces count up from zero without gap or repeat in the order in which sends are numbered. */
  lemma NoncesCountSends(states: seq<System>)
    requires R.IsRun(states)
    ensures NoncesCount(R.Last(states))
  {
    forall s, step | R.Enabled(s, step) {
      NoncesStep(s, step);
    }
    R.RunInduction(states, s => NoncesCount(s));
  }

  // ---- What reaches the miner ----

  /** What the manager submits is the signed envelope of a handle, to succeed and without logs. */
  ghost predicate OwnSubmissions(s: System) {
    && |s.l1.submitted| == |s.origins|
    && forall i :: 0 <= i < |s.origins| && s.origins[i].Some? ==> IsOwn(s.l1.submitted[i], s.issued, s.origins[i].value)
  }

  ghost predicate IsOwn(tx: PendingTransaction, issued: map<Handle, Envelope>, h: Handle) {
    h in issued && tx.envelope == issued[h] && tx.logs == [] && tx.success
  }

  lemma OwnStage(s: System, n: nat)
    ensures Receipts.Registered(s) && OwnSubmissions(s) ==> OwnSubmissions(R.StageStep(s, n))
  {
    if Receipts.Registered(s) && OwnSubmissions(s) {
      var t, moved := R.StageStep(s, n), s.inner.pending[..Min(n, |s.inner.pending|)];
      forall i | 0 <= i < |t.origins| && t.origins[i].Some?
        ensures IsOwn(t.l1.submitted[i], t.issued, t.origins[i].value)
      {
        if i >= |s.origins| {
          assert moved[i - |s.origins|] in s.inner.pending;
        }
      }
    }
  }

  lemma OwnCall(s: System, op: Op)
    requires R.Enabled(s, R.MinerCall(op))
    ensures OwnSubmissions(s) ==> OwnSubmissions(R.Next(s, R.MinerCall(op)))
  {
  }

  lemma OwnStep(s: System, step: R.Step)
    requires R.Enabled(s, step)
    ensures Receipts.Registered(s) && OwnSubmissions(s) ==> OwnSubmissions(R.Next(s, step))
  {
    match step
    case Stage(n) => OwnStage(s, n);
    case MinerCall(op) => OwnCall(s, op);
    case SignCall(h, signs) => OwnSign(s, h, signs);
    case _ => OthersLeaveTheMiner(s, step);
  }

  /** The other steps neither stage nor sign nor call the miner. */
  lemma OthersLeaveTheMiner(s: System, step: R.Step)
    requires R.Enabled(s, step) && !step.Stage? && !step.MinerCall? && !step.SignCall?
    ensures var t := R.Next(s, step);
            t.l1 == s.l1 && t.origins == s.origins && t.stagedEver == s.stagedEver && t.issued == s.issued
    ensures step.Enter? || R.Next(s, step).asked == s.asked
  {
  }

  lemma OwnSign(s: System, h: Handle, signs: bool)
    requires R.Enabled(s, R.SignCall(h, signs))
    ensures Receipts.Registered(s) && OwnSubmissions(s) ==> OwnSubmissions(R.SignStep(s, h, signs))
  {
    if Receipts.Registered(s) {
      assert Receipts.CallRegistered(s, h);
    }
  }

  ghost predicate RegisteredAndOwn(s: System) {
    Receipts.Registered(s) && OwnSubmissions(s)
  }

  lemma RegisteredAndOwnStep(s: System, step: R.Step)
    requires R.Enabled(s, step)
    ensures RegisteredAndOwn(s) ==> RegisteredAndOwn(R.Next(s, step))
  {
    Receipts.RegisteredStep(s, step);
    OwnStep(s, step);
  }

  lemma OwnSubmissionsArePlain(states: seq<System>)
    requires R.IsRun(states)
    ensures OwnSubmissions(R.Last(states))
  {
    forall s, step | R.Enabled(s, step) {
      RegisteredAndOwnStep(s, step);
    }
    R.RunInduction(states, s => RegisteredAndOwn(s));
  }

  // ---- A transaction and its blobs travel together ----

  ghost predicate AllIn(blobs: seq<Sidecar>, among: seq<Sidecar>) {
    forall x :: x in blobs ==> x in among
  }

  ghost predicate Holds(b: L1Block, e: Envelope, blobs: seq<Sidecar>) {
    e in b.transactions && AllIn(blobs, b.sidecars)
  }

  /** The transaction waits at the miner with its blobs, or was mined with them in one block. */
  ghost predicate Together(l1: History, e: Envelope, blobs: seq<Sidecar>) {
    || (e in Envelopes(l1.miner.queue) && AllIn(blobs, l1.miner.blobs))
    || exists b :: b in l1.mined && Holds(b, e, blobs)
  }

  lemma CallKeepsTogether(l1: History, op: Op, e: Envelope, blobs: seq<Sidecar>)
    requires l1.miner.blocks != []
    ensures Together(l1, e, blobs) ==> Together(Extend(l1, op), e, blobs)
  {
    if Together(l1, e, blobs) {
      var n := Extend(l1, op);
      if e in Envelopes(l1.miner.queue) && AllIn(blobs, l1.miner.blobs) {
        if op.Mine? {
          var b := NextBlock(l1.miner, op.bloom);
          assert Holds(b, e, blobs) && n.mined == l1.mined + [b];
        } else {
          QueueGrows(l1.miner, op, e);
        }
      } else {
        var b :| b in l1.mined && Holds(b, e, blobs);
        assert b in n.mined;
      }
    }
  }

  lemma QueueGrows(m: State, op: Op, e: Envelope)
    requires m.blocks != [] && !op.Mine? && e in Envelopes(m.queue)
    ensures e in Envelopes(Apply(m, op).queue) && m.blobs <= Apply(m, op).blobs
  {
    var i :| 0 <= i < |m.queue| && m.queue[i].envelope == e;
    assert Envelopes(Apply(m, op).queue)[i] == e;
  }

  lemma {:induction false} StagedBlobsHold(ps: seq<Pending>, p: Pending)
    requires p in ps
    ensures AllIn(p.blobs, StagedBlobs(ps))
  {
    var init, last := ps[..|ps| - 1], ps[|ps| - 1];
    SplitLast(ps);
    if p in init {
      StagedBlobsHold(init, p);
    }
  }

  lemma StagingPutsTogether(l1: History, ps: seq<Pending>, p: Pending)
    requires p in ps
    ensures Together(R.StagedHistory(l1, ps), p.envelope, p.blobs)
  {
    var n := R.StagedHistory(l1, ps);
    var i :| 0 <= i < |ps| && ps[i] == p;
    assert Envelopes(n.miner.queue)[|l1.miner.queue| + i] == p.envelope;
    StagedBlobsHold(ps, p);
  }

  lemma StagingKeepsTogether(l1: History, ps: seq<Pending>, e: Envelope, blobs: seq<Sidecar>)
    ensures Together(l1, e, blobs) ==> Together(R.StagedHistory(l1, ps), e, blobs)
  {
    var n := R.StagedHistory(l1, ps);
    if e in Envelopes(l1.miner.queue) {
      var i :| 0 <= i < |l1.miner.queue| && l1.miner.queue[i].envelope == e;
      assert Envelopes(n.miner.queue)[i] == e;
    }
  }

  /** Everything staged so far is together with its blobs. */
  ghost predicate StagedTogether(s: System) {
    forall h :: h in s.stagedEver ==> h in s.issued && h in s.asked && Together(s.l1, s.issued[h], s.asked[h].blobs)
  }

  lemma TogetherStage(s: System, n: nat)
    ensures Receipts.Registered(s) && Faithful(s) && StagedTogether(s) ==> StagedTogether(R.StageStep(s, n))
  {
    if Receipts.Registered(s) && Faithful(s) && StagedTogether(s) {
      var t, moved := R.StageStep(s, n), s.inner.pending[..Min(n, |s.inner.pending|)];
      forall h | h in t.stagedEver
        ensures h in t.issued && h in t.asked && Together(t.l1, t.issued[h], t.asked[h].blobs)
      {
        if h in s.stagedEver {
          StagingKeepsTogether(s.l1, moved, s.issued[h], s.asked[h].blobs);
        } else {
          var i :| 0 <= i < |moved| && R.Responders(moved)[i] == h;
          assert moved[i] in s.inner.pending;
          StagingPutsTogether(s.l1, moved, moved[i]);
        }
      }
    }
  }

  lemma TogetherCall(s: System, op: Op)
    requires R.Enabled(s, R.MinerCall(op))
    ensures StagedTogether(s) ==> StagedTogether(R.Next(s, R.MinerCall(op)))
  {
    if StagedTogether(s) {
      forall h | h in s.stagedEver ensures Together(Extend(s.l1, op), s.issued[h], s.asked[h].blobs) {
        CallKeepsTogether(s.l1, op, s.issued[h], s.asked[h].blobs);
      }
    }
  }

  lemma TogetherSign(s: System, h: Handle, signs: bool)
    requires R.Enabled(s, R.SignCall(h, signs))
    ensures Receipts.Registered(s) && StagedTogether(s) ==> StagedTogether(R.SignStep(s, h, signs))
  {
    if Receipts.Registered(s) {
      assert Receipts.CallRegistered(s, h);
    }
  }

  lemma TogetherEnter(s: System, c: Candidate)
    ensures Faithful(s) && StagedTogether(s) ==> StagedTogether(R.EnterStep(s, c))
  {
  }

  lemma TogetherStep(s: System, step: R.Step)
    requires R.Enabled(s, step)
    ensures Receipts.Registered(s) && Faithful(s) && StagedTogether(s) ==> StagedTogether(R.Next(s, step))
  {
    match step
    case Stage(n) => TogetherStage(s, n);
    case MinerCall(op) => TogetherCall(s, op);
    case SignCall(h, signs) => TogetherSign(s, h, signs);
    case Enter(c) => TogetherEnter(s, c);
    case _ => OthersLeaveTheMiner(s, step);
  }

  ghost predicate CarriedTogether(s: System) {
    Receipts.Registered(s) && Faithful(s) && StagedTogether(s)
  }

  lemma CarriedTogetherStep(s: System, step: R.Step)
    requires R.Enabled(s, step)
    ensures CarriedTogether(s) ==> CarriedTogether(R.Next(s, step))
  {
    Receipts.RegisteredStep(s, step);
    FaithfulStep(s, step);
    TogetherStep(s, step);
  }

  /**
   * Whatever else goes on at the miner, a staged transaction and all blobs it was asked to carry wait there
   * together or were mined in one block, so the blobs are found in the block that holds the transaction.
   */
  lemma BlobsTravelWithTheirTransaction(states: seq<System>)
    requires R.IsRun(states)
    ensures StagedTogether(R.Last(states))
  {
    forall s, step | R.Enabled(s, step) {
      CarriedTogetherStep(s, step);
    }
    R.RunInduction(states, s => CarriedTogether(s));
  }

  // ---- Injected errors ----

  ghost predicate NothingInjected(s: System, t: System) {
    t.inner.failRemaining <= s.inner.failRemaining && t.inner.blockedRemaining <= s.inner.blockedRemaining
  }

  /** What is left of `n` injected errors after `k` sends have used them up first. */
  ghost function Left(n: nat, k: int): nat {
    if k <= 0 then n else if k < n then n - k else 0
  }

  /** From `s` to `t` sends have used up injected failures first and then injected rejections, one each. */
  ghost predicate UsedUp(s: System, t: System) {
    var sends := t.nextHandle - s.nextHandle;
    && sends >= 0
    && t.inner.failRemaining == Left(s.inner.failRemaining, sends)
    && t.inner.blockedRemaining == Left(s.inner.blockedRemaining, sends - s.inner.failRemaining)
  }

  /** One step is no send and uses nothing, or a send that uses one error if there is one. */
  ghost predicate UsesOne(s: System, t: System) {
    var sends, fails, rejects := t.nextHandle - s.nextHandle,
                                 s.inner.failRemaining - t.inner.failRemaining,
                                 s.inner.blockedRemaining - t.inner.blockedRemaining;
    || sends == fails == rejects == 0
    || (sends == 1 && if s.inner.failRemaining > 0 then fails == 1 && rejects == 0
                      else fails == 0 && rejects == if s.inner.blockedRemaining > 0 then 1 else 0)
  }

  /** How the test controls move: only the step meant for it changes a control upward, by exactly what it says. */
  lemma ControlsMove(s: System, step: R.Step)
    requires R.Enabled(s, step) && !step.Enter?
    ensures var t := R.Next(s, step);
            && t.nextHandle == s.nextHandle
            && t.inner.failRemaining == s.inner.failRemaining + (if step.FailNext? then step.n else 0)
            && t.inner.blockedRemaining == s.inner.blockedRemaining + (if step.BlockNext? then step.n else 0)
            && t.inner.cancellations == s.inner.cancellations + if step.Cancel? then 1 else 0
  {
  }

  lemma ReachedUsesOne(s: System, t: System)
    requires R.Reached(s, t) && NothingInjected(s, t)
    ensures UsesOne(s, t)
  {
    var step :| R.Enabled(s, step) && t == R.Next(s, step);
    if !step.Enter? {
      ControlsMove(s, step);
    }
  }

  lemma {:induction false} ErrorsAreUsedUp(states: seq<System>, i: nat, j: nat)
    requires i <= j < |states| && forall m :: i < m <= j ==> UsesOne(states[m - 1], states[m])
    ensures UsedUp(states[i], states[j])
    decreases j
  {
    if i < j {
      ErrorsAreUsedUp(states, i, j - 1);
      assert UsesOne(states[j - 1], states[j]);
    }
  }

  /** A send that is turned away is answered at once, and nothing else happens. */
  ghost predicate TurnedAway(s: System, t: System, error: SendError) {
    t.plans == s.plans + [[Resolve(s.nextHandle, Failed(error))]] && t.calls == s.calls
  }

  /**
   * After `f` failures and `b` rejections are injected, the next `f` sends fail, the `b` after them are
   * rejected and the ones after that go in, whatever happens in between short of injecting more.
   */
  lemma InjectedErrorsComeFirst(states: seq<System>, i: nat, j: nat, c: Candidate)
    requires R.IsRun(states) && i <= j < |states|
    requires forall m :: i < m <= j ==> NothingInjected(states[m - 1], states[m])
    ensures var s, t := states[j], R.Next(states[j], R.Enter(c));
            var f, b := states[i].inner.failRemaining, states[i].inner.blockedRemaining;
            var sends := s.nextHandle - states[i].nextHandle;
            if sends < f then TurnedAway(s, t, Rpc)
            else if sends < f + b then TurnedAway(s, t, AlreadyReserved)
            else t.plans == s.plans && t.calls == s.calls[s.nextHandle := R.Entered(c)]
  {
    forall m | i < m <= j ensures UsesOne(states[m - 1], states[m]) {
      assert R.Reached(states[m - 1], states[m]) && NothingInjected(states[m - 1], states[m]);
      ReachedUsesOne(states[m - 1], states[m]);
    }
    ErrorsAreUsedUp(states, i, j);
  }

  // ---- An uninterrupted send ----

  /** The steps of one send, taken without interruption. */
  ghost function SendSteps(s: System, c: Candidate, signs: bool): System {
    var h, entered := s.nextHandle, R.EnterStep(s, c);
    if h !in entered.calls || !entered.calls[h].Entered? then entered
    else
      var numbered := R.Next(entered, R.AllocateNonce(h));
      var signed := R.Next(numbered, R.SignCall(h, signs));
      if signs then R.Next(signed, R.Enqueue(h)) else signed
  }

  lemma RejectedSend(s: System, c: Candidate, signs: bool, error: SendError)
    requires s.nextHandle !in s.calls && Admit(s.inner).1 == Some(error)
    ensures var t := SendSteps(s, c, signs);
            && t.inner == Admit(s.inner).0 && t.calls == s.calls
            && t.plans == s.plans + [[Resolve(s.nextHandle, Failed(error))]]
  {
  }

  lemma UnsignedSend(s: System, c: Candidate)
    requires s.nextHandle !in s.calls && Admit(s.inner).1.None?
    ensures var t := SendSteps(s, c, false);
            && t.inner == s.inner.(nextNonce := s.inner.nextNonce + 1) && t.calls == s.calls
            && t.plans == s.plans + [[Resolve(s.nextHandle, Failed(Sign))]]
  {
  }

  lemma SignedSend(s: System, c: Candidate)
    requires s.nextHandle !in s.calls && Admit(s.inner).1.None?
    ensures var t, p := SendSteps(s, c, true), Submission(s.config, c, s.inner.nextNonce, s.nextHandle);
            && t.inner == s.inner.(nextNonce := s.inner.nextNonce + 1, pending := s.inner.pending + [p])
            && t.calls == s.calls && t.plans == s.plans
  {
  }

  /**
   * The steps of one send, taken without interruption, do what an uninterrupted send does: turn it away,
   * use up a nonce and answer that it cannot be signed, or queue what was asked for last.
   */
  lemma UninterruptedSend(s: System, c: Candidate, signs: bool)
    requires s.nextHandle !in s.calls
    ensures var h, t, (admitted, rejected) := s.nextHandle, SendSteps(s, c, signs), Admit(s.inner);
            && t.calls == s.calls
            && match rejected
               case Some(error) => t.inner == admitted && t.plans == s.plans + [[Resolve(h, Failed(error))]]
               case None =>
                 var numbered := admitted.(nextNonce := s.inner.nextNonce + 1);
                 if signs
                 then t.inner == numbered.(pending := s.inner.pending + [Submission(s.config, c, s.inner.nextNonce, h)])
                      && t.plans == s.plans
                 else t.inner == numbered && t.plans == s.plans + [[Resolve(h, Failed(Sign))]]
  {
    match Admit(s.inner).1
    case Some(error) => RejectedSend(s, c, signs, error);
    case None =>
      if signs {
        SignedSend(s, c);
      } else {
        UnsignedSend(s, c);
      }
  }
}
