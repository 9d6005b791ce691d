/** What `mine_block` does from any state any interleaving can reach, while sends go on beside it. */
module TxManagerMining {
  import opened Basics
  import opened L1Chain
  import opened Miner
  import opened MinerRuns
  import opened TxManager
  import opened TxManagerReceipts
  import R = TxManagerRuns

  /** Stage everything pending, mine, and confirm the mined block. */
  ghost function Mined(s: System, bloom: nat): (System, L1Block)
    requires s.l1.miner.blocks != []
  {
    var staged := R.StageStep(s, |s.inner.pending|);
    var block := NextBlock(staged.l1.miner, bloom);
    (R.ConfirmStep(staged.(l1 := Extend(staged.l1, Mine(bloom))), block), block)
  }

  /** The submissions whose transaction is not among `envelopes`, in order. */
  ghost function NotAmong(ps: seq<Pending>, envelopes: seq<Envelope>): seq<Pending> {
    if ps == [] then []
    else
      var last := ps[|ps| - 1];
      NotAmong(ps[..|ps| - 1], envelopes) + if last.envelope in envelopes then [] else [last]
  }

  lemma {:induction false} StillStagedNotAmong(ps: seq<Pending>, block: L1Block, envelopes: seq<Envelope>)
    requires ReceiptsAligned(block)
    requires forall p :: p in ps ==> (p.envelope in block.transactions <==> p.envelope in envelopes)
    ensures StillStaged(ps, block) == NotAmong(ps, envelopes)
  {
    if ps != [] {
      var init, last := ps[..|ps| - 1], ps[|ps| - 1];
      assert ps == init + [last];
      StillStagedNotAmong(init, block, envelopes);
      ReceiptIffIncluded(last, block);
    }
  }

  lemma {:induction false} StillStagedIncluded(ps: seq<Pending>, qs: seq<Pending>, block: L1Block)
    requires ReceiptsAligned(block)
    requires forall q :: q in qs ==> q.envelope in block.transactions
    ensures StillStaged(ps + qs, block) == StillStaged(ps, block)
  {
    if qs == [] {
      assert ps + qs == ps;
    } else {
      var init, last := qs[..|qs| - 1], qs[|qs| - 1];
      StillStagedIncluded(ps, init, block);
      assert (ps + qs)[..|ps + qs| - 1] == ps + init;
      ReceiptIffIncluded(last, block);
    }
  }

  lemma MultiplicityOne<T>(xs: seq<T>, i: nat, j: nat)
    requires i < |xs| && j < |xs| && xs[i] == xs[j] && multiset(xs)[xs[i]] <= 1
    ensures i == j
  {
    if i < j {
      TwoPlaces(xs, i, j);
    } else if j < i {
      TwoPlaces(xs, j, i);
    }
  }

  /** Two different handles never share an envelope. */
  lemma StagedAndPendingDiffer(s: System, p: Pending, q: Pending)
    requires Sound(s) && p in s.inner.staged && q in s.inner.pending
    ensures p.envelope != q.envelope
  {
    var i :| 0 <= i < |s.inner.pending| && s.inner.pending[i] == q;
    assert R.Responders(s.inner.pending)[i] == q.responder;
    assert Travelled(s, q.responder) <= 1;
    assert p.responder in multiset(s.stagedEver);
    assert p.responder != q.responder;
  }

  /** The transactions of the mined block: what was queued, then what was pending. */
  lemma MinedTransactions(s: System, bloom: nat, e: Envelope)
    requires s.l1.miner.blocks != []
    ensures e in Mined(s, bloom).1.transactions <==>
            e in Envelopes(s.l1.miner.queue) || exists q :: q in s.inner.pending && q.envelope == e
  {
    var pending := s.inner.pending;
    assert pending[..|pending|] == pending;
    var queue, more := s.l1.miner.queue, StagedQueue(pending);
    EnvelopesConcat(queue, more);
    assert Mined(s, bloom).1.transactions == Envelopes(queue) + Envelopes(more);
    if e in Envelopes(more) {
      var i :| 0 <= i < |more| && Envelopes(more)[i] == e;
      assert pending[i] in pending && pending[i].envelope == e;
    }
    forall q | q in pending && q.envelope == e ensures e in Envelopes(more) {
      var i :| 0 <= i < |pending| && pending[i] == q;
      assert Envelopes(more)[i] == e;
    }
  }

  lemma {:induction false} ForeignOfOwn(envelopes: seq<Envelope>, origins: seq<Option<Handle>>, more: seq<Envelope>,
                                        hs: seq<Handle>)
    requires |envelopes| == |origins| && |more| == |hs|
    ensures ForeignOf(envelopes + more, origins + R.OwnOrigins(hs)) == ForeignOf(envelopes, origins)
  {
    if hs == [] {
      assert envelopes + more == envelopes && origins + R.OwnOrigins(hs) == origins;
    } else {
      var n := |hs| - 1;
      ForeignOfOwn(envelopes, origins, more[..n], hs[..n]);
      var all, envs := origins + R.OwnOrigins(hs), envelopes + more;
      assert all[..|all| - 1] == origins + R.OwnOrigins(hs[..n]);
      assert envs[..|all| - 1] == envelopes + more[..n];
    }
  }

  /** Staging adds nothing foreign. */
  lemma StagingIsNotForeign(s: System, n: nat)
    requires Sound(s)
    ensures Recorded(R.StageStep(s, n)) && Foreign(R.StageStep(s, n)) == Foreign(s)
  {
    var moved := s.inner.pending[..Min(n, |s.inner.pending|)];
    RecordedStage(s, n);
    StageRecords(s, n, moved);
    EnvelopesConcat(s.l1.submitted, StagedQueue(moved));
    ForeignOfOwn(Envelopes(s.l1.submitted), s.origins, Envelopes(StagedQueue(moved)), R.Responders(moved));
  }

  lemma CountInQueue<T>(all: seq<T>, mined: seq<T>, queued: seq<T>, x: T)
    requires all == mined + queued
    ensures multiset(queued)[x] <= multiset(all)[x]
  {
  }

  /** Unless somebody else submitted an equal envelope, a staged submission is queued at most once. */
  lemma QueuedOnce(s: System, p: Pending)
    requires Sound(s) && p in s.inner.staged && p.envelope !in Foreign(s)
    ensures multiset(Envelopes(s.l1.miner.queue))[p.envelope] <= 1
  {
    SubmittedExactlyOnce(s, p.responder);
    SubmissionsAreMinedInOrder(s.l1);
    var earlier := AllContents(s.l1.mined);
    EnvelopesConcat(earlier, s.l1.miner.queue);
    CountInQueue(Envelopes(s.l1.submitted), Envelopes(earlier), Envelopes(s.l1.miner.queue), p.envelope);
  }

  /** Nor does it stand in the mined block more than once. */
  lemma IncludedOnce(s: System, bloom: nat, p: Pending, i: nat, j: nat)
    requires Sound(s) && (p in s.inner.staged || p in s.inner.pending) && p.envelope !in Foreign(s)
    requires var txs := Mined(s, bloom).1.transactions;
             i < |txs| && j < |txs| && txs[i] == txs[j] == p.envelope
    ensures i == j
  {
    var n := |s.inner.pending|;
    var t := R.StageStep(s, n);
    SoundStep(s, R.Stage(n));
    assert s.inner.pending[..n] == s.inner.pending;
    assert p in t.inner.staged;
    StagingIsNotForeign(s, n);
    QueuedOnce(t, p);
    MultiplicityOne(Envelopes(t.l1.miner.queue), i, j);
  }

  /** A staged submission is still queued at the miner or was mined earlier. */
  lemma StagedIsQueuedOrMined(s: System, p: Pending)
    requires Sound(s) && p in s.inner.staged
    ensures p.envelope in Envelopes(s.l1.miner.queue) || p.envelope in Envelopes(AllContents(s.l1.mined))
  {
    SubmittedExactlyOnce(s, p.responder);
    SubmissionsAreMinedInOrder(s.l1);
    EnvelopesConcat(AllContents(s.l1.mined), s.l1.miner.queue);
    assert p.envelope in multiset(Envelopes(s.l1.submitted));
  }

  /** The waiting submissions after mining are those already mined earlier, in order. */
  lemma WaitingAfterMining(s: System, bloom: nat)
    requires Sound(s)
    ensures StillStaged(s.inner.staged + s.inner.pending, Mined(s, bloom).1)
         == NotAmong(s.inner.staged, Envelopes(s.l1.miner.queue))
  {
    var block, queued := Mined(s, bloom).1, Envelopes(s.l1.miner.queue);
    NextBlockAligned(R.StageStep(s, |s.inner.pending|).l1.miner, bloom);
    forall q | q in s.inner.pending ensures q.envelope in block.transactions {
      MinedTransactions(s, bloom, q.envelope);
    }
    forall p | p in s.inner.staged ensures p.envelope in block.transactions <==> p.envelope in queued {
      MinedTransactions(s, bloom, p.envelope);
      forall q | q in s.inner.pending ensures q.envelope != p.envelope {
        StagedAndPendingDiffer(s, p, q);
      }
    }
    StillStagedIncluded(s.inner.staged, s.inner.pending, block);
    StillStagedNotAmong(s.inner.staged, block, queued);
  }

  /**
   * The answer to a submission included in the mined block: the receipt at the first index where its
   * envelope stands, which is the only one unless somebody else submitted an equal envelope.
   */
  ghost predicate AnsweredAt(s: System, block: L1Block, p: Pending, i: nat)
    requires Recorded(s)
  {
    && i < |block.transactions| == |block.rpcReceipts|
    && FirstAt(block.transactions, p.envelope, i)
    && (p.envelope !in Foreign(s) ==>
          forall j :: 0 <= j < |block.transactions| && block.transactions[j] == p.envelope ==> j == i)
    && Resolve(p.responder, Confirmed(block.rpcReceipts[i])) in Confirmations(s.inner.staged + s.inner.pending, block)
  }

  ghost predicate AnsweredBy(s: System, bloom: nat, p: Pending) {
    s.l1.miner.blocks != [] && Recorded(s) && exists i: nat :: AnsweredAt(s, Mined(s, bloom).1, p, i)
  }

  lemma {:induction false} FirstOf<T>(xs: seq<T>, x: T) returns (i: nat)
    requires x in xs
    ensures i < |xs| && xs[i] == x && forall j :: 0 <= j < i ==> xs[j] != x
  {
    if xs[0] == x {
      i := 0;
    } else {
      i := FirstOf(xs[1..], x);
      i := i + 1;
    }
  }

  lemma IncludedIsAnswered(s: System, bloom: nat, p: Pending)
    requires Sound(s) && (p in s.inner.staged || p in s.inner.pending)
    requires p.envelope in Mined(s, bloom).1.transactions
    ensures AnsweredBy(s, bloom, p)
  {
    var block, all := Mined(s, bloom).1, s.inner.staged + s.inner.pending;
    NextBlockAligned(R.StageStep(s, |s.inner.pending|).l1.miner, bloom);
    var i := FirstOf(block.transactions, p.envelope);
    forall j | p.envelope !in Foreign(s) && 0 <= j < |block.transactions| && block.transactions[j] == p.envelope
      ensures j == i
    {
      IncludedOnce(s, bloom, p, i, j);
    }
    ReceiptIffIncluded(p, block);
    assert FirstAt(block.transactions, p.envelope, i);
    assert p in all;
    ConfirmationsIn(all, block, Resolve(p.responder, Confirmed(block.rpcReceipts[i])));
    assert AnsweredAt(s, block, p, i);
  }

  /** Every pending submission and every staged one still queued is answered. */
  lemma QueuedIsAnswered(s: System, bloom: nat, p: Pending)
    requires Sound(s)
    requires p in s.inner.pending || (p in s.inner.staged && p.envelope in Envelopes(s.l1.miner.queue))
    ensures AnsweredBy(s, bloom, p)
  {
    MinedTransactions(s, bloom, p.envelope);
    IncludedIsAnswered(s, bloom, p);
  }

  /** What mining leaves behind. */
  lemma AfterMining(s: System, bloom: nat)
    requires Sound(s)
    ensures var (t, block) := Mined(s, bloom);
            && t.l1.miner.blocks == s.l1.miner.blocks + [block]
            && t.inner.pending == []
            && t.inner.staged == NotAmong(s.inner.staged, Envelopes(s.l1.miner.queue))
  {
    assert s.inner.pending[..|s.inner.pending|] == s.inner.pending;
    WaitingAfterMining(s, bloom);
  }

  // ---- Beside it, sends go on ----

  /**
   * What other tasks can do while the miner is borrowed: send, drop, cancel, inject and emit, but neither
   * call the miner nor stage, confirm or reorg.
   */
  ghost predicate Beside(s: System, t: System) {
    exists step :: R.Enabled(s, step) && t == R.Next(s, step)
      && !step.Stage? && !step.Confirm? && !step.FailAll? && !step.MinerCall?
  }

  ghost predicate OnlyBeside(states: seq<System>, i: nat, j: nat)
    requires i <= j < |states|
  {
    forall m :: i < m <= j ==> Beside(states[m - 1], states[m])
  }

  /** Nothing that `mine_block` looks at later has changed. */
  ghost predicate SameForMining(s: System, t: System) {
    && t.config == s.config && t.l1 == s.l1 && t.inner.staged == s.inner.staged && t.stagedEver == s.stagedEver
  }

  lemma BesideStepChangesNothing(s: System, step: R.Step)
    requires R.Enabled(s, step) && !step.Stage? && !step.Confirm? && !step.FailAll? && !step.MinerCall?
    ensures SameForMining(s, R.Next(s, step))
  {
  }

  lemma BesideChangesNothing(s: System, t: System)
    ensures Beside(s, t) ==> SameForMining(s, t)
  {
    if Beside(s, t) {
      var step :| R.Enabled(s, step) && t == R.Next(s, step)
                  && !step.Stage? && !step.Confirm? && !step.FailAll? && !step.MinerCall?;
      BesideStepChangesNothing(s, step);
    }
  }

  ghost predicate SameSteps(states: seq<System>, i: nat, j: nat)
    requires i <= j < |states|
  {
    forall m :: i < m <= j ==> SameForMining(states[m - 1], states[m])
  }

  lemma {:induction false} SameStepsChangeNothing(states: seq<System>, i: nat, j: nat)
    requires i <= j < |states| && SameSteps(states, i, j)
    ensures SameForMining(states[i], states[j])
    decreases j
  {
    if i < j {
      SameStepsChangeNothing(states, i, j - 1);
      assert SameForMining(states[j - 1], states[j]);
    }
  }

  lemma OnlyBesideChangesNothing(states: seq<System>, i: nat, j: nat)
    requires i <= j < |states| && OnlyBeside(states, i, j)
    ensures SameForMining(states[i], states[j])
  {
    forall m | i < m <= j ensures SameForMining(states[m - 1], states[m]) {
      BesideChangesNothing(states[m - 1], states[m]);
    }
    SameStepsChangeNothing(states, i, j);
  }

  /**
   * One `mine_block` in a run: it stages everything at step `i`, mines at step `j` and confirms the mined
   * block at step `k`, and in between other tasks take any steps they can.
   */
  ghost predicate MinesBetween(states: seq<System>, i: nat, j: nat, k: nat, bloom: nat) {
    && i < j < k < |states| - 1 && states[j].l1.miner.blocks != []
    && states[i + 1] == R.StageStep(states[i], |states[i].inner.pending|)
    && OnlyBeside(states, i + 1, j)
    && states[j + 1] == R.Next(states[j], R.MinerCall(Mine(bloom)))
    && OnlyBeside(states, j + 1, k)
    && states[k + 1] == R.ConfirmStep(states[k], NextBlock(states[j].l1.miner, bloom))
  }

  /** What the call owes to responders and to the head channel. */
  ghost function Answers(s: System, bloom: nat): seq<Effect>
    requires s.l1.miner.blocks != []
  {
    var block := Mined(s, bloom).1;
    Confirmations(s.inner.staged + s.inner.pending, block) + HeadEvent(s.config, block.Number())
  }

  /** Staging, mining and confirming add up to the uninterrupted call. */
  lemma MiningParts(s: System, t: System, u: System, bloom: nat)
    requires s.l1.miner.blocks != [] && SameForMining(R.StageStep(s, |s.inner.pending|), t)
    requires t.l1.miner.blocks != [] && SameForMining(R.Next(t, R.MinerCall(Mine(bloom))), u)
    ensures var mined, end := Mined(s, bloom).0, R.ConfirmStep(u, NextBlock(t.l1.miner, bloom));
            && end.l1 == mined.l1 && end.inner.staged == mined.inner.staged && end.stagedEver == mined.stagedEver
            && end.inner.pending == u.inner.pending
            && end.plans == u.plans + [Answers(s, bloom)]
  {
    assert s.inner.pending[..|s.inner.pending|] == s.inner.pending;
  }

  /** It has the effect of the uninterrupted call, and what arrived meanwhile stays pending. */
  lemma InterleavedMining(states: seq<System>, i: nat, j: nat, k: nat, bloom: nat)
    requires MinesBetween(states, i, j, k, bloom) && states[i].l1.miner.blocks != []
    ensures var s, t := states[i], states[k + 1];
            var mined := Mined(s, bloom).0;
            && t.l1 == mined.l1 && t.inner.staged == mined.inner.staged && t.stagedEver == mined.stagedEver
            && t.inner.pending == states[k].inner.pending
            && t.plans == states[k].plans + [Answers(s, bloom)]
  {
    OnlyBesideChangesNothing(states, i + 1, j);
    OnlyBesideChangesNothing(states, j + 1, k);
    MiningParts(states[i], states[j], states[k], bloom);
  }

  lemma RunUpTo(states: seq<System>, n: nat)
    requires R.IsRun(states) && n < |states|
    ensures R.IsRun(states[..n + 1]) && R.Last(states[..n + 1]) == states[n]
  {
    var some := states[..n + 1];
    assert forall m :: 0 <= m < |some| ==> some[m] == states[m];
  }

  lemma SoundThroughout(states: seq<System>, n: nat)
    requires R.IsRun(states) && n < |states|
    ensures Sound(states[n])
  {
    RunUpTo(states, n);
    RunSound(states[..n + 1]);
  }

  /** What is still pending is not staged, now or ever before. */
  lemma PendingIsNotStaged(s: System, p: Pending)
    requires Sound(s) && p in s.inner.pending
    ensures p.responder !in s.stagedEver
  {
    var i :| 0 <= i < |s.inner.pending| && s.inner.pending[i] == p;
    assert R.Responders(s.inner.pending)[i] == p.responder;
    assert Travelled(s, p.responder) <= 1;
    assert p.responder in s.stagedEver ==> p.responder in multiset(s.stagedEver);
  }

  /**
   * What mining from state `s` should come to. The chain grows by exactly one block. Every submission pending
   * and every staged one still queued at the miner is answered with the receipt at the first index where its
   * envelope stands in that block, its only index unless somebody else submitted an equal envelope. Exactly
   * the staged submissions whose envelope is not queued keep waiting, in order, and those were mined
   * earlier; if there are none, nothing stays staged.
   */
  ghost predicate AnswersEverything(s: System, bloom: nat, blocks: seq<L1Block>, staged: seq<Pending>) {
    && s.l1.miner.blocks != []
    && var queued := Envelopes(s.l1.miner.queue);
       && blocks == s.l1.miner.blocks + [Mined(s, bloom).1]
       && (forall p :: p in s.inner.pending ==> AnsweredBy(s, bloom, p))
       && (forall p :: p in s.inner.staged && p.envelope in queued ==> AnsweredBy(s, bloom, p))
       && staged == NotAmong(s.inner.staged, queued)
       && (forall p :: p in staged ==> p.envelope in Envelopes(AllContents(s.l1.mined)))
       && ((forall p :: p in s.inner.staged ==> p.envelope in queued) ==> staged == [])
  }

  lemma MiningAnswers(s: System, bloom: nat, blocks: seq<L1Block>, staged: seq<Pending>)
    requires Sound(s)
    requires blocks == Mined(s, bloom).0.l1.miner.blocks && staged == Mined(s, bloom).0.inner.staged
    ensures AnswersEverything(s, bloom, blocks, staged)
  {
    var queued := Envelopes(s.l1.miner.queue);
    AfterMining(s, bloom);
    forall p | p in s.inner.pending || (p in s.inner.staged && p.envelope in queued) ensures AnsweredBy(s, bloom, p) {
      QueuedIsAnswered(s, bloom, p);
    }
    WaitingWereMined(s);
    if forall p :: p in s.inner.staged ==> p.envelope in queued {
      AllAmong(s.inner.staged, queued);
    }
  }

  ghost predicate PendingUnstaged(t: System) {
    forall p :: p in t.inner.pending ==> p.responder !in t.stagedEver
  }

  lemma SoundMeansUnstaged(t: System)
    ensures Sound(t) ==> PendingUnstaged(t)
  {
    forall p | Sound(t) && p in t.inner.pending ensures p.responder !in t.stagedEver {
      PendingIsNotStaged(t, p);
    }
  }

  lemma UnstagedThroughout(states: seq<System>, n: nat)
    requires R.IsRun(states) && n < |states|
    ensures PendingUnstaged(states[n])
  {
    SoundThroughout(states, n);
    SoundMeansUnstaged(states[n]);
  }

  /**
   * In every run, whatever else happens while it runs, `mine_block` answers everything it should, with the
   * answers sent in staging order before the head event. What was enqueued meanwhile stays pending, unstaged.
   */
  lemma MineBlockAnswersEverythingQueued(states: seq<System>, i: nat, j: nat, k: nat, bloom: nat)
    requires R.IsRun(states) && MinesBetween(states, i, j, k, bloom)
    ensures var s, t := states[i], states[k + 1];
            && AnswersEverything(s, bloom, t.l1.miner.blocks, t.inner.staged)
            && t.plans == states[k].plans + [Answers(s, bloom)]
            && t.inner.pending == states[k].inner.pending && PendingUnstaged(t)
  {
    var s, t := states[i], states[k + 1];
    SoundThroughout(states, i);
    InterleavedMining(states, i, j, k, bloom);
    MiningAnswers(s, bloom, t.l1.miner.blocks, t.inner.staged);
    UnstagedThroughout(states, k + 1);
  }

  lemma WaitingWereMined(s: System)
    requires Sound(s)
    ensures forall p :: p in NotAmong(s.inner.staged, Envelopes(s.l1.miner.queue)) ==>
              p.envelope in Envelopes(AllContents(s.l1.mined))
  {
    forall p | p in NotAmong(s.inner.staged, Envelopes(s.l1.miner.queue))
      ensures p.envelope in Envelopes(AllContents(s.l1.mined))
    {
      NotAmongIn(s.inner.staged, Envelopes(s.l1.miner.queue), p);
      StagedIsQueuedOrMined(s, p);
    }
  }

  lemma {:induction false} NotAmongIn(ps: seq<Pending>, envelopes: seq<Envelope>, p: Pending)
    requires p in NotAmong(ps, envelopes)
    ensures p in ps && p.envelope !in envelopes
  {
    if p != ps[|ps| - 1] || p.envelope in envelopes {
      NotAmongIn(ps[..|ps| - 1], envelopes, p);
    }
  }

  lemma {:induction false} AllAmong(ps: seq<Pending>, envelopes: seq<Envelope>)
    requires forall p :: p in ps ==> p.envelope in envelopes
    ensures NotAmong(ps, envelopes) == []
  {
    if ps != [] {
      AllAmong(ps[..|ps| - 1], envelopes);
    }
  }
}
