/** The order in which the manager's effects are sent, and the order of nonces in its queues. */
module TxManagerOrder {
  import opened Basics
  import opened L1Chain
  import opened Miner
  import opened TxManager
  import opened TxManagerRuns

  // ---- Effects of one section are sent in order ----

  ghost function FromSection(k: nat): Sent -> seq<Effect> {
    (x: Sent) => if x.section == k then [x.effect] else []
  }

  /** What section `k` has sent so far. */
  ghost function SentBy(sent: seq<Sent>, k: nat): seq<Effect> {
    FlatMap(FromSection(k), sent)
  }

  ghost predicate FollowsPlan(plan: seq<Effect>, progress: nat, sent: seq<Effect>) {
    progress <= |plan| && sent == plan[..progress]
  }

  /** Each section has sent a prefix of what it owes, however the sections interleave. */
  ghost predicate InPlannedOrder(plans: seq<seq<Effect>>, progress: seq<nat>, sent: seq<Sent>) {
    && |plans| == |progress|
    && (forall i :: 0 <= i < |sent| ==> sent[i].section < |plans|)
    && (forall k :: 0 <= k < |plans| ==> FollowsPlan(plans[k], progress[k], SentBy(sent, k)))
  }

  ghost predicate SentInOrder(s: System) {
    InPlannedOrder(s.plans, s.progress, s.sent)
  }

  lemma {:induction false} NothingSentBy(sent: seq<Sent>, k: nat)
    requires forall i :: 0 <= i < |sent| ==> sent[i].section < k
    ensures SentBy(sent, k) == []
  {
    if sent != [] {
      NothingSentBy(sent[..|sent| - 1], k);
    }
  }

  lemma OwingInOrder(plans: seq<seq<Effect>>, progress: seq<nat>, sent: seq<Sent>, effects: seq<Effect>)
    requires InPlannedOrder(plans, progress, sent)
    ensures InPlannedOrder(plans + [effects], progress + [0], sent)
  {
    NothingSentBy(sent, |plans|);
  }

  lemma EmitFollowsPlan(plan: seq<Effect>, progress: nat, sent: seq<Effect>)
    requires FollowsPlan(plan, progress, sent) && progress < |plan|
    ensures FollowsPlan(plan, progress + 1, sent + [plan[progress]])
  {
  }

  lemma SentByAppend(sent: seq<Sent>, x: Sent, j: nat)
    ensures SentBy(sent + [x], j) == if x.section == j then SentBy(sent, j) + [x.effect] else SentBy(sent, j)
  {
    FlatMapAppend(FromSection(j), sent, x);
  }

  lemma EmitInSection(plans: seq<seq<Effect>>, progress: seq<nat>, sent: seq<Sent>, k: nat, j: nat)
    requires k < |plans| == |progress| && progress[k] < |plans[k]| && j < |plans|
    requires FollowsPlan(plans[j], progress[j], SentBy(sent, j))
    ensures FollowsPlan(plans[j], progress[k := progress[k] + 1][j], SentBy(sent + [Sent(k, plans[k][progress[k]])], j))
  {
    SentByAppend(sent, Sent(k, plans[k][progress[k]]), j);
    if j == k {
      EmitFollowsPlan(plans[k], progress[k], SentBy(sent, k));
    }
  }

  lemma EmitInOrder(plans: seq<seq<Effect>>, progress: seq<nat>, sent: seq<Sent>, k: nat)
    requires InPlannedOrder(plans, progress, sent)
    requires k < |plans| && progress[k] < |plans[k]|
    ensures InPlannedOrder(plans, progress[k := progress[k] + 1], sent + [Sent(k, plans[k][progress[k]])])
  {
    var progress' := progress[k := progress[k] + 1];
    var sent' := sent + [Sent(k, plans[k][progress[k]])];
    forall j | 0 <= j < |plans| ensures FollowsPlan(plans[j], progress'[j], SentBy(sent', j)) {
      EmitInSection(plans, progress, sent, k, j);
    }
  }

  /** A step sends what a section owes next, or adds at most one section. */
  lemma StepsOnPlans(s: System, step: Step)
    requires Enabled(s, step) && !step.Emit?
    ensures var t := Next(s, step);
            && t.sent == s.sent
            && (|| (t.plans == s.plans && t.progress == s.progress)
                || exists effects :: t.plans == s.plans + [effects] && t.progress == s.progress + [0])
  {
  }

  lemma SentInOrderStep(s: System, step: Step)
    requires Enabled(s, step)
    ensures SentInOrder(s) ==> SentInOrder(Next(s, step))
  {
    var t := Next(s, step);
    if SentInOrder(s) {
      if step.Emit? {
        EmitInOrder(s.plans, s.progress, s.sent, step.section);
      } else {
        StepsOnPlans(s, step);
        if t.plans != s.plans {
          var effects :| t.plans == s.plans + [effects] && t.progress == s.progress + [0];
          OwingInOrder(s.plans, s.progress, s.sent, effects);
        }
      }
    }
  }

  lemma RunSentInOrder(states: seq<System>)
    requires IsRun(states)
    ensures SentInOrder(Last(states))
  {
    forall s, step | Enabled(s, step) {
      SentInOrderStep(s, step);
    }
    RunInduction(states, s => SentInOrder(s));
  }

  lemma PlansGrow(s: System, t: System)
    requires Reached(s, t)
    ensures s.plans <= t.plans
  {
    var step :| Enabled(s, step) && t == Next(s, step);
    if !step.Emit? {
      StepsOnPlans(s, step);
    }
  }

  lemma {:induction false} PlansOnlyGrow(states: seq<System>, i: nat, j: nat)
    requires i <= j < |states| && (forall n :: i < n <= j ==> Reached(states[n - 1], states[n]))
    ensures states[i].plans <= states[j].plans
    decreases j - i
  {
    if i < j {
      PlansOnlyGrow(states, i, j - 1);
      PlansGrow(states[j - 1], states[j]);
    }
  }

  lemma SentByPrefix(sent: seq<Sent>, q: nat, k: nat)
    requires q < |sent| && sent[q].section == k
    ensures SentBy(sent, k) == SentBy(sent[..q], k) + [sent[q].effect] + SentBy(sent[q + 1..], k)
  {
    assert sent == sent[..q] + [sent[q]] + sent[q + 1..];
    FlatMapConcat(FromSection(k), sent[..q] + [sent[q]], sent[q + 1..]);
    FlatMapAppend(FromSection(k), sent[..q], sent[q]);
  }

  /**
   * However other sends, confirmations and reorgs interleave, when the new-head event of a reorg is sent,
   * every failure of that reorg has already been sent, in the order pending before staged.
   */
  lemma FailuresBeforeNewHead(states: seq<System>, i: nat, number: nat, q: nat)
    requires IsRun(states) && i + 1 < |states|
    requires states[i + 1] == Next(states[i], FailAll(number))
    requires q < |Last(states).sent|
    requires Last(states).sent[q] == Sent(|states[i].plans|, NewHead(number))
    ensures var waiting := states[i].inner.pending + states[i].inner.staged;
            var answers := SentBy(Last(states).sent[..q], |states[i].plans|);
            && |answers| == |waiting|
            && forall k :: 0 <= k < |waiting| ==> answers[k] == Resolve(waiting[k].responder, Failed(Rpc))
  {
    var t, k := Last(states), |states[i].plans|;
    var failures := Failures(states[i].inner.pending + states[i].inner.staged);
    FailAllPlan(states[i], number);
    PlansOnlyGrow(states, i + 1, |states| - 1);
    RunSentInOrder(states);
    SentByPlan(t, q);
    NoHeadAmongFailures(states[i].inner.pending + states[i].inner.staged);
    HeadComesLast(t.plans[k], failures, states[i].config, number, SentBy(t.sent[..q], k));
  }

  lemma NoHeadAmongFailures(ps: seq<Pending>)
    ensures forall e :: e in Failures(ps) ==> !e.NewHead?
  {
  }

  lemma FailAllPlan(s: System, number: nat)
    ensures Next(s, FailAll(number)).plans
         == s.plans + [Failures(s.inner.pending + s.inner.staged) + HeadEvent(s.config, number)]
  {
  }

  /** What a section has sent up to and including one effect begins its plan. */
  lemma SentByPlan(s: System, q: nat)
    requires SentInOrder(s) && q < |s.sent|
    ensures s.sent[q].section < |s.plans|
    ensures SentBy(s.sent[..q], s.sent[q].section) + [s.sent[q].effect] <= s.plans[s.sent[q].section]
  {
    SentByPrefix(s.sent, q, s.sent[q].section);
  }

  /** A plan that fails submissions and then announces a head: what comes before the head is all the failures. */
  lemma HeadComesLast(plan: seq<Effect>, failures: seq<Effect>, config: ManagerConfig, number: nat, before: seq<Effect>)
    requires plan == failures + HeadEvent(config, number) && before + [NewHead(number)] <= plan
    requires forall e :: e in failures ==> !e.NewHead?
    ensures before == failures
  {
    assert plan[|before|] == NewHead(number);
    assert forall i :: 0 <= i < |failures| ==> plan[i] in failures;
    assert |before| == |failures|;
    assert before == plan[..|before|] && failures == plan[..|failures|];
  }

  /** What a section that ends with the head owes for it: the head, if the manager announces heads. */
  ghost predicate EndsWithHead(config: ManagerConfig, plan: seq<Effect>, answers: nat, number: nat) {
    if config.publishesHeads then |plan| == answers + 1 && plan[answers] == NewHead(number) else |plan| == answers
  }

  /**
   * A drop owes the closing of what it drops, in order. A confirmation owes only receipts and then the block's
   * number, and a reorg owes one failure for everything waiting, pending first, and then its target.
   */
  lemma SectionsOwe(s: System, step: Step)
    requires Enabled(s, step) && (step.DropPending? || step.Confirm? || step.FailAll?)
    ensures var t, waiting := Next(s, step), s.inner.pending + s.inner.staged;
            && |t.plans| == |s.plans| + 1 && s.plans <= t.plans
            && var plan := t.plans[|s.plans|];
               match step
               case DropPending(n) =>
                 && |plan| == |s.inner.pending| - |t.inner.pending|
                 && (forall k :: 0 <= k < |plan| ==> plan[k] == Close(s.inner.pending[k].responder))
               case Confirm(block) =>
                 && EndsWithHead(s.config, plan, |Confirmations(s.inner.staged, block)|, block.header.number)
                 && (forall e :: e in Confirmations(s.inner.staged, block) ==> e.Resolve? && e.response.Confirmed?)
               case FailAll(number) =>
                 && EndsWithHead(s.config, plan, |waiting|, number)
                 && (forall k :: 0 <= k < |waiting| ==> plan[k] == Resolve(waiting[k].responder, Failed(Rpc)))
               case _ => true
  {
    if step.Confirm? {
      forall e | e in Confirmations(s.inner.staged, step.block) ensures e.Resolve? && e.response.Confirmed? {
        ConfirmationsIn(s.inner.staged, step.block, e);
      }
    }
  }

  // ---- Nonces in the queues ----

  ghost predicate Increasing(ps: seq<Pending>) {
    forall i, j :: 0 <= i < j < |ps| ==> ps[i].envelope.nonce < ps[j].envelope.nonce
  }

  ghost predicate AllBelow(ps: seq<Pending>, nonce: nat) {
    forall p :: p in ps ==> p.envelope.nonce < nonce
  }

  /** The nonce a send in flight has been given, if any. */
  ghost function NonceOf(phase: Phase): Option<nat> {
    match phase
    case Entered(_) => None
    case Numbered(_, nonce) => Some(nonce)
    case Signed(p) => Some(p.envelope.nonce)
  }

  /** Queued nonces increase, and lie below the next nonce and below the nonce of any send in flight. */
  ghost predicate InOrder(queued: seq<Pending>, calls: map<Handle, Phase>, next: nat) {
    && Increasing(queued)
    && AllBelow(queued, next)
    && (forall h :: h in calls && NonceOf(calls[h]).Some? ==>
          NonceOf(calls[h]).value < next && AllBelow(queued, NonceOf(calls[h]).value))
  }

  ghost function Queued(s: System): seq<Pending> {
    s.inner.staged + s.inner.pending
  }

  ghost predicate QueuedInOrder(s: System) {
    InOrder(Queued(s), s.calls, s.inner.nextNonce)
  }

  /** At most one send is in flight. */
  ghost predicate OneSendAtATime(s: System) {
    forall g, h :: g in s.calls && h in s.calls ==> g == h
  }

  lemma {:induction false} StillStagedIncreasing(ps: seq<Pending>, block: L1Block)
    requires Increasing(ps)
    ensures Increasing(StillStaged(ps, block))
  {
    if ps != [] {
      var init := ps[..|ps| - 1];
      StillStagedIncreasing(init, block);
      var last, kept := ps[|ps| - 1], StillStaged(init, block);
      forall p | p in kept ensures p.envelope.nonce < last.envelope.nonce {
        StillStagedIn(init, block, p);
      }
      assert StillStaged(ps, block) == kept || StillStaged(ps, block) == kept + [last];
    }
  }

  /** Dropping some of the staged and some of the pending submissions keeps the rest in order. */
  lemma FewerQueued(ps: seq<Pending>, qs: seq<Pending>, ps': seq<Pending>, qs': seq<Pending>)
    requires Increasing(ps + qs)
    requires Increasing(ps') && Increasing(qs')
    requires (forall p :: p in ps' ==> p in ps) && (forall q :: q in qs' ==> q in qs)
    ensures Increasing(ps' + qs')
    ensures forall n: nat :: AllBelow(ps + qs, n) ==> AllBelow(ps' + qs', n)
  {
    forall p, q | p in ps && q in qs ensures p.envelope.nonce < q.envelope.nonce {
      var i :| 0 <= i < |ps| && ps[i] == p;
      var j :| 0 <= j < |qs| && qs[j] == q;
      assert (ps + qs)[i] == p && (ps + qs)[|ps| + j] == q;
    }
  }

  lemma PartsIncrease(ps: seq<Pending>, qs: seq<Pending>)
    requires Increasing(ps + qs)
    ensures Increasing(ps) && Increasing(qs)
  {
    assert forall i :: 0 <= i < |ps| ==> ps[i] == (ps + qs)[i];
    assert forall i :: 0 <= i < |qs| ==> qs[i] == (ps + qs)[|ps| + i];
  }

  lemma FewerInOrder(queued: seq<Pending>, fewer: seq<Pending>, calls: map<Handle, Phase>, next: nat)
    requires InOrder(queued, calls, next) && Increasing(fewer)
    requires forall n: nat :: AllBelow(queued, n) ==> AllBelow(fewer, n)
    ensures InOrder(fewer, calls, next)
  {
  }

  lemma FewerStaysQueued(s: System, t: System)
    requires QueuedInOrder(s) && t.calls == s.calls && t.inner.nextNonce == s.inner.nextNonce
    requires Increasing(t.inner.staged) && (forall p :: p in t.inner.staged ==> p in s.inner.staged)
    requires Increasing(t.inner.pending) && (forall p :: p in t.inner.pending ==> p in s.inner.pending)
    ensures QueuedInOrder(t)
  {
    FewerQueued(s.inner.staged, s.inner.pending, t.inner.staged, t.inner.pending);
    FewerInOrder(Queued(s), Queued(t), s.calls, s.inner.nextNonce);
  }

  /** Confirming keeps some of the staged submissions, in order. */
  lemma ConfirmKeeps(s: System, block: L1Block)
    requires Increasing(Queued(s))
    ensures var t := ConfirmStep(s, block);
            && Increasing(t.inner.staged) && (forall p :: p in t.inner.staged ==> p in s.inner.staged)
            && Increasing(s.inner.pending)
  {
    PartsIncrease(s.inner.staged, s.inner.pending);
    StillStagedIncreasing(s.inner.staged, block);
    forall p | p in StillStaged(s.inner.staged, block) ensures p in s.inner.staged {
      StillStagedIn(s.inner.staged, block, p);
    }
  }

  /** Dropping keeps the end of what is pending. */
  lemma DropKeeps(s: System, n: nat)
    requires Increasing(Queued(s))
    ensures var t := DropStep(s, n);
            && Increasing(s.inner.staged)
            && Increasing(t.inner.pending) && (forall p :: p in t.inner.pending ==> p in s.inner.pending)
  {
    PartsIncrease(s.inner.staged, s.inner.pending);
  }

  lemma ConfirmQueued(s: System, block: L1Block)
    ensures QueuedInOrder(s) ==> QueuedInOrder(ConfirmStep(s, block))
  {
    if QueuedInOrder(s) {
      ConfirmKeeps(s, block);
      FewerStaysQueued(s, ConfirmStep(s, block));
    }
  }

  lemma DropQueued(s: System, n: nat)
    ensures QueuedInOrder(s) ==> QueuedInOrder(DropStep(s, n))
  {
    if QueuedInOrder(s) {
      DropKeeps(s, n);
      FewerStaysQueued(s, DropStep(s, n));
    }
  }

  lemma AppendQueued(queued: seq<Pending>, p: Pending, next: nat)
    requires Increasing(queued) && AllBelow(queued, p.envelope.nonce)
    requires AllBelow(queued, next) && p.envelope.nonce < next
    ensures InOrder(queued + [p], map[], next)
  {
  }

  lemma EnqueueQueued(s: System, h: Handle)
    requires Enabled(s, Enqueue(h))
    ensures OneSendAtATime(s) && QueuedInOrder(s) ==> QueuedInOrder(Next(s, Enqueue(h)))
  {
    if OneSendAtATime(s) && QueuedInOrder(s) {
      var t, p := Next(s, Enqueue(h)), s.calls[h].p;
      assert NonceOf(s.calls[h]) == Some(p.envelope.nonce);
      AppendQueued(Queued(s), p, s.inner.nextNonce);
      assert Queued(t) == Queued(s) + [p];
      assert t.calls == map[];
    }
  }

  lemma StageQueued(s: System, n: nat)
    ensures QueuedInOrder(s) ==> QueuedInOrder(StageStep(s, n))
  {
    assert Queued(StageStep(s, n)) == Queued(s);
  }

  /** Sends in flight may keep their nonce, go away, or be given the next one. */
  ghost predicate CallsFollow(calls: map<Handle, Phase>, next: nat, calls': map<Handle, Phase>, next': nat) {
    && next <= next'
    && (forall h :: h in calls' && NonceOf(calls'[h]).Some? ==>
          || (h in calls && NonceOf(calls[h]) == NonceOf(calls'[h]))
          || next <= NonceOf(calls'[h]).value < next')
  }

  lemma CallsStayInOrder(queued: seq<Pending>, calls: map<Handle, Phase>, next: nat,
                         calls': map<Handle, Phase>, next': nat)
    requires InOrder(queued, calls, next) && CallsFollow(calls, next, calls', next')
    ensures InOrder(queued, calls', next')
  {
  }

  lemma EnterFollows(s: System, c: Candidate)
    ensures var t := EnterStep(s, c);
            Queued(t) == Queued(s) && CallsFollow(s.calls, s.inner.nextNonce, t.calls, t.inner.nextNonce)
  {
  }

  lemma SignFollows(s: System, h: Handle, signs: bool)
    requires h in s.calls && s.calls[h].Numbered?
    ensures var t := SignStep(s, h, signs);
            Queued(t) == Queued(s) && CallsFollow(s.calls, s.inner.nextNonce, t.calls, t.inner.nextNonce)
  {
  }

  lemma AllocateFollows(s: System, h: Handle)
    requires Enabled(s, AllocateNonce(h))
    ensures var t := Next(s, AllocateNonce(h));
            Queued(t) == Queued(s) && CallsFollow(s.calls, s.inner.nextNonce, t.calls, t.inner.nextNonce)
  {
  }

  lemma SendQueued(s: System, step: Step)
    requires Enabled(s, step) && (step.Enter? || step.AllocateNonce? || step.SignCall?)
    ensures QueuedInOrder(s) ==> QueuedInOrder(Next(s, step))
  {
    match step {
      case Enter(c) => EnterFollows(s, c);
      case AllocateNonce(h) => AllocateFollows(s, h);
      case SignCall(h, signs) => SignFollows(s, h, signs);
    }
    if QueuedInOrder(s) {
      var t := Next(s, step);
      CallsStayInOrder(Queued(s), s.calls, s.inner.nextNonce, t.calls, t.inner.nextNonce);
    }
  }

  lemma FailAllQueued(s: System, number: nat)
    ensures QueuedInOrder(s) ==> QueuedInOrder(FailAllStep(s, number))
  {
    assert Queued(FailAllStep(s, number)) == [];
  }

  lemma QueuedInOrderStep(s: System, step: Step)
    requires Enabled(s, step)
    ensures OneSendAtATime(s) && QueuedInOrder(s) ==> QueuedInOrder(Next(s, step))
  {
    match step
    case Enter(_) => SendQueued(s, step);
    case AllocateNonce(_) => SendQueued(s, step);
    case SignCall(_, _) => SendQueued(s, step);
    case Enqueue(h) => EnqueueQueued(s, h);
    case DropPending(n) => DropQueued(s, n);
    case Stage(n) => StageQueued(s, n);
    case Confirm(block) => ConfirmQueued(s, block);
    case FailAll(number) => FailAllQueued(s, number);
    case _ => // the rest touch neither queues nor nonces
  }

  /** In a run in which sends do not overlap, staged followed by pending is strictly increasing in nonce. */
  lemma {:induction false} SequentialSendsQueueInOrder(states: seq<System>)
    requires IsRun(states)
    requires forall i :: 0 <= i < |states| ==> OneSendAtATime(states[i])
    ensures QueuedInOrder(Last(states))
  {
    var n := |states| - 1;
    if n > 0 {
      SequentialSendsQueueInOrder(states[..n]);
      assert Reached(states[n - 1], states[n]);
      var step :| Enabled(states[n - 1], step) && states[n] == Next(states[n - 1], step);
      QueuedInOrderStep(states[n - 1], step);
    }
  }

  // ---- Exactly when they stay in order ----

  /** What a caller can look at before a step: an enqueued nonce is above all that are queued. */
  ghost predicate EnqueuesAbove(s: System, step: Step)
    requires Enabled(s, step)
  {
    step.Enqueue? ==> AllBelow(Queued(s), s.calls[step.handle].p.envelope.nonce)
  }

  lemma AppendInOrderIff(ps: seq<Pending>, p: Pending)
    requires Increasing(ps)
    ensures Increasing(ps + [p]) <==> AllBelow(ps, p.envelope.nonce)
  {
    var all := ps + [p];
    if Increasing(all) {
      forall q | q in ps ensures q.envelope.nonce < p.envelope.nonce {
        var i :| 0 <= i < |ps| && ps[i] == q;
        assert all[i] == q && all[|ps|] == p;
      }
    }
  }

  lemma ConfirmStaysInOrder(s: System, block: L1Block)
    requires Increasing(Queued(s))
    ensures Increasing(Queued(ConfirmStep(s, block)))
  {
    ConfirmKeeps(s, block);
    FewerQueued(s.inner.staged, s.inner.pending, StillStaged(s.inner.staged, block), s.inner.pending);
  }

  lemma DropStaysInOrder(s: System, n: nat)
    requires Increasing(Queued(s))
    ensures Increasing(Queued(DropStep(s, n)))
  {
    DropKeeps(s, n);
    FewerQueued(s.inner.staged, s.inner.pending, s.inner.staged, DropStep(s, n).inner.pending);
  }

  /** A step keeps the queued nonces increasing, if and only if it enqueues none that is not above all of them. */
  lemma StaysInOrderIff(s: System, step: Step)
    requires Enabled(s, step) && Increasing(Queued(s))
    ensures Increasing(Queued(Next(s, step))) <==> EnqueuesAbove(s, step)
  {
    match step
    case Enqueue(h) =>
      assert Queued(Next(s, step)) == Queued(s) + [s.calls[h].p];
      AppendInOrderIff(Queued(s), s.calls[h].p);
    case DropPending(n) => DropStaysInOrder(s, n);
    case Stage(n) => assert Queued(Next(s, step)) == Queued(s);
    case Confirm(block) => ConfirmStaysInOrder(s, block);
    case FailAll(_) => assert Queued(Next(s, step)) == [];
    case _ => OthersLeaveTheQueue(s, step);
  }

  lemma OthersLeaveTheQueue(s: System, step: Step)
    requires Enabled(s, step) && !step.Enqueue? && !step.DropPending?
    requires !step.Stage? && !step.Confirm? && !step.FailAll?
    ensures Queued(Next(s, step)) == Queued(s)
  {
  }

  ghost predicate AlwaysInOrder(states: seq<System>) {
    forall s :: s in states ==> Increasing(Queued(s))
  }

  /** Whether every step of a run that enqueues a submission finds only lower nonces queued. */
  ghost predicate AlwaysEnqueuesAbove(states: seq<System>) {
    forall i, step :: 0 <= i < |states| - 1 && IsStep(states, i, step) ==> EnqueuesAbove(states[i], step)
  }

  ghost predicate IsStep(states: seq<System>, i: nat, step: Step)
    requires i + 1 < |states|
  {
    Enabled(states[i], step) && states[i + 1] == Next(states[i], step)
  }

  lemma InOrderMeansEnqueuesAbove(states: seq<System>)
    requires AlwaysInOrder(states)
    ensures AlwaysEnqueuesAbove(states)
  {
    forall i, step | 0 <= i < |states| - 1 && IsStep(states, i, step) ensures EnqueuesAbove(states[i], step) {
      assert states[i] in states && states[i + 1] in states;
      StaysInOrderIff(states[i], step);
    }
  }

  lemma {:induction false} EnqueuesAboveMeansInOrder(states: seq<System>, n: nat)
    requires IsRun(states) && AlwaysEnqueuesAbove(states) && n < |states|
    ensures Increasing(Queued(states[n]))
  {
    if n > 0 {
      EnqueuesAboveMeansInOrder(states, n - 1);
      assert Reached(states[n - 1], states[n]);
      var step :| Enabled(states[n - 1], step) && states[n] == Next(states[n - 1], step);
      assert IsStep(states, n - 1, step);
      StaysInOrderIff(states[n - 1], step);
    }
  }

  /**
   * Throughout a run staged followed by pending is strictly increasing in nonce, if and only if every
   * submission is enqueued when only lower nonces are queued, whether sends overlap or not.
   */
  lemma RunInOrderIff(states: seq<System>)
    requires IsRun(states)
    ensures AlwaysInOrder(states) <==> AlwaysEnqueuesAbove(states)
  {
    if AlwaysEnqueuesAbove(states) {
      forall s | s in states ensures Increasing(Queued(s)) {
        var n :| 0 <= n < |states| && states[n] == s;
        EnqueuesAboveMeansInOrder(states, n);
      }
    }
    if AlwaysInOrder(states) {
      InOrderMeansEnqueuesAbove(states);
    }
  }

  ghost predicate NothingQueued(s: System, calls: map<Handle, Phase>) {
    s.inner.pending == [] && s.inner.staged == [] && s.calls == calls
  }

  lemma TwoEnteredSends(config: ManagerConfig, l1: Config, c: Candidate) returns (states: seq<System>)
    ensures IsRun(states) && NothingQueued(Last(states), map[0 := Entered(c), 1 := Entered(c)])
    ensures Last(states).inner.nextNonce == 0 && Last(states).config == config
  {
    states := [Start(config, l1)];
    RunStarts(config, l1);
    states := OneMoreStep(states, Enter(c));
    states := OneMoreStep(states, Enter(c));
  }

  lemma TwoNumberedSends(config: ManagerConfig, l1: Config, c: Candidate) returns (states: seq<System>)
    ensures IsRun(states) && NothingQueued(Last(states), map[0 := Numbered(c, 0), 1 := Numbered(c, 1)])
    ensures Last(states).config == config
  {
    states := TwoEnteredSends(config, l1, c);
    states := OneMoreStep(states, AllocateNonce(0));
    states := OneMoreStep(states, AllocateNonce(1));
  }

  /** Two sends up to the point where both are signed. */
  lemma TwoSignedSends(config: ManagerConfig, l1: Config, c: Candidate) returns (states: seq<System>)
    ensures IsRun(states)
    ensures var first, second := Submission(config, c, 0, 0), Submission(config, c, 1, 1);
            NothingQueued(Last(states), map[0 := Signed(first), 1 := Signed(second)])
  {
    states := TwoNumberedSends(config, l1, c);
    states := OneMoreStep(states, SignCall(0, true));
    states := OneMoreStep(states, SignCall(1, true));
  }

  /** Overlapping sends can queue out of order: two sends, the later-numbered one enqueued first. */
  lemma OverlappingSendsCanQueueOutOfOrder(config: ManagerConfig, l1: Config, c: Candidate)
    ensures exists states :: IsRun(states) && !Increasing(Queued(Last(states)))
  {
    var states := TwoSignedSends(config, l1, c);
    states := OneMoreStep(states, Enqueue(1));
    states := OneMoreStep(states, Enqueue(0));
    var queued := Queued(Last(states));
    assert queued[0].envelope.nonce == 1 && queued[1].envelope.nonce == 0;
  }
}
