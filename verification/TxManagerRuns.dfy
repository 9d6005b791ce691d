/**
 * Every interleaving of sends, staging, drops, confirmations, reorgs and calls on the miner. A send takes
 * the manager's lock three times; each locked section is one step, and so is the signing in between. What
 * a section owes to responders and to the head channel is sent after the lock is released, one effect
 * at a time, so effects of different sections may interleave.
 */
module TxManagerRuns {
  import opened Basics
  import opened L1Chain
  import opened Miner
  import opened MinerRuns
  import opened TxManager

  /** Where a send is between its locked sections. */
  datatype Phase = Entered(candidate: Candidate) | Numbered(candidate: Candidate, nonce: nat) | Signed(p: Pending)

  /** An effect that has been sent, with the section that owed it. */
  datatype Sent = Sent(section: nat, effect: Effect)

  /**
   * `calls` are the sends in flight. `asked` records what each handle was asked to send, `numbered` the
   * handles in the order in which they were given a nonce, `issued` the envelope signed for each handle, and
   * `stagedEver` the handles staged so far, in order. `origins` says of every transaction ever submitted to
   * the miner for which handle it was staged, if it came from this manager at all. `plans[k]` is what section
   * `k` owes, in order, of which the first `progress[k]` effects are already in `sent`.
   */
  datatype System = System(
    config: ManagerConfig,
    inner: Inner,
    l1: History,
    calls: map<Handle, Phase>,
    nextHandle: nat,
    asked: map<Handle, Candidate>,
    numbered: seq<Handle>,
    issued: map<Handle, Envelope>,
    stagedEver: seq<Handle>,
    origins: seq<Option<Handle>>,
    plans: seq<seq<Effect>>,
    progress: seq<nat>,
    sent: seq<Sent>)

  datatype Step =
    | Enter(candidate: Candidate)
    | AllocateNonce(handle: Handle)
    | SignCall(handle: Handle, signs: bool)
    | Enqueue(handle: Handle)
    | FailNext(n: nat)
    | BlockNext(n: nat)
    | Cancel
    | DropPending(n: nat)
    | Stage(n: nat)
    | Confirm(block: L1Block)
    | FailAll(number: nat)
    | MinerCall(op: Op)
    | Emit(section: nat)

  ghost function Start(config: ManagerConfig, l1: Config): System {
    System(config, EMPTY, Fresh(l1), map[], 0, map[], [], map[], [], [], [], [], [])
  }

  /**
   * When a step can happen. Confirmation is asked for blocks the miner has produced. Anyone may submit
   * anything to the miner, under the manager's key too.
   */
  ghost predicate Enabled(s: System, step: Step) {
    match step
    case AllocateNonce(h) => h in s.calls && s.calls[h].Entered?
    case SignCall(h, _) => h in s.calls && s.calls[h].Numbered?
    case Enqueue(h) => h in s.calls && s.calls[h].Signed?
    case Confirm(block) => EverSeen(s.l1, block)
    case MinerCall(op) => s.l1.miner.blocks != []
    case Emit(k) => k < |s.plans| && k < |s.progress| && s.progress[k] < |s.plans[k]|
    case _ => true
  }

  /** A section finishes, owing `effects`. */
  ghost function Owing(s: System, effects: seq<Effect>): System {
    s.(plans := s.plans + [effects], progress := s.progress + [0])
  }

  /** The miner's history after staging. */
  ghost function StagedHistory(h: History, ps: seq<Pending>): History {
    h.(miner := StagedMiner(h.miner, ps),
       submitted := h.submitted + StagedQueue(ps),
       enqueued := h.enqueued + StagedBlobs(ps))
  }

  ghost function Responders(ps: seq<Pending>): seq<Handle> {
    seq(|ps|, i requires 0 <= i < |ps| => ps[i].responder)
  }

  ghost function OwnOrigins(hs: seq<Handle>): seq<Option<Handle>> {
    seq(|hs|, i requires 0 <= i < |hs| => Some(hs[i]))
  }

  ghost function ForeignOrigins(n: nat): seq<Option<Handle>> {
    seq(n, _ => None)
  }

  ghost function EnterStep(s: System, c: Candidate): System {
    var (inner, rejected) := Admit(s.inner);
    var entered := s.(inner := inner, nextHandle := s.nextHandle + 1, asked := s.asked[s.nextHandle := c]);
    match rejected
    case Some(error) => Owing(entered, [Resolve(s.nextHandle, Failed(error))])
    case None => entered.(calls := s.calls[s.nextHandle := Entered(c)])
  }

  ghost function SignStep(s: System, h: Handle, signs: bool): System
    requires h in s.calls && s.calls[h].Numbered?
  {
    if signs then
      var p := Submission(s.config, s.calls[h].candidate, s.calls[h].nonce, h);
      s.(calls := s.calls[h := Signed(p)], issued := s.issued[h := p.envelope])
    else
      Owing(s.(calls := s.calls - {h}), [Resolve(h, Failed(Sign))])
  }

  ghost function StageStep(s: System, n: nat): System {
    var count := Min(n, |s.inner.pending|);
    var moved := s.inner.pending[..count];
    s.(inner := s.inner.(pending := s.inner.pending[count..], staged := s.inner.staged + moved),
       l1 := StagedHistory(s.l1, moved),
       stagedEver := s.stagedEver + Responders(moved),
       origins := s.origins + OwnOrigins(Responders(moved)))
  }

  ghost function DropStep(s: System, n: nat): System {
    var count := Min(n, |s.inner.pending|);
    Owing(s.(inner := s.inner.(pending := s.inner.pending[count..])), Closures(s.inner.pending[..count]))
  }

  ghost function ConfirmStep(s: System, block: L1Block): System {
    Owing(s.(inner := s.inner.(staged := StillStaged(s.inner.staged, block))),
          Confirmations(s.inner.staged, block) + HeadEvent(s.config, block.Number()))
  }

  /** The locked section of a reorg, and what it owes: every failure, then the new head. */
  ghost function FailAllStep(s: System, number: nat): System {
    Owing(s.(inner := s.inner.(pending := [], staged := [])),
          Failures(s.inner.pending + s.inner.staged) + HeadEvent(s.config, number))
  }

  ghost function Next(s: System, step: Step): System
    requires Enabled(s, step)
  {
    match step
    case Enter(c) => EnterStep(s, c)
    case AllocateNonce(h) =>
      s.(inner := s.inner.(nextNonce := s.inner.nextNonce + 1),
         calls := s.calls[h := Numbered(s.calls[h].candidate, s.inner.nextNonce)],
         numbered := s.numbered + [h])
    case SignCall(h, signs) => SignStep(s, h, signs)
    case Enqueue(h) =>
      s.(inner := s.inner.(pending := s.inner.pending + [s.calls[h].p]), calls := s.calls - {h})
    case FailNext(n) => s.(inner := s.inner.(failRemaining := s.inner.failRemaining + n))
    case BlockNext(n) => s.(inner := s.inner.(blockedRemaining := s.inner.blockedRemaining + n))
    case Cancel => s.(inner := s.inner.(cancellations := s.inner.cancellations + 1))
    case DropPending(n) => DropStep(s, n)
    case Stage(n) => StageStep(s, n)
    case Confirm(block) => ConfirmStep(s, block)
    case FailAll(number) => FailAllStep(s, number)
    case MinerCall(op) =>
      s.(l1 := Extend(s.l1, op), origins := s.origins + ForeignOrigins(|SubmittedBy(s.l1.miner, op)|))
    case Emit(k) =>
      s.(sent := s.sent + [Sent(k, s.plans[k][s.progress[k]])],
         progress := s.progress[k := s.progress[k] + 1])
  }

  // ---- Runs ----

  ghost predicate Reached(s: System, t: System) {
    exists step :: Enabled(s, step) && t == Next(s, step)
  }

  ghost predicate IsRun(states: seq<System>) {
    && |states| > 0
    && (exists l1 :: states[0] == Start(states[0].config, l1))
    && (forall i :: 0 < i < |states| ==> Reached(states[i - 1], states[i]))
  }

  ghost function Last(states: seq<System>): System
    requires |states| > 0
  {
    states[|states| - 1]
  }

  /** What holds at the start and is kept by every step holds throughout every run. */
  lemma {:induction false} RunInduction(states: seq<System>, inv: System -> bool)
    requires IsRun(states)
    requires forall config, l1 :: inv(Start(config, l1))
    requires forall s, step :: inv(s) && Enabled(s, step) ==> inv(Next(s, step))
    ensures inv(Last(states))
  {
    var n := |states| - 1;
    if n > 0 {
      RunInduction(states[..n], inv);
      assert Reached(states[n - 1], states[n]);
    }
  }

  lemma OneMoreStep(states: seq<System>, step: Step) returns (more: seq<System>)
    requires IsRun(states) && Enabled(Last(states), step)
    ensures IsRun(more) && Last(more) == Next(Last(states), step)
  {
    more := states + [Next(Last(states), step)];
    var l1 :| states[0] == Start(states[0].config, l1);
    assert more[0] == Start(more[0].config, l1);
    assert Reached(Last(states), Last(more));
    forall i | 0 < i < |more| ensures Reached(more[i - 1], more[i]) {
      if i < |states| {
        assert Reached(states[i - 1], states[i]);
      }
    }
  }

  lemma RunStarts(config: ManagerConfig, l1: Config)
    ensures IsRun([Start(config, l1)])
  {
    assert [Start(config, l1)][0] == Start(config, l1);
  }

  // ---- Every handle is in exactly one place ----

  ghost function HandleOf(e: Effect): seq<Handle> {
    match e
    case Resolve(h, _) => [h]
    case Close(h) => [h]
    case NewHead(_) => []
  }

  ghost function HandlesIn(effects: seq<Effect>): seq<Handle> {
    FlatMap(HandleOf, effects)
  }

  /** The handles whose fate has been decided. */
  ghost function Decided(s: System): seq<Handle> {
    FlatMap(HandlesIn, s.plans)
  }

  /** How many places a handle is in: in flight, pending, staged, or decided. */
  ghost function Places(s: System, h: Handle): nat {
    (if h in s.calls then 1 else 0)
    + multiset(Responders(s.inner.pending))[h]
    + multiset(Responders(s.inner.staged))[h]
    + multiset(Decided(s))[h]
  }

  /** A send in flight carries its own responder. */
  ghost predicate SignedForSelf(s: System) {
    forall h :: h in s.calls && s.calls[h].Signed? ==> s.calls[h].p.responder == h
  }

  /** Every handle handed out is in exactly one place, once, and no other handle is in any. */
  ghost predicate Accounted(s: System) {
    && SignedForSelf(s)
    && (forall h: Handle :: Places(s, h) == if h < s.nextHandle then 1 else 0)
  }

  lemma DecidedOwing(s: System, effects: seq<Effect>)
    ensures multiset(Decided(Owing(s, effects))) == multiset(Decided(s)) + multiset(HandlesIn(effects))
  {
    FlatMapAppend(HandlesIn, s.plans, effects);
  }

  lemma {:induction false} HandlesInFailures(ps: seq<Pending>)
    ensures HandlesIn(Failures(ps)) == HandlesIn(Closures(ps)) == Responders(ps)
  {
    if ps != [] {
      var init, last := ps[..|ps| - 1], ps[|ps| - 1];
      HandlesInFailures(init);
      assert Failures(ps) == Failures(init) + [Resolve(last.responder, Failed(Rpc))];
      assert Closures(ps) == Closures(init) + [Close(last.responder)];
      FlatMapAppend(HandleOf, Failures(init), Resolve(last.responder, Failed(Rpc)));
      FlatMapAppend(HandleOf, Closures(init), Close(last.responder));
    }
  }

  lemma HandlesInHead(config: ManagerConfig, effects: seq<Effect>, number: nat)
    ensures HandlesIn(effects + HeadEvent(config, number)) == HandlesIn(effects)
  {
    if config.publishesHeads {
      FlatMapAppend(HandleOf, effects, NewHead(number));
    } else {
      assert effects + [] == effects;
    }
  }

  lemma SplitAppend<T>(all: seq<T>, kept: seq<T>, gone: seq<T>, x: T)
    requires multiset(all) == multiset(kept) + multiset(gone)
    ensures multiset(all + [x]) == multiset(kept + [x]) + multiset(gone)
    ensures multiset(all + [x]) == multiset(kept) + multiset(gone + [x])
  {
  }

  lemma RespondersAppend(ps: seq<Pending>, p: Pending)
    ensures Responders(ps + [p]) == Responders(ps) + [p.responder]
  {
  }

  /** A confirmation splits the staged handles into those that keep waiting and those that are answered. */
  ghost predicate Splits(ps: seq<Pending>, block: L1Block) {
    multiset(Responders(ps))
    == multiset(Responders(StillStaged(ps, block))) + multiset(HandlesIn(Confirmations(ps, block)))
  }

  lemma OneKeepsWaiting(ps: seq<Pending>, p: Pending, block: L1Block)
    requires ReceiptFor(p, block).None?
    ensures StillStaged(ps + [p], block) == StillStaged(ps, block) + [p]
    ensures Confirmations(ps + [p], block) == Confirmations(ps, block)
  {
    assert (ps + [p])[..|ps|] == ps;
  }

  lemma OneIsAnswered(ps: seq<Pending>, p: Pending, block: L1Block, e: Effect)
    requires ReceiptFor(p, block).Some? && e == Resolve(p.responder, Confirmed(ReceiptFor(p, block).value))
    ensures StillStaged(ps + [p], block) == StillStaged(ps, block)
    ensures Confirmations(ps + [p], block) == Confirmations(ps, block) + [e]
  {
    assert (ps + [p])[..|ps|] == ps;
  }

  lemma SplitsOneMore(ps: seq<Pending>, p: Pending, block: L1Block)
    ensures Splits(ps, block) ==> Splits(ps + [p], block)
  {
    if Splits(ps, block) {
      var kept, answered := StillStaged(ps, block), Confirmations(ps, block);
      RespondersAppend(ps, p);
      SplitAppend(Responders(ps), Responders(kept), HandlesIn(answered), p.responder);
      if ReceiptFor(p, block).Some? {
        var e := Resolve(p.responder, Confirmed(ReceiptFor(p, block).value));
        OneIsAnswered(ps, p, block, e);
        FlatMapAppend(HandleOf, answered, e);
      } else {
        OneKeepsWaiting(ps, p, block);
        RespondersAppend(kept, p);
      }
    }
  }

  lemma {:induction false} ConfirmSplits(ps: seq<Pending>, block: L1Block)
    ensures Splits(ps, block)
  {
    if ps != [] {
      ConfirmSplits(ps[..|ps| - 1], block);
      SplitsOneMore(ps[..|ps| - 1], ps[|ps| - 1], block);
      assert ps == ps[..|ps| - 1] + [ps[|ps| - 1]];
    }
  }

  lemma HandlesInOne(e: Effect)
    ensures HandlesIn([e]) == HandleOf(e)
  {
    FlatMapAppend(HandleOf, [], e);
    assert [] + [e] == [e];
  }

  lemma RespondersSplit(ps: seq<Pending>, n: nat)
    requires n <= |ps|
    ensures Responders(ps) == Responders(ps[..n]) + Responders(ps[n..])
  {
  }

  lemma RespondersConcat(ps: seq<Pending>, qs: seq<Pending>)
    ensures Responders(ps + qs) == Responders(ps) + Responders(qs)
  {
  }

  lemma PlacesEnter(s: System, c: Candidate, h: Handle)
    requires s.nextHandle !in s.calls
    ensures Places(EnterStep(s, c), h) == Places(s, h) + if h == s.nextHandle then 1 else 0
  {
    var (_, rejected) := Admit(s.inner);
    if rejected.Some? {
      DecidedOwing(s, [Resolve(s.nextHandle, Failed(rejected.value))]);
      HandlesInOne(Resolve(s.nextHandle, Failed(rejected.value)));
    }
  }

  lemma PlacesSign(s: System, g: Handle, signs: bool, h: Handle)
    requires g in s.calls && s.calls[g].Numbered?
    ensures Places(SignStep(s, g, signs), h) == Places(s, h)
  {
    if !signs {
      DecidedOwing(s, [Resolve(g, Failed(Sign))]);
      HandlesInOne(Resolve(g, Failed(Sign)));
    }
  }

  lemma PlacesDrop(s: System, n: nat, h: Handle)
    ensures Places(DropStep(s, n), h) == Places(s, h)
  {
    var count := Min(n, |s.inner.pending|);
    RespondersSplit(s.inner.pending, count);
    HandlesInFailures(s.inner.pending[..count]);
    DecidedOwing(s, Closures(s.inner.pending[..count]));
  }

  lemma PlacesStage(s: System, n: nat, h: Handle)
    ensures Places(StageStep(s, n), h) == Places(s, h)
  {
    var count := Min(n, |s.inner.pending|);
    RespondersSplit(s.inner.pending, count);
    RespondersConcat(s.inner.staged, s.inner.pending[..count]);
  }

  lemma PlacesConfirm(s: System, block: L1Block, h: Handle)
    ensures Places(ConfirmStep(s, block), h) == Places(s, h)
  {
    var answers := Confirmations(s.inner.staged, block);
    ConfirmSplits(s.inner.staged, block);
    HandlesInHead(s.config, answers, block.Number());
    DecidedOwing(s, answers + HeadEvent(s.config, block.Number()));
  }

  lemma PlacesFailAll(s: System, number: nat, h: Handle)
    ensures Places(FailAllStep(s, number), h) == Places(s, h)
  {
    var drained := s.inner.pending + s.inner.staged;
    RespondersConcat(s.inner.pending, s.inner.staged);
    HandlesInFailures(drained);
    HandlesInHead(s.config, Failures(drained), number);
    DecidedOwing(s, Failures(drained) + HeadEvent(s.config, number));
    assert Responders([]) == [];
  }

  lemma PlacesEnqueue(s: System, g: Handle, h: Handle)
    requires Enabled(s, Enqueue(g)) && s.calls[g].p.responder == g
    ensures Places(Next(s, Enqueue(g)), h) == Places(s, h)
  {
    RespondersAppend(s.inner.pending, s.calls[g].p);
  }

  /** The other steps move no handle. */
  lemma PlacesOther(s: System, step: Step, h: Handle)
    requires Enabled(s, step) && !step.Enter? && !step.SignCall? && !step.Enqueue? && !step.DropPending?
    requires !step.Stage? && !step.Confirm? && !step.FailAll?
    ensures Places(Next(s, step), h) == Places(s, h)
  {
    var t := Next(s, step);
    assert t.inner.pending == s.inner.pending && t.inner.staged == s.inner.staged;
    assert t.calls.Keys == s.calls.Keys && t.plans == s.plans;
  }

  /** A step moves handles between places but creates or destroys none, except that entering a send adds its own. */
  lemma PlacesStep(s: System, step: Step, h: Handle)
    requires Enabled(s, step)
    ensures Accounted(s) ==>
              Places(Next(s, step), h) == Places(s, h) + if step.Enter? && h == s.nextHandle then 1 else 0
  {
    if Accounted(s) {
      match step
      case Enter(c) =>
        assert Places(s, s.nextHandle) == 0;
        PlacesEnter(s, c, h);
      case SignCall(g, signs) => PlacesSign(s, g, signs, h);
      case Enqueue(g) => PlacesEnqueue(s, g, h);
      case DropPending(n) => PlacesDrop(s, n, h);
      case Stage(n) => PlacesStage(s, n, h);
      case Confirm(block) => PlacesConfirm(s, block, h);
      case FailAll(number) => PlacesFailAll(s, number, h);
      case _ => PlacesOther(s, step, h);
    }
  }

  lemma SignedForSelfStep(s: System, step: Step)
    requires Enabled(s, step)
    ensures SignedForSelf(s) ==> SignedForSelf(Next(s, step))
  {
  }

  lemma AccountedStep(s: System, step: Step)
    requires Enabled(s, step)
    ensures Accounted(s) ==> Accounted(Next(s, step))
  {
    if Accounted(s) {
      var t := Next(s, step);
      SignedForSelfStep(s, step);
      assert t.nextHandle == s.nextHandle + if step.Enter? then 1 else 0;
      forall h: Handle ensures Places(t, h) == if h < t.nextHandle then 1 else 0 {
        PlacesStep(s, step, h);
      }
    }
  }

  lemma AccountedStart(config: ManagerConfig, l1: Config)
    ensures Accounted(Start(config, l1))
  {
    assert forall h: Handle :: Places(Start(config, l1), h) == 0;
  }

  /**
   * In every run each handle handed out is in exactly one of these places, and there once: in flight,
   * pending, staged, or decided, that is resolved Ok, resolved Err or dropped. So no handle is ever
   * answered twice and none is lost.
   */
  lemma EveryHandleInOnePlace(states: seq<System>, h: Handle)
    requires IsRun(states)
    ensures Places(Last(states), h) == if h < Last(states).nextHandle then 1 else 0
  {
    forall s, step | Enabled(s, step) {
      AccountedStep(s, step);
    }
    forall config, l1 {
      AccountedStart(config, l1);
    }
    RunInduction(states, s => Accounted(s));
    assert Accounted(Last(states));
  }
}
