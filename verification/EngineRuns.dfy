/** The payload lifecycle and the block index over every run of the engine client. */
module EngineRuns {
  import opened Basics
  import opened Engine

  /** One locked call. `Register` is a write to the shared registry by another of its holders. */
  datatype Op =
    | StartBuildBlock(parent: Hash, attrs: Attributes, env: Env)
    | ForkChoiceTo(hash: Hash, wanted: Option<Attributes>, env: Env)
    | GetPayload(id: PayloadId)
    | GetSealed(id: PayloadId)
    | InsertUnsafe(payload: Payload, env: Env)
    | NewPayload(payload: Payload, env: Env)
    | ExecuteAttrs(parent: Hash, number: nat, attrs: Attributes, env: Env)
    | Register(number: nat, hash: Hash, root: Option<Root>)

  ghost function Next(c: Config, s: State, op: Op): State {
    match op
    case StartBuildBlock(parent, attrs, env) => StartBuild(c, s, parent, attrs, env).0
    case ForkChoiceTo(hash, wanted, env) => ForkChoice(c, s, hash, wanted, env).0
    case GetPayload(id) => Take(s, id).0
    case GetSealed(id) => Seal(s, id).0
    case InsertUnsafe(p, env) => Insert(c, s, p, env).0
    case NewPayload(p, env) => ExecuteV1(c, s, p, env).0
    case ExecuteAttrs(parent, number, attrs, env) => ExecuteFromAttrs(c, s, parent, number, attrs, env).0
    case Register(number, hash, root) => s.(registry := s.registry[number := (hash, root)])
  }

  /** A run of calls; state `i` is the one call `i` meets. */
  datatype Run = Run(config: Config, states: seq<State>, calls: seq<Op>) {
    ghost predicate Steps(i: nat)
      requires |states| == |calls| + 1 && i < |calls|
    {
      states[i + 1] == Next(config, states[i], calls[i])
    }

    ghost predicate Legal() {
      |states| == |calls| + 1 && forall i :: 0 <= i < |calls| ==> Steps(i)
    }

    /** A run that starts with nothing executed. */
    ghost predicate FromScratch() {
      Legal() && states[0] == Initial(states[0].head, states[0].registry)
    }

    ghost function At(i: nat): State
      requires i < |states|
    {
      states[i]
    }
  }

  /** What holds at one moment and is kept by every call up to another holds there. */
  lemma {:induction false} Persists(run: Run, i: nat, j: nat, inv: State -> bool)
    requires run.Legal() && i <= j <= |run.calls| && inv(run.At(i))
    requires forall k, s :: i <= k < j && inv(s) ==> inv(Next(run.config, s, run.calls[k]))
    ensures inv(run.At(j))
  {
    if i < j {
      Persists(run, i, j - 1, inv);
      assert run.Steps(j - 1);
    }
  }

  // ---- The index of executed blocks ----

  /** Headers and infos have the same keys, and both records at a key are those of one block of that number. */
  ghost predicate IsIndex(c: Config, headers: map<nat, Header>, infos: map<nat, Info>) {
    && headers.Keys == infos.Keys
    && forall n :: n in headers ==> headers[n].number == n && InfoOf(c, headers[n]) == Some(infos[n])
  }

  ghost predicate Indexed(c: Config, s: State) {
    IsIndex(c, s.headers, s.infos)
  }

  lemma IndexGrows(c: Config, headers: map<nat, Header>, infos: map<nat, Info>, h: Header, info: Info)
    requires IsIndex(c, headers, infos) && InfoOf(c, h) == Some(info)
    ensures IsIndex(c, headers[h.number := h], infos[h.number := info])
  {
  }

  /** When a commit adds the block to the index. */
  ghost predicate Stores(c: Config, s: State, b: Built, dbOk: bool) {
    !Known(s, b.header) && (b.receipts.Some? ==> dbOk) && !RootMismatch(s, b.header) && InfoOf(c, b.header).Some?
  }

  lemma CommitStores(c: Config, s: State, b: Built, dbOk: bool)
    requires Stores(c, s, b, dbOk)
    ensures Commit(c, s, b, dbOk).0
         == Stored(Registered(WithReceipts(s, b), b.header), b.header, InfoOf(c, b.header).value)
  {
  }

  lemma CommitKeepsIndex(c: Config, s: State, b: Built, dbOk: bool)
    requires !Stores(c, s, b, dbOk)
    ensures Commit(c, s, b, dbOk).0.headers == s.headers
    ensures Commit(c, s, b, dbOk).0.infos == s.infos
  {
  }

  lemma CommitIndexed(c: Config, s: State, b: Built, dbOk: bool)
    ensures Indexed(c, s) ==> Indexed(c, Commit(c, s, b, dbOk).0)
  {
    if Stores(c, s, b, dbOk) {
      CommitStores(c, s, b, dbOk);
      if Indexed(c, s) {
        IndexGrows(c, s.headers, s.infos, b.header, InfoOf(c, b.header).value);
      }
    } else {
      CommitKeepsIndex(c, s, b, dbOk);
    }
  }

  lemma BuildIndexed(c: Config, s: State, parent: Hash, attrs: Attributes, env: Env)
    ensures Indexed(c, s) ==> Indexed(c, BuildAndCommit(c, s, parent, attrs, env).0)
  {
    var built := env.build(EffectiveParent(c, s.headers, parent), attrs);
    if built.Some? {
      CommitIndexed(c, s, built.value, env.dbOk);
    }
  }

  lemma ExecuteIndexed(c: Config, s: State, p: Payload, env: Env)
    ensures Indexed(c, s) ==> Indexed(c, ExecuteV1(c, s, p, env).0)
  {
    BuildIndexed(c, s, p.parentHash, p.attrs, env);
  }

  lemma InsertIndexed(c: Config, s: State, p: Payload, env: Env)
    ensures Indexed(c, s) ==> Indexed(c, Insert(c, s, p, env).0)
  {
    if p.hash in s.sealed {
      CommitIndexed(c, s.(sealed := s.sealed - {p.hash}), s.sealed[p.hash], env.dbOk);
    } else {
      ExecuteIndexed(c, s, p, env);
    }
  }

  lemma StartKeepsIndex(c: Config, s: State, parent: Hash, attrs: Attributes, env: Env)
    ensures var t := StartBuild(c, s, parent, attrs, env).0;
            t.headers == s.headers && t.infos == s.infos && t.sealed == s.sealed && t.head == s.head
  {
  }

  lemma ForkChoiceKeepsIndex(c: Config, s: State, hash: Hash, wanted: Option<Attributes>, env: Env)
    ensures var t := ForkChoice(c, s, hash, wanted, env).0;
            t.headers == s.headers && t.infos == s.infos && t.sealed == s.sealed
  {
    var chosen := Choose(s, hash);
    assert chosen.headers == s.headers && chosen.infos == s.infos && chosen.sealed == s.sealed;
    if wanted.Some? {
      StartKeepsIndex(c, chosen, hash, wanted.value, env);
    }
  }

  lemma IndexedStep(c: Config, s: State, op: Op)
    ensures Indexed(c, s) ==> Indexed(c, Next(c, s, op))
  {
    match op
    case ForkChoiceTo(hash, wanted, env) => ForkChoiceKeepsIndex(c, s, hash, wanted, env);
    case InsertUnsafe(p, env) => InsertIndexed(c, s, p, env);
    case NewPayload(p, env) => ExecuteIndexed(c, s, p, env);
    case ExecuteAttrs(parent, _, attrs, env) => BuildIndexed(c, s, parent, attrs, env);
    case _ =>
  }

  lemma RunIndexed(run: Run, i: nat)
    requires run.FromScratch() && i <= |run.calls|
    ensures Indexed(run.config, run.At(i))
  {
    forall s, op {
      IndexedStep(run.config, s, op);
    }
    Persists(run, 0, i, s => Indexed(run.config, s));
  }

  /**
   * At every moment of every run, header and info maps share their keys and agree on number and hash, and
   * looking a block up by its number and by its hash finds the same block.
   */
  lemma LookupsCoincide(run: Run, i: nat, h: Header)
    requires run.FromScratch() && i <= |run.calls|
    ensures var s := run.At(i);
            && s.headers.Keys == s.infos.Keys
            && (forall n :: n in s.headers ==>
                  && s.headers[n].number == s.infos[n].number == n
                  && s.infos[n].hash == Of(s.headers[n]))
            && (ByNumber(s.headers, h.number) == Some(h) <==> ByHash(s.headers, Of(h)) == Some(h))
            && (ByHash(s.headers, Of(h)) == Some(h) <==> Known(s, h))
  {
    RunIndexed(run, i);
    var s := run.At(i);
    if h in s.headers.Values {
      var n :| n in s.headers && s.headers[n] == h;
      assert n == h.number;
    }
    assert h.number in s.headers && s.headers[h.number] == h ==> h in s.headers.Values;
  }

  // ---- Payload identifiers ----

  /** The payload ID a call hands out, if it hands one out. */
  ghost function IssuedIn(c: Config, s: State, op: Op): Option<PayloadId> {
    match op
    case StartBuildBlock(parent, attrs, env) =>
      (match StartBuild(c, s, parent, attrs, env).1
       case Done(id) => Some(id)
       case _ => None)
    case ForkChoiceTo(hash, wanted, env) =>
      (match ForkChoice(c, s, hash, wanted, env).1
       case Done(id) => id
       case _ => None)
    case _ => None
  }

  ghost function Issued(run: Run, i: nat): Option<PayloadId>
    requires run.Legal() && i < |run.calls|
  {
    IssuedIn(run.config, run.At(i), run.calls[i])
  }

  /** The payload that call `i` built. */
  ghost predicate BuiltBy(run: Run, i: nat, id: PayloadId, b: Built)
    requires run.Legal() && i < |run.calls|
  {
    id in run.At(i + 1).pending && run.At(i + 1).pending[id] == b
  }

  ghost predicate Asks(op: Op, id: PayloadId) {
    op == GetPayload(id) || op == GetSealed(id)
  }

  /** Whether call `i` gets a payload out by its ID. */
  ghost predicate Takes(run: Run, i: nat, id: PayloadId)
    requires run.Legal() && i < |run.calls|
  {
    Asks(run.calls[i], id) && Take(run.At(i), id).1.Done?
  }

  ghost predicate IdsBelowCounter(s: State) {
    forall id :: id in s.pending ==> id < s.counter
  }

  /** What is neither an index of blocks nor of receipts. */
  ghost function Unindexed(s: State): (map<PayloadId, Built>, PayloadId, map<Hash, Built>, Info) {
    (s.pending, s.counter, s.sealed, s.head)
  }

  lemma CommitOnlyIndexes(c: Config, s: State, b: Built, dbOk: bool)
    ensures Unindexed(Commit(c, s, b, dbOk).0) == Unindexed(s)
  {
    assert Unindexed(WithReceipts(s, b)) == Unindexed(s);
  }

  lemma CommitKeepsPayloads(c: Config, s: State, b: Built, dbOk: bool)
    ensures Commit(c, s, b, dbOk).0.pending == s.pending
    ensures Commit(c, s, b, dbOk).0.counter == s.counter
    ensures Commit(c, s, b, dbOk).0.sealed == s.sealed
    ensures Commit(c, s, b, dbOk).0.head == s.head
  {
    CommitOnlyIndexes(c, s, b, dbOk);
  }

  lemma BuildKeepsPayloads(c: Config, s: State, parent: Hash, attrs: Attributes, env: Env)
    ensures var t := BuildAndCommit(c, s, parent, attrs, env).0;
            t.pending == s.pending && t.counter == s.counter && t.sealed == s.sealed && t.head == s.head
  {
    var built := env.build(EffectiveParent(c, s.headers, parent), attrs);
    if built.Some? {
      CommitKeepsPayloads(c, s, built.value, env.dbOk);
    }
  }

  lemma ExecuteKeepsPayloads(c: Config, s: State, p: Payload, env: Env)
    ensures var t := ExecuteV1(c, s, p, env).0;
            t.pending == s.pending && t.counter == s.counter && t.sealed == s.sealed && t.head == s.head
  {
    BuildKeepsPayloads(c, s, p.parentHash, p.attrs, env);
  }

  lemma InsertKeepsPending(c: Config, s: State, p: Payload, env: Env)
    ensures var t := Insert(c, s, p, env).0;
            && t.pending == s.pending && t.counter == s.counter
            && t.sealed == if p.hash in s.sealed then s.sealed - {p.hash} else s.sealed
  {
    if p.hash in s.sealed {
      CommitKeepsPayloads(c, s.(sealed := s.sealed - {p.hash}), s.sealed[p.hash], env.dbOk);
    } else {
      ExecuteKeepsPayloads(c, s, p, env);
    }
  }

  lemma StartAddsOne(c: Config, s: State, parent: Hash, attrs: Attributes, env: Env)
    ensures var (t, r) := StartBuild(c, s, parent, attrs, env);
            && (r.Done? ==> r.value == s.counter)
            && t.counter == s.counter + (if r.Done? then 1 else 0)
            && t.pending.Keys == s.pending.Keys + (if r.Done? then {s.counter} else {})
            && (forall id :: id in s.pending && id < s.counter ==> t.pending[id] == s.pending[id])
  {
  }

  /** A call adds the ID it hands out, removes the one it asks for, and leaves the other payloads alone. */
  ghost predicate PendingMoves(s: State, t: State, op: Op, issued: Option<PayloadId>) {
    && t.counter == s.counter + (if issued.Some? then 1 else 0)
    && (issued.Some? ==> issued.value == s.counter && issued.value in t.pending)
    && (forall id :: id < s.counter ==>
          && (id in t.pending <==> id in s.pending && !Asks(op, id))
          && (id in t.pending ==> t.pending[id] == s.pending[id]))
    && (IdsBelowCounter(s) ==> IdsBelowCounter(t))
  }

  lemma ForkChoiceMoves(c: Config, s: State, hash: Hash, wanted: Option<Attributes>, env: Env)
    ensures var op := ForkChoiceTo(hash, wanted, env);
            PendingMoves(s, Next(c, s, op), op, IssuedIn(c, s, op))
  {
    var chosen := Choose(s, hash);
    assert chosen.pending == s.pending && chosen.counter == s.counter;
    if wanted.Some? {
      StartAddsOne(c, chosen, hash, wanted.value, env);
    }
  }

  lemma TakeMoves(c: Config, s: State, id: PayloadId)
    ensures PendingMoves(s, Next(c, s, GetPayload(id)), GetPayload(id), None)
  {
  }

  lemma SealMoves(c: Config, s: State, id: PayloadId)
    ensures PendingMoves(s, Next(c, s, GetSealed(id)), GetSealed(id), None)
  {
  }

  lemma StartMoves(c: Config, s: State, parent: Hash, attrs: Attributes, env: Env)
    ensures var op := StartBuildBlock(parent, attrs, env);
            PendingMoves(s, Next(c, s, op), op, IssuedIn(c, s, op))
  {
    StartAddsOne(c, s, parent, attrs, env);
  }

  lemma PendingStep(c: Config, s: State, op: Op)
    ensures PendingMoves(s, Next(c, s, op), op, IssuedIn(c, s, op))
  {
    match op
    case StartBuildBlock(parent, attrs, env) => StartMoves(c, s, parent, attrs, env);
    case ForkChoiceTo(hash, wanted, env) => ForkChoiceMoves(c, s, hash, wanted, env);
    case GetPayload(id) => TakeMoves(c, s, id);
    case GetSealed(id) => SealMoves(c, s, id);
    case InsertUnsafe(p, env) => InsertKeepsPending(c, s, p, env);
    case NewPayload(p, env) => ExecuteKeepsPayloads(c, s, p, env);
    case ExecuteAttrs(parent, _, attrs, env) => BuildKeepsPayloads(c, s, parent, attrs, env);
    case _ =>
  }

  lemma CallMoves(run: Run, i: nat)
    requires run.Legal() && i < |run.calls|
    ensures PendingMoves(run.At(i), run.At(i + 1), run.calls[i], Issued(run, i))
  {
    PendingStep(run.config, run.At(i), run.calls[i]);
    assert run.Steps(i);
  }

  lemma RunIdsBelowCounter(run: Run, i: nat)
    requires run.FromScratch() && i <= |run.calls|
    ensures IdsBelowCounter(run.At(i))
  {
    forall s, op {
      PendingStep(run.config, s, op);
    }
    Persists(run, 0, i, s => IdsBelowCounter(s));
  }

  lemma CounterOnlyGrows(run: Run, i: nat, j: nat)
    requires run.Legal() && i <= j <= |run.calls|
    ensures run.At(i).counter <= run.At(j).counter
  {
    var least := run.At(i).counter;
    forall s, op {
      PendingStep(run.config, s, op);
    }
    Persists(run, i, j, (s: State) => least <= s.counter);
  }

  /** Payload IDs are never reissued: a later call always hands out a larger one. */
  lemma IdsAreNeverReissued(run: Run, i: nat, j: nat)
    requires run.FromScratch() && i < j < |run.calls|
    requires Issued(run, i).Some? && Issued(run, j).Some?
    ensures Issued(run, i).value < Issued(run, j).value
  {
    CallMoves(run, i);
    CallMoves(run, j);
    CounterOnlyGrows(run, i + 1, j);
  }

  ghost predicate Gone(s: State, id: PayloadId) {
    id !in s.pending && id < s.counter
  }

  lemma GoneForGood(run: Run, i: nat, j: nat, id: PayloadId)
    requires run.Legal() && i <= j <= |run.calls|
    ensures Gone(run.At(i), id) ==> Gone(run.At(j), id)
  {
    if Gone(run.At(i), id) {
      forall s, op {
        PendingStep(run.config, s, op);
      }
      Persists(run, i, j, s => Gone(s, id));
    }
  }

  /** Each payload can be got out at most once. */
  lemma PayloadsAreTakenOnce(run: Run, i: nat, j: nat, id: PayloadId)
    requires run.FromScratch() && i < j < |run.calls|
    requires Takes(run, i, id)
    ensures !Takes(run, j, id)
  {
    RunIdsBelowCounter(run, i);
    CallMoves(run, i);
    GoneForGood(run, i + 1, j, id);
  }

  ghost predicate Holds(s: State, id: PayloadId, b: Built) {
    id in s.pending && s.pending[id] == b && id < s.counter
  }

  lemma HeldUntilAsked(run: Run, i: nat, j: nat, id: PayloadId, b: Built)
    requires run.Legal() && i <= j <= |run.calls| && Holds(run.At(i), id, b)
    requires forall k :: i <= k < j ==> !Asks(run.calls[k], id)
    ensures Holds(run.At(j), id, b)
  {
    forall s, op {
      PendingStep(run.config, s, op);
    }
    Persists(run, i, j, s => Holds(s, id, b));
  }

  lemma AskedIsGone(c: Config, s: State, op: Op, id: PayloadId)
    ensures Asks(op, id) && id < s.counter ==> Gone(Next(c, s, op), id)
  {
  }

  lemma AskedIsGoneForGood(run: Run, k: nat, j: nat, id: PayloadId)
    requires run.Legal() && k < j <= |run.calls|
    ensures Asks(run.calls[k], id) && id < run.At(k).counter ==> Gone(run.At(j), id)
  {
    AskedIsGone(run.config, run.At(k), run.calls[k], id);
    assert run.Steps(k);
    GoneForGood(run, k + 1, j, id);
  }

  /** What comes out for an ID is the payload that was built when the ID was handed out. */
  lemma TakenIsWhatWasBuilt(run: Run, i: nat, j: nat, id: PayloadId, b: Built)
    requires run.FromScratch() && i < j < |run.calls|
    requires Issued(run, i) == Some(id) && BuiltBy(run, i, id, b)
    requires Takes(run, j, id)
    ensures Take(run.At(j), id).1 == Done(b)
  {
    CallMoves(run, i);
    forall k | i + 1 <= k < j
      ensures !Asks(run.calls[k], id)
    {
      CounterOnlyGrows(run, i + 1, k);
      AskedIsGoneForGood(run, k, j, id);
    }
    HeldUntilAsked(run, i + 1, j, id, b);
  }

  // ---- From sealing to the canonical head ----

  ghost predicate Inserts(op: Op, hash: Hash) {
    op.InsertUnsafe? && op.payload.hash == hash
  }

  ghost predicate MovesHead(op: Op) {
    op.InsertUnsafe? || op.ForkChoiceTo?
  }

  /** Sealed payloads are filed under the hash of their own block. */
  ghost predicate Filed(s: State) {
    forall hash :: hash in s.sealed ==> hash == Of(s.sealed[hash].header)
  }

  /** One call files at most the block it seals and removes at most the one it inserts. */
  lemma SealedStep(c: Config, s: State, op: Op)
    ensures Filed(s) ==> Filed(Next(c, s, op))
    ensures forall hash :: hash in s.sealed && !Inserts(op, hash) ==> hash in Next(c, s, op).sealed
    ensures !MovesHead(op) ==> Next(c, s, op).head == s.head
  {
    match op
    case StartBuildBlock(parent, attrs, env) => StartKeepsIndex(c, s, parent, attrs, env);
    case ForkChoiceTo(hash, wanted, env) => ForkChoiceKeepsIndex(c, s, hash, wanted, env);
    case InsertUnsafe(p, env) => InsertKeepsPending(c, s, p, env);
    case NewPayload(p, env) => ExecuteKeepsPayloads(c, s, p, env);
    case ExecuteAttrs(parent, _, attrs, env) => BuildKeepsPayloads(c, s, parent, attrs, env);
    case _ =>
  }

  lemma RunFiled(run: Run, i: nat)
    requires run.FromScratch() && i <= |run.calls|
    ensures Filed(run.At(i))
  {
    forall s, op ensures Filed(s) ==> Filed(Next(run.config, s, op)) {
      SealedStep(run.config, s, op);
    }
    Persists(run, 0, i, s => Filed(s));
  }

  lemma SealedUntilInserted(run: Run, i: nat, j: nat, hash: Hash)
    requires run.Legal() && i <= j <= |run.calls|
    requires forall k :: i <= k < j ==> !Inserts(run.calls[k], hash)
    ensures hash in run.At(i).sealed ==> hash in run.At(j).sealed
  {
    if hash in run.At(i).sealed {
      forall s: State, op | hash in s.sealed && !Inserts(op, hash) ensures hash in Next(run.config, s, op).sealed {
        SealedStep(run.config, s, op);
      }
      Persists(run, i, j, (s: State) => hash in s.sealed);
    }
  }

  /** Whether the head of moment `i` lasts until a call that moves the head. */
  ghost predicate StaysHead(run: Run, i: nat)
    requires run.Legal() && i <= |run.calls|
  {
    forall j :: i <= j <= |run.calls| && (forall k :: i <= k < j ==> !MovesHead(run.calls[k])) ==>
      run.At(j).head == run.At(i).head
  }

  lemma HeadStays(run: Run, i: nat)
    requires run.Legal() && i <= |run.calls|
    ensures StaysHead(run, i)
  {
    var head := run.At(i).head;
    forall s: State, op | s.head == head && !MovesHead(op) ensures Next(run.config, s, op).head == head {
      SealedStep(run.config, s, op);
    }
    forall j | i <= j <= |run.calls| && (forall k :: i <= k < j ==> !MovesHead(run.calls[k]))
      ensures run.At(j).head == head
    {
      Persists(run, i, j, (s: State) => s.head == head);
    }
  }

  /** The conditions under which committing a block goes through. */
  ghost predicate Committable(c: Config, s: State, b: Built, dbOk: bool) {
    || Known(s, b.header)
    || ((b.receipts.Some? ==> dbOk) && !RootMismatch(s, b.header) && InfoOf(c, b.header).Some?)
  }

  lemma CommitAnswers(c: Config, s: State, b: Built, dbOk: bool)
    ensures Indexed(c, s) ==>
              var (t, r) := Commit(c, s, b, dbOk);
              && (r.Done? <==> Committable(c, s, b, dbOk))
              && (r.Done? ==> InfoOf(c, b.header) == Some(r.value))
              && (r.Done? ==> ByNumber(t.headers, b.header.number) == Some(b.header))
              && (r.Done? ==> Known(t, b.header) && t.infos[b.header.number] == r.value)
  {
  }

  lemma InsertSealed(c: Config, s: State, p: Payload, env: Env)
    ensures Indexed(c, s) && Filed(s) && p.hash in s.sealed ==>
              var b, (t, r) := s.sealed[p.hash], Insert(c, s, p, env);
              && p.hash == Of(b.header)
              && (r.Done? <==> Committable(c, s, b, env.dbOk))
              && (r.Done? ==> InfoOf(c, b.header) == Some(t.head) && r.value == t.head)
              && (r.Done? ==> ByNumber(t.headers, b.header.number) == Some(b.header) && Known(t, b.header))
              && (!r.Done? ==> t.head == s.head)
  {
    if Indexed(c, s) && Filed(s) && p.hash in s.sealed {
      var u := s.(sealed := s.sealed - {p.hash});
      assert Indexed(c, u);
      CommitAnswers(c, u, s.sealed[p.hash], env.dbOk);
      CommitKeepsPayloads(c, u, s.sealed[p.hash], env.dbOk);
    }
  }

  lemma SealFiles(s: State, id: PayloadId)
    ensures id in s.pending ==> Of(s.pending[id].header) in Seal(s, id).0.sealed
  {
  }

  lemma SealedAndNotYetInserted(run: Run, i: nat, j: nat, id: PayloadId, h: Header)
    requires run.Legal() && i < j <= |run.calls| && run.calls[i] == GetSealed(id)
    requires forall k :: i < k < j ==> !Inserts(run.calls[k], Of(h))
    ensures id in run.At(i).pending && run.At(i).pending[id].header == h ==> Of(h) in run.At(j).sealed
  {
    SealFiles(run.At(i), id);
    assert run.Steps(i);
    SealedUntilInserted(run, i + 1, j, Of(h));
  }

  /**
   * A payload sealed at call `i` and inserted at call `j`, with any other calls in between, becomes the
   * canonical head: exactly its block, found under its number, and it stays the head until some call moves
   * the head again. The insertion goes through unless the database fails, the registry expects another
   * state root or the block has no epoch.
   */
  lemma SealedPayloadBecomesHead(run: Run, i: nat, j: nat, id: PayloadId, h: Header)
    requires run.FromScratch() && i < j < |run.calls|
    requires run.calls[i] == GetSealed(id) && id in run.At(i).pending && run.At(i).pending[id].header == h
    requires Inserts(run.calls[j], Of(h)) && forall k :: i < k < j ==> !Inserts(run.calls[k], Of(h))
    ensures var c, s, t := run.config, run.At(j), run.At(j + 1);
            && Of(h) in s.sealed && s.sealed[Of(h)].header == h
            && (if Committable(c, s, s.sealed[Of(h)], run.calls[j].env.dbOk)
                then InfoOf(c, h) == Some(t.head) && ByNumber(t.headers, h.number) == Some(h)
                else t.head == s.head)
    ensures StaysHead(run, j + 1)
  {
    SealedAndNotYetInserted(run, i, j, id, h);
    RunIndexed(run, j);
    RunFiled(run, j);
    InsertSealed(run.config, run.At(j), run.calls[j].payload, run.calls[j].env);
    assert run.Steps(j);
    HeadStays(run, j + 1);
  }

  lemma InsertKnown(c: Config, s: State, p: Payload, env: Env)
    ensures Indexed(c, s) && Filed(s) && p.hash.Of? && p.hash.header.number == p.number && Known(s, p.hash.header) ==>
              Insert(c, s, p, env)
              == (s.(sealed := s.sealed - {p.hash}, head := s.infos[p.number]), Done(s.infos[p.number]))
  {
    if p.hash !in s.sealed {
      assert s.sealed - {p.hash} == s.sealed;
    }
  }

  /** Inserting a block again right after it went in gives the same answer and changes nothing at all. */
  lemma InsertingAgainChangesNothing(run: Run, i: nat, p: Payload, first: Env, again: Env)
    requires run.FromScratch() && i <= |run.calls|
    requires p.hash in run.At(i).sealed && p.number == run.At(i).sealed[p.hash].header.number
    requires Insert(run.config, run.At(i), p, first).1.Done?
    ensures var once := Insert(run.config, run.At(i), p, first);
            Insert(run.config, once.0, p, again) == once
  {
    var c, s := run.config, run.At(i);
    RunIndexed(run, i);
    RunFiled(run, i);
    var (t, r) := Insert(c, s, p, first);
    InsertSealed(c, s, p, first);
    InsertKeepsPending(c, s, p, first);
    InsertIndexed(c, s, p, first);
    assert Filed(t) && t.sealed - {p.hash} == t.sealed;
    InsertKnown(c, t, p, again);
  }

  /** A fork choice naming an executed block makes that block the head, whatever else the call does. */
  lemma ForkChoiceMakesHead(run: Run, i: nat, h: Header, wanted: Option<Attributes>, env: Env)
    requires run.FromScratch() && i <= |run.calls|
    ensures var s, t := run.At(i), ForkChoice(run.config, run.At(i), Of(h), wanted, env).0;
            if Known(s, h) then InfoOf(run.config, h) == Some(t.head) else t.head == s.head
  {
    var c, s := run.config, run.At(i);
    RunIndexed(run, i);
    LookupsCoincide(run, i, h);
    if wanted.Some? {
      StartKeepsIndex(c, Choose(s, Of(h)), Of(h), wanted.value, env);
    }
  }

  // ---- Block infos by number ----

  /** The info lookup answers with the canonical head at the head's own height. */
  ghost function InfoByNumber(s: State, number: nat): Option<Info> {
    if number == s.head.number then Some(s.head)
    else if number in s.infos then Some(s.infos[number])
    else None
  }

  /** The info lookup names the block that the header lookup finds, at every executed height. */
  ghost predicate InfosAgree(s: State) {
    forall n :: n in s.headers ==>
      InfoByNumber(s, n).Some? && InfoByNumber(s, n).value.hash == Of(s.headers[n])
  }

  /** The header stored at the head's height, if there is one, is the head's own. */
  ghost predicate HeadIsStored(s: State) {
    s.head.number in s.headers ==> Of(s.headers[s.head.number]) == s.head.hash
  }

  lemma OnlyTheHeadCanDisagree(c: Config, s: State)
    requires Indexed(c, s)
    ensures InfosAgree(s) <==> HeadIsStored(s)
  {
  }

  /** Whether a block would take the place of another one at the head's height. */
  ghost predicate Replaces(s: State, h: Header) {
    h.number == s.head.number && Of(h) != s.head.hash
  }

  /** The header a call would store by building on a parent, if any. */
  ghost function BuiltAndStored(c: Config, s: State, parent: Hash, attrs: Attributes, env: Env): Option<Header> {
    match env.build(EffectiveParent(c, s.headers, parent), attrs)
    case None => None
    case Some(b) => if Stores(c, s, b, env.dbOk) then Some(b.header) else None
  }

  ghost predicate Skips(s: State, p: Payload) {
    p.number in s.headers && (p.hash == Zero || p.hash == Of(s.headers[p.number]))
  }

  /** The header a call stores, if any. */
  ghost function StoredBy(c: Config, s: State, op: Op): Option<Header> {
    match op
    case InsertUnsafe(p, env) =>
      if p.hash in s.sealed then
        if Stores(c, s, s.sealed[p.hash], env.dbOk) then Some(s.sealed[p.hash].header) else None
      else if Skips(s, p) then None
      else BuiltAndStored(c, s, p.parentHash, p.attrs, env)
    case NewPayload(p, env) => if Skips(s, p) then None else BuiltAndStored(c, s, p.parentHash, p.attrs, env)
    case ExecuteAttrs(parent, number, attrs, env) =>
      if number in s.headers then None else BuiltAndStored(c, s, parent, attrs, env)
    case _ => None
  }

  /** Whether an insert that stores a block goes on to move the head. */
  ghost predicate InsertMovesHead(s: State, op: Op, stored: Header) {
    op.InsertUnsafe? && var p := op.payload; p.hash in s.sealed || p.number in s.infos || p.number == stored.number
  }

  /** The calls that break the agreement: they store another block at the head's height and leave the head. */
  ghost predicate Overwrites(c: Config, s: State, op: Op) {
    && StoredBy(c, s, op).Some?
    && Replaces(s, StoredBy(c, s, op).value)
    && !InsertMovesHead(s, op, StoredBy(c, s, op).value)
  }

  lemma BuildAnswers(c: Config, s: State, parent: Hash, attrs: Attributes, env: Env)
    ensures var stored := BuiltAndStored(c, s, parent, attrs, env);
            var (t, r) := BuildAndCommit(c, s, parent, attrs, env);
            stored.Some? ==> r.Done? && t.infos.Keys == s.infos.Keys + {stored.value.number}
  {
    var built := env.build(EffectiveParent(c, s.headers, parent), attrs);
    if built.Some? && Stores(c, s, built.value, env.dbOk) {
      CommitStores(c, s, built.value, env.dbOk);
    }
  }

  /** An insert that stores a block succeeds exactly if it moves the head. */
  lemma StoringInsertAnswers(c: Config, s: State, p: Payload, env: Env)
    ensures var op := InsertUnsafe(p, env);
            StoredBy(c, s, op).Some? ==>
              (Insert(c, s, p, env).1.Done? <==> InsertMovesHead(s, op, StoredBy(c, s, op).value))
  {
    if p.hash !in s.sealed {
      BuildAnswers(c, s, p.parentHash, p.attrs, env);
    }
  }

  lemma CommitKeepsHeadIff(c: Config, s: State, b: Built, dbOk: bool)
    ensures HeadIsStored(s) ==>
              (HeadIsStored(Commit(c, s, b, dbOk).0) <==> !(Stores(c, s, b, dbOk) && Replaces(s, b.header)))
  {
    CommitKeepsPayloads(c, s, b, dbOk);
    if Stores(c, s, b, dbOk) {
      CommitStores(c, s, b, dbOk);
    } else {
      CommitKeepsIndex(c, s, b, dbOk);
    }
  }

  lemma BuildKeepsHeadIff(c: Config, s: State, parent: Hash, attrs: Attributes, env: Env)
    ensures HeadIsStored(s) ==>
              var stored := BuiltAndStored(c, s, parent, attrs, env);
              (HeadIsStored(BuildAndCommit(c, s, parent, attrs, env).0)
               <==> !(stored.Some? && Replaces(s, stored.value)))
  {
    var built := env.build(EffectiveParent(c, s.headers, parent), attrs);
    if built.Some? {
      CommitKeepsHeadIff(c, s, built.value, env.dbOk);
    }
  }

  lemma ExecuteKeepsHeadIff(c: Config, s: State, p: Payload, env: Env)
    ensures HeadIsStored(s) ==>
              var stored := StoredBy(c, s, NewPayload(p, env));
              (HeadIsStored(ExecuteV1(c, s, p, env).0) <==> !(stored.Some? && Replaces(s, stored.value)))
  {
    BuildKeepsHeadIff(c, s, p.parentHash, p.attrs, env);
  }

  /** A successful insert leaves the head on the block stored at its height. */
  lemma InsertedHeadIsStored(c: Config, s: State, p: Payload, env: Env)
    requires Indexed(c, s) && Filed(s) && Insert(c, s, p, env).1.Done?
    ensures HeadIsStored(Insert(c, s, p, env).0)
  {
    if p.hash in s.sealed {
      InsertSealed(c, s, p, env);
    } else {
      ExecutedHeadIsStored(c, s, p, env);
    }
  }

  lemma ExecutedHeadIsStored(c: Config, s: State, p: Payload, env: Env)
    requires Indexed(c, s) && p.hash !in s.sealed && Insert(c, s, p, env).1.Done?
    ensures HeadIsStored(Insert(c, s, p, env).0)
  {
    var t := ExecuteV1(c, s, p, env).0;
    ExecuteIndexed(c, s, p, env);
    IndexedInfo(c, t, p.number);
    assert Insert(c, s, p, env).0 == t.(head := t.infos[p.number]);
  }

  lemma IndexedInfo(c: Config, s: State, n: nat)
    requires Indexed(c, s) && n in s.infos
    ensures n in s.headers && s.infos[n].number == n && s.infos[n].hash == Of(s.headers[n])
  {
  }

  /** A failed one changes the index only as executing the payload does. */
  lemma FailedInsertKeepsHeadIff(c: Config, s: State, p: Payload, env: Env)
    requires Indexed(c, s) && Filed(s) && HeadIsStored(s) && !Insert(c, s, p, env).1.Done?
    ensures HeadIsStored(Insert(c, s, p, env).0) <==> !Overwrites(c, s, InsertUnsafe(p, env))
  {
    StoringInsertAnswers(c, s, p, env);
    if p.hash in s.sealed {
      var u := s.(sealed := s.sealed - {p.hash});
      CommitKeepsHeadIff(c, u, s.sealed[p.hash], env.dbOk);
    } else {
      ExecuteKeepsHeadIff(c, s, p, env);
    }
  }

  lemma ForkChoiceKeepsHead(c: Config, s: State, hash: Hash, wanted: Option<Attributes>, env: Env)
    requires Indexed(c, s)
    ensures HeadIsStored(s) ==> HeadIsStored(ForkChoice(c, s, hash, wanted, env).0)
  {
    var chosen := Choose(s, hash);
    ChosenHeadIsStored(c, s, hash);
    if wanted.Some? {
      StartKeepsIndex(c, chosen, hash, wanted.value, env);
    }
  }

  lemma ChosenHeadIsStored(c: Config, s: State, hash: Hash)
    requires Indexed(c, s)
    ensures HeadIsStored(s) ==> HeadIsStored(Choose(s, hash))
  {
    if hash.Of? && hash.header in s.headers.Values {
      var n :| n in s.headers && s.headers[n] == hash.header;
      assert n == hash.header.number;
    }
  }

  /** From agreement, a call keeps the agreement if and only if it does not overwrite the head's block. */
  lemma HeadStaysStoredIff(c: Config, s: State, op: Op)
    requires Indexed(c, s) && Filed(s)
    ensures HeadIsStored(s) ==> (HeadIsStored(Next(c, s, op)) <==> !Overwrites(c, s, op))
  {
    if HeadIsStored(s) {
      match op
      case StartBuildBlock(parent, attrs, env) => StartKeepsIndex(c, s, parent, attrs, env);
      case ForkChoiceTo(hash, wanted, env) => ForkChoiceKeepsHead(c, s, hash, wanted, env);
      case InsertUnsafe(p, env) =>
        StoringInsertAnswers(c, s, p, env);
        if Insert(c, s, p, env).1.Done? {
          InsertedHeadIsStored(c, s, p, env);
        } else {
          FailedInsertKeepsHeadIff(c, s, p, env);
        }
      case NewPayload(p, env) => ExecuteKeepsHeadIff(c, s, p, env);
      case ExecuteAttrs(parent, _, attrs, env) => BuildKeepsHeadIff(c, s, parent, attrs, env);
      case _ =>
    }
  }

  /**
   * At any moment of a run at which the info and header lookups agree at every executed height, the next call
   * keeps them in agreement if and only if it does not store another block at the head's height without
   * moving the head. So a successful insert and a fork choice always keep them.
   */
  lemma InfosStayInAgreementIff(run: Run, i: nat)
    requires run.FromScratch() && i < |run.calls| && InfosAgree(run.At(i))
    ensures InfosAgree(run.At(i + 1)) <==> !Overwrites(run.config, run.At(i), run.calls[i])
  {
    RunIndexed(run, i);
    RunIndexed(run, i + 1);
    RunFiled(run, i);
    OnlyTheHeadCanDisagree(run.config, run.At(i));
    OnlyTheHeadCanDisagree(run.config, run.At(i + 1));
    assert run.Steps(i);
    HeadStaysStoredIff(run.config, run.At(i), run.calls[i]);
  }

  lemma {:induction false} InAgreementUnlessOverwritten(run: Run, n: nat)
    requires run.FromScratch() && n <= |run.calls|
    requires forall i :: 0 <= i < |run.calls| ==> !Overwrites(run.config, run.At(i), run.calls[i])
    ensures InfosAgree(run.At(n))
  {
    if n > 0 {
      InAgreementUnlessOverwritten(run, n - 1);
      InfosStayInAgreementIff(run, n - 1);
    }
  }

  /** The lookups agree at every moment of a run if and only if no call overwrites the head's block. */
  lemma InfoLookupAgreesIff(run: Run)
    requires run.FromScratch()
    ensures (forall i :: 0 <= i <= |run.calls| ==> InfosAgree(run.At(i))) <==>
            (forall i :: 0 <= i < |run.calls| ==> !Overwrites(run.config, run.At(i), run.calls[i]))
  {
    if forall i :: 0 <= i < |run.calls| ==> !Overwrites(run.config, run.At(i), run.calls[i]) {
      forall i | 0 <= i <= |run.calls| ensures InfosAgree(run.At(i)) {
        InAgreementUnlessOverwritten(run, i);
      }
    }
    if forall i :: 0 <= i <= |run.calls| ==> InfosAgree(run.At(i)) {
      forall i | 0 <= i < |run.calls| ensures !Overwrites(run.config, run.At(i), run.calls[i]) {
        InfosStayInAgreementIff(run, i);
      }
    }
  }

  /** It can fail: executing a second block at the head's height replaces the header and not the head. */
  lemma InfoLookupCanBeStale(c: Config, head: Info, a: Header, b: Header, attrs: Attributes)
    requires a.number == b.number && a != b && InfoOf(c, a).Some? && InfoOf(c, b).Some? && a.stateRoot == b.stateRoot
    ensures exists run: Run ::
              && run.config == c && run.FromScratch() && |run.calls| == 2
              && InfoByNumber(run.At(2), a.number) == InfoOf(c, a)
              && ByNumber(run.At(2).headers, a.number) == Some(b)
  {
    var envA := Env((_, _) => Some(Built(a, None)), true);
    var envB := Env((_, _) => Some(Built(b, None)), true);
    var insertA := InsertUnsafe(Payload(a.number, Of(a), a.parentHash, attrs), envA);
    var executeB := NewPayload(Payload(b.number, Of(b), b.parentHash, attrs), envB);
    var start := Initial(head, map[]);
    var middle := Next(c, start, insertA);
    var run := Run(c, [start, middle, Next(c, middle, executeB)], [insertA, executeB]);
    assert run.Steps(0) && run.Steps(1);
  }
}
