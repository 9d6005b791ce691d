/** On which parent the engine builds, what becomes of what was built, and what its answers name, over every run. */
module EngineBuilds {
  import opened Basics
  import opened Engine
  import opened EngineRuns

  // ---- The parent of a build ----

  /** The header a build starts from: the executed one with the named hash, and genesis if there is none. */
  ghost predicate IsParent(c: Config, headers: map<nat, Header>, hash: Hash, parent: Header) {
    || (exists n :: n in headers && Of(headers[n]) == hash && headers[n] == parent)
    || ((forall n :: n in headers ==> Of(headers[n]) != hash) && parent == c.genesis)
  }

  /** The builder's answer to a request on the named parent. */
  ghost predicate BuildsOn(c: Config, s: State, hash: Hash, attrs: Attributes, env: Env, b: Built) {
    exists parent :: IsParent(c, s.headers, hash, parent) && env.build(parent, attrs) == Some(b)
  }

  lemma EffectiveParentIs(c: Config, headers: map<nat, Header>, hash: Hash, parent: Header)
    ensures IsParent(c, headers, hash, parent) <==> parent == EffectiveParent(c, headers, hash)
  {
    if hash.Of? && hash.header in headers.Values {
      var n :| n in headers && headers[n] == hash.header;
      assert Of(headers[n]) == hash;
    }
  }

  lemma BuildsOnIs(c: Config, s: State, hash: Hash, attrs: Attributes, env: Env, b: Built)
    ensures BuildsOn(c, s, hash, attrs, env, b) <==> env.build(EffectiveParent(c, s.headers, hash), attrs) == Some(b)
  {
    forall parent ensures IsParent(c, s.headers, hash, parent) <==> parent == EffectiveParent(c, s.headers, hash) {
      EffectiveParentIs(c, s.headers, hash, parent);
    }
  }

  /** What a call may ask the builder for: the hash of the parent, the attributes and whom it asks. */
  ghost function Request(op: Op): Option<(Hash, Attributes, Env)> {
    match op
    case StartBuildBlock(parent, attrs, env) => Some((parent, attrs, env))
    case ForkChoiceTo(hash, Some(attrs), env) => Some((hash, attrs, env))
    case InsertUnsafe(p, env) => Some((p.parentHash, p.attrs, env))
    case NewPayload(p, env) => Some((p.parentHash, p.attrs, env))
    case ExecuteAttrs(parent, _, attrs, env) => Some((parent, attrs, env))
    case _ => None
  }

  /** The builder's answer to what a call asks for. */
  ghost predicate BuiltIn(c: Config, s: State, op: Op, b: Built) {
    Request(op).Some? && var (parent, attrs, env) := Request(op).value; BuildsOn(c, s, parent, attrs, env, b)
  }

  // ---- The payload behind an ID ----

  lemma StartBuilds(c: Config, s: State, parent: Hash, attrs: Attributes, env: Env)
    ensures var (t, r) := StartBuild(c, s, parent, attrs, env);
            && (r.Done? <==> exists b :: BuildsOn(c, s, parent, attrs, env, b))
            && (r.Done? ==> s.counter in t.pending && BuildsOn(c, s, parent, attrs, env, t.pending[s.counter]))
  {
    var built := env.build(EffectiveParent(c, s.headers, parent), attrs);
    if built.Some? {
      BuildsOnIs(c, s, parent, attrs, env, built.value);
    }
    forall b ensures BuildsOn(c, s, parent, attrs, env, b) <==> built == Some(b) {
      BuildsOnIs(c, s, parent, attrs, env, b);
    }
  }

  lemma ChosenBuildsOn(c: Config, s: State, hash: Hash, attrs: Attributes, env: Env, b: Built)
    ensures BuildsOn(c, Choose(s, hash), hash, attrs, env, b) <==> BuildsOn(c, s, hash, attrs, env, b)
  {
    assert Choose(s, hash).headers == s.headers;
  }

  /** A call that hands out an ID files under it the builder's answer on the parent it names. */
  lemma IssuedIsBuilt(c: Config, s: State, op: Op)
    ensures var issued, t := IssuedIn(c, s, op), Next(c, s, op);
            issued.Some? ==> issued.value in t.pending && BuiltIn(c, s, op, t.pending[issued.value])
  {
    match op
    case StartBuildBlock(parent, attrs, env) => StartBuilds(c, s, parent, attrs, env);
    case ForkChoiceTo(hash, wanted, env) =>
      if wanted.Some? {
        var chosen := Choose(s, hash);
        StartBuilds(c, chosen, hash, wanted.value, env);
        StartAddsOne(c, chosen, hash, wanted.value, env);
        var t := StartBuild(c, chosen, hash, wanted.value, env).0;
        if chosen.counter in t.pending {
          ChosenBuildsOn(c, s, hash, wanted.value, env, t.pending[chosen.counter]);
        }
      }
    case _ =>
  }

  /**
   * The payload that comes out for an ID, whatever calls came between, is the builder's answer, at the call
   * that handed out the ID, on the executed header with the hash that call named, or on genesis if no
   * executed header had it.
   */
  lemma TakenWasBuiltOnItsParent(run: Run, i: nat, j: nat, id: PayloadId)
    requires run.FromScratch() && i < j < |run.calls|
    requires Issued(run, i) == Some(id) && Takes(run, j, id)
    ensures BuiltIn(run.config, run.At(i), run.calls[i], Take(run.At(j), id).1.value)
  {
    IssuedIsBuilt(run.config, run.At(i), run.calls[i]);
    assert run.Steps(i);
    TakenIsWhatWasBuilt(run, i, j, id, run.At(i + 1).pending[id]);
  }

  ghost predicate Issues(run: Run, k: nat)
    requires run.Legal() && k < |run.calls|
  {
    Issued(run, k).Some?
  }

  lemma CounterCountsIds(run: Run, i: nat)
    requires run.FromScratch() && i <= |run.calls|
    ensures run.At(i).counter == Marked(seq(|run.calls|, k requires 0 <= k < |run.calls| => Issues(run, k)), i)
  {
    var marks := seq(|run.calls|, k requires 0 <= k < |run.calls| => Issues(run, k));
    var counters := seq(|run.states|, k requires 0 <= k < |run.states| => run.At(k).counter);
    forall k | 0 <= k < |run.calls| ensures counters[k + 1] == counters[k] + if marks[k] then 1 else 0 {
      CallMoves(run, k);
    }
    GoesUpAtMarks(counters, marks, i);
  }

  /** The ID a call hands out is the number of IDs handed out before. */
  lemma IdsCountUp(run: Run, i: nat)
    requires run.FromScratch() && i < |run.calls| && Issued(run, i).Some?
    ensures Issued(run, i).value == Marked(seq(|run.calls|, k requires 0 <= k < |run.calls| => Issues(run, k)), i)
  {
    CounterCountsIds(run, i);
    CallMoves(run, i);
  }

  // ---- Everything comes from the builder ----

  /** Every payload and every executed header of `t` was there in `s` or came from the builder in between. */
  ghost predicate ComesFrom(c: Config, s: State, op: Op, t: State) {
    && (forall id :: id in t.pending ==>
          (id in s.pending && s.pending[id] == t.pending[id]) || BuiltIn(c, s, op, t.pending[id]))
    && (forall hash :: hash in t.sealed ==>
          (hash in s.sealed && s.sealed[hash] == t.sealed[hash]) || t.sealed[hash] in s.pending.Values)
    && (forall n :: n in t.headers ==>
          (n in s.headers && s.headers[n] == t.headers[n]) || HeaderComesFrom(c, s, op, t.headers[n]))
    && (forall n :: n in t.receipts ==>
          (n in s.receipts && s.receipts[n] == t.receipts[n]) || ReceiptsComeFrom(c, s, op, n, t.receipts[n]))
  }

  ghost predicate Offered(c: Config, s: State, op: Op, b: Built) {
    b in s.sealed.Values || BuiltIn(c, s, op, b)
  }

  ghost predicate HeaderComesFrom(c: Config, s: State, op: Op, h: Header) {
    exists b :: Offered(c, s, op, b) && b.header == h
  }

  ghost predicate ReceiptsComeFrom(c: Config, s: State, op: Op, n: nat, receipts: seq<nat>) {
    exists b :: Offered(c, s, op, b) && b.header.number == n && b.receipts == Some(receipts)
  }

  /** A commit that gets as far as the registry has put the block's receipts, if it has any, under its number. */
  lemma CommitFilesReceipts(c: Config, s: State, b: Built, dbOk: bool)
    ensures var t := Commit(c, s, b, dbOk).0;
            t.receipts == if b.receipts.Some? && dbOk && !(b.header.number in s.infos
                             && s.infos[b.header.number].hash == Of(b.header))
                          then s.receipts[b.header.number := b.receipts.value] else s.receipts
  {
    var u := WithReceipts(s, b);
    assert Registered(u, b.header).receipts == u.receipts;
  }

  /** A commit touches only the entries of its own block's number. */
  lemma CommitTouches(c: Config, s: State, b: Built, dbOk: bool)
    ensures var t := Commit(c, s, b, dbOk).0;
            && (t.headers == s.headers || t.headers == s.headers[b.header.number := b.header])
            && (t.receipts == s.receipts
                || (b.receipts.Some? && t.receipts == s.receipts[b.header.number := b.receipts.value]))
  {
    CommitFilesReceipts(c, s, b, dbOk);
    if Stores(c, s, b, dbOk) {
      CommitStores(c, s, b, dbOk);
    } else {
      CommitKeepsIndex(c, s, b, dbOk);
    }
  }

  lemma CommitComesFrom(c: Config, s: State, op: Op, u: State, b: Built, dbOk: bool)
    requires Offered(c, s, op, b) && u.headers == s.headers && u.receipts == s.receipts
    ensures var t := Commit(c, u, b, dbOk).0;
            && (forall n :: n in t.headers ==>
                  (n in s.headers && s.headers[n] == t.headers[n]) || HeaderComesFrom(c, s, op, t.headers[n]))
            && (forall n :: n in t.receipts ==>
                  (n in s.receipts && s.receipts[n] == t.receipts[n]) || ReceiptsComeFrom(c, s, op, n, t.receipts[n]))
  {
    CommitTouches(c, u, b, dbOk);
    assert HeaderComesFrom(c, s, op, b.header);
    if b.receipts.Some? {
      assert ReceiptsComeFrom(c, s, op, b.header.number, b.receipts.value);
    }
  }

  lemma BuildComesFrom(c: Config, s: State, op: Op, parent: Hash, attrs: Attributes, env: Env)
    requires Request(op) == Some((parent, attrs, env))
    ensures ComesFrom(c, s, op, BuildAndCommit(c, s, parent, attrs, env).0)
  {
    var built := env.build(EffectiveParent(c, s.headers, parent), attrs);
    BuildKeepsPayloads(c, s, parent, attrs, env);
    if built.Some? {
      BuildsOnIs(c, s, parent, attrs, env, built.value);
      CommitComesFrom(c, s, op, s, built.value, env.dbOk);
    }
  }

  lemma SealedComesFrom(c: Config, s: State, p: Payload, env: Env)
    requires p.hash in s.sealed
    ensures ComesFrom(c, s, InsertUnsafe(p, env), Insert(c, s, p, env).0)
  {
    var u := s.(sealed := s.sealed - {p.hash});
    InsertKeepsPending(c, s, p, env);
    CommitComesFrom(c, s, InsertUnsafe(p, env), u, s.sealed[p.hash], env.dbOk);
  }

  lemma UnsealedComesFrom(c: Config, s: State, p: Payload, env: Env)
    requires p.hash !in s.sealed
    ensures ComesFrom(c, s, InsertUnsafe(p, env), Insert(c, s, p, env).0)
  {
    var t := Insert(c, s, p, env).0;
    BuildComesFrom(c, s, InsertUnsafe(p, env), p.parentHash, p.attrs, env);
    UnsealedLeaves(c, s, p, env);
    ExecuteLeaves(c, s, p, env);
  }

  /** Without a sealed payload an insert leaves what executing the payload leaves, but for the head. */
  lemma UnsealedLeaves(c: Config, s: State, p: Payload, env: Env)
    requires p.hash !in s.sealed
    ensures var t, u := Insert(c, s, p, env).0, ExecuteV1(c, s, p, env).0; t == u.(head := t.head)
  {
  }

  lemma ExecuteLeaves(c: Config, s: State, p: Payload, env: Env)
    ensures var u := ExecuteV1(c, s, p, env).0; u == s || u == BuildAndCommit(c, s, p.parentHash, p.attrs, env).0
  {
  }

  lemma InsertComesFrom(c: Config, s: State, p: Payload, env: Env)
    ensures ComesFrom(c, s, InsertUnsafe(p, env), Insert(c, s, p, env).0)
  {
    if p.hash in s.sealed {
      SealedComesFrom(c, s, p, env);
    } else {
      UnsealedComesFrom(c, s, p, env);
    }
  }

  /** Calls that start a build or take a payload out leave the executed blocks alone. */
  ghost predicate LeavesBlocks(s: State, t: State) {
    t.headers == s.headers && t.receipts == s.receipts && t.registry == s.registry
  }

  lemma StartLeaves(c: Config, s: State, parent: Hash, attrs: Attributes, env: Env)
    ensures var t := StartBuild(c, s, parent, attrs, env).0; t == s.(counter := t.counter, pending := t.pending)
  {
  }

  lemma ChooseLeaves(s: State, hash: Hash)
    ensures var t := Choose(s, hash); t == s.(head := t.head)
  {
  }

  lemma IssuingLeavesBlocks(c: Config, s: State, op: Op)
    requires op.StartBuildBlock? || op.ForkChoiceTo?
    ensures LeavesBlocks(s, Next(c, s, op)) && Next(c, s, op).sealed == s.sealed
  {
    match op
    case StartBuildBlock(parent, attrs, env) => StartLeaves(c, s, parent, attrs, env);
    case ForkChoiceTo(hash, wanted, env) =>
      ChooseLeaves(s, hash);
      if wanted.Some? {
        StartLeaves(c, Choose(s, hash), hash, wanted.value, env);
      }
  }

  lemma TakingLeavesBlocks(c: Config, s: State, op: Op)
    requires op.GetPayload? || op.GetSealed?
    ensures LeavesBlocks(s, Next(c, s, op))
  {
  }

  lemma IssuingComesFrom(c: Config, s: State, op: Op)
    requires op.StartBuildBlock? || op.ForkChoiceTo?
    ensures ComesFrom(c, s, op, Next(c, s, op))
  {
    IssuedIsBuilt(c, s, op);
    IssuingLeavesBlocks(c, s, op);
    IssuingAddsOne(c, s, op);
  }

  lemma StartFiles(c: Config, s: State, parent: Hash, attrs: Attributes, env: Env)
    ensures var (t, r) := StartBuild(c, s, parent, attrs, env);
            forall id :: id in t.pending ==>
              (r.Done? && id == r.value) || (id in s.pending && t.pending[id] == s.pending[id])
  {
  }

  lemma IssuingAddsOne(c: Config, s: State, op: Op)
    requires op.StartBuildBlock? || op.ForkChoiceTo?
    ensures var issued, t := IssuedIn(c, s, op), Next(c, s, op);
            forall id :: id in t.pending ==> Some(id) == issued || (id in s.pending && t.pending[id] == s.pending[id])
  {
    match op
    case StartBuildBlock(parent, attrs, env) => StartFiles(c, s, parent, attrs, env);
    case ForkChoiceTo(hash, wanted, env) =>
      ChooseLeaves(s, hash);
      if wanted.Some? {
        StartFiles(c, Choose(s, hash), hash, wanted.value, env);
      }
  }

  lemma TakingComesFrom(c: Config, s: State, op: Op)
    requires op.GetPayload? || op.GetSealed?
    ensures ComesFrom(c, s, op, Next(c, s, op))
  {
    TakingLeavesBlocks(c, s, op);
  }

  lemma StepComesFrom(c: Config, s: State, op: Op)
    ensures ComesFrom(c, s, op, Next(c, s, op))
  {
    match op
    case StartBuildBlock(_, _, _) => IssuingComesFrom(c, s, op);
    case ForkChoiceTo(_, _, _) => IssuingComesFrom(c, s, op);
    case GetPayload(_) => TakingComesFrom(c, s, op);
    case GetSealed(_) => TakingComesFrom(c, s, op);
    case InsertUnsafe(p, env) => InsertComesFrom(c, s, p, env);
    case NewPayload(p, env) => BuildComesFrom(c, s, op, p.parentHash, p.attrs, env);
    case ExecuteAttrs(parent, _, attrs, env) => BuildComesFrom(c, s, op, parent, attrs, env);
    case Register(_, _, _) =>
  }

  /** The builder answered `b` to a call before moment `j`. */
  ghost predicate WasBuilt(run: Run, j: nat, b: Built)
    requires run.Legal() && j <= |run.calls|
  {
    exists k :: 0 <= k < j && BuiltIn(run.config, run.At(k), run.calls[k], b)
  }

  /** Everything the engine holds at moment `j` was answered by the builder on the parent some earlier call named. */
  ghost predicate AllBuilt(run: Run, j: nat)
    requires run.Legal() && j <= |run.calls|
  {
    var s := run.At(j);
    && (forall id :: id in s.pending ==> WasBuilt(run, j, s.pending[id]))
    && (forall hash :: hash in s.sealed ==> WasBuilt(run, j, s.sealed[hash]))
    && (forall n :: n in s.headers ==> HeaderWasBuilt(run, j, s.headers[n]))
    && (forall n :: n in s.receipts ==> ReceiptsWereBuilt(run, j, n, s.receipts[n]))
  }

  ghost predicate HeaderWasBuilt(run: Run, j: nat, h: Header)
    requires run.Legal() && j <= |run.calls|
  {
    exists b :: WasBuilt(run, j, b) && b.header == h
  }

  ghost predicate ReceiptsWereBuilt(run: Run, j: nat, n: nat, receipts: seq<nat>)
    requires run.Legal() && j <= |run.calls|
  {
    exists b :: WasBuilt(run, j, b) && b.header.number == n && b.receipts == Some(receipts)
  }

  lemma StillBuilt(run: Run, j: nat, b: Built)
    requires run.Legal() && j < |run.calls|
    ensures WasBuilt(run, j, b) || BuiltIn(run.config, run.At(j), run.calls[j], b) ==> WasBuilt(run, j + 1, b)
  {
    if WasBuilt(run, j, b) {
      var k :| 0 <= k < j && BuiltIn(run.config, run.At(k), run.calls[k], b);
      assert BuiltIn(run.config, run.At(k), run.calls[k], b);
    }
  }

  lemma OfferedWasBuilt(run: Run, j: nat, b: Built)
    requires run.Legal() && j < |run.calls| && AllBuilt(run, j)
    ensures Offered(run.config, run.At(j), run.calls[j], b) ==> WasBuilt(run, j + 1, b)
  {
    StillBuilt(run, j, b);
    if b in run.At(j).sealed.Values {
      var hash :| hash in run.At(j).sealed && run.At(j).sealed[hash] == b;
    }
  }

  lemma PayloadsStayBuilt(run: Run, j: nat)
    requires run.Legal() && j < |run.calls| && AllBuilt(run, j)
    ensures var t := run.At(j + 1);
            && (forall id :: id in t.pending ==> WasBuilt(run, j + 1, t.pending[id]))
            && (forall hash :: hash in t.sealed ==> WasBuilt(run, j + 1, t.sealed[hash]))
  {
    var s, t := run.At(j), run.At(j + 1);
    CallComesFrom(run, j);
    forall id | id in t.pending ensures WasBuilt(run, j + 1, t.pending[id]) {
      StillBuilt(run, j, t.pending[id]);
    }
    forall hash | hash in t.sealed ensures WasBuilt(run, j + 1, t.sealed[hash]) {
      StillBuilt(run, j, t.sealed[hash]);
      if t.sealed[hash] in s.pending.Values {
        var id :| id in s.pending && s.pending[id] == t.sealed[hash];
      }
    }
  }

  lemma CallComesFrom(run: Run, j: nat)
    requires run.Legal() && j < |run.calls|
    ensures ComesFrom(run.config, run.At(j), run.calls[j], run.At(j + 1))
  {
    StepComesFrom(run.config, run.At(j), run.calls[j]);
    assert run.Steps(j);
  }

  lemma HeadersStayBuilt(run: Run, j: nat)
    requires run.Legal() && j < |run.calls| && AllBuilt(run, j)
    ensures var t := run.At(j + 1); forall n :: n in t.headers ==> HeaderWasBuilt(run, j + 1, t.headers[n])
  {
    var s, t := run.At(j), run.At(j + 1);
    CallComesFrom(run, j);
    forall n | n in t.headers ensures HeaderWasBuilt(run, j + 1, t.headers[n]) {
      if n in s.headers && s.headers[n] == t.headers[n] {
        var b :| WasBuilt(run, j, b) && b.header == t.headers[n];
        StillBuilt(run, j, b);
      } else {
        var b :| Offered(run.config, s, run.calls[j], b) && b.header == t.headers[n];
        OfferedWasBuilt(run, j, b);
      }
    }
  }

  lemma ReceiptsStayBuilt(run: Run, j: nat)
    requires run.Legal() && j < |run.calls| && AllBuilt(run, j)
    ensures var t := run.At(j + 1); forall n :: n in t.receipts ==> ReceiptsWereBuilt(run, j + 1, n, t.receipts[n])
  {
    var s, t := run.At(j), run.At(j + 1);
    CallComesFrom(run, j);
    forall n | n in t.receipts ensures ReceiptsWereBuilt(run, j + 1, n, t.receipts[n]) {
      if n in s.receipts && s.receipts[n] == t.receipts[n] {
        var b :| WasBuilt(run, j, b) && b.header.number == n && b.receipts == Some(t.receipts[n]);
        StillBuilt(run, j, b);
      } else {
        var b :| Offered(run.config, s, run.calls[j], b) && b.header.number == n && b.receipts == Some(t.receipts[n]);
        OfferedWasBuilt(run, j, b);
      }
    }
  }

  /**
   * At every moment of every run, whatever is pending, sealed or executed, and every entry of receipts, is the
   * builder's answer to some earlier call, on the executed header whose hash that call named or on genesis.
   */
  lemma {:induction false} EverythingWasBuilt(run: Run, j: nat)
    requires run.FromScratch() && j <= |run.calls|
    ensures AllBuilt(run, j)
  {
    if j > 0 {
      EverythingWasBuilt(run, j - 1);
      PayloadsStayBuilt(run, j - 1);
      HeadersStayBuilt(run, j - 1);
      ReceiptsStayBuilt(run, j - 1);
    }
  }

  // ---- Block infos ----

  /** The info says of a header what it is; only the genesis header has its epoch from the configuration. */
  ghost predicate Describes(c: Config, h: Header, info: Info) {
    && info.number == h.number && info.hash == Of(h) && info.parentHash == h.parentHash && info.timestamp == h.timestamp
    && if h.number == c.genesisNumber
       then Of(h) == c.genesisHash && info.origin == c.genesisOrigin && info.seqNum == 0
       else c.epoch(h) == Some((info.origin, info.seqNum))
  }

  lemma InfoOfDescribes(c: Config, h: Header, info: Info)
    ensures InfoOf(c, h) == Some(info) <==> Describes(c, h, info)
  {
  }

  /** At every moment of every run each executed height has the info that describes its header. */
  lemma InfosDescribeHeaders(run: Run, i: nat, n: nat)
    requires run.FromScratch() && i <= |run.calls|
    ensures var s := run.At(i); n in s.headers <==> n in s.infos
    ensures var s := run.At(i); n in s.infos ==> Describes(run.config, s.headers[n], s.infos[n])
  {
    RunIndexed(run, i);
    if n in run.At(i).infos {
      InfoOfDescribes(run.config, run.At(i).headers[n], run.At(i).infos[n]);
    }
  }

  // ---- What the execute calls answer ----

  lemma CommitAnswersHeader(c: Config, s: State, b: Built, dbOk: bool)
    requires Indexed(c, s)
    ensures var (t, r) := Commit(c, s, b, dbOk);
            && (r.Done? ==> r.value.hash == Of(b.header) && ByNumber(t.headers, b.header.number) == Some(b.header))
            && (!r.Done? ==> t.headers == s.headers && t.infos == s.infos)
  {
    CommitAnswers(c, s, b, dbOk);
    if !Stores(c, s, b, dbOk) {
      CommitKeepsIndex(c, s, b, dbOk);
    }
  }

  /** A block answered by its hash is the one executed at its number. */
  ghost predicate AnswersExecuted(s: State, r: Answer<Hash>) {
    r.Done? ==> r.value.Of? && ByNumber(s.headers, r.value.header.number) == Some(r.value.header)
  }

  lemma BuildAnswersExecuted(c: Config, s: State, parent: Hash, attrs: Attributes, env: Env)
    requires Indexed(c, s)
    ensures var (t, r) := BuildAndCommit(c, s, parent, attrs, env);
            && AnswersExecuted(t, HashAnswer(r))
            && (HashAnswer(r).Done? ==>
                  exists b :: BuildsOn(c, s, parent, attrs, env, b) && Of(b.header) == HashAnswer(r).value)
            && (!HashAnswer(r).Done? ==> t.headers == s.headers && t.infos == s.infos)
  {
    var built := env.build(EffectiveParent(c, s.headers, parent), attrs);
    if built.Some? {
      BuildsOnIs(c, s, parent, attrs, env, built.value);
      CommitAnswersHeader(c, s, built.value, env.dbOk);
    }
  }

  /**
   * Executing a payload answers with the hash of the block that is then executed at its number: the block
   * already there if the payload names it or no hash at all, and otherwise the builder's answer on the
   * payload's parent. A failure leaves the executed blocks as they were.
   */
  lemma ExecuteAnswers(run: Run, i: nat, p: Payload, env: Env)
    requires run.FromScratch() && i <= |run.calls|
    ensures var c, s, (t, r) := run.config, run.At(i), ExecuteV1(run.config, run.At(i), p, env);
            && AnswersExecuted(t, r)
            && (if p.number in s.headers && (p.hash == Zero || p.hash == Of(s.headers[p.number]))
                then t == s && r == Done(Of(s.headers[p.number]))
                else r.Done? ==> exists b :: BuildsOn(c, s, p.parentHash, p.attrs, env, b) && Of(b.header) == r.value)
            && (!r.Done? ==> t.headers == s.headers && t.infos == s.infos)
  {
    RunIndexed(run, i);
    BuildAnswersExecuted(run.config, run.At(i), p.parentHash, p.attrs, env);
  }

  lemma ExecuteAttrsAnswers(run: Run, i: nat, parent: Hash, number: nat, attrs: Attributes, env: Env)
    requires run.FromScratch() && i <= |run.calls|
    ensures var c, s := run.config, run.At(i);
            var (t, r) := ExecuteFromAttrs(c, s, parent, number, attrs, env);
            && AnswersExecuted(t, r)
            && (if number in s.headers then t == s && r == Done(Of(s.headers[number]))
                else r.Done? ==> exists b :: BuildsOn(c, s, parent, attrs, env, b) && Of(b.header) == r.value)
            && (!r.Done? ==> t.headers == s.headers && t.infos == s.infos)
  {
    RunIndexed(run, i);
    BuildAnswersExecuted(run.config, run.At(i), parent, attrs, env);
  }

  /** Executing a payload again under the hash it was answered with gives the same answer and changes nothing. */
  lemma ExecutingAgainChangesNothing(run: Run, i: nat, p: Payload, first: Env, again: Env)
    requires run.FromScratch() && i <= |run.calls|
    requires var r := ExecuteV1(run.config, run.At(i), p, first).1;
             r.Done? && r.value.Of? && r.value.header.number == p.number
    ensures var once := ExecuteV1(run.config, run.At(i), p, first);
            ExecuteV1(run.config, once.0, p.(hash := once.1.value), again) == once
  {
    ExecuteAnswers(run, i, p, first);
  }

  // ---- Inserted heads ----

  /** A successful insert answers with the new head: the info of the sealed block, or of the payload's number. */
  lemma InsertAnswersHead(run: Run, i: nat, p: Payload, env: Env)
    requires run.FromScratch() && i <= |run.calls| && Insert(run.config, run.At(i), p, env).1.Done?
    ensures var s, (t, r) := run.At(i), Insert(run.config, run.At(i), p, env);
            && t.head == r.value && r.value.number in t.infos && t.infos[r.value.number] == r.value
            && (if p.hash in s.sealed then r.value.hash == p.hash else r.value.number == p.number)
  {
    var c, s := run.config, run.At(i);
    RunIndexed(run, i);
    RunFiled(run, i);
    if p.hash in s.sealed {
      InsertSealed(c, s, p, env);
      InsertIndexed(c, s, p, env);
    } else {
      ExecuteIndexed(c, s, p, env);
      IndexedInfo(c, ExecuteV1(c, s, p, env).0, p.number);
    }
  }

  // ---- State roots ----

  /** The registry holds the state root of every executed block. */
  ghost predicate RootsRegistered(s: State) {
    forall n :: n in s.headers ==> n in s.registry && s.registry[n].1 == Some(s.headers[n].stateRoot)
  }

  /** What was executed at a height has its state root there, and executed heights stay executed. */
  ghost predicate RootsKept(s: State, t: State) {
    && RootsRegistered(t)
    && forall n :: n in s.headers ==> n in t.headers && t.headers[n].stateRoot == s.headers[n].stateRoot
  }

  /** The registry after a commit: the block is entered unless it is known, fails before, or has another root. */
  lemma CommitRegisters(c: Config, s: State, b: Built, dbOk: bool)
    ensures var t, h := Commit(c, s, b, dbOk).0, b.header;
            t.registry == if (h.number in s.infos && s.infos[h.number].hash == Of(h)) || (b.receipts.Some? && !dbOk)
                             || (h.number in s.registry && s.registry[h.number].1.Some?
                                 && s.registry[h.number].1.value != h.stateRoot)
                          then s.registry else s.registry[h.number := (Of(h), Some(h.stateRoot))]
  {
    var u := WithReceipts(s, b);
    assert u.registry == s.registry && Registered(u, b.header).registry
        == s.registry[b.header.number := (Of(b.header), Some(b.header.stateRoot))];
  }

  lemma CommitKeepsRoots(c: Config, s: State, b: Built, dbOk: bool)
    requires RootsRegistered(s)
    ensures RootsKept(s, Commit(c, s, b, dbOk).0)
  {
    CommitRegisters(c, s, b, dbOk);
    if Stores(c, s, b, dbOk) {
      CommitStores(c, s, b, dbOk);
    } else {
      CommitKeepsIndex(c, s, b, dbOk);
    }
  }

  lemma BuildKeepsRoots(c: Config, s: State, parent: Hash, attrs: Attributes, env: Env)
    requires RootsRegistered(s)
    ensures RootsKept(s, BuildAndCommit(c, s, parent, attrs, env).0)
  {
    var built := env.build(EffectiveParent(c, s.headers, parent), attrs);
    if built.Some? {
      CommitKeepsRoots(c, s, built.value, env.dbOk);
    }
  }

  lemma InsertKeepsRoots(c: Config, s: State, p: Payload, env: Env)
    requires RootsRegistered(s)
    ensures RootsKept(s, Insert(c, s, p, env).0)
  {
    if p.hash in s.sealed {
      var u := s.(sealed := s.sealed - {p.hash});
      CommitKeepsRoots(c, u, s.sealed[p.hash], env.dbOk);
    } else {
      BuildKeepsRoots(c, s, p.parentHash, p.attrs, env);
    }
  }

  lemma RootsStep(c: Config, s: State, op: Op)
    ensures RootsRegistered(s) && !op.Register? ==> RootsKept(s, Next(c, s, op))
  {
    if RootsRegistered(s) && !op.Register? {
      match op
      case InsertUnsafe(p, env) => InsertKeepsRoots(c, s, p, env);
      case NewPayload(p, env) => BuildKeepsRoots(c, s, p.parentHash, p.attrs, env);
      case ExecuteAttrs(parent, _, attrs, env) => BuildKeepsRoots(c, s, parent, attrs, env);
      case StartBuildBlock(_, _, _) => IssuingLeavesBlocks(c, s, op);
      case ForkChoiceTo(_, _, _) => IssuingLeavesBlocks(c, s, op);
      case _ => TakingLeavesBlocks(c, s, op);
    }
  }

  /**
   * As long as nobody else writes to the registry, the block executed at a height may be replaced by another
   * one but never by one with another state root.
   */
  lemma {:induction false} RootsNeverChange(run: Run, i: nat, j: nat)
    requires run.FromScratch() && i <= j <= |run.calls|
    requires forall k :: 0 <= k < |run.calls| ==> !run.calls[k].Register?
    ensures RootsKept(run.At(i), run.At(j))
    decreases j
  {
    if i < j {
      RootsNeverChange(run, i, j - 1);
      RootsCall(run, j - 1);
    } else if j > 0 {
      RootsNeverChange(run, j - 1, j - 1);
      RootsCall(run, j - 1);
    }
  }

  lemma RootsCall(run: Run, k: nat)
    requires run.FromScratch() && k < |run.calls| && !run.calls[k].Register? && RootsRegistered(run.At(k))
    ensures RootsKept(run.At(k), run.At(k + 1))
  {
    RootsStep(run.config, run.At(k), run.calls[k]);
    assert run.Steps(k);
  }

  /** A commit aborts exactly on a new block whose number is registered with another state root. */
  lemma CommitAbortsIff(c: Config, s: State, b: Built, dbOk: bool)
    ensures Commit(c, s, b, dbOk).1.Aborted? <==>
            && !(b.header.number in s.infos && s.infos[b.header.number].hash == Of(b.header))
            && (b.receipts.None? || dbOk)
            && exists root :: root != b.header.stateRoot && b.header.number in s.registry
                              && s.registry[b.header.number].1 == Some(root)
  {
  }
}
