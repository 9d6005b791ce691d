/**
 * The in-process engine client: payloads are built, kept pending, sealed and committed, and the executed
 * blocks are indexed by number. Block building, database errors and the shared hash registry are the
 * environment's.
 */
module Engine {
  import opened Basics
  import RollupNode

  type BlockNumHash = RollupNode.BlockNumHash
  type Root = nat
  type PayloadId = nat

  /** Hashing is injective on headers, and no header hashes to zero. */
  datatype Hash = Zero | Of(header: Header)

  /** `rest` stands for the other committed fields, which determine the block's transactions. */
  datatype Header = Header(number: nat, parentHash: Hash, timestamp: nat, stateRoot: Root, rest: nat)

  datatype Info = Info(
    number: nat,
    hash: Hash,
    parentHash: Hash,
    timestamp: nat,
    origin: BlockNumHash,
    seqNum: nat)

  /** A block out of the builder; `receipts` is present when the builder also hands over the execution result. */
  datatype Built = Built(header: Header, receipts: Option<seq<nat>>)

  /** The attributes a payload stands for. */
  datatype Attributes = Attributes(timestamp: nat, transactions: seq<seq<byte>>, gasLimit: nat, rest: nat)

  datatype Payload = Payload(number: nat, hash: Hash, parentHash: Hash, attrs: Attributes)

  /** `epoch` decodes the first deposit of the block with a given header. */
  datatype Config = Config(
    genesis: Header,
    genesisNumber: nat,
    genesisHash: Hash,
    genesisOrigin: BlockNumHash,
    epoch: Header -> Option<(BlockNumHash, nat)>)

  /** What one call meets outside the engine. */
  datatype Env = Env(build: (Header, Attributes) -> Option<Built>, dbOk: bool)

  /** `Aborted` is a panic; the state beside it is the one the panic leaves. */
  datatype Answer<T> = Done(value: T) | Failed | Aborted

  datatype State = State(
    head: Info,
    headers: map<nat, Header>,
    infos: map<nat, Info>,
    receipts: map<nat, seq<nat>>,
    pending: map<PayloadId, Built>,
    sealed: map<Hash, Built>,
    counter: nat,
    registry: map<nat, (Hash, Option<Root>)>)

  function Initial(head: Info, registry: map<nat, (Hash, Option<Root>)>): State {
    State(head, map[], map[], map[], map[], map[], 0, registry)
  }

  /** The block info of a header, if its first deposit decodes. */
  function InfoOf(c: Config, h: Header): Option<Info> {
    if h.number == c.genesisNumber then
      if Of(h) != c.genesisHash then None
      else Some(Info(h.number, Of(h), h.parentHash, h.timestamp, c.genesisOrigin, 0))
    else
      match c.epoch(h)
      case None => None
      case Some((origin, seqNum)) => Some(Info(h.number, Of(h), h.parentHash, h.timestamp, origin, seqNum))
  }

  /** The executed header with a given hash. */
  function ByHash(headers: map<nat, Header>, hash: Hash): Option<Header> {
    if hash.Of? && hash.header in headers.Values then Some(hash.header) else None
  }

  function ByNumber(headers: map<nat, Header>, number: nat): Option<Header> {
    if number in headers then Some(headers[number]) else None
  }

  /** The parent a build starts from; an unknown hash falls back to genesis. */
  function EffectiveParent(c: Config, headers: map<nat, Header>, hash: Hash): Header {
    ByHash(headers, hash).GetOr(c.genesis)
  }

  predicate RootMismatch(s: State, h: Header) {
    && h.number in s.registry
    && s.registry[h.number].1.Some?
    && s.registry[h.number].1.value != h.stateRoot
  }

  predicate Known(s: State, h: Header) {
    h.number in s.infos && s.infos[h.number].hash == Of(h)
  }

  function WithReceipts(s: State, b: Built): State {
    if b.receipts.Some? then s.(receipts := s.receipts[b.header.number := b.receipts.value]) else s
  }

  function Registered(s: State, h: Header): State {
    s.(registry := s.registry[h.number := (Of(h), Some(h.stateRoot))])
  }

  function Stored(s: State, h: Header, info: Info): State {
    s.(headers := s.headers[h.number := h], infos := s.infos[h.number := info])
  }

  /** What has been written before a failure or a panic stays written. */
  function Commit(c: Config, s: State, b: Built, dbOk: bool): (State, Answer<Info>) {
    if Known(s, b.header) then (s, Done(s.infos[b.header.number]))
    else if b.receipts.Some? && !dbOk then (s, Failed)
    else if RootMismatch(s, b.header) then (WithReceipts(s, b), Aborted)
    else
      var registered := Registered(WithReceipts(s, b), b.header);
      match InfoOf(c, b.header)
      case None => (registered, Failed)
      case Some(info) => (Stored(registered, b.header, info), Done(info))
  }

  function BuildAndCommit(c: Config, s: State, parent: Hash, attrs: Attributes, env: Env): (State, Answer<Info>) {
    match env.build(EffectiveParent(c, s.headers, parent), attrs)
    case None => (s, Failed)
    case Some(b) => Commit(c, s, b, env.dbOk)
  }

  function ExecuteV1(c: Config, s: State, p: Payload, env: Env): (State, Answer<Hash>) {
    if p.number in s.headers && (p.hash == Zero || p.hash == Of(s.headers[p.number])) then
      (s, Done(Of(s.headers[p.number])))
    else
      var (t, r) := BuildAndCommit(c, s, p.parentHash, p.attrs, env);
      (t, HashAnswer(r))
  }

  function HashAnswer(r: Answer<Info>): Answer<Hash> {
    match r
    case Done(info) => Done(info.hash)
    case Failed => Failed
    case Aborted => Aborted
  }

  function ExecuteFromAttrs(c: Config, s: State, parent: Hash, number: nat, attrs: Attributes, env: Env)
    : (State, Answer<Hash>)
  {
    if number in s.headers then (s, Done(Of(s.headers[number])))
    else
      var (t, r) := BuildAndCommit(c, s, parent, attrs, env);
      (t, HashAnswer(r))
  }

  function StartBuild(c: Config, s: State, parent: Hash, attrs: Attributes, env: Env): (State, Answer<PayloadId>) {
    match env.build(EffectiveParent(c, s.headers, parent), attrs)
    case None => (s, Failed)
    case Some(b) => (s.(counter := s.counter + 1, pending := s.pending[s.counter := b]), Done(s.counter))
  }

  function Take(s: State, id: PayloadId): (State, Answer<Built>) {
    if id in s.pending then (s.(pending := s.pending - {id}), Done(s.pending[id])) else (s, Failed)
  }

  function Seal(s: State, id: PayloadId): (State, Answer<Header>) {
    match Take(s, id)
    case (t, Done(b)) => (t.(sealed := t.sealed[Of(b.header) := b]), Done(b.header))
    case (t, _) => (t, Failed)
  }

  function Insert(c: Config, s: State, p: Payload, env: Env): (State, Answer<Info>) {
    if p.hash in s.sealed then
      var (t, r) := Commit(c, s.(sealed := s.sealed - {p.hash}), s.sealed[p.hash], env.dbOk);
      (if r.Done? then t.(head := r.value) else t, r)
    else
      var (t, r) := ExecuteV1(c, s, p, env);
      match r
      case Done(_) =>
        if p.number in t.infos then (t.(head := t.infos[p.number]), Done(t.infos[p.number])) else (t, Failed)
      case Failed => (t, Failed)
      case Aborted => (t, Aborted)
  }

  /** Moves the head to an executed block; an unknown hash leaves it where it is. */
  function Choose(s: State, hash: Hash): State {
    match ByHash(s.headers, hash)
    case Some(h) => if h.number in s.infos then s.(head := s.infos[h.number]) else s
    case None => s
  }

  function ForkChoice(c: Config, s: State, hash: Hash, attrs: Option<Attributes>, env: Env)
    : (State, Answer<Option<PayloadId>>)
  {
    match attrs
    case None => (Choose(s, hash), Done(None))
    case Some(a) =>
      match StartBuild(c, Choose(s, hash), hash, a, env)
      case (t, Done(id)) => (t, Done(Some(id)))
      case (t, _) => (t, Failed)
  }

  /** The client's fields, updated in place under its lock. */
  class ActionEngineClient {
    const config: Config
    var head: Info
    var headers: map<nat, Header>
    var infos: map<nat, Info>
    var receipts: map<nat, seq<nat>>
    var pending: map<PayloadId, Built>
    var sealed: map<Hash, Built>
    var counter: nat
    var registry: map<nat, (Hash, Option<Root>)>

    ghost function Value(): State
      reads this
    {
      State(head, headers, infos, receipts, pending, sealed, counter, registry)
    }

    constructor (config: Config, head: Info, registry: map<nat, (Hash, Option<Root>)>)
      ensures this.config == config && Value() == Initial(head, registry)
      ensures headers == map[] && infos == map[] && pending == map[] && sealed == map[] && counter == 0
    {
      this.config, this.head, this.registry := config, head, registry;
      headers, infos, receipts, pending, sealed, counter := map[], map[], map[], map[], map[], 0;
    }

    /** Searches the executed headers in whatever order the map yields them. */
    method FindByHash(hash: Hash) returns (r: Option<Header>)
      ensures r == ByHash(headers, hash)
      ensures r.None? ==> forall n :: n in headers ==> Of(headers[n]) != hash
      ensures r.Some? ==> exists n :: n in headers && Of(headers[n]) == hash && headers[n] == r.value
    {
      var numbers := headers.Keys;
      while numbers != {}
        invariant numbers <= headers.Keys
        invariant forall n :: n in headers.Keys - numbers ==> Of(headers[n]) != hash
      {
        var n :| n in numbers;
        if Of(headers[n]) == hash {
          return Some(headers[n]);
        }
        numbers := numbers - {n};
      }
      return None;
    }

    method BuildPayload(parent: Hash, attrs: Attributes, env: Env) returns (r: Option<Built>)
      ensures r == env.build(EffectiveParent(config, headers, parent), attrs)
      ensures forall n :: n in headers && Of(headers[n]) == parent ==> r == env.build(headers[n], attrs)
      ensures (forall n :: n in headers ==> Of(headers[n]) != parent) ==> r == env.build(config.genesis, attrs)
    {
      var found := FindByHash(parent);
      r := env.build(found.GetOr(config.genesis), attrs);
    }

    method CommitBuiltPayload(b: Built, dbOk: bool) returns (r: Answer<Info>)
      modifies this`receipts, this`registry, this`headers, this`infos
      ensures (Value(), r) == Commit(config, old(Value()), b, dbOk)
    {
      var hdr := b.header;
      if hdr.number in infos && infos[hdr.number].hash == Of(hdr) {
        return Done(infos[hdr.number]);
      }
      if b.receipts.Some? {
        if !dbOk {
          return Failed;
        }
        receipts := receipts[hdr.number := b.receipts.value];
      }
      if hdr.number in registry {
        var expected := registry[hdr.number].1;
        if expected.Some? && expected.value != hdr.stateRoot {
          return Aborted;
        }
      }
      registry := registry[hdr.number := (Of(hdr), Some(hdr.stateRoot))];
      var info := InfoOf(config, hdr);
      if info.None? {
        return Failed;
      }
      headers := headers[hdr.number := hdr];
      infos := infos[hdr.number := info.value];
      return Done(info.value);
    }

    method ExecuteV1Inner(p: Payload, env: Env) returns (r: Answer<Hash>)
      modifies this`receipts, this`registry, this`headers, this`infos
      ensures (Value(), r) == ExecuteV1(config, old(Value()), p, env)
    {
      if p.number in headers {
        var existing := Of(headers[p.number]);
        if p.hash == Zero || p.hash == existing {
          return Done(existing);
        }
      }
      var built := BuildPayload(p.parentHash, p.attrs, env);
      if built.None? {
        return Failed;
      }
      var info := CommitBuiltPayload(built.value, env.dbOk);
      r := HashAnswer(info);
    }

    method ExecuteAttributes(parent: Hash, number: nat, attrs: Attributes, env: Env) returns (r: Answer<Hash>)
      modifies this`receipts, this`registry, this`headers, this`infos
      ensures (Value(), r) == ExecuteFromAttrs(config, old(Value()), parent, number, attrs, env)
    {
      if number in headers {
        return Done(Of(headers[number]));
      }
      var built := BuildPayload(parent, attrs, env);
      if built.None? {
        return Failed;
      }
      var info := CommitBuiltPayload(built.value, env.dbOk);
      r := HashAnswer(info);
    }

    method BuildPayloadInner(parent: Hash, attrs: Attributes, env: Env) returns (r: Answer<PayloadId>)
      modifies this`counter, this`pending
      ensures (Value(), r) == StartBuild(config, old(Value()), parent, attrs, env)
    {
      var built := BuildPayload(parent, attrs, env);
      if built.None? {
        return Failed;
      }
      var id := counter;
      counter := counter + 1;
      pending := pending[id := built.value];
      return Done(id);
    }

    method TakePending(id: PayloadId) returns (r: Answer<Built>)
      modifies this`pending
      ensures (Value(), r) == Take(old(Value()), id)
    {
      if id !in pending {
        return Failed;
      }
      r := Done(pending[id]);
      pending := pending - {id};
    }

    method GetSealedPayload(id: PayloadId) returns (r: Answer<Header>)
      modifies this`pending, this`sealed
      ensures (Value(), r) == Seal(old(Value()), id)
    {
      var taken := TakePending(id);
      if !taken.Done? {
        return Failed;
      }
      sealed := sealed[Of(taken.value.header) := taken.value];
      return Done(taken.value.header);
    }

    method InsertUnsafePayload(p: Payload, env: Env) returns (r: Answer<Info>)
      modifies this
      ensures (Value(), r) == Insert(config, old(Value()), p, env)
    {
      if p.hash in sealed {
        var built := sealed[p.hash];
        sealed := sealed - {p.hash};
        r := CommitBuiltPayload(built, env.dbOk);
        if !r.Done? {
          return;
        }
      } else {
        var executed := ExecuteV1Inner(p, env);
        if executed.Failed? {
          return Failed;
        }
        if executed.Aborted? {
          return Aborted;
        }
        if p.number !in infos {
          return Failed;
        }
        r := Done(infos[p.number]);
      }
      head := r.value;
    }

    method ForkChoiceUpdated(hash: Hash, attrs: Option<Attributes>, env: Env) returns (r: Answer<Option<PayloadId>>)
      modifies this`head, this`counter, this`pending
      ensures (Value(), r) == ForkChoice(config, old(Value()), hash, attrs, env)
    {
      var h := FindByHash(hash);
      if h.Some? && h.value.number in infos {
        head := infos[h.value.number];
      }
      if attrs.None? {
        return Done(None);
      }
      var id := BuildPayloadInner(hash, attrs.value, env);
      if !id.Done? {
        return Failed;
      }
      return Done(Some(id.value));
    }
  }
}
