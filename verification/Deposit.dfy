/**
 * User deposits: the log a deposit is encoded into, and the decoder derivation reads it with.
 * The opaque data follows the layout of the "User-Deposited Transactions" section of the OP Stack
 * Deposits specification, wrapped as an ABI dynamic `bytes` value.
 */
module Deposit {
  import opened Basics
  import opened L1Chain
  import opened Miner

  // ---- Big-endian numbers ----

  function Pow256(width: nat): (p: nat)
    ensures p > 0
  {
    if width == 0 then 1 else 256 * Pow256(width - 1)
  }

  /** The last `width` base-256 digits of `n`, most significant first. */
  function BigEndian(n: nat, width: nat): (bytes: seq<byte>)
    ensures |bytes| == width
  {
    if width == 0 then [] else BigEndian(n / 256, width - 1) + [n % 256]
  }

  function FromBigEndian(bytes: seq<byte>): nat {
    if bytes == [] then 0 else 256 * FromBigEndian(bytes[..|bytes| - 1]) + bytes[|bytes| - 1]
  }

  function Zeros(n: nat): (bytes: seq<byte>)
    ensures |bytes| == n && forall i :: 0 <= i < n ==> bytes[i] == 0
  {
    seq(n, i => 0)
  }

  lemma {:induction false} BigEndianRoundTrip(n: nat, width: nat)
    requires n < Pow256(width)
    ensures FromBigEndian(BigEndian(n, width)) == n
  {
    if width > 0 {
      BigEndianRoundTrip(n / 256, width - 1);
      var bytes := BigEndian(n, width);
      assert bytes[..|bytes| - 1] == BigEndian(n / 256, width - 1);
    }
  }

  lemma {:induction false} LeadingZeros(n: nat, bytes: seq<byte>)
    ensures FromBigEndian(Zeros(n) + bytes) == FromBigEndian(bytes)
  {
    if bytes == [] {
      if n > 0 {
        LeadingZeros(n - 1, []);
        assert (Zeros(n) + [])[..n - 1] == Zeros(n - 1) + [];
      }
    } else {
      LeadingZeros(n, bytes[..|bytes| - 1]);
      var padded := Zeros(n) + bytes;
      assert padded[..|padded| - 1] == Zeros(n) + bytes[..|bytes| - 1];
    }
  }

  /** A number right-aligned in a wider field of zeros reads back unchanged. */
  lemma PaddedRoundTrip(n: nat, gap: nat, width: nat)
    requires n < Pow256(width)
    ensures FromBigEndian(Zeros(gap) + BigEndian(n, width)) == n
  {
    LeadingZeros(gap, BigEndian(n, width));
    BigEndianRoundTrip(n, width);
  }

  // ---- The deposit event ----

  datatype UserDeposit = UserDeposit(
    depositContract: Address,
    from: Address,
    to: Address,
    mint: nat,
    value: nat,
    gasLimit: nat,
    data: seq<byte>)

  /** The value ranges of the source's integer types, and of the length of a byte vector. */
  ghost predicate InRange(d: UserDeposit) {
    && d.from < Pow256(20) && d.to < Pow256(20)
    && d.mint < Pow256(16) && d.value < Pow256(32) && d.gasLimit < Pow256(8)
    && 2 * |d.data| < Pow256(8)
  }

  const FIXED_LEN: nat := 73

  const EVENT_ABI_HASH: Word :=
    BigEndian(0xb3813568d9991fc951961fcb4c784893574240a28925604d09fc577c55bb7c32, 32)

  const EVENT_VERSION_0: Word := Zeros(32)

  function CeilTo32(n: nat): nat {
    (n + 31) / 32 * 32
  }

  function OpaqueLen(d: UserDeposit): nat {
    FIXED_LEN + |d.data|
  }

  /** The packed mint, value, gas limit, creation flag and calldata. */
  function OpaqueData(d: UserDeposit): (bytes: seq<byte>)
    ensures |bytes| == OpaqueLen(d)
  {
    Zeros(16) + BigEndian(d.mint, 16) + BigEndian(d.value, 32) + BigEndian(d.gasLimit, 8) + [0] + d.data
  }

  function LogData(d: UserDeposit): seq<byte> {
    Zeros(24) + BigEndian(32, 8) + Zeros(24) + BigEndian(OpaqueLen(d), 8)
    + OpaqueData(d) + Zeros(CeilTo32(OpaqueLen(d)) - OpaqueLen(d))
  }

  function AddressTopic(a: Address): Word {
    Zeros(12) + BigEndian(a, 20)
  }

  function DepositLog(d: UserDeposit): Log {
    Log(d.depositContract,
        [EVENT_ABI_HASH, AddressTopic(d.from), AddressTopic(d.to), EVENT_VERSION_0],
        LogData(d))
  }

  // ---- The encoder ----

  /** `bytes` followed by zeros up to length `n`. */
  ghost function Padded(bytes: seq<byte>, n: nat): seq<byte>
    requires |bytes| <= n
  {
    bytes + Zeros(n - |bytes|)
  }

  /** Copies `src` into a buffer that is still zero beyond `done`, leaving a gap of zeros before it. */
  method CopyInto(buffer: array<byte>, at: nat, src: seq<byte>, ghost done: seq<byte>) returns (ghost now: seq<byte>)
    requires |done| <= at && at + |src| <= buffer.Length
    requires buffer[..] == Padded(done, buffer.Length)
    modifies buffer
    ensures now == done + Zeros(at - |done|) + src
    ensures buffer[..] == Padded(now, buffer.Length)
  {
    for i := 0 to |src|
      invariant buffer[..at] == done + Zeros(at - |done|)
      invariant buffer[at..at + i] == src[..i]
      invariant buffer[at + i..] == Zeros(buffer.Length - at - i)
    {
      buffer[at + i] := src[i];
      assert buffer[at..at + i + 1] == buffer[at..at + i] + [src[i]];
    }
    assert buffer[..] == buffer[..at] + buffer[at..at + |src|] + buffer[at + |src|..];
    now := done + Zeros(at - |done|) + src;
  }

  /** The log data as the encoder lays it down, one field after the other. */
  lemma LogDataInOrder(d: UserDeposit)
    ensures var n := 64 + CeilTo32(OpaqueLen(d));
            var head := [] + Zeros(24) + BigEndian(32, 8) + Zeros(24) + BigEndian(OpaqueLen(d), 8);
            var body := head + Zeros(16) + BigEndian(d.mint, 16) + Zeros(0) + BigEndian(d.value, 32)
                        + Zeros(0) + BigEndian(d.gasLimit, 8) + Zeros(0) + [0] + Zeros(0) + d.data;
            |body| <= n && Padded(body, n) == LogData(d)
  {
    var head := Zeros(24) + BigEndian(32, 8) + Zeros(24) + BigEndian(OpaqueLen(d), 8);
    assert [] + Zeros(24) + BigEndian(32, 8) + Zeros(24) + BigEndian(OpaqueLen(d), 8) == head;
    assert Zeros(0) == [];
    Regroup(head, Zeros(16), BigEndian(d.mint, 16), BigEndian(d.value, 32), BigEndian(d.gasLimit, 8), [0], d.data);
  }

  lemma Regroup<T>(h: seq<T>, a: seq<T>, b: seq<T>, c: seq<T>, d: seq<T>, e: seq<T>, f: seq<T>)
    ensures h + a + b + [] + c + [] + d + [] + e + [] + f == h + (a + b + c + d + e + f)
  {
  }

  /** Writes the fixed-width opaque fields and the calldata from offset `base` on. */
  method CopyOpaque(buffer: array<byte>, base: nat, d: UserDeposit, ghost done: seq<byte>)
    returns (ghost now: seq<byte>)
    requires |done| == base && base + OpaqueLen(d) <= buffer.Length
    requires buffer[..] == Padded(done, buffer.Length)
    modifies buffer
    ensures now == done + Zeros(16) + BigEndian(d.mint, 16) + Zeros(0) + BigEndian(d.value, 32)
                   + Zeros(0) + BigEndian(d.gasLimit, 8) + Zeros(0) + [0] + Zeros(0) + d.data
    ensures buffer[..] == Padded(now, buffer.Length)
  {
    now := CopyInto(buffer, base + 16, BigEndian(d.mint, 16), done);
    now := CopyInto(buffer, base + 32, BigEndian(d.value, 32), now);
    now := CopyInto(buffer, base + 64, BigEndian(d.gasLimit, 8), now);
    now := CopyInto(buffer, base + 72, [0], now);
    now := CopyInto(buffer, base + 73, d.data, now);
  }

  /** Writes the two header words of an ABI `bytes` value. */
  method CopyHeader(buffer: array<byte>, opaqueLen: nat) returns (ghost now: seq<byte>)
    requires 64 <= buffer.Length && buffer[..] == Padded([], buffer.Length)
    modifies buffer
    ensures now == [] + Zeros(24) + BigEndian(32, 8) + Zeros(24) + BigEndian(opaqueLen, 8) && |now| == 64
    ensures buffer[..] == Padded(now, buffer.Length)
  {
    now := CopyInto(buffer, 24, BigEndian(32, 8), []);
    now := CopyInto(buffer, 56, BigEndian(opaqueLen, 8), now);
  }

  /** Fills the log data in place, field by field at its absolute offset. No write leaves the buffer. */
  method EncodeLogData(d: UserDeposit) returns (data: seq<byte>)
    ensures data == LogData(d)
  {
    var opaqueLen := 32 + 32 + 8 + 1 + |d.data|;
    var opaquePadded := (opaqueLen + 31) / 32 * 32;
    var totalLen := 64 + opaquePadded;
    assert opaqueLen == OpaqueLen(d) && totalLen == 64 + CeilTo32(OpaqueLen(d)) && opaqueLen <= opaquePadded;
    var buffer := new byte[totalLen](_ => 0);
    assert buffer[..] == Padded([], totalLen);
    ghost var done := CopyHeader(buffer, opaqueLen);
    done := CopyOpaque(buffer, 64, d, done);
    LogDataInOrder(d);
    data := buffer[..];
  }

  /** Queues the deposit event on the miner. */
  method EnqueueUserDeposit(miner: L1Miner, d: UserDeposit, success: bool)
    requires Valid(miner.View())
    modifies miner`pendingTransactions, miner`eventNonce
    ensures miner.View() == Apply(old(miner.View()), EnqueueLog(DepositLog(d), success)) && Valid(miner.View())
  {
    var data := EncodeLogData(d);
    var topics: seq<Word> :=
      [EVENT_ABI_HASH, Zeros(12) + BigEndian(d.from, 20), Zeros(12) + BigEndian(d.to, 20), EVENT_VERSION_0];
    miner.EnqueueLogWithStatus(Log(d.depositContract, topics, data), success);
  }

  // ---- The decoder derivation uses ----

  /** The fields of the deposit transaction a log decodes to; no recipient means contract creation. */
  datatype Deposited = Deposited(
    from: Address, to: Option<Address>, mint: nat, value: nat, gasLimit: nat, input: seq<byte>)

  datatype DecodeError =
    | UnexpectedTopicsLen
    | InvalidSelector
    | IncompleteOpaqueData
    | UnalignedData
    | FromDecode
    | ToDecode
    | InvalidOpaqueDataOffset
    | OpaqueContentOverflow
    | OpaqueDataPaddingOverflow
    | InvalidOpaqueDataLength
    | InvalidOpaqueDataPadding
    | InvalidVersion
    | UnexpectedOpaqueDataLen

  function U64Max(): nat {
    Pow256(8) - 1
  }

  /** The multiple of 32 the decoder rounds a length up to, with 64-bit saturation. */
  function PaddedLength(len: nat): nat {
    Min(Min(len + 31, U64Max()) / 32 * 32, U64Max())
  }

  function UnmarshalV0(from: Address, to: Address, payload: seq<byte>): Result<Deposited, DecodeError> {
    if |payload| < FIXED_LEN then Err(UnexpectedOpaqueDataLen)
    else Ok(Deposited(
      from,
      if payload[72] == 0 then Some(to) else None,
      FromBigEndian(payload[16..32]),
      FromBigEndian(payload[32..64]),
      FromBigEndian(payload[64..72]),
      payload[73..]))
  }

  function DecodeOpaque(from: Address, to: Address, version: Word, data: seq<byte>): Result<Deposited, DecodeError>
    requires |data| >= 64
  {
    var len := FromBigEndian(data[32..64]);
    if FromBigEndian(data[..32]) != 32 then Err(InvalidOpaqueDataOffset)
    else if len > U64Max() then Err(OpaqueContentOverflow)
    else
      var paddingEnd := 64 + PaddedLength(len);
      if paddingEnd > U64Max() then Err(OpaqueDataPaddingOverflow)
      else if 64 + len > |data| then Err(InvalidOpaqueDataLength)
      else if len % 32 != 0
              && (paddingEnd < 64 + len || paddingEnd > |data|
                  || exists i :: 64 + len <= i < paddingEnd && data[i] != 0)
      then Err(InvalidOpaqueDataPadding)
      else if exists i :: 0 <= i < 32 && version[i] != 0 then Err(InvalidVersion)
      else UnmarshalV0(from, to, data[64..64 + len])
  }

  /** The first reason to refuse a log before its data is looked into. */
  function Refusal(selector: Word, log: Log): (r: Option<DecodeError>)
    ensures r.None? ==> |log.topics| == 4 && |log.data| >= 64
  {
    if |log.topics| != 4 then Some(UnexpectedTopicsLen)
    else if log.topics[0] != selector then Some(InvalidSelector)
    else if |log.data| < 64 then Some(IncompleteOpaqueData)
    else if |log.data| % 32 != 0 then Some(UnalignedData)
    else if exists i :: 0 <= i < 12 && log.topics[1][i] != 0 then Some(FromDecode)
    else if exists i :: 0 <= i < 12 && log.topics[2][i] != 0 then Some(ToDecode)
    else None
  }

  /** Decodes an event log with a given selector, refusing it for the first reason that applies. */
  function DecodeEvent(selector: Word, log: Log): Result<Deposited, DecodeError> {
    match Refusal(selector, log)
    case Some(error) => Err(error)
    case None =>
      DecodeOpaque(FromBigEndian(log.topics[1][12..]), FromBigEndian(log.topics[2][12..]), log.topics[3], log.data)
  }

  function Decode(log: Log): Result<Deposited, DecodeError> {
    DecodeEvent(EVENT_ABI_HASH, log)
  }

  // ---- Round trip ----

  /** The encoder always emits the two header words and the opaque data, zero-padded to whole words. */
  lemma LogDataShape(d: UserDeposit)
    ensures var data, len := LogData(d), OpaqueLen(d);
            && |data| == 64 + CeilTo32(len)
            && |data| % 32 == 0
            && len <= CeilTo32(len) < len + 32
            && data[..32] == Zeros(24) + BigEndian(32, 8)
            && data[32..64] == Zeros(24) + BigEndian(len, 8)
            && data[64..64 + len] == OpaqueData(d)
            && forall i :: 64 + len <= i < |data| ==> data[i] == 0
  {
    var len := OpaqueLen(d);
    var offset, length := Zeros(24) + BigEndian(32, 8), Zeros(24) + BigEndian(len, 8);
    var padding := Zeros(CeilTo32(len) - len);
    assert LogData(d) == offset + length + OpaqueData(d) + padding;
  }

  lemma OpaqueDataShape(d: UserDeposit)
    ensures var payload := OpaqueData(d);
            && payload[16..32] == BigEndian(d.mint, 16)
            && payload[32..64] == BigEndian(d.value, 32)
            && payload[64..72] == BigEndian(d.gasLimit, 8)
            && payload[72] == 0
            && payload[73..] == d.data
  {
  }

  lemma OpaqueRoundTrip(d: UserDeposit, from: Address, to: Address)
    requires InRange(d)
    ensures UnmarshalV0(from, to, OpaqueData(d)) == Ok(Deposited(from, Some(to), d.mint, d.value, d.gasLimit, d.data))
  {
    OpaqueDataShape(d);
    BigEndianRoundTrip(d.mint, 16);
    BigEndianRoundTrip(d.value, 32);
    BigEndianRoundTrip(d.gasLimit, 8);
  }

  lemma LengthFits(d: UserDeposit)
    requires InRange(d)
    ensures OpaqueLen(d) < Pow256(8)
    ensures PaddedLength(OpaqueLen(d)) == CeilTo32(OpaqueLen(d))
    ensures 64 + CeilTo32(OpaqueLen(d)) <= U64Max()
  {
    assert Pow256(8) == 0x1_0000_0000_0000_0000;
  }

  lemma TopicRoundTrip(a: Address)
    requires a < Pow256(20)
    ensures FromBigEndian(AddressTopic(a)[12..]) == a && forall i :: 0 <= i < 12 ==> AddressTopic(a)[i] == 0
  {
    BigEndianRoundTrip(a, 20);
    assert AddressTopic(a)[12..] == BigEndian(a, 20);
  }

  lemma LogDataRoundTrip(d: UserDeposit, from: Address, to: Address, version: Word)
    requires InRange(d) && forall i :: 0 <= i < 32 ==> version[i] == 0
    ensures |LogData(d)| >= 64 && |LogData(d)| % 32 == 0
    ensures DecodeOpaque(from, to, version, LogData(d))
         == Ok(Deposited(from, Some(to), d.mint, d.value, d.gasLimit, d.data))
  {
    LogDataShape(d);
    LengthFits(d);
    PaddedRoundTrip(32, 24, 8);
    PaddedRoundTrip(OpaqueLen(d), 24, 8);
    OpaqueRoundTrip(d, from, to);
  }

  lemma NotRefused(selector: Word, contract: Address, from: Address, to: Address, version: Word, data: seq<byte>)
    requires from < Pow256(20) && to < Pow256(20) && |data| >= 64 && |data| % 32 == 0
    ensures Refusal(selector, Log(contract, [selector, AddressTopic(from), AddressTopic(to), version], data)).None?
  {
    TopicRoundTrip(from);
    TopicRoundTrip(to);
  }

  lemma EventRoundTrip(d: UserDeposit, selector: Word, version: Word)
    requires InRange(d) && forall i :: 0 <= i < 32 ==> version[i] == 0
    ensures var topics := [selector, AddressTopic(d.from), AddressTopic(d.to), version];
            DecodeEvent(selector, Log(d.depositContract, topics, LogData(d)))
            == Ok(Deposited(d.from, Some(d.to), d.mint, d.value, d.gasLimit, d.data))
  {
    LogDataRoundTrip(d, d.from, d.to, version);
    NotRefused(selector, d.depositContract, d.from, d.to, version, LogData(d));
    UnrefusedDecodes(selector, d.depositContract, d.from, d.to, version, LogData(d));
  }

  lemma UnrefusedDecodes(selector: Word, contract: Address, from: Address, to: Address, version: Word, data: seq<byte>)
    requires from < Pow256(20) && to < Pow256(20)
    ensures var log := Log(contract, [selector, AddressTopic(from), AddressTopic(to), version], data);
            Refusal(selector, log).None? ==> DecodeEvent(selector, log) == DecodeOpaque(from, to, version, data)
  {
    TopicRoundTrip(from);
    TopicRoundTrip(to);
  }

  /** The production decoder recovers every deposit from the log the encoder builds for it. */
  lemma DepositRoundTrip(d: UserDeposit)
    requires InRange(d)
    ensures Decode(DepositLog(d)) == Ok(Deposited(d.from, Some(d.to), d.mint, d.value, d.gasLimit, d.data))
  {
    EventRoundTrip(d, EVENT_ABI_HASH, EVENT_VERSION_0);
  }

  /** Distinct deposits give distinct logs. */
  lemma DepositLogInjective(a: UserDeposit, b: UserDeposit)
    requires InRange(a) && InRange(b)
    requires DepositLog(a) == DepositLog(b)
    ensures a == b
  {
    DepositRoundTrip(a);
    DepositRoundTrip(b);
  }
}
