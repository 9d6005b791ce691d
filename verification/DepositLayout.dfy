/** The deposit event in numbers: where each field stands, and exactly which logs the decoder accepts. */
module DepositLayout {
  import opened Basics
  import opened L1Chain
  import opened Deposit

  // ---- The layout, in numbers ----

  /** The value of bytes with the first one the most significant. */
  ghost function Weighted(bytes: seq<byte>): nat {
    if bytes == [] then 0 else bytes[0] * Pow256(|bytes| - 1) + Weighted(bytes[1..])
  }

  lemma {:induction false} WeightedAppend(bytes: seq<byte>, b: byte)
    ensures Weighted(bytes + [b]) == 256 * Weighted(bytes) + b
  {
    if bytes == [] {
      assert bytes + [b] == [b] && Pow256(0) == 1 && [b][1..] == [];
    } else {
      var all := bytes + [b];
      assert all[1..] == bytes[1..] + [b];
      WeightedAppend(bytes[1..], b);
      WeightedStep(bytes[0], Pow256(|bytes| - 1), Weighted(bytes[1..]), b);
    }
  }

  lemma WeightedStep(first: nat, weight: nat, rest: nat, b: nat)
    ensures first * (256 * weight) + (256 * rest + b) == 256 * (first * weight + rest) + b
  {
    assert first * (256 * weight) == 256 * (first * weight);
  }

  /** Numbers are read with the most significant byte first. */
  lemma {:induction false} FromBigEndianIsWeighted(bytes: seq<byte>)
    ensures FromBigEndian(bytes) == Weighted(bytes)
  {
    if bytes != [] {
      FromBigEndianIsWeighted(bytes[..|bytes| - 1]);
      WeightedAppend(bytes[..|bytes| - 1], bytes[|bytes| - 1]);
      SplitLast(bytes);
    }
  }

  /** A part of the log data as a number. */
  ghost function Field(data: seq<byte>, from: nat, to: nat): nat
    requires from <= to <= |data|
  {
    Weighted(data[from..to])
  }

  lemma PaddedField(n: nat, gap: nat, width: nat)
    requires n < Pow256(width)
    ensures Weighted(Zeros(gap) + BigEndian(n, width)) == n
  {
    PaddedRoundTrip(n, gap, width);
    FromBigEndianIsWeighted(Zeros(gap) + BigEndian(n, width));
  }

  lemma PlainField(n: nat, width: nat)
    requires n < Pow256(width)
    ensures Weighted(BigEndian(n, width)) == n
  {
    BigEndianRoundTrip(n, width);
    FromBigEndianIsWeighted(BigEndian(n, width));
  }

  lemma OpaqueParts(d: UserDeposit)
    ensures var payload := OpaqueData(d);
            && payload[..32] == Zeros(16) + BigEndian(d.mint, 16)
            && payload[32..64] == BigEndian(d.value, 32)
            && payload[64..72] == BigEndian(d.gasLimit, 8)
            && payload[72] == 0
            && payload[73..] == d.data
  {
  }

  lemma SlicesOfSlice<T>(s: seq<T>, a: nat, b: nat, i: nat, j: nat)
    requires a <= b <= |s| && i <= j <= b - a
    ensures s[a..b][i..j] == s[a + i..a + j]
  {
    forall k | 0 <= k < j - i ensures s[a..b][i..j][k] == s[a + i..a + j][k] {
      assert s[a..b][i + k] == s[a + (i + k)];
    }
  }

  /**
   * Word by word, a deposit log says: data at offset 32, its length, the minted amount, the value, then the
   * gas limit, a zero for a call, the calldata, and zeros up to a whole word.
   */
  lemma LogDataLayout(d: UserDeposit)
    requires InRange(d)
    ensures var data, end := LogData(d), 137 + |d.data|;
            && end <= |data| < end + 32 && |data| % 32 == 0
            && Field(data, 0, 32) == 32
            && Field(data, 32, 64) == 73 + |d.data|
            && Field(data, 64, 96) == d.mint
            && Field(data, 96, 128) == d.value
            && Field(data, 128, 136) == d.gasLimit
            && data[136] == 0
            && data[137..end] == d.data
            && (forall i :: end <= i < |data| ==> data[i] == 0)
  {
    LogDataShape(d);
    LengthFits(d);
    PaddedField(32, 24, 8);
    PaddedField(OpaqueLen(d), 24, 8);
    OpaqueLayout(d, LogData(d), 64);
  }

  lemma OpaqueSlices(d: UserDeposit, data: seq<byte>, at: nat)
    requires at + OpaqueLen(d) <= |data| && data[at..at + OpaqueLen(d)] == OpaqueData(d)
    ensures var payload := OpaqueData(d);
            && data[at..at + 32] == payload[..32] && data[at + 32..at + 64] == payload[32..64]
            && data[at + 64..at + 72] == payload[64..72] && data[at + 72] == payload[72]
            && data[at + 73..at + 73 + |d.data|] == payload[73..]
  {
    var end := at + OpaqueLen(d);
    SlicesOfSlice(data, at, end, 0, 32);
    SlicesOfSlice(data, at, end, 32, 64);
    SlicesOfSlice(data, at, end, 64, 72);
    SlicesOfSlice(data, at, end, 73, OpaqueLen(d));
    assert data[at..end][72] == data[at + 72];
  }

  lemma OpaqueLayout(d: UserDeposit, data: seq<byte>, at: nat)
    requires InRange(d) && at + OpaqueLen(d) <= |data| && data[at..at + OpaqueLen(d)] == OpaqueData(d)
    ensures Field(data, at, at + 32) == d.mint && Field(data, at + 32, at + 64) == d.value
    ensures Field(data, at + 64, at + 72) == d.gasLimit && data[at + 72] == 0
    ensures data[at + 73..at + 73 + |d.data|] == d.data
  {
    OpaqueSlices(d, data, at);
    OpaqueParts(d);
    PaddedField(d.mint, 16, 16);
    PlainField(d.value, 32);
    PlainField(d.gasLimit, 8);
  }

  /** The topics name the event, the sender and the recipient as numbers, and version zero. */
  lemma DepositTopics(d: UserDeposit)
    requires InRange(d)
    ensures var log := DepositLog(d);
            && log.address == d.depositContract && |log.topics| == 4
            && Weighted(log.topics[0]) == 0xb3813568d9991fc951961fcb4c784893574240a28925604d09fc577c55bb7c32
            && Weighted(log.topics[1]) == d.from
            && Weighted(log.topics[2]) == d.to
            && Weighted(log.topics[3]) == 0
            && log.data == LogData(d)
  {
    SelectorFits();
    PlainField(0xb3813568d9991fc951961fcb4c784893574240a28925604d09fc577c55bb7c32, 32);
    PaddedField(d.from, 12, 20);
    PaddedField(d.to, 12, 20);
    PaddedField(0, 32, 0);
    assert Zeros(32) + BigEndian(0, 0) == Zeros(32);
  }

  lemma SelectorFits()
    ensures 0xb3813568d9991fc951961fcb4c784893574240a28925604d09fc577c55bb7c32 < Pow256(32)
  {
    assert Pow256(8) == 0x1_0000_0000_0000_0000;
    assert Pow256(16) == 0x1_0000_0000_0000_0000_0000_0000_0000_0000;
    assert Pow256(24) == 0x1_0000_0000_0000_0000_0000_0000_0000_0000_0000_0000_0000_0000;
    assert Pow256(32) == 0x1_0000_0000_0000_0000_0000_0000_0000_0000_0000_0000_0000_0000_0000_0000_0000_0000;
  }

  // ---- What the decoder accepts ----

  /** The log is a version-zero deposit event with padded addresses and well-padded opaque data. */
  ghost predicate IsDepositEvent(selector: Word, log: Log) {
    && |log.topics| == 4 && log.topics[0] == selector
    && (forall i :: 0 <= i < 12 ==> log.topics[1][i] == 0 && log.topics[2][i] == 0)
    && (forall i :: 0 <= i < 32 ==> log.topics[3][i] == 0)
    && |log.data| >= 64 && |log.data| % 32 == 0
    && Field(log.data, 0, 32) == 32
    && IsPadded(log.data, Field(log.data, 32, 64))
  }

  /** After two words stand at least 73 bytes, `len` in all, and zeros up to the next whole word. */
  ghost predicate IsPadded(data: seq<byte>, len: nat) {
    && 73 <= len && 64 + CeilTo32(len) <= |data| && 64 + CeilTo32(len) < Pow256(8)
    && (forall i :: 64 + len <= i < 64 + CeilTo32(len) ==> data[i] == 0)
  }

  /** The deposit that stands in the log, field by field; a nonzero flag means a contract creation. */
  ghost predicate StandsIn(log: Log, x: Deposited)
    requires |log.topics| == 4 && |log.data| >= 137
  {
    && x.from == Weighted(log.topics[1][12..])
    && x.to == (if log.data[136] == 0 then Some(Weighted(log.topics[2][12..])) else None)
    && x.mint == Field(log.data, 80, 96)
    && x.value == Field(log.data, 96, 128)
    && x.gasLimit == Field(log.data, 128, 136)
    && var end := 64 + Field(log.data, 32, 64);
       137 <= end <= |log.data| && x.input == log.data[137..end]
  }

  lemma CeilingIs(len: nat)
    ensures len <= CeilTo32(len) < len + 32 && CeilTo32(len) % 32 == 0
    ensures len % 32 == 0 ==> CeilTo32(len) == len
  {
  }

  /** The decoder's saturating arithmetic accepts exactly lengths whose padded end fits 64 bits. */
  lemma PaddedLengthIs(len: nat)
    ensures len <= U64Max() && 64 + PaddedLength(len) <= U64Max() <==> 64 + CeilTo32(len) < Pow256(8)
    ensures 64 + CeilTo32(len) < Pow256(8) ==> PaddedLength(len) == CeilTo32(len)
  {
    assert Pow256(8) == 0x1_0000_0000_0000_0000;
    CeilingIs(len);
  }

  lemma WholeWords(n: nat, len: nat)
    requires n % 32 == 0 && 64 + len <= n
    ensures 64 + CeilTo32(len) <= n
  {
    CeilingIs(len);
  }

  ghost predicate PaddingPasses(data: seq<byte>, len: nat) {
    && len <= U64Max() && 64 + PaddedLength(len) <= U64Max() && 64 + len <= |data|
    && !(len % 32 != 0
         && var end := 64 + PaddedLength(len);
            end < 64 + len || end > |data| || exists i :: 64 + len <= i < end && data[i] != 0)
  }

  lemma PaddingPassesIff(data: seq<byte>, len: nat)
    requires |data| % 32 == 0 && 73 <= len
    ensures PaddingPasses(data, len) <==> IsPadded(data, len)
  {
    PaddedLengthIs(len);
    CeilingIs(len);
    if 64 + len <= |data| {
      WholeWords(|data|, len);
    }
  }

  lemma UnmarshalIs(from: Address, to: Address, data: seq<byte>, len: nat, x: Deposited)
    requires 64 + len <= |data|
    ensures UnmarshalV0(from, to, data[64..64 + len]) == Ok(x) <==>
            && 73 <= len && x.from == from && x.to == (if data[136] == 0 then Some(to) else None)
            && x.mint == Field(data, 80, 96) && x.value == Field(data, 96, 128) && x.gasLimit == Field(data, 128, 136)
            && x.input == data[137..64 + len]
  {
    if 73 <= len {
      var end := 64 + len;
      SlicesOfSlice(data, 64, end, 16, 32);
      SlicesOfSlice(data, 64, end, 32, 64);
      SlicesOfSlice(data, 64, end, 64, 72);
      SlicesOfSlice(data, 64, end, 73, len);
      FromBigEndianIsWeighted(data[80..96]);
      FromBigEndianIsWeighted(data[96..128]);
      FromBigEndianIsWeighted(data[128..136]);
      assert data[64..end][72] == data[136];
    }
  }

  /** The decoder's checks, one after the other. */
  lemma DecodeOpaqueChecks(from: Address, to: Address, version: Word, data: seq<byte>, x: Deposited)
    requires |data| >= 64
    ensures var len := FromBigEndian(data[32..64]);
            DecodeOpaque(from, to, version, data) == Ok(x) <==>
              && FromBigEndian(data[..32]) == 32 && PaddingPasses(data, len)
              && (forall i :: 0 <= i < 32 ==> version[i] == 0)
              && UnmarshalV0(from, to, data[64..64 + len]) == Ok(x)
  {
  }

  lemma PassesOrTooShort(data: seq<byte>, len: nat, from: Address, to: Address, x: Deposited)
    requires |data| % 32 == 0
    ensures PaddingPasses(data, len) && UnmarshalV0(from, to, data[64..64 + len]) == Ok(x)
       <==> IsPadded(data, len) && 64 + len <= |data| && UnmarshalV0(from, to, data[64..64 + len]) == Ok(x)
  {
    CeilingIs(len);
    if 73 <= len {
      PaddingPassesIff(data, len);
    }
  }

  lemma DecodeOpaqueIs(from: Address, to: Address, version: Word, data: seq<byte>, x: Deposited)
    requires |data| >= 64 && |data| % 32 == 0
    ensures DecodeOpaque(from, to, version, data) == Ok(x) <==>
            && Field(data, 0, 32) == 32 && (forall i :: 0 <= i < 32 ==> version[i] == 0)
            && var len := Field(data, 32, 64);
               IsPadded(data, len) && 64 + len <= |data| && UnmarshalV0(from, to, data[64..64 + len]) == Ok(x)
  {
    FromBigEndianIsWeighted(data[..32]);
    FromBigEndianIsWeighted(data[32..64]);
    assert data[0..32] == data[..32];
    DecodeOpaqueChecks(from, to, version, data, x);
    PassesOrTooShort(data, Field(data, 32, 64), from, to, x);
  }

  ghost predicate Addressed(selector: Word, log: Log) {
    && |log.topics| == 4 && log.topics[0] == selector && |log.data| >= 64 && |log.data| % 32 == 0
    && (forall i :: 0 <= i < 12 ==> log.topics[1][i] == 0 && log.topics[2][i] == 0)
  }

  lemma RefusalIs(selector: Word, log: Log)
    ensures Refusal(selector, log).None? <==> Addressed(selector, log)
  {
  }

  lemma AddressedDecodes(selector: Word, log: Log, x: Deposited)
    requires Addressed(selector, log)
    ensures DecodeEvent(selector, log) == Ok(x) <==> IsDepositEvent(selector, log) && StandsIn(log, x)
  {
    var from, to := FromBigEndian(log.topics[1][12..]), FromBigEndian(log.topics[2][12..]);
    RefusalIs(selector, log);
    FromBigEndianIsWeighted(log.topics[1][12..]);
    FromBigEndianIsWeighted(log.topics[2][12..]);
    DecodeOpaqueIs(from, to, log.topics[3], log.data, x);
    var len := Field(log.data, 32, 64);
    CeilingIs(len);
    if IsPadded(log.data, len) {
      UnmarshalIs(from, to, log.data, len, x);
    }
  }

  /** The decoder accepts exactly deposit events, and takes out of them the deposit that stands there. */
  lemma DecodesExactlyDepositEvents(log: Log, x: Deposited)
    ensures Decode(log) == Ok(x) <==> IsDepositEvent(EVENT_ABI_HASH, log) && StandsIn(log, x)
  {
    RefusalIs(EVENT_ABI_HASH, log);
    if Addressed(EVENT_ABI_HASH, log) {
      AddressedDecodes(EVENT_ABI_HASH, log, x);
    }
  }
}
