/** The burn-data wire format: field readers, acceptance checks, and the proof that the accepted bytes
    are exactly the documented layout of one record (programs/gateway-wallet/src/burn_data.rs). */
module BurnData {
  import opened Base
  import opened Layout

  const TRANSFER_SPEC_MAGIC := 0xca85def7
  const BURN_INTENT_MAGIC := 0x070afbc2
  const BURN_INTENT_MESSAGE_PREFIX: Bytes := [0xff, 0, 0, 0, 0, 0, 0, 0, 0, 0, 0, 0, 0, 0, 0, 0]

  const BURN_DATA_FEE_OFFSET := 0
  const BURN_DATA_USER_SIGNATURE_OFFSET := 8
  const BURN_INTENT_MESSAGE_PREFIX_OFFSET := 72

  const MAGIC_OFFSET := 88
  const MAX_BLOCK_HEIGHT_OFFSET := 92
  const MAX_FEE_OFFSET := 124
  const TRANSFER_SPEC_LENGTH_OFFSET := 156
  const TRANSFER_SPEC_OFFSET := 160

  const TS_MAGIC_OFFSET := 160
  const TS_VERSION_OFFSET := 164
  const TS_SOURCE_DOMAIN_OFFSET := 168
  const TS_DESTINATION_DOMAIN_OFFSET := 172
  const TS_SOURCE_CONTRACT_OFFSET := 176
  const TS_DESTINATION_CONTRACT_OFFSET := 208
  const TS_SOURCE_TOKEN_OFFSET := 240
  const TS_DESTINATION_TOKEN_OFFSET := 272
  const TS_SOURCE_DEPOSITOR_OFFSET := 304
  const TS_DESTINATION_RECIPIENT_OFFSET := 336
  const TS_SOURCE_SIGNER_OFFSET := 368
  const TS_DESTINATION_CALLER_OFFSET := 400
  const TS_VALUE_OFFSET := 432
  const TS_SALT_OFFSET := 464
  const TS_HOOK_DATA_LENGTH_OFFSET := 496
  const TS_HOOK_DATA_OFFSET := 500

  const U256_TO_U64_OFFSET := 24

  // ---------- readers ----------

  function ReadU32(data: Bytes, index: nat): Result<u32> {
    var s :- Slice(data, index, index + 4);
    Widths();
    ToFromBE(s);
    Ok(FromBE(s))
  }

  function ReadU64(data: Bytes, index: nat): Result<u64> {
    var s :- Slice(data, index, index + 8);
    Widths();
    ToFromBE(s);
    Ok(FromBE(s))
  }

  function ReadPubkey(data: Bytes, index: nat): Result<Pubkey> {
    var s :- Slice(data, index, index + 32);
    Ok(Pubkey(s))
  }

  predicate AllZero(s: Bytes) {
    forall i :: 0 <= i < |s| ==> s[i] == 0
  }

  /** Reads an EVM 256-bit field whose high bytes must be zero. */
  function ReadU64WithDataOffset(data: Bytes, index: nat, dataOffset: nat): Result<u64> {
    var high :- Slice(data, index, index + dataOffset);
    var _ :- Require(AllZero(high), InvalidU64HighBytes);
    ReadU64(data, index + dataOffset)
  }

  datatype BurnData = BurnData(data: Bytes) {
    function Fee(): Result<u64> { ReadU64(data, BURN_DATA_FEE_OFFSET) }

    function UserSignature(): Result<Bytes> {
      Slice(data, BURN_DATA_USER_SIGNATURE_OFFSET, BURN_DATA_USER_SIGNATURE_OFFSET + 64)
    }

    function BurnIntentMessagePrefix(): Result<Bytes> {
      Slice(data, BURN_INTENT_MESSAGE_PREFIX_OFFSET, BURN_INTENT_MESSAGE_PREFIX_OFFSET + 16)
    }

    function Magic(): Result<u32> { ReadU32(data, MAGIC_OFFSET) }

    function MaxBlockHeight(): Result<u64> {
      ReadU64WithDataOffset(data, MAX_BLOCK_HEIGHT_OFFSET, U256_TO_U64_OFFSET)
    }

    function MaxFee(): Result<u64> { ReadU64WithDataOffset(data, MAX_FEE_OFFSET, U256_TO_U64_OFFSET) }

    function TransferSpecLength(): Result<u32> { ReadU32(data, TRANSFER_SPEC_LENGTH_OFFSET) }

    function TransferSpecMagic(): Result<u32> { ReadU32(data, TS_MAGIC_OFFSET) }

    function EncodedTransferSpec(): Result<Bytes> {
      var n :- TransferSpecLength();
      Slice(data, TRANSFER_SPEC_OFFSET, TRANSFER_SPEC_OFFSET + n)
    }

    function Version(): Result<u32> { ReadU32(data, TS_VERSION_OFFSET) }

    function SourceDomain(): Result<u32> { ReadU32(data, TS_SOURCE_DOMAIN_OFFSET) }

    function DestinationDomain(): Result<u32> { ReadU32(data, TS_DESTINATION_DOMAIN_OFFSET) }

    function SourceContract(): Result<Pubkey> { ReadPubkey(data, TS_SOURCE_CONTRACT_OFFSET) }

    function DestinationContract(): Result<Pubkey> { ReadPubkey(data, TS_DESTINATION_CONTRACT_OFFSET) }

    function SourceToken(): Result<Pubkey> { ReadPubkey(data, TS_SOURCE_TOKEN_OFFSET) }

    function DestinationToken(): Result<Pubkey> { ReadPubkey(data, TS_DESTINATION_TOKEN_OFFSET) }

    function SourceDepositor(): Result<Pubkey> { ReadPubkey(data, TS_SOURCE_DEPOSITOR_OFFSET) }

    function DestinationRecipient(): Result<Pubkey> { ReadPubkey(data, TS_DESTINATION_RECIPIENT_OFFSET) }

    function SourceSigner(): Result<Pubkey> { ReadPubkey(data, TS_SOURCE_SIGNER_OFFSET) }

    function DestinationCaller(): Result<Pubkey> { ReadPubkey(data, TS_DESTINATION_CALLER_OFFSET) }

    function Value(): Result<u64> { ReadU64WithDataOffset(data, TS_VALUE_OFFSET, U256_TO_U64_OFFSET) }

    function Salt(): Result<Bytes> { Slice(data, TS_SALT_OFFSET, TS_SALT_OFFSET + 32) }

    function HookDataLength(): Result<u32> { ReadU32(data, TS_HOOK_DATA_LENGTH_OFFSET) }

    function HookData(): Result<Bytes> {
      var n :- HookDataLength();
      Slice(data, TS_HOOK_DATA_OFFSET, TS_HOOK_DATA_OFFSET + n)
    }

    /** The length of what the user signs: the prefix and the whole burn intent. */
    function BurnIntentMessageLength(): Result<nat> {
      if |data| < BURN_INTENT_MESSAGE_PREFIX_OFFSET then Err(ArithmeticOverflow)
      else Ok(|data| - BURN_INTENT_MESSAGE_PREFIX_OFFSET)
    }
  }

  /** `BurnData::new`. */
  function New(message: Bytes): Result<BurnData> {
    var _ :- Require(|message| >= TS_HOOK_DATA_OFFSET, BurnIntentLengthMismatch);
    var b := BurnData(message);
    var prefix :- b.BurnIntentMessagePrefix();
    var _ :- Require(prefix == BURN_INTENT_MESSAGE_PREFIX, InvalidBurnIntentMessagePrefix);
    var magic :- b.Magic();
    var _ :- Require(magic == BURN_INTENT_MAGIC, BurnIntentMagicMismatch);
    var specMagic :- b.TransferSpecMagic();
    var _ :- Require(specMagic == TRANSFER_SPEC_MAGIC, TransferSpecMagicMismatch);
    var hookDataLength :- b.HookDataLength();
    var _ :- Require(|message| == TS_HOOK_DATA_OFFSET + hookDataLength, BurnIntentLengthMismatch);
    var specLength :- b.TransferSpecLength();
    var _ :- Require(TS_HOOK_DATA_OFFSET - TRANSFER_SPEC_OFFSET + hookDataLength == specLength,
                     BurnIntentLengthMismatch);
    var value :- b.Value();
    var _ :- Require(value > 0, InvalidBurnIntentValue);
    Ok(b)
  }

  // ---------- the documented layout ----------

  datatype TransferSpec = TransferSpec(
    version: u32, sourceDomain: u32, destinationDomain: u32, sourceContract: Pubkey, destinationContract: Pubkey,
    sourceToken: Pubkey, destinationToken: Pubkey, sourceDepositor: Pubkey, destinationRecipient: Pubkey,
    sourceSigner: Pubkey, destinationCaller: Pubkey, value: u64, salt: Bytes32, hookData: Bytes)

  datatype Record = Record(fee: u64, userSignature: Bytes64, maxBlockHeight: u64, maxFee: u64, spec: TransferSpec)

  const HEAD_WIDTHS: seq<nat> := [8, 64, 16, 4, 32, 32, 4]
  const SPEC_FIXED := TS_HOOK_DATA_OFFSET - TRANSFER_SPEC_OFFSET

  /** Amounts and heights are 256-bit big-endian numbers on the wire. */
  function SpecParts(s: TransferSpec): seq<Bytes> {
    [ToBE(TRANSFER_SPEC_MAGIC, 4), ToBE(s.version, 4), ToBE(s.sourceDomain, 4), ToBE(s.destinationDomain, 4),
     s.sourceContract.bytes, s.destinationContract.bytes, s.sourceToken.bytes, s.destinationToken.bytes,
     s.sourceDepositor.bytes, s.destinationRecipient.bytes, s.sourceSigner.bytes, s.destinationCaller.bytes,
     ToBE(s.value, 32), s.salt, ToBE(|s.hookData|, 4)]
  }

  function EncodeSpec(s: TransferSpec): Bytes {
    Cat(SpecParts(s)) + s.hookData
  }

  function HeadParts(r: Record): seq<Bytes> {
    [ToBE(r.fee, 8), r.userSignature, BURN_INTENT_MESSAGE_PREFIX, ToBE(BURN_INTENT_MAGIC, 4),
     ToBE(r.maxBlockHeight, 32),
     ToBE(r.maxFee, 32), ToBE(SPEC_FIXED + |r.spec.hookData|, 4)]
  }

  function Encode(r: Record): Bytes {
    Cat(HeadParts(r)) + EncodeSpec(r.spec)
  }

  /** A record whose transfer spec's length fits its 32-bit field and whose value is positive. */
  predicate Encodable(r: Record) {
    SPEC_FIXED + |r.spec.hookData| <= U32_MAX && r.spec.value > 0
  }

  lemma HeadOffsets(w: seq<nat>)
    requires w == HEAD_WIDTHS
    ensures Total(w) == TRANSFER_SPEC_OFFSET
    ensures Offset(w, 0) == BURN_DATA_FEE_OFFSET && Offset(w, 1) == BURN_DATA_USER_SIGNATURE_OFFSET
    ensures Offset(w, 2) == BURN_INTENT_MESSAGE_PREFIX_OFFSET && Offset(w, 3) == MAGIC_OFFSET
    ensures Offset(w, 4) == MAX_BLOCK_HEIGHT_OFFSET && Offset(w, 5) == MAX_FEE_OFFSET
    ensures Offset(w, 6) == TRANSFER_SPEC_LENGTH_OFFSET
  {
    OffsetTotal(w);
  }

  /** The widths of the transfer spec's fixed fields. */
  ghost predicate SpecTable(w: seq<nat>) {
    && |w| == 15 && w[0] == 4 && w[1] == 4 && w[2] == 4 && w[3] == 4 && w[4] == 32 && w[5] == 32 && w[6] == 32
    && w[7] == 32 && w[8] == 32 && w[9] == 32 && w[10] == 32 && w[11] == 32 && w[12] == 32 && w[13] == 32 && w[14] == 4
  }

  lemma SpecOffsets(w: seq<nat>, base: nat)
    requires SpecTable(w) && base == TRANSFER_SPEC_OFFSET
    ensures Total(w) == SPEC_FIXED
    ensures base + Offset(w, 0) == TS_MAGIC_OFFSET && base + Offset(w, 1) == TS_VERSION_OFFSET
    ensures base + Offset(w, 2) == TS_SOURCE_DOMAIN_OFFSET && base + Offset(w, 3) == TS_DESTINATION_DOMAIN_OFFSET
    ensures base + Offset(w, 4) == TS_SOURCE_CONTRACT_OFFSET && base + Offset(w, 5) == TS_DESTINATION_CONTRACT_OFFSET
    ensures base + Offset(w, 6) == TS_SOURCE_TOKEN_OFFSET && base + Offset(w, 7) == TS_DESTINATION_TOKEN_OFFSET
    ensures base + Offset(w, 8) == TS_SOURCE_DEPOSITOR_OFFSET && base + Offset(w, 9) == TS_DESTINATION_RECIPIENT_OFFSET
    ensures base + Offset(w, 10) == TS_SOURCE_SIGNER_OFFSET && base + Offset(w, 11) == TS_DESTINATION_CALLER_OFFSET
    ensures base + Offset(w, 12) == TS_VALUE_OFFSET && base + Offset(w, 13) == TS_SALT_OFFSET
    ensures base + Offset(w, 14) == TS_HOOK_DATA_LENGTH_OFFSET
  {
    OffsetTotal(w);
  }

  // ---------- 256-bit fields narrowed to 64 bits ----------

  lemma {:induction false} FromBEConcat(a: Bytes, b: Bytes)
    ensures FromBE(a + b) == FromBE(a) * Pow256(|b|) + FromBE(b)
  {
    if b == [] {
      assert a + b == a;
    } else {
      var init := b[..|b| - 1];
      FromBEConcat(a, init);
      assert (a + b)[..|a + b| - 1] == a + init;
      calc {
        FromBE(a + b);
        (FromBE(a) * Pow256(|init|) + FromBE(init)) * 256 + b[|b| - 1];
        FromBE(a) * (256 * Pow256(|init|)) + FromBE(b);
      }
    }
  }

  lemma {:induction false} FromBEZero(a: Bytes)
    ensures FromBE(a) == 0 <==> AllZero(a)
  {
    if a == [] {
    } else {
      FromBEZero(a[..|a| - 1]);
      assert AllZero(a) <==> AllZero(a[..|a| - 1]) && a[|a| - 1] == 0;
    }
  }

  /** Reading the field succeeds exactly when the 256-bit number fits 64 bits, and gives that number. */
  lemma NarrowExact(data: Bytes, index: nat)
    requires index + 32 <= |data|
    ensures var n := FromBE(data[index..index + 32]);
            ReadU64WithDataOffset(data, index, U256_TO_U64_OFFSET)
            == if n <= U64_MAX then Ok(n) else Err(InvalidU64HighBytes)
  {
    var field := data[index..index + 32];
    var high, low := data[index..index + 24], data[index + 24..index + 32];
    assert field == high + low;
    FromBEConcat(high, low);
    FromBEZero(high);
    Widths();
    ToFromBE(low);
    assert FromBE(high) > 0 ==> FromBE(high) * Pow256(8) >= Pow256(8);
  }

  // ---------- the accepted bytes are exactly the encodings ----------

  /** The bytes on which construction and both remaining fallible readers succeed. */
  predicate Accepted(data: Bytes) {
    New(data).Ok? && BurnData(data).MaxBlockHeight().Ok? && BurnData(data).MaxFee().Ok?
  }

  function SpecAt(spec: Bytes): TransferSpec
    requires |spec| >= SPEC_FIXED
  {
    Widths();
    ToFromBE(spec[296..304]);
    TransferSpec(
      U32At(spec, 4), U32At(spec, 8), U32At(spec, 12), Pubkey(spec[16..48]), Pubkey(spec[48..80]),
      Pubkey(spec[80..112]), Pubkey(spec[112..144]), Pubkey(spec[144..176]), Pubkey(spec[176..208]),
      Pubkey(spec[208..240]), Pubkey(spec[240..272]),
      U64At(spec, 296), spec[304..336], spec[SPEC_FIXED..])
  }

  /** The record that lies in the bytes. */
  function RecordAt(data: Bytes): Record
    requires |data| >= TS_HOOK_DATA_OFFSET
  {
    Record(U64At(data, 0), data[8..72], U64At(data, 116), U64At(data, 148), SpecAt(data[TRANSFER_SPEC_OFFSET..]))
  }

  lemma SpecWindowsFront(c: seq<Bytes>, fixed: Bytes, w: seq<nat>)
    requires |fixed| == SPEC_FIXED && SpecTable(w) && AreWindows(c, fixed, w)
    ensures c[0] == fixed[0..4] && c[1] == fixed[4..8] && c[2] == fixed[8..12]
    ensures c[3] == fixed[12..16] && c[4] == fixed[16..48] && c[5] == fixed[48..80]
    ensures c[6] == fixed[80..112] && c[7] == fixed[112..144]
  {
    SpecOffsets(w, TRANSFER_SPEC_OFFSET);
  }

  lemma SpecWindowsBack(c: seq<Bytes>, fixed: Bytes, w: seq<nat>)
    requires |fixed| == SPEC_FIXED && SpecTable(w) && AreWindows(c, fixed, w)
    ensures c[8] == fixed[144..176] && c[9] == fixed[176..208] && c[10] == fixed[208..240]
    ensures c[11] == fixed[240..272] && c[12] == fixed[272..304] && c[13] == fixed[304..336]
    ensures c[14] == fixed[336..340]
  {
    SpecOffsets(w, TRANSFER_SPEC_OFFSET);
  }

  lemma HeadWindows(fixed: Bytes, w: seq<nat>)
    requires |fixed| == TRANSFER_SPEC_OFFSET && w == HEAD_WIDTHS
    ensures |fixed| == Total(w)
    ensures Cut(fixed, w) ==
            [fixed[0..8], fixed[8..72], fixed[72..88], fixed[88..92], fixed[92..124], fixed[124..156], fixed[156..160]]
  {
    HeadOffsets(w);
    forall i | 0 <= i < 7
      ensures Cut(fixed, w)[i] == fixed[Offset(w, i)..Offset(w, i) + w[i]]
    {
      FieldAt(fixed, w, i);
    }
  }

  /** A 32-byte field with zero high bytes is the 256-bit encoding of its low 64 bits. */
  lemma NarrowEncodes(data: Bytes, index: nat)
    requires index + 32 <= |data|
    ensures var r := ReadU64WithDataOffset(data, index, U256_TO_U64_OFFSET);
            r.Ok? ==> r.value == U64At(data, index + 24) && ToBE(r.value, 32) == data[index..index + 32]
  {
    NarrowExact(data, index);
    ToFromBE(data[index..index + 32]);
  }

  lemma NarrowOfEncoded(n: u64, data: Bytes, index: nat)
    requires index + 32 <= |data| && data[index..index + 32] == ToBE(n, 32)
    ensures ReadU64WithDataOffset(data, index, U256_TO_U64_OFFSET) == Ok(n) && U64At(data, index + 24) == n
  {
    Fits256(n);
    FromToBE(n, 32);
    NarrowExact(data, index);
  }

  lemma Fits256(n: u64)
    ensures n < Pow256(32)
  {
    Widths();
    PowGrows(8, 24);
  }

  lemma {:induction false} PowGrows(k: nat, more: nat)
    ensures Pow256(k) <= Pow256(k + more)
  {
    if more > 0 {
      PowGrows(k, more - 1);
    }
  }

  lemma SpecWidths() returns (w: seq<nat>)
    ensures SpecTable(w)
  {
    w := [4, 4, 4, 4, 32, 32, 32, 32, 32, 32, 32, 32, 32, 32, 4];
  }

  lemma SpecFits(s: TransferSpec, w: seq<nat>)
    requires SpecTable(w)
    ensures Fits(SpecParts(s), w) && |Cat(SpecParts(s))| == SPEC_FIXED == Total(w)
    ensures Cut(Cat(SpecParts(s)), w) == SpecParts(s)
  {
    CutCat(SpecParts(s), w);
    SpecOffsets(w, TRANSFER_SPEC_OFFSET);
  }

  lemma HeadFits(r: Record)
    ensures Fits(HeadParts(r), HEAD_WIDTHS) && |Cat(HeadParts(r))| == TRANSFER_SPEC_OFFSET
  {
    CutCat(HeadParts(r), HEAD_WIDTHS);
    HeadOffsets(HEAD_WIDTHS);
  }

  /** The windows of an encoded transfer spec. */
  lemma SpecOfEncoded(s: TransferSpec)
    requires SPEC_FIXED + |s.hookData| <= U32_MAX
    ensures var e := EncodeSpec(s);
            && |e| == SPEC_FIXED + |s.hookData| && SpecAt(e) == s
            && U32At(e, 0) == TRANSFER_SPEC_MAGIC && U32At(e, 336) == |s.hookData|
            && e[272..304] == ToBE(s.value, 32)
  {
    var e, fixed, p := EncodeSpec(s), Cat(SpecParts(s)), SpecParts(s);
    var w := SpecWidths();
    SpecFits(s, w);
    CutWindows(fixed, w);
    SpecWindowsFront(p, fixed, w);
    SpecWindowsBack(p, fixed, w);
    assert e[..SPEC_FIXED] == fixed[..SPEC_FIXED];
    PrefixWindows(e, fixed, SPEC_FIXED);
    Widths();
    FromToBE(TRANSFER_SPEC_MAGIC, 4);
    FromToBE(s.version, 4);
    FromToBE(s.sourceDomain, 4);
    FromToBE(s.destinationDomain, 4);
    FromToBE(|s.hookData|, 4);
    NarrowOfEncoded(s.value, e, 272);
  }

  /** Encoding the transfer spec read from a suffix gives the suffix back. */
  lemma EncodeSpecAt(spec: Bytes)
    requires |spec| >= SPEC_FIXED
    requires U32At(spec, 0) == TRANSFER_SPEC_MAGIC && U32At(spec, 336) == |spec| - SPEC_FIXED
    requires ReadU64WithDataOffset(spec, 272, U256_TO_U64_OFFSET).Ok?
    ensures EncodeSpec(SpecAt(spec)) == spec
  {
    var fixed := spec[..SPEC_FIXED];
    var w := SpecWidths();
    SpecOffsets(w, TRANSFER_SPEC_OFFSET);
    var c := Cut(fixed, w);
    CutWindows(fixed, w);
    SpecWindowsFront(c, fixed, w);
    SpecWindowsBack(c, fixed, w);
    PrefixWindows(spec, fixed, SPEC_FIXED);
    NarrowEncodes(spec, 272);
    ToFromBE(spec[0..4]);
    ToFromBE(spec[4..8]);
    ToFromBE(spec[8..12]);
    ToFromBE(spec[12..16]);
    ToFromBE(spec[336..340]);
    SpecPartsAre(SpecAt(spec), c, spec);
    CatCut(fixed, w);
  }

  lemma SpecPartsAre(s: TransferSpec, c: seq<Bytes>, e: Bytes)
    requires |c| == 15 && |e| >= SPEC_FIXED && s == SpecAt(e)
    requires ToBE(TRANSFER_SPEC_MAGIC, 4) == c[0] && ToBE(s.version, 4) == c[1] && ToBE(s.sourceDomain, 4) == c[2]
    requires ToBE(s.destinationDomain, 4) == c[3] && ToBE(s.value, 32) == c[12] && ToBE(|s.hookData|, 4) == c[14]
    requires c[4] == e[16..48] && c[5] == e[48..80] && c[6] == e[80..112] && c[7] == e[112..144] && c[8] == e[144..176]
    requires c[9] == e[176..208] && c[10] == e[208..240] && c[11] == e[240..272] && c[13] == e[304..336]
    ensures SpecParts(s) == c
  {
    var p := SpecParts(s);
    assert p[0] == c[0] && p[1] == c[1] && p[2] == c[2] && p[3] == c[3] && p[4] == c[4];
    assert p[5] == c[5] && p[6] == c[6] && p[7] == c[7] && p[8] == c[8] && p[9] == c[9];
    assert p[10] == c[10] && p[11] == c[11] && p[12] == c[12] && p[13] == c[13] && p[14] == c[14];
    assert forall i :: 0 <= i < 15 ==> p[i] == c[i];
  }

  lemma HeadOfEncoded(r: Record)
    requires SPEC_FIXED + |r.spec.hookData| <= U32_MAX
    ensures var d := Encode(r);
            && |d| == TS_HOOK_DATA_OFFSET + |r.spec.hookData| && d[TRANSFER_SPEC_OFFSET..] == EncodeSpec(r.spec)
            && U64At(d, 0) == r.fee && d[8..72] == r.userSignature && d[72..88] == BURN_INTENT_MESSAGE_PREFIX
            && U32At(d, 88) == BURN_INTENT_MAGIC && d[92..124] == ToBE(r.maxBlockHeight, 32)
            && d[124..156] == ToBE(r.maxFee, 32) && U32At(d, 156) == SPEC_FIXED + |r.spec.hookData|
  {
    var d, fixed, p := Encode(r), Cat(HeadParts(r)), HeadParts(r);
    HeadFits(r);
    CutCat(p, HEAD_WIDTHS);
    HeadWindows(fixed, HEAD_WIDTHS);
    assert d[..TRANSFER_SPEC_OFFSET] == fixed[..TRANSFER_SPEC_OFFSET];
    PrefixWindows(d, fixed, TRANSFER_SPEC_OFFSET);
    SpecOfEncoded(r.spec);
    Widths();
    FromToBE(r.fee, 8);
    FromToBE(BURN_INTENT_MAGIC, 4);
    FromToBE(SPEC_FIXED + |r.spec.hookData|, 4);
  }

  lemma EncodeHeadAt(d: Bytes, r: Record)
    requires |d| >= TS_HOOK_DATA_OFFSET && r == RecordAt(d)
    requires d[72..88] == BURN_INTENT_MESSAGE_PREFIX && U32At(d, 88) == BURN_INTENT_MAGIC
    requires ReadU64WithDataOffset(d, 92, U256_TO_U64_OFFSET).Ok?
             && ReadU64WithDataOffset(d, 124, U256_TO_U64_OFFSET).Ok?
    requires U32At(d, 156) == |d| - TRANSFER_SPEC_OFFSET
    ensures Cat(HeadParts(r)) == d[..TRANSFER_SPEC_OFFSET]
  {
    var fixed := d[..TRANSFER_SPEC_OFFSET];
    HeadOffsets(HEAD_WIDTHS);
    HeadWindows(fixed, HEAD_WIDTHS);
    PrefixWindows(d, fixed, TRANSFER_SPEC_OFFSET);
    NarrowEncodes(d, 92);
    NarrowEncodes(d, 124);
    ToFromBE(d[0..8]);
    ToFromBE(d[88..92]);
    ToFromBE(d[156..160]);
    assert HeadParts(r) == Cut(fixed, HEAD_WIDTHS);
    CatCut(fixed, HEAD_WIDTHS);
  }

  /** Windows past the head are windows of the suffix. */
  lemma SuffixWindow(d: Bytes, from: nat, i: nat, j: nat)
    requires from + i <= from + j <= |d|
    ensures d[from + i..from + j] == d[from..][i..j]
  {
  }

  /** A 256-bit window of the suffix is read like the same window of the whole. */
  lemma SuffixNarrow(d: Bytes, from: nat, i: nat)
    requires from + i + 32 <= |d|
    ensures ReadU64WithDataOffset(d, from + i, U256_TO_U64_OFFSET)
         == ReadU64WithDataOffset(d[from..], i, U256_TO_U64_OFFSET)
  {
    SuffixWindow(d, from, i, i + 32);
    NarrowExact(d, from + i);
    NarrowExact(d[from..], i);
  }

  /** What acceptance says of the suffix that holds the transfer spec. */
  lemma AcceptedSpec(d: Bytes)
    requires Accepted(d)
    ensures |d| >= TS_HOOK_DATA_OFFSET
    ensures var spec := d[TRANSFER_SPEC_OFFSET..];
            && |spec| >= SPEC_FIXED && U32At(spec, 0) == TRANSFER_SPEC_MAGIC && U32At(spec, 336) == |spec| - SPEC_FIXED
            && ReadU64WithDataOffset(spec, 272, U256_TO_U64_OFFSET).Ok? && SpecAt(spec).value > 0
  {
    var spec := d[TRANSFER_SPEC_OFFSET..];
    SuffixWindow(d, TRANSFER_SPEC_OFFSET, 0, 4);
    SuffixWindow(d, TRANSFER_SPEC_OFFSET, 336, 340);
    SuffixNarrow(d, TRANSFER_SPEC_OFFSET, 272);
    NarrowEncodes(spec, 272);
  }

  /** Accepted bytes are the encoding of the record they hold, whose value is positive. */
  lemma AcceptedIsEncoded(d: Bytes)
    requires Accepted(d)
    ensures |d| >= TS_HOOK_DATA_OFFSET && Encodable(RecordAt(d)) && Encode(RecordAt(d)) == d
  {
    hide HeadParts, SpecParts, ReadU64WithDataOffset, ToBE, FromBE;
    var spec := d[TRANSFER_SPEC_OFFSET..];
    AcceptedSpec(d);
    EncodeSpecAt(spec);
    EncodeHeadAt(d, RecordAt(d));
    assert d == d[..TRANSFER_SPEC_OFFSET] + spec;
  }

  /** Every reader, on the encoding of a record: in bounds, and giving the record's own field. */
  ghost predicate Reads(b: BurnData, r: Record) {
    && b.Fee() == Ok(r.fee) && b.UserSignature() == Ok(r.userSignature)
    && b.BurnIntentMessagePrefix() == Ok(BURN_INTENT_MESSAGE_PREFIX) && b.Magic() == Ok(BURN_INTENT_MAGIC)
    && b.MaxBlockHeight() == Ok(r.maxBlockHeight) && b.MaxFee() == Ok(r.maxFee)
    && b.TransferSpecLength() == Ok(SPEC_FIXED + |r.spec.hookData|) && b.TransferSpecMagic() == Ok(TRANSFER_SPEC_MAGIC)
    && b.EncodedTransferSpec() == Ok(EncodeSpec(r.spec))
    && b.EncodedTransferSpec() == Ok(b.data[TRANSFER_SPEC_OFFSET..])
    && b.Version() == Ok(r.spec.version) && b.SourceDomain() == Ok(r.spec.sourceDomain)
    && b.DestinationDomain() == Ok(r.spec.destinationDomain) && b.SourceContract() == Ok(r.spec.sourceContract)
    && b.DestinationContract() == Ok(r.spec.destinationContract) && b.SourceToken() == Ok(r.spec.sourceToken)
    && b.DestinationToken() == Ok(r.spec.destinationToken) && b.SourceDepositor() == Ok(r.spec.sourceDepositor)
    && b.DestinationRecipient() == Ok(r.spec.destinationRecipient) && b.SourceSigner() == Ok(r.spec.sourceSigner)
    && b.DestinationCaller() == Ok(r.spec.destinationCaller) && b.Value() == Ok(r.spec.value)
    && b.Salt() == Ok(r.spec.salt)
    && b.HookDataLength() == Ok(|r.spec.hookData|) && b.HookData() == Ok(r.spec.hookData)
    && b.BurnIntentMessageLength() == Ok(|b.data| - BURN_INTENT_MESSAGE_PREFIX_OFFSET)
  }

  lemma ReadsHead(r: Record)
    requires SPEC_FIXED + |r.spec.hookData| <= U32_MAX
    ensures var b := BurnData(Encode(r));
            && b.Fee() == Ok(r.fee) && b.UserSignature() == Ok(r.userSignature)
            && b.BurnIntentMessagePrefix() == Ok(BURN_INTENT_MESSAGE_PREFIX) && b.Magic() == Ok(BURN_INTENT_MAGIC)
            && b.MaxBlockHeight() == Ok(r.maxBlockHeight) && b.MaxFee() == Ok(r.maxFee)
            && b.TransferSpecLength() == Ok(SPEC_FIXED + |r.spec.hookData|)
            && U64At(b.data, 116) == r.maxBlockHeight && U64At(b.data, 148) == r.maxFee
  {
    HeadOfEncoded(r);
    var d := Encode(r);
    NarrowOfEncoded(r.maxBlockHeight, d, 92);
    NarrowOfEncoded(r.maxFee, d, 124);
  }

  lemma ReadsSpec(r: Record)
    requires SPEC_FIXED + |r.spec.hookData| <= U32_MAX
    ensures var b := BurnData(Encode(r));
            && b.TransferSpecMagic() == Ok(TRANSFER_SPEC_MAGIC)
            && b.Version() == Ok(r.spec.version) && b.SourceDomain() == Ok(r.spec.sourceDomain)
            && b.DestinationDomain() == Ok(r.spec.destinationDomain) && b.SourceContract() == Ok(r.spec.sourceContract)
            && b.DestinationContract() == Ok(r.spec.destinationContract) && b.SourceToken() == Ok(r.spec.sourceToken)
            && b.DestinationToken() == Ok(r.spec.destinationToken) && b.SourceDepositor() == Ok(r.spec.sourceDepositor)
            && b.DestinationRecipient() == Ok(r.spec.destinationRecipient)
            && b.SourceSigner() == Ok(r.spec.sourceSigner)
            && b.DestinationCaller() == Ok(r.spec.destinationCaller) && b.Salt() == Ok(r.spec.salt)
            && b.HookDataLength() == Ok(|r.spec.hookData|) && b.Value() == Ok(r.spec.value)
  {
    HeadOfEncoded(r);
    SpecOfEncoded(r.spec);
    var d, e := Encode(r), EncodeSpec(r.spec);
    forall i, j | 0 <= i <= j <= |e|
      ensures d[160 + i..160 + j] == e[i..j]
    {
      SuffixWindow(d, 160, i, j);
    }
    SpecReaders(d, e);
    NarrowOfEncoded(r.spec.value, d, 432);
  }

  lemma SpecReaders(d: Bytes, e: Bytes)
    requires |d| >= TS_HOOK_DATA_OFFSET && |e| == |d| - 160
    requires forall i, j :: 0 <= i <= j <= |e| ==> d[160 + i..160 + j] == e[i..j]
    ensures d[160..164] == e[0..4] && d[164..168] == e[4..8] && d[168..172] == e[8..12] && d[172..176] == e[12..16]
    ensures d[176..208] == e[16..48] && d[208..240] == e[48..80] && d[240..272] == e[80..112]
            && d[272..304] == e[112..144]
    ensures d[304..336] == e[144..176] && d[336..368] == e[176..208] && d[368..400] == e[208..240]
    ensures d[400..432] == e[240..272] && d[432..464] == e[272..304] && d[464..496] == e[304..336]
            && d[496..500] == e[336..340]
  {
  }

  lemma ReadsTail(r: Record)
    requires SPEC_FIXED + |r.spec.hookData| <= U32_MAX
    ensures var b := BurnData(Encode(r));
            && b.EncodedTransferSpec() == Ok(EncodeSpec(r.spec))
            && b.EncodedTransferSpec() == Ok(b.data[TRANSFER_SPEC_OFFSET..])
            && b.HookData() == Ok(r.spec.hookData)
            && b.BurnIntentMessageLength() == Ok(|b.data| - BURN_INTENT_MESSAGE_PREFIX_OFFSET)
  {
    var d, n := Encode(r), |r.spec.hookData|;
    assert BurnData(d).TransferSpecLength() == Ok(SPEC_FIXED + n) by {
      ReadsHead(r);
    }
    assert BurnData(d).HookDataLength() == Ok(n) by {
      ReadsSpec(r);
    }
    assert |d| == TS_HOOK_DATA_OFFSET + n && d[TRANSFER_SPEC_OFFSET..] == EncodeSpec(r.spec) by {
      HeadOfEncoded(r);
    }
    assert EncodeSpec(r.spec)[SPEC_FIXED..] == r.spec.hookData by {
      SpecOfEncoded(r.spec);
    }
    assert d[TS_HOOK_DATA_OFFSET..] == d[TRANSFER_SPEC_OFFSET..][SPEC_FIXED..];
    assert d[TRANSFER_SPEC_OFFSET..|d|] == d[TRANSFER_SPEC_OFFSET..]
      && d[TS_HOOK_DATA_OFFSET..|d|] == d[TS_HOOK_DATA_OFFSET..];
  }

  lemma RecordOfEncoded(r: Record)
    requires SPEC_FIXED + |r.spec.hookData| <= U32_MAX
    ensures |Encode(r)| >= TS_HOOK_DATA_OFFSET && RecordAt(Encode(r)) == r
  {
    ReadsHead(r);
    HeadOfEncoded(r);
    SpecOfEncoded(r.spec);
  }

  /** The encoding of a record is accepted, and every reader gives back the record's field. */
  lemma EncodedIsAccepted(r: Record)
    requires Encodable(r)
    ensures Accepted(Encode(r)) && RecordAt(Encode(r)) == r && Reads(BurnData(Encode(r)), r)
  {
    ReadsHead(r);
    ReadsSpec(r);
    ReadsTail(r);
    RecordOfEncoded(r);
    assert |Encode(r)| == TS_HOOK_DATA_OFFSET + |r.spec.hookData| by {
      HeadOfEncoded(r);
    }
  }

  /** The accepted byte strings are exactly the layouts of records with a positive value. */
  lemma Canonical(d: Bytes)
    ensures Accepted(d) <==> exists r :: Encodable(r) && Encode(r) == d
  {
    if Accepted(d) {
      AcceptedIsEncoded(d);
    }
    if r :| Encodable(r) && Encode(r) == d {
      EncodedIsAccepted(r);
    }
  }

  /** On accepted bytes the transfer spec is the suffix from its offset. */
  lemma SpecIsSuffix(d: Bytes)
    requires Accepted(d)
    ensures BurnData(d).EncodedTransferSpec() == Ok(d[TRANSFER_SPEC_OFFSET..])
    ensures Reads(BurnData(d), RecordAt(d))
  {
    AcceptedIsEncoded(d);
    EncodedIsAccepted(RecordAt(d));
  }

  /** The encoding of a transfer spec determines every one of its fields. */
  lemma SpecInjective(s: TransferSpec, t: TransferSpec)
    requires SPEC_FIXED + |s.hookData| <= U32_MAX && SPEC_FIXED + |t.hookData| <= U32_MAX
    requires EncodeSpec(s) == EncodeSpec(t)
    ensures s == t
  {
    SpecOfEncoded(s);
    SpecOfEncoded(t);
  }

  /** Burn data holds only one record. */
  lemma RecordInjective(r: Record, s: Record)
    requires Encodable(r) && Encodable(s) && Encode(r) == Encode(s)
    ensures r == s
  {
    hide Encode, RecordAt;
    RecordOfEncoded(r);
    RecordOfEncoded(s);
  }

  lemma SpecMagic(s: TransferSpec)
    requires SPEC_FIXED + |s.hookData| <= U32_MAX
    ensures |EncodeSpec(s)| >= SPEC_FIXED && EncodeSpec(s)[0..4] == [0xca, 0x85, 0xde, 0xf7]
  {
    hide EncodeSpec, U32At, U64At, SpecAt;
    SpecOfEncoded(s);
    U32Bytes(EncodeSpec(s), 0);
  }

  /** The constants on the wire, byte by byte: the message prefix, the magic of the burn intent and that of the transfer
      spec. */
  lemma WireConstants(r: Record)
    requires Encodable(r)
    ensures var d := Encode(r);
            && |d| == 500 + |r.spec.hookData|
            && d[72..88] == [0xff, 0, 0, 0, 0, 0, 0, 0, 0, 0, 0, 0, 0, 0, 0, 0]
            && d[88..92] == [0x07, 0x0a, 0xfb, 0xc2] && d[160..164] == [0xca, 0x85, 0xde, 0xf7]
  {
    hide Encode, EncodeSpec, U32At, U64At, SpecAt, ToBE, FromBE;
    var d := Encode(r);
    HeadOfEncoded(r);
    U32Bytes(d, 88);
    SpecMagic(r.spec);
    SuffixWindow(d, TRANSFER_SPEC_OFFSET, 0, 4);
  }

  /** What each error of construction reports about the bytes. */
  lemma NewErrors(d: Bytes)
    requires New(d).Err?
    ensures var e := New(d).error;
            if |d| < 500 then e == BurnIntentLengthMismatch
            else
              && (e.InvalidBurnIntentMessagePrefix? ==>
                    d[72..88] != [0xff, 0, 0, 0, 0, 0, 0, 0, 0, 0, 0, 0, 0, 0, 0, 0])
              && (e.BurnIntentMagicMismatch? ==> d[88..92] != [0x07, 0x0a, 0xfb, 0xc2])
              && (e.TransferSpecMagicMismatch? ==> d[160..164] != [0xca, 0x85, 0xde, 0xf7])
              && (e.BurnIntentLengthMismatch? ==> |d| != 500 + U32At(d, 496) || U32At(d, 156) != 340 + U32At(d, 496))
              && (e.InvalidU64HighBytes? ==> FromBE(d[432..464]) > 0xFFFF_FFFF_FFFF_FFFF)
              && (e.InvalidBurnIntentValue? ==> FromBE(d[432..464]) == 0)
              && (|| e.InvalidBurnIntentMessagePrefix? || e.BurnIntentMagicMismatch? || e.TransferSpecMagicMismatch?
                  || e.BurnIntentLengthMismatch? || e.InvalidU64HighBytes? || e.InvalidBurnIntentValue?)
  {
    hide FromBE, ToBE, ReadU64WithDataOffset, ReadU32, U32At;
    if |d| >= 500 {
      NarrowExact(d, 432);
      U32Read(d, 156);
      U32Read(d, 496);
      MagicField(d, 88, BURN_INTENT_MAGIC, [0x07, 0x0a, 0xfb, 0xc2]);
      MagicField(d, 160, TRANSFER_SPEC_MAGIC, [0xca, 0x85, 0xde, 0xf7]);
    }
  }

  lemma MagicField(d: Bytes, index: nat, magic: u32, bytes: Bytes)
    requires index + 4 <= |d|
    requires bytes == [magic / 0x1000000, magic / 0x10000 % 256, magic / 256 % 256, magic % 256]
    ensures ReadU32(d, index) == Ok(U32At(d, index))
    ensures d[index..index + 4] == bytes ==> U32At(d, index) == magic
  {
    hide ReadU32, ToBE, FromBE;
    U32Read(d, index);
    BigEndian32(magic);
    Widths();
    FromToBE(magic, 4);
  }

  lemma U32Read(d: Bytes, index: nat)
    requires index + 4 <= |d|
    ensures ReadU32(d, index) == Ok(U32At(d, index))
  {
  }
}
