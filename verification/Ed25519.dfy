/** Binding the Ed25519 precompile to the burn instruction: the 16 bytes that `verify_user_signature`
    accepts, and the windows they make the precompile check (programs/gateway-wallet/src/ed25519.rs,
    programs/gateway-wallet/src/instructions/gateway_burn.rs). */
module Ed25519 {
  import opened Base
  import opened Runtime
  import opened BurnData

  const HEADER_SIZE := 16

  const ED25519_NUM_SIGNATURES: byte := 1
  const ED25519_PADDING: byte := 0

  /** Discriminator and length prefix in front of the burn data. */
  const BURN_DATA_OFFSET := 6

  function ReadU16(data: Bytes, index: nat): Result<u16> {
    var s :- Slice(data, index, index + 2);
    Widths();
    ToFromLE(s);
    Ok(FromLE(s))
  }

  function ReadU8(data: Bytes, index: nat): Result<byte> {
    if index < |data| then Ok(data[index]) else Err(InvalidEd25519InstructionData)
  }

  datatype Ed25519InstructionData = Ed25519InstructionData(data: Bytes) {
    function NumSignatures(): Result<byte> { ReadU8(data, 0) }
    function Padding(): Result<byte> { ReadU8(data, 1) }
    function SignatureOffset(): Result<u16> { ReadU16(data, 2) }
    function SignatureInstructionIndex(): Result<u16> { ReadU16(data, 4) }
    function PublicKeyOffset(): Result<u16> { ReadU16(data, 6) }
    function PublicKeyInstructionIndex(): Result<u16> { ReadU16(data, 8) }
    function MessageDataOffset(): Result<u16> { ReadU16(data, 10) }
    function MessageDataSize(): Result<u16> { ReadU16(data, 12) }
    function MessageInstructionIndex(): Result<u16> { ReadU16(data, 14) }
  }

  /** One instruction of the transaction, as the instructions sysvar shows it. */
  datatype Instruction = Instruction(programId: Pubkey, data: Bytes)

  datatype Sysvar = Sysvar(instructions: seq<Instruction>, current: u16)

  /** A field of the header compared with its expected value; comparison stops at the first mismatch. */
  function Expect(actual: Result<int>, expected: int): Result<()> {
    var v :- actual;
    Require(v == expected, InvalidEd25519InstructionData)
  }

  /** `verify_user_signature`. */
  function VerifyUserSignature(env: Env, sysvar: Sysvar, messageLength: nat): Result<()> {
    var _ :- Require(messageLength <= U16_MAX, MalformedBurnData);
    var current := sysvar.current;
    var _ :- Require(current > 0, PreviousInstructionNotEd25519Program);
    var _ :- Require(current - 1 < |sysvar.instructions|, IndexOutOfBounds);
    var previous := sysvar.instructions[current - 1];
    var _ :- Require(previous.programId == env.ed25519Program, PreviousInstructionNotEd25519Program);
    var _ :- Require(|previous.data| == HEADER_SIZE, InvalidEd25519InstructionData);
    var d := Ed25519InstructionData(previous.data);
    var _ :- Expect(d.NumSignatures(), ED25519_NUM_SIGNATURES);
    var _ :- Expect(d.Padding(), ED25519_PADDING);
    var _ :- Expect(d.SignatureOffset(), BURN_DATA_OFFSET + BURN_DATA_USER_SIGNATURE_OFFSET);
    var _ :- Expect(d.SignatureInstructionIndex(), current);
    var _ :- Expect(d.PublicKeyOffset(), BURN_DATA_OFFSET + TS_SOURCE_SIGNER_OFFSET);
    var _ :- Expect(d.PublicKeyInstructionIndex(), current);
    var _ :- Expect(d.MessageDataOffset(), BURN_DATA_OFFSET + BURN_INTENT_MESSAGE_PREFIX_OFFSET);
    var _ :- Expect(d.MessageDataSize(), messageLength);
    Expect(d.MessageInstructionIndex(), current)
  }

  /** The only precompile data that is accepted, byte by byte: one signature, no padding, and the offsets 14, 374 and 78
      into the current instruction, least significant byte first. */
  function ExpectedData(current: u16, messageLength: u16): Bytes {
    [1, 0,
     14, 0, current % 256, current / 256,
     118, 1, current % 256, current / 256,
     78, 0, messageLength % 256, messageLength / 256, current % 256, current / 256]
  }

  /** Two bytes hold a 16-bit number, least significant first. */
  lemma LittleEndian16(n: u16)
    ensures ToLE(n, 2) == [n % 256, n / 256]
  {
    assert ToLE(n, 2) == [n % 256] + ToLE(n / 256, 1);
    assert ToLE(n / 256, 1) == [n / 256 % 256] + ToLE(n / 256 / 256, 0);
  }

  /** A little-endian field holds n exactly when its two bytes are those of n. */
  lemma U16Field(data: Bytes, index: nat, n: u16)
    requires index + 2 <= |data|
    ensures ReadU16(data, index) == Ok(n) <==> data[index..index + 2] == ToLE(n, 2)
  {
    Widths();
    FromToLE(n, 2);
    ToFromLE(data[index..index + 2]);
  }

  lemma SplitHeader(data: Bytes, e: Bytes)
    requires |data| == |e| == HEADER_SIZE
    ensures data == e <==>
              && data[0] == e[0] && data[1] == e[1] && data[2..4] == e[2..4] && data[4..6] == e[4..6]
              && data[6..8] == e[6..8]
              && data[8..10] == e[8..10] && data[10..12] == e[10..12] && data[12..14] == e[12..14]
              && data[14..16] == e[14..16]
  {
    if data[2..4] == e[2..4] && data[4..6] == e[4..6] && data[6..8] == e[6..8] && data[8..10] == e[8..10]
       && data[10..12] == e[10..12] && data[12..14] == e[12..14] && data[14..16] == e[14..16] {
      forall i | 2 <= i < 16
        ensures data[i] == e[i]
      {
        var j := i / 2 * 2;
        assert data[j..j + 2] == e[j..j + 2];
        assert data[i] == data[j..j + 2][i - j] && e[i] == e[j..j + 2][i - j];
      }
    }
  }

  lemma ExpectedSlices(current: u16, messageLength: u16)
    ensures var e := ExpectedData(current, messageLength);
            && |e| == HEADER_SIZE && e[0] == 1 && e[1] == 0
            && e[2..4] == ToLE(14, 2) && e[4..6] == ToLE(current, 2) && e[6..8] == ToLE(374, 2)
            && e[8..10] == ToLE(current, 2) && e[10..12] == ToLE(78, 2)
            && e[12..14] == ToLE(messageLength, 2) && e[14..16] == ToLE(current, 2)
  {
    LittleEndian16(14);
    LittleEndian16(374);
    LittleEndian16(78);
    LittleEndian16(current);
    LittleEndian16(messageLength);
  }

  /** The nine fields of a header have the expected values. */
  ghost predicate FieldsMatch(data: Bytes, current: u16, messageLength: u16) {
    var d := Ed25519InstructionData(data);
    && d.NumSignatures() == Ok(1) && d.Padding() == Ok(0)
    && d.SignatureOffset() == Ok(14) && d.SignatureInstructionIndex() == Ok(current)
    && d.PublicKeyOffset() == Ok(374) && d.PublicKeyInstructionIndex() == Ok(current)
    && d.MessageDataOffset() == Ok(78) && d.MessageDataSize() == Ok(messageLength)
    && d.MessageInstructionIndex() == Ok(current)
  }

  lemma FieldsDetermine(data: Bytes, current: u16, messageLength: u16)
    requires |data| == HEADER_SIZE
    ensures FieldsMatch(data, current, messageLength) <==> data == ExpectedData(current, messageLength)
  {
    ExpectedSlices(current, messageLength);
    SplitHeader(data, ExpectedData(current, messageLength));
    U16Field(data, 2, 14);
    U16Field(data, 4, current);
    U16Field(data, 6, 374);
    U16Field(data, 8, current);
    U16Field(data, 10, 78);
    U16Field(data, 12, messageLength);
    U16Field(data, 14, current);
  }

  /** The instruction before the current one is the Ed25519 program's, with exactly the expected data. */
  predicate PrecompileComesBefore(env: Env, sysvar: Sysvar, messageLength: nat) {
    && messageLength <= 65535 && 0 < sysvar.current && sysvar.current - 1 < |sysvar.instructions|
    && sysvar.instructions[sysvar.current - 1]
       == Instruction(env.ed25519Program, ExpectedData(sysvar.current, messageLength))
  }

  /** Acceptance is equality with the sixteen expected bytes, in an instruction of the Ed25519 program
      right before the current one, for a message of at most 65535 bytes. */
  lemma AcceptsExactly(env: Env, sysvar: Sysvar, messageLength: nat)
    ensures VerifyUserSignature(env, sysvar, messageLength).Ok? <==>
              && messageLength <= 65535 && 0 < sysvar.current && sysvar.current - 1 < |sysvar.instructions|
              && sysvar.instructions[sysvar.current - 1]
                 == Instruction(env.ed25519Program, ExpectedData(sysvar.current, messageLength))
  {
    if messageLength <= U16_MAX {
      assert |ExpectedData(sysvar.current, messageLength)| == HEADER_SIZE;
      if 0 < sysvar.current && sysvar.current - 1 < |sysvar.instructions| {
        var data := sysvar.instructions[sysvar.current - 1].data;
        if |data| == HEADER_SIZE {
          FieldsDetermine(data, sysvar.current, messageLength);
        }
      }
    }
  }

  // ---------- what the precompile checks ----------

  /** A window of an instruction of the transaction. */
  function Window(sysvar: Sysvar, index: nat, offset: nat, size: nat): Option<Bytes> {
    if index < |sysvar.instructions| && offset + size <= |sysvar.instructions[index].data|
    then Some(sysvar.instructions[index].data[offset..offset + size])
    else None
  }

  /** The fields that locate one signature, fourteen bytes from `at` on: all three windows exist and verify. */
  ghost predicate WindowsVerify(env: Env, sysvar: Sysvar, header: Bytes, at: nat)
    requires at + 14 <= |header|
  {
    var signature := Window(sysvar, FromLE(header[at + 2..at + 4]), FromLE(header[at..at + 2]), 64);
    var key := Window(sysvar, FromLE(header[at + 6..at + 8]), FromLE(header[at + 4..at + 6]), 32);
    var message := Window(sysvar, FromLE(header[at + 12..at + 14]), FromLE(header[at + 8..at + 10]),
                          FromLE(header[at + 10..at + 12]));
    signature.Some? && key.Some? && message.Some? && env.ed25519Verify(signature.value, key.value, message.value)
  }

  /** The Ed25519 precompile: as many signatures as the first byte says, each located by its own fields. A count of
      zero checks nothing. */
  ghost predicate PrecompilePasses(env: Env, sysvar: Sysvar, header: Bytes)
    requires |header| == HEADER_SIZE
  {
    forall i: nat :: i < header[0] ==> 2 + 14 * i + 14 <= |header| && WindowsVerify(env, sysvar, header, 2 + 14 * i)
  }

  /** On a header that counts one signature, the precompile checks exactly that one. */
  lemma OneSignature(env: Env, sysvar: Sysvar, header: Bytes)
    requires |header| == HEADER_SIZE && header[0] == 1
    ensures PrecompilePasses(env, sysvar, header) <==> WindowsVerify(env, sysvar, header, 2)
  {
    assert 2 + 14 * 0 == 2;
    if PrecompilePasses(env, sysvar, header) {
      assert WindowsVerify(env, sysvar, header, 2 + 14 * 0);
    }
  }

  /** Data that makes the precompile check no signature, or more than one, is refused. */
  lemma OtherCountsRefused(env: Env, sysvar: Sysvar, messageLength: nat)
    requires 0 < sysvar.current <= |sysvar.instructions|
    requires sysvar.instructions[sysvar.current - 1].data != [] && sysvar.instructions[sysvar.current - 1].data[0] != 1
    ensures VerifyUserSignature(env, sysvar, messageLength).Err?
  {
    hide VerifyUserSignature;
    AcceptsExactly(env, sysvar, messageLength);
  }

  /** The data of a `gateway_burn` instruction: discriminator, burn data and burn signature with their lengths. */
  function BurnInstructionData(discriminator: Bytes, burnData: Bytes, burnSignature: Bytes): Bytes
    requires |discriminator| == 2
  {
    discriminator + ToLE(|burnData|, 4) + burnData + ToLE(|burnSignature|, 4) + burnSignature
  }

  lemma BurnDataWindow(discriminator: Bytes, burnData: Bytes, burnSignature: Bytes, i: nat, j: nat)
    requires |discriminator| == 2 && i <= j <= |burnData|
    ensures var ix := BurnInstructionData(discriminator, burnData, burnSignature);
            BURN_DATA_OFFSET + j <= |ix| && ix[BURN_DATA_OFFSET + i..BURN_DATA_OFFSET + j] == burnData[i..j]
  {
    var ix := BurnInstructionData(discriminator, burnData, burnSignature);
    var head, tail := discriminator + ToLE(|burnData|, 4), ToLE(|burnSignature|, 4) + burnSignature;
    assert ix == head + (burnData + tail);
    assert ix[BURN_DATA_OFFSET..] == burnData + tail;
    assert ix[BURN_DATA_OFFSET + i..BURN_DATA_OFFSET + j] == ix[BURN_DATA_OFFSET..][i..j];
  }

  /** The three windows of the burn instruction are the record's own fields. */
  lemma WindowsAreFields(sysvar: Sysvar, discriminator: Bytes, r: Record, burnSignature: Bytes)
    requires |discriminator| == 2 && Encodable(r)
    requires sysvar.current < |sysvar.instructions|
    requires sysvar.instructions[sysvar.current].data == BurnInstructionData(discriminator, Encode(r), burnSignature)
    ensures |Encode(r)| >= TS_HOOK_DATA_OFFSET
    ensures Window(sysvar, sysvar.current, 14, 64) == Some(r.userSignature)
    ensures Window(sysvar, sysvar.current, 374, 32) == Some(r.spec.sourceSigner.bytes)
    ensures Window(sysvar, sysvar.current, 78, |Encode(r)| - BURN_INTENT_MESSAGE_PREFIX_OFFSET)
         == Some(Encode(r)[BURN_INTENT_MESSAGE_PREFIX_OFFSET..])
  {
    var d := Encode(r);
    assert |d| >= TS_HOOK_DATA_OFFSET && d[8..72] == r.userSignature && d[368..400] == r.spec.sourceSigner.bytes by {
      EncodedIsAccepted(r);
    }
    BurnDataWindow(discriminator, d, burnSignature, 8, 72);
    BurnDataWindow(discriminator, d, burnSignature, 368, 400);
    BurnDataWindow(discriminator, d, burnSignature, 72, |d|);
    assert d[72..|d|] == d[72..];
  }

  lemma HeaderFields(current: u16, messageLength: u16)
    ensures var e := ExpectedData(current, messageLength);
            && |e| == HEADER_SIZE && e[0] == 1 && FromLE(e[2..4]) == 14 && FromLE(e[4..6]) == current
            && FromLE(e[6..8]) == 374
            && FromLE(e[8..10]) == current && FromLE(e[10..12]) == 78 && FromLE(e[12..14]) == messageLength
            && FromLE(e[14..16]) == current
  {
    ExpectedSlices(current, messageLength);
    Widths();
    FromToLE(14, 2);
    FromToLE(374, 2);
    FromToLE(78, 2);
    FromToLE(current, 2);
    FromToLE(messageLength, 2);
  }

  /** What an accepted header makes the precompile check. */
  lemma ExpectedHeaderChecks(env: Env, sysvar: Sysvar, n: u16, signature: Bytes, key: Bytes, message: Bytes)
    requires Window(sysvar, sysvar.current, 14, 64) == Some(signature)
    requires Window(sysvar, sysvar.current, 374, 32) == Some(key)
    requires Window(sysvar, sysvar.current, 78, n) == Some(message)
    ensures var header := ExpectedData(sysvar.current, n);
            |header| == HEADER_SIZE
              && (PrecompilePasses(env, sysvar, header) <==> env.ed25519Verify(signature, key, message))
  {
    HeaderFields(sysvar.current, n);
    OneSignature(env, sysvar, ExpectedData(sysvar.current, n));
  }

  /** When the burn is the transaction's current instruction and the header is accepted, the precompile
      verified the record's own user signature, under the record's own source signer, over the prefix and
      the whole burn intent, for every hook length that fits. */
  lemma PrecompileChecksTheBurn(env: Env, sysvar: Sysvar, discriminator: Bytes, r: Record, burnSignature: Bytes)
    requires |discriminator| == 2 && Encodable(r)
    requires sysvar.current < |sysvar.instructions|
    requires sysvar.instructions[sysvar.current].data == BurnInstructionData(discriminator, Encode(r), burnSignature)
    requires BurnData(Encode(r)).BurnIntentMessageLength().Ok?
    requires VerifyUserSignature(env, sysvar, BurnData(Encode(r)).BurnIntentMessageLength().value).Ok?
    ensures var header := sysvar.instructions[sysvar.current - 1].data;
            && |header| == HEADER_SIZE
            && (PrecompilePasses(env, sysvar, header) <==>
                  env.ed25519Verify(r.userSignature, r.spec.sourceSigner.bytes,
                                    Encode(r)[BURN_INTENT_MESSAGE_PREFIX_OFFSET..]))
  {
    var n := |Encode(r)| - BURN_INTENT_MESSAGE_PREFIX_OFFSET;
    WindowsAreFields(sysvar, discriminator, r, burnSignature);
    AcceptsExactly(env, sysvar, n);
    ExpectedHeaderChecks(env, sysvar, n, r.userSignature, r.spec.sourceSigner.bytes,
                         Encode(r)[BURN_INTENT_MESSAGE_PREFIX_OFFSET..]);
  }

  // ---------- a current instruction that is not the burn ----------

  /** The three windows of the current instruction that an accepted header names. */
  function SignatureWindow(sysvar: Sysvar): Option<Bytes> {
    Window(sysvar, sysvar.current, BURN_DATA_OFFSET + BURN_DATA_USER_SIGNATURE_OFFSET, 64)
  }

  function KeyWindow(sysvar: Sysvar): Option<Bytes> {
    Window(sysvar, sysvar.current, BURN_DATA_OFFSET + TS_SOURCE_SIGNER_OFFSET, 32)
  }

  function MessageWindow(sysvar: Sysvar, n: nat): Option<Bytes> {
    Window(sysvar, sysvar.current, BURN_DATA_OFFSET + BURN_INTENT_MESSAGE_PREFIX_OFFSET, n)
  }

  /** That the precompile passed says that this signature verifies, whichever signatures do. */
  ghost predicate Binds(env: Env, sysvar: Sysvar, header: Bytes, signature: Bytes, key: Bytes, message: Bytes)
    requires |header| == HEADER_SIZE
  {
    forall verify :: PrecompilePasses(env.(ed25519Verify := verify), sysvar, header) ==> verify(signature, key, message)
  }

  lemma OneSignatureForAll(env: Env, sysvar: Sysvar, header: Bytes)
    requires |header| == HEADER_SIZE && header[0] == 1
    ensures forall verify ::
              PrecompilePasses(env.(ed25519Verify := verify), sysvar, header)
              <==> WindowsVerify(env.(ed25519Verify := verify), sysvar, header, 2)
  {
    forall verify
      ensures PrecompilePasses(env.(ed25519Verify := verify), sysvar, header)
         <==> WindowsVerify(env.(ed25519Verify := verify), sysvar, header, 2)
    {
      OneSignature(env.(ed25519Verify := verify), sysvar, header);
    }
  }

  /** An accepted header binds exactly what lies in the current instruction's windows, whatever that instruction is. */
  lemma BindsIff(env: Env, sysvar: Sysvar, n: u16, signature: Bytes, key: Bytes, message: Bytes)
    ensures |ExpectedData(sysvar.current, n)| == HEADER_SIZE
    ensures Binds(env, sysvar, ExpectedData(sysvar.current, n), signature, key, message)
       <==> (SignatureWindow(sysvar).Some? && KeyWindow(sysvar).Some? && MessageWindow(sysvar, n).Some? ==>
               SignatureWindow(sysvar) == Some(signature) && KeyWindow(sysvar) == Some(key)
               && MessageWindow(sysvar, n) == Some(message))
  {
    hide Window;
    HeaderFields(sysvar.current, n);
    OneSignatureForAll(env, sysvar, ExpectedData(sysvar.current, n));
    var s, k, m := SignatureWindow(sysvar), KeyWindow(sysvar), MessageWindow(sysvar, n);
    if s.Some? && k.Some? && m.Some? {
      var only := (a: Bytes, b: Bytes, c: Bytes) => a == s.value && b == k.value && c == m.value;
      assert PrecompilePasses(env.(ed25519Verify := only), sysvar, ExpectedData(sysvar.current, n));
    }
  }

  /** The same transaction with another current instruction. */
  function WithCurrent(sysvar: Sysvar, i: Instruction): Sysvar
    requires sysvar.current < |sysvar.instructions|
  {
    sysvar.(instructions := sysvar.instructions[sysvar.current := i])
  }

  lemma VerifyIgnoresCurrent(env: Env, sysvar: Sysvar, i: Instruction, messageLength: nat)
    requires sysvar.current < |sysvar.instructions|
    ensures VerifyUserSignature(env, WithCurrent(sysvar, i), messageLength)
         == VerifyUserSignature(env, sysvar, messageLength)
  {
    hide Expect;
  }

  lemma UniformWindow(sysvar: Sysvar, offset: nat, size: nat, length: nat, x: byte)
    requires sysvar.current < |sysvar.instructions| && offset + size <= length
    requires sysvar.instructions[sysvar.current].data == seq(length, _ => x)
    ensures Window(sysvar, sysvar.current, offset, size) == Some(seq(size, _ => x))
  {
    var data := sysvar.instructions[sysvar.current].data;
    assert data[offset..offset + size] == seq(size, _ => x);
  }
}
