/** The attestation-set wire format: the encoder, the cursor that reads it back, and the proof that
    they are inverse (programs/gateway-minter/src/attestation.rs). */
module Attestation {
  import opened Base
  import opened Layout

  const ATTESTATION_SET_MAGIC := 0x10cbb1ec

  const MAGIC_OFFSET := 0
  const VERSION_OFFSET := 4
  const DESTINATION_DOMAIN_OFFSET := 8
  const DESTINATION_CONTRACT_OFFSET := 12
  const DESTINATION_CALLER_OFFSET := 44
  const MAX_BLOCK_HEIGHT_OFFSET := 76
  const NUM_ATTESTATIONS_OFFSET := 84
  const ATTESTATIONS_OFFSET := 88

  const DESTINATION_TOKEN_OFFSET := 0
  const DESTINATION_RECIPIENT_OFFSET := 32
  const VALUE_OFFSET := 64
  const TRANSFER_SPEC_HASH_OFFSET := 72
  const HOOK_DATA_LENGTH_OFFSET := 104
  const HOOK_DATA_OFFSET := 108

  datatype Element = Element(
    destinationToken: Pubkey, destinationRecipient: Pubkey, value: u64, transferSpecHash: Bytes32, hookData: Bytes)

  datatype Header = Header(
    version: u32, destinationDomain: u32, destinationContract: Pubkey, destinationCaller: Pubkey, maxBlockHeight: u64)

  datatype AttestationSet = AttestationSet(header: Header, elements: seq<Element>)

  // ---------- the format as a table of fields ----------

  const HEADER_WIDTHS: seq<nat> := [4, 4, 4, 32, 32, 8, 4]
  const ELEMENT_WIDTHS: seq<nat> := [32, 32, 8, 32, 4]

  function HeaderParts(h: Header, count: nat): seq<Bytes> {
    [ToBE(ATTESTATION_SET_MAGIC, 4), ToBE(h.version, 4), ToBE(h.destinationDomain, 4), h.destinationContract.bytes,
     h.destinationCaller.bytes, ToBE(h.maxBlockHeight, 8), ToBE(count, 4)]
  }

  function ElementParts(e: Element): seq<Bytes> {
    [e.destinationToken.bytes, e.destinationRecipient.bytes, ToBE(e.value, 8), e.transferSpecHash,
     ToBE(|e.hookData|, 4)]
  }

  function EncodeElement(e: Element): Bytes {
    Cat(ElementParts(e)) + e.hookData
  }

  function EncodeElements(es: seq<Element>): Bytes {
    if es == [] then [] else EncodeElement(es[0]) + EncodeElements(es[1..])
  }

  /** The encoding of a set; counts and lengths keep their low 32 bits only. */
  function Encode(s: AttestationSet): Bytes {
    Cat(HeaderParts(s.header, |s.elements|)) + EncodeElements(s.elements)
  }

  /** The documented offsets are those of the field table. */
  lemma HeaderOffsets(w: seq<nat>)
    requires w == HEADER_WIDTHS
    ensures Total(w) == ATTESTATIONS_OFFSET
    ensures Offset(w, 0) == MAGIC_OFFSET && Offset(w, 1) == VERSION_OFFSET
    ensures Offset(w, 2) == DESTINATION_DOMAIN_OFFSET && Offset(w, 3) == DESTINATION_CONTRACT_OFFSET
    ensures Offset(w, 4) == DESTINATION_CALLER_OFFSET && Offset(w, 5) == MAX_BLOCK_HEIGHT_OFFSET
    ensures Offset(w, 6) == NUM_ATTESTATIONS_OFFSET
  {
    OffsetTotal(w);
  }

  lemma ElementOffsets(w: seq<nat>)
    requires w == ELEMENT_WIDTHS
    ensures Total(w) == HOOK_DATA_OFFSET
    ensures Offset(w, 0) == DESTINATION_TOKEN_OFFSET && Offset(w, 1) == DESTINATION_RECIPIENT_OFFSET
    ensures Offset(w, 2) == VALUE_OFFSET && Offset(w, 3) == TRANSFER_SPEC_HASH_OFFSET
    ensures Offset(w, 4) == HOOK_DATA_LENGTH_OFFSET
  {
    OffsetTotal(w);
  }

  // ---------- the format as a parser ----------

  function HookDataLength(rest: Bytes): u32
    requires HOOK_DATA_OFFSET <= |rest|
  {
    U32At(rest, HOOK_DATA_LENGTH_OFFSET)
  }

  /** The size of the element at the front of `rest`, as its own length field gives it. */
  function ElementSize(rest: Bytes): nat
    requires HOOK_DATA_OFFSET <= |rest|
  {
    HOOK_DATA_OFFSET + HookDataLength(rest)
  }

  predicate HoldsElement(rest: Bytes) {
    HOOK_DATA_OFFSET <= |rest| && ElementSize(rest) <= |rest|
  }

  function FirstElement(rest: Bytes): Element
    requires HoldsElement(rest)
  {
    Element(
      Pubkey(rest[DESTINATION_TOKEN_OFFSET..DESTINATION_TOKEN_OFFSET + 32]),
      Pubkey(rest[DESTINATION_RECIPIENT_OFFSET..DESTINATION_RECIPIENT_OFFSET + 32]),
      U64At(rest, VALUE_OFFSET),
      rest[TRANSFER_SPEC_HASH_OFFSET..TRANSFER_SPEC_HASH_OFFSET + 32],
      rest[HOOK_DATA_OFFSET..ElementSize(rest)])
  }

  /** The element at the front of `rest`; the last one must end where the bytes end. */
  function ReadElement(rest: Bytes, last: bool): Result<Element> {
    if !HoldsElement(rest) then Err(AttestationTooShort)
    else if last && ElementSize(rest) != |rest| then Err(AttestationTooLong)
    else Ok(FirstElement(rest))
  }

  /** What each failure to read an element reports: fewer bytes than its hook length asks for, or bytes left over. */
  lemma ElementErrors(rest: Bytes, last: bool)
    ensures ReadElement(rest, last).Err?
       <==> |rest| < 108 || |rest| < 108 + U32At(rest, 104) || (last && |rest| > 108 + U32At(rest, 104))
    ensures var r := ReadElement(rest, last);
            r.Err? ==> r.error == if |rest| < 108 || |rest| < 108 + U32At(rest, 104) then AttestationTooShort
                                  else AttestationTooLong
  {
  }

  function ParseElements(rest: Bytes, count: nat): Result<seq<Element>> {
    if count == 0 then Ok([])
    else
      var first :- ReadElement(rest, count == 1);
      var others :- ParseElements(rest[ElementSize(rest)..], count - 1);
      Ok([first] + others)
  }

  function HeaderAt(data: Bytes): Header
    requires ATTESTATIONS_OFFSET <= |data|
  {
    Header(
      U32At(data, VERSION_OFFSET),
      U32At(data, DESTINATION_DOMAIN_OFFSET),
      Pubkey(data[DESTINATION_CONTRACT_OFFSET..DESTINATION_CONTRACT_OFFSET + 32]),
      Pubkey(data[DESTINATION_CALLER_OFFSET..DESTINATION_CALLER_OFFSET + 32]),
      U64At(data, MAX_BLOCK_HEIGHT_OFFSET))
  }

  function CountAt(data: Bytes): u32
    requires ATTESTATIONS_OFFSET <= |data|
  {
    U32At(data, NUM_ATTESTATIONS_OFFSET)
  }

  /** The checks made when a cursor is opened. */
  function Open(data: Bytes): Result<()> {
    if |data| < ATTESTATIONS_OFFSET + HOOK_DATA_OFFSET then Err(AttestationTooShort)
    else if U32At(data, MAGIC_OFFSET) != ATTESTATION_SET_MAGIC then Err(AttestationMagicMismatch)
    else if CountAt(data) == 0 then Err(EmptyAttestationSet)
    else Ok(())
  }

  function Parse(data: Bytes): Result<AttestationSet> {
    var _ :- Open(data);
    var elements :- ParseElements(data[ATTESTATIONS_OFFSET..], CountAt(data));
    Ok(AttestationSet(HeaderAt(data), elements))
  }

  // ---------- the two are inverse ----------

  lemma ElementFits(e: Element)
    ensures Fits(ElementParts(e), ELEMENT_WIDTHS)
    ensures |Cat(ElementParts(e))| == HOOK_DATA_OFFSET
  {
    CutCat(ElementParts(e), ELEMENT_WIDTHS);
    ElementOffsets(ELEMENT_WIDTHS);
  }

  lemma HeaderFits(h: Header, count: nat)
    ensures Fits(HeaderParts(h, count), HEADER_WIDTHS)
    ensures |Cat(HeaderParts(h, count))| == ATTESTATIONS_OFFSET
  {
    CutCat(HeaderParts(h, count), HEADER_WIDTHS);
    HeaderOffsets(HEADER_WIDTHS);
  }

  lemma ElementWindows(fixed: Bytes, w: seq<nat>)
    requires |fixed| == HOOK_DATA_OFFSET && w == ELEMENT_WIDTHS
    ensures |fixed| == Total(w)
    ensures Cut(fixed, w) == [fixed[0..32], fixed[32..64], fixed[64..72], fixed[72..104], fixed[104..108]]
  {
    ElementOffsets(w);
    forall i | 0 <= i < 5
      ensures Cut(fixed, w)[i] == fixed[Offset(w, i)..Offset(w, i) + w[i]]
    {
      FieldAt(fixed, w, i);
    }
  }

  /** Reading an element and encoding it again gives its bytes. */
  lemma EncodeFirstElement(rest: Bytes)
    requires HoldsElement(rest)
    ensures EncodeElement(FirstElement(rest)) == rest[..ElementSize(rest)]
  {
    var fixed := rest[..HOOK_DATA_OFFSET];
    var e := FirstElement(rest);
    ElementWindows(fixed, ELEMENT_WIDTHS);
    PrefixWindows(rest, fixed, HOOK_DATA_OFFSET);
    ToFromBE(rest[64..72]);
    ToFromBE(rest[104..108]);
    var p, c := ElementParts(e), Cut(fixed, ELEMENT_WIDTHS);
    assert c[0] == rest[0..32] && c[1] == rest[32..64] && c[3] == rest[72..104];
    assert c[2] == rest[64..72] && c[4] == rest[104..108];
    assert p[0] == c[0] && p[1] == c[1] && p[3] == c[3];
    assert p[2] == c[2] && p[4] == c[4];
    assert p == c;
    CatCut(fixed, ELEMENT_WIDTHS);
    assert fixed + rest[HOOK_DATA_OFFSET..ElementSize(rest)] == rest[..ElementSize(rest)];
  }

  /** Encoding an element and reading it again gives the element, whatever follows. */
  lemma FirstOfEncoded(e: Element, tail: Bytes)
    requires |e.hookData| <= U32_MAX
    ensures var rest := EncodeElement(e) + tail;
            && HoldsElement(rest) && FirstElement(rest) == e
            && ElementSize(rest) == |EncodeElement(e)| && rest[ElementSize(rest)..] == tail
  {
    var rest := EncodeElement(e) + tail;
    var fixed := Cat(ElementParts(e));
    ElementFits(e);
    assert rest == fixed + (e.hookData + tail);
    CutCat(ElementParts(e), ELEMENT_WIDTHS);
    ElementWindows(fixed, ELEMENT_WIDTHS);
    assert ElementParts(e) == [fixed[0..32], fixed[32..64], fixed[64..72], fixed[72..104], fixed[104..108]];
    assert rest[..HOOK_DATA_OFFSET] == fixed[..HOOK_DATA_OFFSET];
    PrefixWindows(rest, fixed, HOOK_DATA_OFFSET);
    Widths();
    FromToBE(e.value, 8);
    FromToBE(|e.hookData|, 4);
    assert rest[HOOK_DATA_OFFSET..HOOK_DATA_OFFSET + |e.hookData|] == e.hookData;
  }

  lemma {:induction false} ParseEncodedElements(es: seq<Element>)
    requires forall e :: e in es ==> |e.hookData| <= U32_MAX
    ensures ParseElements(EncodeElements(es), |es|) == Ok(es)
  {
    if es == [] {
    } else {
      FirstOfEncoded(es[0], EncodeElements(es[1..]));
      ParseEncodedElements(es[1..]);
      assert es == [es[0]] + es[1..];
      assert |es| == 1 ==> EncodeElements(es[1..]) == [];
    }
  }

  lemma {:induction false} EncodeParsedElements(rest: Bytes, count: nat)
    requires count > 0 && ParseElements(rest, count).Ok?
    ensures var es := ParseElements(rest, count).value;
            && |es| == count && EncodeElements(es) == rest
            && forall e :: e in es ==> |e.hookData| <= U32_MAX
  {
    var es := ParseElements(rest, count).value;
    EncodeFirstElement(rest);
    var next := rest[ElementSize(rest)..];
    if count == 1 {
      assert next == [];
      assert es == [FirstElement(rest)] && es[1..] == [];
    } else {
      EncodeParsedElements(next, count - 1);
      assert es[1..] == ParseElements(next, count - 1).value;
    }
    assert rest == rest[..ElementSize(rest)] + next;
  }

  lemma HeaderWindows(fixed: Bytes, w: seq<nat>)
    requires |fixed| == ATTESTATIONS_OFFSET && w == HEADER_WIDTHS
    ensures |fixed| == Total(w)
    ensures Cut(fixed, w)
         == [fixed[0..4], fixed[4..8], fixed[8..12], fixed[12..44], fixed[44..76], fixed[76..84], fixed[84..88]]
  {
    HeaderOffsets(w);
    forall i | 0 <= i < 7
      ensures Cut(fixed, w)[i] == fixed[Offset(w, i)..Offset(w, i) + w[i]]
    {
      FieldAt(fixed, w, i);
    }
  }

  lemma HeaderOfEncoded(h: Header, count: nat, tail: Bytes)
    requires count <= U32_MAX
    ensures var data := Cat(HeaderParts(h, count)) + tail;
            && |Cat(HeaderParts(h, count))| == ATTESTATIONS_OFFSET && data[ATTESTATIONS_OFFSET..] == tail
            && U32At(data, MAGIC_OFFSET) == ATTESTATION_SET_MAGIC && CountAt(data) == count
            && HeaderAt(data) == h
  {
    var fixed := Cat(HeaderParts(h, count));
    var data := fixed + tail;
    CutCat(HeaderParts(h, count), HEADER_WIDTHS);
    HeaderOffsets(HEADER_WIDTHS);
    HeaderWindows(fixed, HEADER_WIDTHS);
    assert data[..ATTESTATIONS_OFFSET] == fixed[..ATTESTATIONS_OFFSET];
    PrefixWindows(data, fixed, ATTESTATIONS_OFFSET);
    Widths();
    FromToBE(ATTESTATION_SET_MAGIC, 4);
    FromToBE(h.version, 4);
    FromToBE(h.destinationDomain, 4);
    FromToBE(h.maxBlockHeight, 8);
    FromToBE(count, 4);
  }

  lemma EncodeHeaderAt(data: Bytes)
    requires ATTESTATIONS_OFFSET <= |data| && U32At(data, MAGIC_OFFSET) == ATTESTATION_SET_MAGIC
    ensures Cat(HeaderParts(HeaderAt(data), CountAt(data))) == data[..ATTESTATIONS_OFFSET]
  {
    var fixed := data[..ATTESTATIONS_OFFSET];
    HeaderWindows(fixed, HEADER_WIDTHS);
    PrefixWindows(data, fixed, ATTESTATIONS_OFFSET);
    ToFromBE(data[0..4]);
    ToFromBE(data[4..8]);
    ToFromBE(data[8..12]);
    ToFromBE(data[76..84]);
    ToFromBE(data[84..88]);
    assert HeaderParts(HeaderAt(data), CountAt(data)) == Cut(fixed, HEADER_WIDTHS);
    CatCut(fixed, HEADER_WIDTHS);
  }

  /** The sets whose counts and lengths fit the 32-bit fields. */
  predicate Encodable(s: AttestationSet) {
    1 <= |s.elements| <= U32_MAX && forall e :: e in s.elements ==> |e.hookData| <= U32_MAX
  }

  /** Whatever the parser accepts is exactly the encoding of what it read. */
  lemma EncodeParsed(data: Bytes)
    requires Parse(data).Ok?
    ensures Encode(Parse(data).value) == data && Encodable(Parse(data).value)
  {
    EncodeHeaderAt(data);
    EncodeParsedElements(data[ATTESTATIONS_OFFSET..], CountAt(data));
    assert data == data[..ATTESTATIONS_OFFSET] + data[ATTESTATIONS_OFFSET..];
  }

  /** A set survives encoding and parsing exactly when it is nonempty and its counts and lengths fit. */
  lemma ParseEncoded(s: AttestationSet)
    ensures Parse(Encode(s)) == Ok(s) <==> Encodable(s)
  {
    if Encodable(s) {
      HeaderOfEncoded(s.header, |s.elements|, EncodeElements(s.elements));
      ParseEncodedElements(s.elements);
      ElementFits(s.elements[0]);
    }
    if Parse(Encode(s)) == Ok(s) {
      EncodeParsed(Encode(s));
    }
  }

  /** The constants on the wire: the magic, and the sizes of the header and of an element without hook data. */
  lemma WireConstants(s: AttestationSet)
    requires Encodable(s)
    ensures |Encode(s)| >= 88 + 108 && Encode(s)[0..4] == [0x10, 0xcb, 0xb1, 0xec]
    ensures |EncodeElement(s.elements[0])| == 108 + |s.elements[0].hookData|
  {
    HeaderOfEncoded(s.header, |s.elements|, EncodeElements(s.elements));
    ElementFits(s.elements[0]);
    U32Bytes(Encode(s), 0);
  }

  /** On sets that fit, the encoder is injective. */
  lemma EncodeInjective(s: AttestationSet, t: AttestationSet)
    requires Encodable(s) && Encodable(t) && Encode(s) == Encode(t)
    ensures s == t
  {
    ParseEncoded(s);
    ParseEncoded(t);
  }

  // ---------- the encoder's loop ----------

  method ExtendWithHeader(buffer0: Bytes, h: Header, numElements: nat) returns (buffer: Bytes)
    ensures buffer == buffer0 + Cat(HeaderParts(h, numElements))
  {
    buffer := buffer0 + ToBE(ATTESTATION_SET_MAGIC, 4);
    buffer := buffer + ToBE(h.version, 4);
    buffer := buffer + ToBE(h.destinationDomain, 4);
    buffer := buffer + h.destinationContract.bytes;
    buffer := buffer + h.destinationCaller.bytes;
    buffer := buffer + ToBE(h.maxBlockHeight, 8);
    buffer := buffer + ToBE(numElements, 4);
    CatOf7(ToBE(ATTESTATION_SET_MAGIC, 4), ToBE(h.version, 4), ToBE(h.destinationDomain, 4),
           h.destinationContract.bytes, h.destinationCaller.bytes, ToBE(h.maxBlockHeight, 8), ToBE(numElements, 4));
  }

  method ExtendWithElement(buffer0: Bytes, e: Element) returns (buffer: Bytes)
    ensures buffer == buffer0 + EncodeElement(e)
  {
    buffer := buffer0 + e.destinationToken.bytes;
    buffer := buffer + e.destinationRecipient.bytes;
    buffer := buffer + ToBE(e.value, 8);
    buffer := buffer + e.transferSpecHash;
    buffer := buffer + ToBE(|e.hookData|, 4);
    buffer := buffer + e.hookData;
    CatOf5(e.destinationToken.bytes, e.destinationRecipient.bytes, ToBE(e.value, 8), e.transferSpecHash,
           ToBE(|e.hookData|, 4));
  }

  lemma EncodeElementsFrom(es: seq<Element>, i: nat)
    requires i < |es|
    ensures EncodeElements(es[i..]) == EncodeElement(es[i]) + EncodeElements(es[i + 1..])
    ensures |EncodeElement(es[i])| == HOOK_DATA_OFFSET + |es[i].hookData|
  {
    assert es[i..][1..] == es[i + 1..];
    ElementFits(es[i]);
  }

  /** The capacity reserved for the encoding, summed in a first pass over the elements. */
  method EncodedSize(elements: seq<Element>) returns (totalSize: nat)
    ensures totalSize == ATTESTATIONS_OFFSET + |EncodeElements(elements)|
  {
    totalSize := ATTESTATIONS_OFFSET;
    for i := 0 to |elements|
      invariant totalSize + |EncodeElements(elements[i..])| == ATTESTATIONS_OFFSET + |EncodeElements(elements)|
    {
      EncodeElementsFrom(elements, i);
      totalSize := totalSize + HOOK_DATA_OFFSET + |elements[i].hookData|;
    }
  }

  /** `encode_attestation`: sizes the buffer, then appends field by field; the size is exact. */
  method EncodeAttestation(s: AttestationSet) returns (buffer: Bytes, capacity: nat)
    ensures buffer == Encode(s)
    ensures capacity == |buffer|
  {
    capacity := EncodedSize(s.elements);
    buffer := ExtendWithHeader([], s.header, |s.elements|);
    ghost var header := buffer;
    assert header == Cat(HeaderParts(s.header, |s.elements|));
    HeaderFits(s.header, |s.elements|);
    for i := 0 to |s.elements|
      invariant buffer + EncodeElements(s.elements[i..]) == header + EncodeElements(s.elements)
    {
      EncodeElementsFrom(s.elements, i);
      buffer := ExtendWithElement(buffer, s.elements[i]);
    }
    assert buffer == buffer + [];
  }

  // ---------- the cursor ----------

  /** `usize` addition that fails past the width. */
  function CheckedAdd(a: nat, b: nat): Result<nat> {
    if a + b <= USIZE_MAX then Ok(a + b) else Err(MalformedMintAttestation)
  }

  /** The stateful reader of an attestation set: a byte offset that moves one element per call. */
  class MintAttestation {
    const data: Bytes
    var offset: nat
    var index: u32
    var numElements: u32

    /** `new`, after its checks have passed. */
    constructor (data: Bytes)
      requires |data| <= ISIZE_MAX && Open(data).Ok?
      ensures Valid() && this.data == data && index == 0
      ensures numElements == CountAt(data) && Unread() == data[ATTESTATIONS_OFFSET..]
    {
      this.data := data;
      offset, index, numElements := ATTESTATIONS_OFFSET, 0, CountAt(data);
    }

    /** The element under the cursor, once there is one, lies within the bytes; the last one ends them. */
    ghost predicate Valid()
      reads this
    {
      && ATTESTATIONS_OFFSET <= offset <= |data| <= ISIZE_MAX
      && index <= numElements && numElements > 0
      && (index > 0 ==> HoldsElement(data[offset..]))
      && (index == numElements ==> ElementSize(data[offset..]) == |data[offset..]|)
    }

    /** The element under the cursor. */
    ghost function Current(): Element
      requires Valid() && index > 0
      reads this
    {
      FirstElement(data[offset..])
    }

    /** The bytes after the element under the cursor. */
    ghost function Unread(): Bytes
      requires Valid()
      reads this
    {
      if index == 0 then data[offset..] else data[offset..][ElementSize(data[offset..])..]
    }

    /** Moves to the next element, or says there is none. Reading never leaves the bytes and the
        remaining length never underflows. */
    method Next() returns (r: Result<bool>)
      requires Valid()
      modifies this
      ensures numElements == old(numElements)
      ensures old(index) == numElements ==> r == Ok(false) && offset == old(offset) && index == old(index)
      ensures old(index) < numElements ==>
                && index == old(index) + 1 && offset == |data| - |old(Unread())|
                && (match ReadElement(old(Unread()), index == numElements)
                    case Ok(e) => r == Ok(true) && Valid() && Current() == e
                      && Unread() == old(Unread())[ElementSize(old(Unread()))..]
                    case Err(e) => r == Err(e))
      ensures r.Ok? ==> Valid()
    {
      if index >= numElements {
        return Ok(false);
      }
      ghost var unread := Unread();
      if index > 0 {
        // neither the read nor the additions can fail here: taking `value` is the proof
        var hookDataLength := ReadHookDataLength().value;
        var attestationLength := CheckedAdd(HOOK_DATA_OFFSET, hookDataLength).value;
        offset := CheckedAdd(offset, attestationLength).value;
      }
      index := index + 1;
      assert data[offset..] == unread;
      // `usize` subtraction aborts below zero: the type is the proof that it does not
      var remainingLength: nat := |data| - offset;
      if remainingLength < HOOK_DATA_OFFSET {
        return Err(AttestationTooShort);
      }
      var hookDataLength := ReadHookDataLength().value;
      var attestationLength := CheckedAdd(HOOK_DATA_OFFSET, hookDataLength).value;
      if remainingLength < attestationLength {
        return Err(AttestationTooShort);
      }
      if index == numElements && offset + attestationLength != |data| {
        return Err(AttestationTooLong);
      }
      return Ok(true);
    }

    /** A window of the element under the cursor. */
    function Field(position: nat, width: nat): (r: Result<Bytes>)
      reads this
      ensures offset <= |data| <= ISIZE_MAX && position + width <= |data[offset..]| ==>
                r == Ok(data[offset..][position..position + width])
    {
      var start :- CheckedAdd(offset, position);
      var end :- CheckedAdd(start, width);
      assert end <= |data| ==> data[offset..][position..position + width] == data[start..end];
      Slice(data, start, end)
    }

    function ReadU32(position: nat): (r: Result<u32>)
      ensures position + 4 <= |data| <= ISIZE_MAX ==> r == Ok(U32At(data, position))
    {
      var end :- CheckedAdd(position, 4);
      var s :- Slice(data, position, end);
      Widths();
      ToFromBE(s);
      Ok(FromBE(s))
    }

    function NumAttestations(): (r: Result<u32>)
      ensures ATTESTATIONS_OFFSET <= |data| <= ISIZE_MAX ==> r == Ok(CountAt(data))
    {
      ReadU32(NUM_ATTESTATIONS_OFFSET)
    }

    function Version(): (r: Result<u32>)
      ensures ATTESTATIONS_OFFSET <= |data| <= ISIZE_MAX ==> r == Ok(HeaderAt(data).version)
    {
      ReadU32(VERSION_OFFSET)
    }

    function DestinationDomain(): (r: Result<u32>)
      ensures ATTESTATIONS_OFFSET <= |data| <= ISIZE_MAX ==> r == Ok(HeaderAt(data).destinationDomain)
    {
      ReadU32(DESTINATION_DOMAIN_OFFSET)
    }

    function DestinationContract(): (r: Result<Pubkey>)
      ensures ATTESTATIONS_OFFSET <= |data| <= ISIZE_MAX ==> r == Ok(HeaderAt(data).destinationContract)
    {
      var s :- Slice(data, DESTINATION_CONTRACT_OFFSET, DESTINATION_CONTRACT_OFFSET + 32);
      Ok(Pubkey(s))
    }

    function DestinationCaller(): (r: Result<Pubkey>)
      ensures ATTESTATIONS_OFFSET <= |data| <= ISIZE_MAX ==> r == Ok(HeaderAt(data).destinationCaller)
    {
      var s :- Slice(data, DESTINATION_CALLER_OFFSET, DESTINATION_CALLER_OFFSET + 32);
      Ok(Pubkey(s))
    }

    function MaxBlockHeight(): (r: Result<u64>)
      ensures ATTESTATIONS_OFFSET <= |data| <= ISIZE_MAX ==> r == Ok(HeaderAt(data).maxBlockHeight)
    {
      var s :- Slice(data, MAX_BLOCK_HEIGHT_OFFSET, MAX_BLOCK_HEIGHT_OFFSET + 8);
      Widths();
      ToFromBE(s);
      Ok(FromBE(s))
    }

    function ReadHookDataLength(): (r: Result<u32>)
      reads this
      ensures offset <= |data| <= ISIZE_MAX && HOOK_DATA_OFFSET <= |data[offset..]| ==>
                r == Ok(HookDataLength(data[offset..]))
    {
      var s :- Field(HOOK_DATA_LENGTH_OFFSET, 4);
      Widths();
      ToFromBE(s);
      Ok(FromBE(s))
    }

    function DestinationToken(): (r: Result<Pubkey>)
      reads this
      ensures Valid() && index > 0 ==> r == Ok(Current().destinationToken)
    {
      var s :- Field(DESTINATION_TOKEN_OFFSET, 32);
      Ok(Pubkey(s))
    }

    function DestinationRecipient(): (r: Result<Pubkey>)
      reads this
      ensures Valid() && index > 0 ==> r == Ok(Current().destinationRecipient)
    {
      var s :- Field(DESTINATION_RECIPIENT_OFFSET, 32);
      Ok(Pubkey(s))
    }

    function Value(): (r: Result<u64>)
      reads this
      ensures Valid() && index > 0 ==> r == Ok(Current().value)
    {
      var s :- Field(VALUE_OFFSET, 8);
      Widths();
      ToFromBE(s);
      Ok(FromBE(s))
    }

    function TransferSpecHash(): (r: Result<Bytes32>)
      reads this
      ensures Valid() && index > 0 ==> r == Ok(Current().transferSpecHash)
    {
      var s :- Field(TRANSFER_SPEC_HASH_OFFSET, 32);
      Ok(s)
    }

    function HookData(): (r: Result<Bytes>)
      reads this
      ensures Valid() && index > 0 ==> r == Ok(Current().hookData)
    {
      var n :- ReadHookDataLength();
      Field(HOOK_DATA_OFFSET, n)
    }
  }

  /** `MintAttestation::new`. */
  method NewMintAttestation(data: Bytes) returns (r: Result<MintAttestation>)
    requires |data| <= ISIZE_MAX
    ensures match Open(data)
            case Err(e) => r == Err(e)
            case Ok(_) =>
              && r.Ok? && fresh(r.value) && r.value.Valid() && r.value.data == data && r.value.index == 0
              && r.value.numElements == CountAt(data) && r.value.Unread() == data[ATTESTATIONS_OFFSET..]
  {
    if |data| < ATTESTATIONS_OFFSET + HOOK_DATA_OFFSET {
      return Err(AttestationTooShort);
    }
    if U32At(data, MAGIC_OFFSET) != ATTESTATION_SET_MAGIC {
      return Err(AttestationMagicMismatch);
    }
    if CountAt(data) == 0 {
      return Err(EmptyAttestationSet);
    }
    var cursor := new MintAttestation(data);
    return Ok(cursor);
  }
}
