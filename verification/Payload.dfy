/** The payload envelope: magic, version, flags, optional amount, nonce, length-prefixed payload. */
module Payload {
  import opened Prelude
  import opened Commitment
  import BigEndian

  const MAGIC: seq<byte> := [0x53, 0x52, 0x50, 0x00]
  const FLAG_AMOUNT: byte := 1
  const PAYLOAD_ENVELOPE_VERSION: byte := 1
  const VERSION_OFFSET: nat := 4
  const FLAGS_OFFSET: nat := 5
  const RESERVED_OFFSET: nat := 6
  const AMOUNT_OFFSET: nat := 8
  const NONCE_OFFSET: nat := 24
  const LENGTH_OFFSET: nat := 56
  const PAYLOAD_HEADER_BYTES: nat := 60
  const MAX_APPLICATION_PAYLOAD_BYTES: nat := 2048

  datatype PayloadEnvelope = PayloadEnvelope(amount: Option<int>, payload: seq<byte>, nonce: seq<byte>)

  /** Why `assertEnvelopeInput` refuses, if it does. */
  function InputError(e: PayloadEnvelope): Option<CodecError> {
    if |e.nonce| != NONCE_BYTES then Some(WrongWidth)
    else if |e.payload| > MAX_APPLICATION_PAYLOAD_BYTES then Some(TooLong)
    else if e.amount.Some? && !InI128(e.amount.value) then Some(OutOfRange)
    else None
  }

  const NO_AMOUNT: seq<byte> := [0, 0, 0, 0, 0, 0, 0, 0, 0, 0, 0, 0, 0, 0, 0, 0]

  function AmountField(e: PayloadEnvelope): (b: seq<byte>)
    requires InputError(e).None?
    ensures |b| == VALUE_BYTES
  {
    if e.amount.Some? then I128Bytes(e.amount.value) else NO_AMOUNT
  }

  function Head(amount: bool): seq<byte> {
    MAGIC + [PAYLOAD_ENVELOPE_VERSION] + [if amount then FLAG_AMOUNT else 0] + [0, 0]
  }

  /** The canonical bytes of a valid envelope. */
  function Layout(e: PayloadEnvelope): (b: seq<byte>)
    requires InputError(e).None?
    ensures |b| == PAYLOAD_HEADER_BYTES + |e.payload|
  {
    Head(e.amount.Some?) + AmountField(e) + e.nonce + BigEndian.Encode(|e.payload|, 4) + e.payload
  }

  method EncodePayloadEnvelope(e: PayloadEnvelope) returns (r: Result<seq<byte>, CodecError>)
    ensures r == if InputError(e).Some? then Err(InputError(e).value) else Ok(Layout(e))
  {
    if |e.nonce| != NONCE_BYTES {
      return Err(WrongWidth);
    }
    if |e.payload| > MAX_APPLICATION_PAYLOAD_BYTES {
      return Err(TooLong);
    }
    var amount: seq<byte> := [];
    if e.amount.Some? {
      amount :- I128ToBeBytes(e.amount.value);
    }
    var out := new byte[PAYLOAD_HEADER_BYTES + |e.payload|](_ => 0);
    WriteHead(out, e.amount.Some?);
    assert out[AMOUNT_OFFSET..NONCE_OFFSET] == NO_AMOUNT;
    ghost var before := out[..];
    if e.amount.Some? {
      BigEndian.SetBytes(out, amount, AMOUNT_OFFSET);
    }
    assert out[..NONCE_OFFSET] == Head(e.amount.Some?) + AmountField(e);
    BigEndian.SetBytes(out, e.nonce, NONCE_OFFSET);
    assert out[..LENGTH_OFFSET] == Head(e.amount.Some?) + AmountField(e) + e.nonce;
    BigEndian.SetBytes(out, BigEndian.Encode(|e.payload|, 4), LENGTH_OFFSET);
    assert out[..PAYLOAD_HEADER_BYTES]
        == Head(e.amount.Some?) + AmountField(e) + e.nonce + BigEndian.Encode(|e.payload|, 4);
    BigEndian.SetBytes(out, e.payload, PAYLOAD_HEADER_BYTES);
    assert out[..] == Layout(e);
    r := Ok(out[..]);
  }

  method WriteHead(out: array<byte>, amount: bool)
    requires out.Length >= PAYLOAD_HEADER_BYTES && forall i :: 0 <= i < out.Length ==> out[i] == 0
    modifies out
    ensures out[..AMOUNT_OFFSET] == Head(amount)
    ensures forall i :: AMOUNT_OFFSET <= i < out.Length ==> out[i] == 0
  {
    BigEndian.SetBytes(out, MAGIC, 0);
    assert forall i :: 4 <= i < out.Length ==> out[i] == old(out[4..])[i - 4];
    assert out[..4] == MAGIC;
    out[VERSION_OFFSET] := PAYLOAD_ENVELOPE_VERSION;
    out[FLAGS_OFFSET] := if amount then FLAG_AMOUNT else 0;
  }

  /** Decode and strictly validate. */
  function DecodePayloadEnvelope(b: seq<byte>): Result<PayloadEnvelope, CodecError> {
    if |b| < PAYLOAD_HEADER_BYTES then Err(TooShort)
    else if b[..VERSION_OFFSET] != MAGIC then Err(BadMagic)
    else if b[VERSION_OFFSET] != PAYLOAD_ENVELOPE_VERSION then Err(BadVersion)
    else if b[FLAGS_OFFSET] > FLAG_AMOUNT then Err(BadFlags)
    else if b[RESERVED_OFFSET] != 0 || b[RESERVED_OFFSET + 1] != 0 then Err(BadReserved)
    else
      var payloadLength := BigEndian.Decode(b[LENGTH_OFFSET..PAYLOAD_HEADER_BYTES]);
      if payloadLength > MAX_APPLICATION_PAYLOAD_BYTES then Err(TooLong)
      else if |b| != PAYLOAD_HEADER_BYTES + payloadLength then Err(LengthMismatch)
      else
        var amountBytes := b[AMOUNT_OFFSET..NONCE_OFFSET];
        var hasAmount := b[FLAGS_OFFSET] == FLAG_AMOUNT;
        if !hasAmount && (exists i :: 0 <= i < |amountBytes| && amountBytes[i] != 0) then Err(NonZeroAmount)
        else Ok(PayloadEnvelope(if hasAmount then Some(I128OfBytes(amountBytes)) else None,
                                b[PAYLOAD_HEADER_BYTES..], b[NONCE_OFFSET..LENGTH_OFFSET]))
  }

  /** Decoding the encoding of a valid envelope gives it back. */
  lemma DecodeLayout(e: PayloadEnvelope)
    requires InputError(e).None?
    ensures DecodePayloadEnvelope(Layout(e)) == Ok(e)
  {
    var b := Layout(e);
    LayoutFields(e);
    BigEndian.Widths();
    BigEndian.DecodeEncode(|e.payload|, 4);
    if e.amount.Some? {
      ValueRoundTrip(e.amount.value);
    }
    hide Layout, I128OfBytes, I128Bytes, BigEndian.Decode, BigEndian.Encode;
  }

  lemma LayoutFields(e: PayloadEnvelope)
    requires InputError(e).None?
    ensures var b := Layout(e);
            && b[..AMOUNT_OFFSET] == Head(e.amount.Some?)
            && b[..VERSION_OFFSET] == MAGIC && b[VERSION_OFFSET] == PAYLOAD_ENVELOPE_VERSION
            && b[FLAGS_OFFSET] == (if e.amount.Some? then FLAG_AMOUNT else 0)
            && b[RESERVED_OFFSET] == 0 && b[RESERVED_OFFSET + 1] == 0
            && b[AMOUNT_OFFSET..NONCE_OFFSET] == AmountField(e)
            && b[NONCE_OFFSET..LENGTH_OFFSET] == e.nonce
            && b[LENGTH_OFFSET..PAYLOAD_HEADER_BYTES] == BigEndian.Encode(|e.payload|, 4)
            && b[PAYLOAD_HEADER_BYTES..] == e.payload
  {
    hide I128Bytes, BigEndian.Encode;
    var b := Layout(e);
    assert b[..AMOUNT_OFFSET] == Head(e.amount.Some?);
    assert forall i :: 0 <= i < AMOUNT_OFFSET ==> b[i] == Head(e.amount.Some?)[i];
  }

  /** The fields a string decodes to, and what the checks it passed say about the rest. */
  lemma DecodedFields(b: seq<byte>)
    requires DecodePayloadEnvelope(b).Ok?
    ensures PAYLOAD_HEADER_BYTES <= |b|
    ensures var e := DecodePayloadEnvelope(b).value;
            && InputError(e).None?
            && b[..VERSION_OFFSET] == MAGIC && b[VERSION_OFFSET] == PAYLOAD_ENVELOPE_VERSION
            && b[FLAGS_OFFSET] == (if e.amount.Some? then FLAG_AMOUNT else 0)
            && b[RESERVED_OFFSET] == 0 && b[RESERVED_OFFSET + 1] == 0
            && e.nonce == b[NONCE_OFFSET..LENGTH_OFFSET] && e.payload == b[PAYLOAD_HEADER_BYTES..]
            && |e.payload| == BigEndian.Decode(b[LENGTH_OFFSET..PAYLOAD_HEADER_BYTES])
            && AmountField(e) == b[AMOUNT_OFFSET..NONCE_OFFSET]
  {
    var amountBytes := b[AMOUNT_OFFSET..NONCE_OFFSET];
    BytesRoundTrip(amountBytes);
    hide I128Bytes, I128OfBytes, BigEndian.Decode;
    var e := DecodePayloadEnvelope(b).value;
    if e.amount.None? {
      assert forall i :: 0 <= i < |amountBytes| ==> amountBytes[i] == 0;
      assert amountBytes == NO_AMOUNT;
    }
  }

  /** Whatever decodes is the encoding of what it decodes to. */
  lemma LayoutDecode(b: seq<byte>)
    requires DecodePayloadEnvelope(b).Ok?
    ensures var e := DecodePayloadEnvelope(b).value; InputError(e).None? && Layout(e) == b
  {
    var e := DecodePayloadEnvelope(b).value;
    DecodedFields(b);
    BigEndian.EncodeDecode(b[LENGTH_OFFSET..PAYLOAD_HEADER_BYTES]);
    HeadOf(b, e.amount.Some?);
    hide AmountField, BigEndian.Encode, BigEndian.Decode, DecodePayloadEnvelope, InputError, Head;
    assert b == b[..AMOUNT_OFFSET] + b[AMOUNT_OFFSET..NONCE_OFFSET] + b[NONCE_OFFSET..LENGTH_OFFSET]
                + b[LENGTH_OFFSET..PAYLOAD_HEADER_BYTES] + b[PAYLOAD_HEADER_BYTES..];
  }

  lemma HeadOf(b: seq<byte>, amount: bool)
    requires |b| >= PAYLOAD_HEADER_BYTES && b[..VERSION_OFFSET] == MAGIC
            && b[VERSION_OFFSET] == PAYLOAD_ENVELOPE_VERSION
    requires b[FLAGS_OFFSET] == (if amount then FLAG_AMOUNT else 0) && b[RESERVED_OFFSET] == 0
            && b[RESERVED_OFFSET + 1] == 0
    ensures b[..AMOUNT_OFFSET] == Head(amount)
  {
    assert b[..AMOUNT_OFFSET] == b[..VERSION_OFFSET] + [b[VERSION_OFFSET]] + [b[FLAGS_OFFSET]]
        + [b[RESERVED_OFFSET], b[RESERVED_OFFSET + 1]];
  }

  /** The bytes of an envelope, place by place. */
  lemma WireFormat(e: PayloadEnvelope)
    requires InputError(e).None?
    ensures var b := Layout(e); var n := |e.payload|;
            && |b| == 60 + n
            && b[..8] == [0x53, 0x52, 0x50, 0x00, 1, if e.amount.Some? then 1 else 0, 0, 0]
            && (forall i :: 0 <= i < 16 ==>
                 b[8..24][i] == if e.amount.Some? then e.amount.value / BigEndian.Pow256(15 - i) % 256 else 0)
            && b[24..56] == e.nonce
            && b[56..60] == [0, 0, n / 256, n % 256]
            && b[60..] == e.payload
  {
    LayoutFields(e);
    var b, n := Layout(e), |e.payload|;
    forall i | 0 <= i < 16
      ensures b[8..24][i] == if e.amount.Some? then e.amount.value / BigEndian.Pow256(15 - i) % 256 else 0
    {
      if e.amount.Some? {
        ByteOfValue(e.amount.value, i);
      }
    }
    LengthBytes(n);
  }

  lemma LengthBytes(n: nat)
    requires n < 0x1_0000
    ensures BigEndian.Encode(n, 4) == [0, 0, n / 256, n % 256]
  {
    assert n / 256 / 256 == 0;
    assert BigEndian.Encode(0, 2) == [0, 0];
    assert BigEndian.Encode(n / 256, 3) == [0, 0, n / 256];
  }

  /** What is wrong with a string that is refused. */
  ghost predicate RefusalSays(b: seq<byte>, error: CodecError) {
    match error
    case TooShort => |b| < 60
    case BadMagic => |b| >= 60 && b[..4] != [0x53, 0x52, 0x50, 0x00]
    case BadVersion => |b| >= 60 && b[4] != 1
    case BadFlags => |b| >= 60 && b[5] > 1
    case BadReserved => |b| >= 60 && (b[6] != 0 || b[7] != 0)
    case TooLong => |b| >= 60 && BigEndian.Decode(b[56..60]) > 2048
    case LengthMismatch => |b| >= 60 && |b| != 60 + BigEndian.Decode(b[56..60])
    case NonZeroAmount => |b| >= 60 && b[5] == 0 && exists i :: 8 <= i < 24 && b[i] != 0
    case _ => false
  }

  /** Exactly the canonical encodings are accepted, and every refusal names a defect the string has. */
  lemma DecodesOrSays(b: seq<byte>)
    ensures match DecodePayloadEnvelope(b)
            case Ok(e) => InputError(e).None? && b == Layout(e)
            case Err(error) => RefusalSays(b, error) && forall e :: InputError(e).None? ==> b != Layout(e)
  {
    if DecodePayloadEnvelope(b).Ok? {
      LayoutDecode(b);
    } else {
      RefusalIsTrue(b);
      forall e | InputError(e).None?
        ensures b != Layout(e)
      {
        DecodeLayout(e);
      }
    }
    hide DecodePayloadEnvelope, Layout, InputError, RefusalSays;
  }

  lemma RefusalIsTrue(b: seq<byte>)
    requires DecodePayloadEnvelope(b).Err?
    ensures RefusalSays(b, DecodePayloadEnvelope(b).error)
  {
    hide BigEndian.Decode, I128OfBytes;
    if DecodePayloadEnvelope(b) == Err(NonZeroAmount) {
      var amountBytes := b[8..24];
      var i :| 0 <= i < |amountBytes| && amountBytes[i] != 0;
      assert b[8 + i] != 0;
    }
  }

  /**
   * Envelopes and byte strings correspond one to one: a string decodes to an envelope exactly when the
   * envelope is valid and the string is its canonical encoding.
   */
  lemma EnvelopeBijection(b: seq<byte>, e: PayloadEnvelope)
    ensures DecodePayloadEnvelope(b) == Ok(e) <==> InputError(e).None? && b == Layout(e)
  {
    if DecodePayloadEnvelope(b) == Ok(e) {
      LayoutDecode(b);
    }
    if InputError(e).None? {
      DecodeLayout(e);
    }
    hide DecodePayloadEnvelope, Layout, InputError;
  }
}
