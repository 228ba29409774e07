/** The identity-bound auditor payload, and opening a blob for one bidder. */
module Auditor {
  import opened Prelude
  import opened Commitment
  import BigEndian

  const PAYLOAD_MAGIC: seq<byte> := [0x53, 0x52, 0x41, 0x49]
  const IDENTITY_BLOB_VERSION: byte := 1
  const VERSION_OFFSET: nat := 4
  const ROUND_OFFSET: nat := 5
  const IDENTITY_LENGTH_OFFSET: nat := 13
  const COMMITMENT_OFFSET: nat := 17
  const IDENTITY_OFFSET: nat := 49
  const MAX_IDENTITY_BYTES: nat := 4096
  const TWO_32: nat := 0x1_0000_0000
  /** Ephemeral key, nonce and authentication tag of the sealed box. */
  const MINIMUM_BLOB_BYTES: nat := 72

  datatype OpenedIdentity = OpenedIdentity(identity: seq<byte>, round: int, commitment: seq<byte>)

  /** Why `encodeBoundPayload` refuses, if it does. */
  function InputError(o: OpenedIdentity): Option<CodecError> {
    if !(0 <= o.round < TWO_32) then Some(OutOfRange)
    else if |o.commitment| != COMMITMENT_BYTES then Some(WrongWidth)
    else if o.identity == [] then Some(EmptyIdentity)
    else if |o.identity| > MAX_IDENTITY_BYTES then Some(TooLong)
    else None
  }

  const HEAD: seq<byte> := PAYLOAD_MAGIC + [IDENTITY_BLOB_VERSION]

  /** The canonical plaintext of a bound identity: the round in eight bytes, the length in four. */
  function Bound(o: OpenedIdentity): (b: seq<byte>)
    requires InputError(o).None?
    ensures |b| == IDENTITY_OFFSET + |o.identity|
  {
    HEAD + BigEndian.Encode(o.round, 8) + BigEndian.Encode(|o.identity|, 4) + o.commitment + o.identity
  }

  method EncodeBoundPayload(identity: seq<byte>, round: int, commitment: seq<byte>)
    returns (r: Result<seq<byte>, CodecError>)
    ensures var o := OpenedIdentity(identity, round, commitment);
            r == if InputError(o).Some? then Err(InputError(o).value) else Ok(Bound(o))
  {
    if !(0 <= round < TWO_32) {
      return Err(OutOfRange);
    }
    if |commitment| != COMMITMENT_BYTES {
      return Err(WrongWidth);
    }
    if |identity| == 0 {
      return Err(EmptyIdentity);
    }
    if |identity| > MAX_IDENTITY_BYTES {
      return Err(TooLong);
    }
    var out := new byte[IDENTITY_OFFSET + |identity|](_ => 0);
    BigEndian.SetBytes(out, PAYLOAD_MAGIC, 0);
    assert out[..VERSION_OFFSET] == PAYLOAD_MAGIC;
    out[VERSION_OFFSET] := IDENTITY_BLOB_VERSION;
    assert out[..ROUND_OFFSET] == HEAD;
    hide BigEndian.Encode;
    BigEndian.SetBytes(out, BigEndian.Encode(round, 8), ROUND_OFFSET);
    assert out[..IDENTITY_LENGTH_OFFSET] == HEAD + BigEndian.Encode(round, 8);
    BigEndian.SetBytes(out, BigEndian.Encode(|identity|, 4), IDENTITY_LENGTH_OFFSET);
    assert out[..COMMITMENT_OFFSET] == HEAD + BigEndian.Encode(round, 8) + BigEndian.Encode(|identity|, 4);
    BigEndian.SetBytes(out, commitment, COMMITMENT_OFFSET);
    assert out[..IDENTITY_OFFSET] == HEAD + BigEndian.Encode(round, 8) + BigEndian.Encode(|identity|, 4) + commitment;
    BigEndian.SetBytes(out, identity, IDENTITY_OFFSET);
    assert out[..] == Bound(OpenedIdentity(identity, round, commitment));
    r := Ok(out[..]);
  }

  /** Decode and strictly validate. */
  function DecodeBoundPayload(b: seq<byte>): Result<OpenedIdentity, CodecError> {
    if |b| < IDENTITY_OFFSET then Err(TooShort)
    else if b[..VERSION_OFFSET] != PAYLOAD_MAGIC then Err(BadMagic)
    else if b[VERSION_OFFSET] != IDENTITY_BLOB_VERSION then Err(BadVersion)
    else
      var round := BigEndian.Decode(b[ROUND_OFFSET..IDENTITY_LENGTH_OFFSET]);
      var identityLength := BigEndian.Decode(b[IDENTITY_LENGTH_OFFSET..COMMITMENT_OFFSET]);
      if round > 0xffff_ffff then Err(RoundTooWide)
      else if identityLength == 0 then Err(EmptyIdentity)
      else if identityLength > MAX_IDENTITY_BYTES then Err(TooLong)
      else if |b| != IDENTITY_OFFSET + identityLength then Err(LengthMismatch)
      else Ok(OpenedIdentity(b[IDENTITY_OFFSET..], round, b[COMMITMENT_OFFSET..IDENTITY_OFFSET]))
  }

  lemma BoundFields(o: OpenedIdentity)
    requires InputError(o).None?
    ensures var b := Bound(o);
            && b[..VERSION_OFFSET] == PAYLOAD_MAGIC && b[VERSION_OFFSET] == IDENTITY_BLOB_VERSION
            && b[ROUND_OFFSET..IDENTITY_LENGTH_OFFSET] == BigEndian.Encode(o.round, 8)
            && b[IDENTITY_LENGTH_OFFSET..COMMITMENT_OFFSET] == BigEndian.Encode(|o.identity|, 4)
            && b[COMMITMENT_OFFSET..IDENTITY_OFFSET] == o.commitment
            && b[IDENTITY_OFFSET..] == o.identity
  {
    hide BigEndian.Encode;
    var b := Bound(o);
    assert b[..ROUND_OFFSET] == HEAD;
    assert forall i :: 0 <= i < ROUND_OFFSET ==> b[i] == HEAD[i];
  }

  lemma DecodeBound(o: OpenedIdentity)
    requires InputError(o).None?
    ensures DecodeBoundPayload(Bound(o)) == Ok(o)
  {
    BoundFields(o);
    BigEndian.Widths();
    BigEndian.DecodeEncode(o.round, 8);
    BigEndian.DecodeEncode(|o.identity|, 4);
    hide Bound, BigEndian.Encode, BigEndian.Decode;
  }

  lemma BoundDecode(b: seq<byte>)
    requires DecodeBoundPayload(b).Ok?
    ensures var o := DecodeBoundPayload(b).value; InputError(o).None? && Bound(o) == b
  {
    BigEndian.EncodeDecode(b[ROUND_OFFSET..IDENTITY_LENGTH_OFFSET]);
    BigEndian.EncodeDecode(b[IDENTITY_LENGTH_OFFSET..COMMITMENT_OFFSET]);
    hide BigEndian.Encode, BigEndian.Decode;
    assert b[..ROUND_OFFSET] == HEAD by {
      assert b[..ROUND_OFFSET] == b[..VERSION_OFFSET] + [b[VERSION_OFFSET]];
    }
    assert b == b[..ROUND_OFFSET] + b[ROUND_OFFSET..IDENTITY_LENGTH_OFFSET]
        + b[IDENTITY_LENGTH_OFFSET..COMMITMENT_OFFSET]
                + b[COMMITMENT_OFFSET..IDENTITY_OFFSET] + b[IDENTITY_OFFSET..];
  }

  /** The bytes of a bound identity, place by place. */
  lemma WireFormat(o: OpenedIdentity)
    requires InputError(o).None?
    ensures var b := Bound(o); var n := |o.identity|;
            && |b| == 49 + n
            && b[..5] == [0x53, 0x52, 0x41, 0x49, 1]
            && (forall i :: 0 <= i < 8 ==> b[5..13][i] == o.round / BigEndian.Pow256(7 - i) % 256)
            && (forall i :: 0 <= i < 4 ==> b[13..17][i] == n / BigEndian.Pow256(3 - i) % 256)
            && b[17..49] == o.commitment
            && b[49..] == o.identity
  {
    BoundFields(o);
    var b, n := Bound(o), |o.identity|;
    hide BigEndian.Encode, BigEndian.Pow256, Bound;
    forall i | 0 <= i < 8
      ensures b[5..13][i] == o.round / BigEndian.Pow256(7 - i) % 256
    {
      BigEndian.EncodeAt(o.round, 8, i);
    }
    forall i | 0 <= i < 4
      ensures b[13..17][i] == n / BigEndian.Pow256(3 - i) % 256
    {
      BigEndian.EncodeAt(n, 4, i);
    }
    assert b[..5] == b[..4] + [b[4]];
  }

  /** What is wrong with a plaintext that is refused. */
  ghost predicate RefusalSays(b: seq<byte>, error: CodecError) {
    match error
    case TooShort => |b| < 49
    case BadMagic => |b| >= 49 && b[..4] != [0x53, 0x52, 0x41, 0x49]
    case BadVersion => |b| >= 49 && b[4] != 1
    case RoundTooWide => |b| >= 49 && BigEndian.Decode(b[5..13]) >= 0x1_0000_0000
    case EmptyIdentity => |b| >= 49 && BigEndian.Decode(b[13..17]) == 0
    case TooLong => |b| >= 49 && BigEndian.Decode(b[13..17]) > 4096
    case LengthMismatch => |b| >= 49 && |b| != 49 + BigEndian.Decode(b[13..17])
    case _ => false
  }

  /** Exactly the canonical plaintexts are accepted, and every refusal names a defect the plaintext has. */
  lemma DecodesOrSays(b: seq<byte>)
    ensures match DecodeBoundPayload(b)
            case Ok(o) => InputError(o).None? && b == Bound(o)
            case Err(error) => RefusalSays(b, error) && forall o :: InputError(o).None? ==> b != Bound(o)
  {
    if DecodeBoundPayload(b).Ok? {
      BoundDecode(b);
    } else {
      RefusalIsTrue(b);
      forall o | InputError(o).None?
        ensures b != Bound(o)
      {
        DecodeBound(o);
      }
    }
    hide DecodeBoundPayload, Bound, InputError, RefusalSays;
  }

  lemma RefusalIsTrue(b: seq<byte>)
    requires DecodeBoundPayload(b).Err?
    ensures RefusalSays(b, DecodeBoundPayload(b).error)
  {
    hide BigEndian.Decode;
  }

  /** A plaintext decodes to a bound identity exactly when that identity is valid and the plaintext is its encoding. */
  lemma BoundBijection(b: seq<byte>, o: OpenedIdentity)
    ensures DecodeBoundPayload(b) == Ok(o) <==> InputError(o).None? && b == Bound(o)
  {
    if DecodeBoundPayload(b) == Ok(o) {
      BoundDecode(b);
    }
    if InputError(o).None? {
      DecodeBound(o);
    }
    hide DecodeBoundPayload, Bound, InputError;
  }

  // ---- Opening a blob for one bidder -------------------------------------------------------------

  datatype OpenError =
    | Refused(error: CodecError)
    | BlobTooShort
    | DecryptFailed
    | RoundMismatch
    | IdentityMismatch

  /** What the sealed box gives back under a key; `None` when it does not authenticate. */
  type Cipher = (seq<byte>, seq<byte>) -> Option<seq<byte>>

  /** `equalBytes`: collect every difference, then test for none. */
  method EqualBytes(a: seq<byte>, b: seq<byte>) returns (same: bool)
    ensures same <==> a == b
  {
    if |a| != |b| {
      return false;
    }
    var diff := false;
    for i := 0 to |a|
      invariant diff <==> exists k :: 0 <= k < i && a[k] != b[k]
    {
      diff := diff || a[i] != b[i];
    }
    same := !diff;
  }

  method OpenIdentityForBidder(open: Cipher, blob: seq<byte>, key: seq<byte>, round: int, commitment: seq<byte>)
    returns (r: Result<OpenedIdentity, OpenError>)
    ensures r == Opening(open, blob, key, round, commitment)
  {
    if !(0 <= round < TWO_32) {
      return Err(Refused(OutOfRange));
    }
    if |commitment| != COMMITMENT_BYTES {
      return Err(Refused(WrongWidth));
    }
    if |blob| < MINIMUM_BLOB_BYTES {
      return Err(BlobTooShort);
    }
    var plain := open(blob, key);
    if plain.None? {
      return Err(DecryptFailed);
    }
    var decoded := DecodeBoundPayload(plain.value);
    if decoded.Err? {
      return Err(Refused(decoded.error));
    }
    if decoded.value.round != round {
      return Err(RoundMismatch);
    }
    var same := EqualBytes(decoded.value.commitment, commitment);
    if !same {
      return Err(IdentityMismatch);
    }
    r := Ok(decoded.value);
  }

  /** What opening a blob for a round and a commitment comes to. */
  function Opening(open: Cipher, blob: seq<byte>, key: seq<byte>, round: int, commitment: seq<byte>)
    : Result<OpenedIdentity, OpenError>
  {
    if !(0 <= round < TWO_32) then Err(Refused(OutOfRange))
    else if |commitment| != COMMITMENT_BYTES then Err(Refused(WrongWidth))
    else if |blob| < MINIMUM_BLOB_BYTES then Err(BlobTooShort)
    else if open(blob, key).None? then Err(DecryptFailed)
    else
      match DecodeBoundPayload(open(blob, key).value)
      case Err(e) => Err(Refused(e))
      case Ok(o) =>
        if o.round != round then Err(RoundMismatch)
        else if o.commitment != commitment then Err(IdentityMismatch)
        else Ok(o)
  }

  /**
   * An identity comes back exactly when the blob is long enough and decrypts, under the caller's key, to the
   * canonical plaintext of that identity bound to the caller's own round and commitment.
   */
  lemma OpensIff(open: Cipher, blob: seq<byte>, key: seq<byte>, round: int, commitment: seq<byte>, o: OpenedIdentity)
    ensures Opening(open, blob, key, round, commitment) == Ok(o)
       <==> && |blob| >= 72
            && o.round == round && o.commitment == commitment
            && InputError(o).None? && open(blob, key) == Some(Bound(o))
  {
    if open(blob, key).Some? {
      BoundBijection(open(blob, key).value, o);
    }
    if InputError(o).Some? {
      assert 0 <= o.round < TWO_32 && |o.commitment| == COMMITMENT_BYTES ==>
          o.identity == [] || |o.identity| > MAX_IDENTITY_BYTES;
    }
    hide DecodeBoundPayload, Bound;
  }

  /** A sealed box that opens only what was sealed to the key, and always does. */
  ghost predicate IdealBox(seal: (seq<byte>, seq<byte>, seq<byte>) -> seq<byte>, open: Cipher) {
    forall key, plain, coins {:trigger seal(key, plain, coins)} ::
      |seal(key, plain, coins)| >= MINIMUM_BLOB_BYTES && open(seal(key, plain, coins), key) == Some(plain)
  }

  /**
   * A blob sealed for one bid, opened for any bid: the identity comes back for that very round and
   * commitment, a different round is reported first, and a different commitment discloses nothing.
   */
  lemma SwappedBlobDisclosesNothing(seal: (seq<byte>, seq<byte>, seq<byte>) -> seq<byte>, open: Cipher,
                                    key: seq<byte>, coins: seq<byte>, sealed: OpenedIdentity, round: int,
                                        commitment: seq<byte>)
    requires IdealBox(seal, open) && InputError(sealed).None?
    requires 0 <= round < TWO_32 && |commitment| == COMMITMENT_BYTES
    ensures Opening(open, seal(key, Bound(sealed), coins), key, round, commitment)
         == if round != sealed.round then Err(RoundMismatch)
            else if commitment != sealed.commitment then Err(IdentityMismatch)
            else Ok(sealed)
  {
    DecodeBound(sealed);
    hide Bound, DecodeBoundPayload;
  }

  /** The blob opens, under the key, to the bound identity `o`. */
  ghost predicate Holds(open: Cipher, blob: seq<byte>, key: seq<byte>, o: OpenedIdentity) {
    InputError(o).None? && open(blob, key) == Some(Bound(o))
  }

  ghost predicate OpenRefusalSays(open: Cipher, blob: seq<byte>, key: seq<byte>, round: int, commitment: seq<byte>,
                                  e: OpenError)
  {
    match e
    case BlobTooShort => |blob| < 72
    case DecryptFailed => open(blob, key) == None
    case RoundMismatch => exists o :: Holds(open, blob, key, o) && o.round != round
    case IdentityMismatch => exists o :: Holds(open, blob, key, o) && o.round == round && o.commitment != commitment
    case Refused(OutOfRange) => !(0 <= round < 0x1_0000_0000)
    case Refused(WrongWidth) => |commitment| != 32
    case Refused(error) => open(blob, key).Some? && RefusalSays(open(blob, key).value, error)
  }

  /** Every refusal to open a blob names a defect of the request or of the blob. */
  lemma RefusalsAreTrue(open: Cipher, blob: seq<byte>, key: seq<byte>, round: int, commitment: seq<byte>)
    ensures var r := Opening(open, blob, key, round, commitment);
            r.Err? ==> OpenRefusalSays(open, blob, key, round, commitment, r.error)
  {
    if open(blob, key).Some? {
      var plain := open(blob, key).value;
      DecodesOrSays(plain);
      if DecodeBoundPayload(plain).Ok? {
        assert Holds(open, blob, key, DecodeBoundPayload(plain).value);
      } else {
        RefusalCodes(plain);
      }
    }
    hide DecodeBoundPayload, Bound, InputError, RefusalSays, Holds;
  }

  lemma RefusalCodes(b: seq<byte>)
    requires DecodeBoundPayload(b).Err?
    ensures DecodeBoundPayload(b).error !in {OutOfRange, WrongWidth}
  {
    hide BigEndian.Decode;
  }
}
