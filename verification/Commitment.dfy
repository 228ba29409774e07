/** The bid commitment codec: be16(value) || nonce32, byte for byte what the contract hashes. */
module Commitment {
  import opened Prelude
  import BigEndian

  const VALUE_BYTES: nat := 16
  const NONCE_BYTES: nat := 32
  const PREIMAGE_BYTES: nat := 48
  const COMMITMENT_BYTES: nat := 32

  datatype CodecError =
    | OutOfRange | WrongWidth
    | TooShort | BadMagic | BadVersion | BadFlags | BadReserved | TooLong | LengthMismatch | NonZeroAmount
    | EmptyIdentity | RoundTooWide

  function TwosComplement(v: i128): (u: nat)
    ensures u < TWO_128
  {
    if v < 0 then v + TWO_128 else v
  }

  function I128Bytes(v: i128): (b: seq<byte>)
    ensures |b| == VALUE_BYTES
  {
    BigEndian.Encode(TwosComplement(v), VALUE_BYTES)
  }

  function I128OfBytes(b: seq<byte>): i128
    requires |b| == VALUE_BYTES
  {
    BigEndian.Widths();
    var u := BigEndian.Decode(b);
    if u >= TWO_127 then u - TWO_128 else u
  }

  /**
   * Byte `i` of a value is its arithmetic shift by the places below, modulo 256: two's complement, most significant
   * byte first, negative values included.
   */
  lemma ByteOfValue(v: i128, i: nat)
    requires i < VALUE_BYTES
    ensures I128Bytes(v)[i] == (v / BigEndian.Pow256(15 - i)) % 256
  {
    BigEndian.EncodeAt(TwosComplement(v), VALUE_BYTES, i);
    if v < 0 {
      WrapShift(v, 15 - i);
    }
  }

  lemma WrapShift(v: int, k: nat)
    requires k < VALUE_BYTES
    ensures (v + TWO_128) / BigEndian.Pow256(k) % 256 == v / BigEndian.Pow256(k) % 256
  {
    BigEndian.Widths();
    PowSplits(k, 16 - k);
    ShiftAway(v, BigEndian.Pow256(k), BigEndian.Pow256(15 - k));
  }

  lemma ShiftAway(v: int, p: nat, q: nat)
    requires p > 0
    ensures (v + (256 * q) * p) / p % 256 == v / p % 256
  {
    BigEndian.Recompose(v, p);
    assert p * (v / p + 256 * q) == p * (v / p) + (256 * q) * p;
    BigEndian.DivIs(v + (256 * q) * p, p, v / p + 256 * q, v % p);
  }

  lemma {:induction false} PowSplits(a: nat, b: nat)
    ensures BigEndian.Pow256(a + b) == BigEndian.Pow256(b) * BigEndian.Pow256(a)
  {
    if b > 0 {
      PowSplits(a, b - 1);
    }
  }

  /** Every i128 survives the trip through its sixteen bytes. */
  lemma ValueRoundTrip(v: i128)
    ensures I128OfBytes(I128Bytes(v)) == v
  {
    BigEndian.Widths();
    BigEndian.DecodeEncode(TwosComplement(v), VALUE_BYTES);
  }

  /** Every sixteen-byte string is the encoding of the value it decodes to. */
  lemma BytesRoundTrip(b: seq<byte>)
    requires |b| == VALUE_BYTES
    ensures I128Bytes(I128OfBytes(b)) == b
  {
    BigEndian.Widths();
    BigEndian.EncodeDecode(b);
  }

  lemma EncodeLast(u: nat, width: nat)
    requires width > 0
    ensures BigEndian.Encode(u, width) == BigEndian.Encode(u / 256, width - 1) + [u % 256]
  {
  }

  /** `i128ToBeBytes`: low byte last, filled from the right. */
  method I128ToBeBytes(value: int) returns (r: Result<seq<byte>, CodecError>)
    ensures r == if InI128(value) then Ok(I128Bytes(value)) else Err(OutOfRange)
  {
    if value < -TWO_127 || value > TWO_127 - 1 {
      return Err(OutOfRange);
    }
    var u: nat := value % TWO_128;
    var out := new byte[VALUE_BYTES](_ => 0);
    var i := VALUE_BYTES;
    ghost var whole := I128Bytes(value);
    hide I128Bytes;
    while i > 0
      invariant 0 <= i <= VALUE_BYTES
      invariant BigEndian.Encode(u, i) + out[i..] == whole
    {
      i := i - 1;
      EncodeLast(u, i + 1);
      out[i] := u % 256;
      u := u / 256;
      assert out[i..] == [out[i]] + out[i + 1..];
    }
    assert out[..] == BigEndian.Encode(u, 0) + out[0..];
    r := Ok(out[..]);
  }

  /** `beBytesToI128`: shift in one byte at a time, then undo the wrap. */
  method BeBytesToI128(bytes: seq<byte>) returns (r: Result<i128, CodecError>)
    ensures |bytes| == VALUE_BYTES ==> r == Ok(I128OfBytes(bytes))
    ensures |bytes| != VALUE_BYTES ==> r == Err(WrongWidth)
  {
    if |bytes| != VALUE_BYTES {
      return Err(WrongWidth);
    }
    var u: nat := 0;
    for i := 0 to |bytes|
      invariant u == BigEndian.Decode(bytes[..i])
    {
      assert bytes[..i + 1][..i] == bytes[..i];
      u := u * 256 + bytes[i];
    }
    assert bytes[..|bytes|] == bytes;
    BigEndian.Widths();
    r := Ok(if u >= TWO_127 then u - TWO_128 else u);
  }

  /** The 48 bytes the contract hashes at reveal. */
  function BidPreimage(value: i128, nonce: seq<byte>): (p: seq<byte>)
    ensures |p| == VALUE_BYTES + |nonce|
  {
    I128Bytes(value) + nonce
  }

  function DecodeBidPreimage(p: seq<byte>): Result<(i128, seq<byte>), CodecError> {
    if |p| != PREIMAGE_BYTES then Err(WrongWidth)
    else Ok((I128OfBytes(p[..VALUE_BYTES]), p[VALUE_BYTES..]))
  }

  method EncodeBidPreimage(value: int, nonce: seq<byte>) returns (r: Result<seq<byte>, CodecError>)
    ensures r == if |nonce| != NONCE_BYTES then Err(WrongWidth)
                 else if !InI128(value) then Err(OutOfRange)
                 else Ok(BidPreimage(value, nonce))
  {
    if |nonce| != NONCE_BYTES {
      return Err(WrongWidth);
    }
    var out := new byte[PREIMAGE_BYTES](_ => 0);
    var head :- I128ToBeBytes(value);
    BigEndian.SetBytes(out, head, 0);
    assert out[..VALUE_BYTES] == head;
    BigEndian.SetBytes(out, nonce, VALUE_BYTES);
    assert out[..] == head + nonce;
    r := Ok(out[..]);
  }

  /** Encoding and decoding are inverse on exactly the 48-byte strings. */
  lemma PreimageBijection(value: i128, nonce: seq<byte>, p: seq<byte>)
    requires |nonce| == NONCE_BYTES
    ensures DecodeBidPreimage(BidPreimage(value, nonce)) == Ok((value, nonce))
    ensures DecodeBidPreimage(p) == Ok((value, nonce)) <==> p == BidPreimage(value, nonce)
  {
    ValueRoundTrip(value);
    var q := BidPreimage(value, nonce);
    assert q[..VALUE_BYTES] == I128Bytes(value) && q[VALUE_BYTES..] == nonce;
    if |p| == PREIMAGE_BYTES {
      BytesRoundTrip(p[..VALUE_BYTES]);
      assert p == p[..VALUE_BYTES] + p[VALUE_BYTES..];
    }
  }

  /** One preimage names one (value, nonce): the commitment leaves no second reading. */
  lemma PreimageInjective(v: i128, n: seq<byte>, v': i128, n': seq<byte>)
    requires |n| == |n'| == NONCE_BYTES
    requires BidPreimage(v, n) == BidPreimage(v', n')
    ensures v == v' && n == n'
  {
    PreimageBijection(v, n, BidPreimage(v, n));
    PreimageBijection(v', n', BidPreimage(v, n));
  }

  /** `commitmentMatches`: accumulate differences over the whole digest, then test for none. */
  method CommitmentMatches(sha: seq<byte> -> Bytes32, value: int, nonce: seq<byte>, expected: seq<byte>)
    returns (r: Result<bool, CodecError>)
    ensures r.Err? <==> |expected| == COMMITMENT_BYTES && |nonce| == NONCE_BYTES && !InI128(value)
    ensures r.Err? ==> r.error == OutOfRange
    ensures r.Ok? ==>
              (r.value <==> |nonce| == NONCE_BYTES && InI128(value) && expected == sha(BidPreimage(value, nonce)))
  {
    if |expected| != COMMITMENT_BYTES || |nonce| != NONCE_BYTES {
      return Ok(false);
    }
    var preimage :- EncodeBidPreimage(value, nonce);
    var actual := sha(preimage);
    var diff := false;
    for i := 0 to COMMITMENT_BYTES
      invariant diff <==> actual[..i] != expected[..i]
    {
      assert actual[..i + 1] == actual[..i] + [actual[i]];
      assert expected[..i + 1] == expected[..i] + [expected[i]];
      assert actual[..i + 1] == expected[..i + 1] ==> actual[..i] == actual[..i + 1][..i];
      diff := diff || actual[i] != expected[i];
    }
    assert actual[..COMMITMENT_BYTES] == actual && expected[..COMMITMENT_BYTES] == expected;
    r := Ok(!diff);
  }
}
