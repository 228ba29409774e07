/** Fixed-width big-endian integers, and the in-place writers the codecs build buffers with. */
module BigEndian {
  import opened Prelude

  function Pow256(n: nat): (p: nat)
    ensures p > 0
  {
    if n == 0 then 1 else 256 * Pow256(n - 1)
  }

  /** The low `n` bytes of `u`, most significant first. */
  function Encode(u: nat, n: nat): (b: seq<byte>)
    ensures |b| == n
  {
    if n == 0 then [] else Encode(u / 256, n - 1) + [u % 256]
  }

  function Decode(b: seq<byte>): (u: nat)
    ensures u < Pow256(|b|)
  {
    if |b| == 0 then 0 else Decode(b[..|b| - 1]) * 256 + b[|b| - 1]
  }

  lemma {:induction false} DecodeEncode(u: nat, n: nat)
    requires u < Pow256(n)
    ensures Decode(Encode(u, n)) == u
  {
    if n > 0 {
      DecodeEncode(u / 256, n - 1);
      assert Encode(u, n)[..n - 1] == Encode(u / 256, n - 1);
    }
  }

  lemma {:induction false} EncodeDecode(b: seq<byte>)
    ensures Encode(Decode(b), |b|) == b
  {
    if |b| > 0 {
      EncodeDecode(b[..|b| - 1]);
      assert Decode(b) / 256 == Decode(b[..|b| - 1]);
      assert b == b[..|b| - 1] + [b[|b| - 1]];
    }
  }

  /** Byte `i` of the big-endian encoding is the quotient by the weight of its place, modulo 256. */
  lemma {:induction false} EncodeAt(u: nat, n: nat, i: nat)
    requires i < n
    ensures Encode(u, n)[i] == (u / Pow256(n - 1 - i)) % 256
  {
    if i < n - 1 {
      EncodeAt(u / 256, n - 1, i);
      DivDiv(u, Pow256(n - 2 - i));
      assert Encode(u, n)[i] == Encode(u / 256, n - 1)[i];
    } else {
      assert Pow256(0) == 1;
    }
  }

  lemma DivDiv(u: int, b: nat)
    requires b > 0
    ensures u / 256 / b == u / (256 * b)
  {
    var x := u / 256;
    Recompose(x, b);
    assert (256 * b) * (x / b) == 256 * (b * (x / b));
    DivIs(u, 256 * b, x / b, 256 * (x % b) + u % 256);
  }

  lemma Recompose(u: int, m: nat)
    requires m > 0
    ensures u == m * (u / m) + u % m && 0 <= u % m < m
  {
  }

  lemma Spread(m: int, d: int)
    requires m > 0
    ensures d >= 1 ==> m * d >= m
    ensures d <= -1 ==> m * d <= -m
  {
  }

  /** Quotient and remainder are unique. */
  lemma DivIs(u: int, m: nat, q: int, r: int)
    requires 0 <= r < m && u == m * q + r
    ensures u / m == q
  {
    Recompose(u, m);
    assert m * (u / m - q) == m * (u / m) - m * q;
    Spread(m, u / m - q);
  }

  lemma Widths()
    ensures Pow256(4) == 0x1_0000_0000
    ensures Pow256(8) == TWO_64
    ensures Pow256(16) == TWO_128
  {
    assert Pow256(4) == 0x1_0000_0000 by {
      assert Pow256(2) == 0x1_0000;
    }
    assert Pow256(8) == TWO_64 by {
      assert Pow256(6) == 0x1_0000_0000_0000;
    }
    assert Pow256(12) == 0x1_0000_0000_0000_0000_0000_0000 by {
      assert Pow256(10) == 0x1_0000_0000_0000_0000_0000;
    }
    assert Pow256(14) == 0x1_0000_0000_0000_0000_0000_0000_0000;
  }

  /** `out.set(src, at)` on a byte array. */
  method SetBytes(out: array<byte>, src: seq<byte>, at: nat)
    requires at + |src| <= out.Length
    modifies out
    ensures out[..] == old(out[..at]) + src + old(out[at + |src|..])
  {
    for i := 0 to |src|
      invariant out[..] == old(out[..at]) + src[..i] + old(out[at + i..])
    {
      out[at + i] := src[i];
    }
  }
}
