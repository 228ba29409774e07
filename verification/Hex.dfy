/** Hexadecimal text of byte strings. */
module Hex {
  import opened Prelude

  datatype HexError = OddLength | InvalidCharacters

  /** The lower-case digit of a value below sixteen. */
  function Digit(n: nat): char
    requires n < 16
  {
    if n < 10 then '0' + n as char else 'a' + (n - 10) as char
  }

  predicate IsHexChar(c: char) {
    '0' <= c <= '9' || 'a' <= c <= 'f' || 'A' <= c <= 'F'
  }

  predicate AllHex(s: string) {
    forall i :: 0 <= i < |s| ==> IsHexChar(s[i])
  }

  function LowerChar(c: char): char {
    if 'A' <= c <= 'Z' then c - 'A' + 'a' else c
  }

  function Lower(s: string): string {
    seq(|s|, i requires 0 <= i < |s| => LowerChar(s[i]))
  }

  /** The value of one hex digit of either case. */
  function Nibble(c: char): (n: nat)
    requires IsHexChar(c)
    ensures n < 16 && Digit(n) == LowerChar(c)
  {
    if c <= '9' then c as int - '0' as int
    else if c <= 'F' then c as int - 'A' as int + 10
    else c as int - 'a' as int + 10
  }

  function ByteHex(b: byte): string {
    [Digit(b / 16), Digit(b % 16)]
  }

  function ToHex(bytes: seq<byte>): (s: string)
    ensures |s| == 2 * |bytes|
  {
    if bytes == [] then "" else ToHex(bytes[..|bytes| - 1]) + ByteHex(bytes[|bytes| - 1])
  }

  function Stripped(hex: string): string {
    if "0x" <= hex || "0X" <= hex then hex[2..] else hex
  }

  function ByteAt(s: string, i: nat): byte
    requires i + 1 < |s| && IsHexChar(s[i]) && IsHexChar(s[i + 1])
  {
    16 * Nibble(s[i]) + Nibble(s[i + 1])
  }

  /** The bytes an even-length hex string spells. */
  function Unhex(clean: string): (bytes: seq<byte>)
    requires |clean| % 2 == 0 && AllHex(clean)
    ensures |bytes| == |clean| / 2
  {
    if clean == "" then []
    else
      Unhex(clean[..|clean| - 2]) + [ByteAt(clean, |clean| - 2)]
  }

  function FromHexOf(hex: string): Result<seq<byte>, HexError> {
    var clean := Stripped(hex);
    if |clean| % 2 != 0 then Err(OddLength)
    else if !AllHex(clean) then Err(InvalidCharacters)
    else Ok(Unhex(clean))
  }

  method FromHex(hex: string) returns (r: Result<seq<byte>, HexError>)
    ensures r == FromHexOf(hex)
  {
    hide IsHexChar, ByteAt;
    var clean := Stripped(hex);
    if |clean| % 2 != 0 {
      return Err(OddLength);
    }
    if !AllHex(clean) {
      return Err(InvalidCharacters);
    }
    var out := new byte[|clean| / 2](_ => 0);
    for i := 0 to out.Length
      invariant out[..i] == Unhex(clean[..2 * i])
    {
      out[i] := ByteAt(clean, 2 * i);
      UnhexStep(clean, i);
    }
    assert clean[..|clean|] == clean && out[..out.Length] == out[..];
    r := Ok(out[..]);
  }

  lemma UnhexStep(clean: string, i: nat)
    requires 2 * i + 1 < |clean| && AllHex(clean)
    ensures Unhex(clean[..2 * (i + 1)]) == Unhex(clean[..2 * i]) + [ByteAt(clean, 2 * i)]
  {
    hide ByteAt, Nibble;
    var next := clean[..2 * (i + 1)];
    assert next[..|next| - 2] == clean[..2 * i];
    assert ByteAt(next, |next| - 2) == ByteAt(clean, 2 * i) by {
      ByteAtFrame(next, clean, 2 * i);
    }
  }

  lemma ByteAtFrame(a: string, b: string, i: nat)
    requires i + 1 < |a| && i + 1 < |b| && a[i] == b[i] && a[i + 1] == b[i + 1] && IsHexChar(a[i])
            && IsHexChar(a[i + 1])
    ensures ByteAt(a, i) == ByteAt(b, i)
  {
  }

  lemma ByteHexFacts(b: byte)
    ensures AllHex(ByteHex(b)) && Lower(ByteHex(b)) == ByteHex(b) && ByteHex(b)[1] != 'x' && ByteHex(b)[1] != 'X'
    ensures ByteAt(ByteHex(b), 0) == b
  {
    NibbleOfDigit(b / 16);
    NibbleOfDigit(b % 16);
    hide Nibble, Digit;
  }

  lemma NibbleOfDigit(n: nat)
    requires n < 16
    ensures IsHexChar(Digit(n)) && LowerChar(Digit(n)) == Digit(n) && Nibble(Digit(n)) == n
    ensures Digit(n) != 'x' && Digit(n) != 'X'
  {
  }

  lemma HexByteOf(s: string, i: nat)
    requires i + 1 < |s| && IsHexChar(s[i]) && IsHexChar(s[i + 1])
    ensures ByteHex(ByteAt(s, i)) == [LowerChar(s[i]), LowerChar(s[i + 1])]
  {
    var high, low := Nibble(s[i]), Nibble(s[i + 1]);
    assert (16 * high + low) / 16 == high && (16 * high + low) % 16 == low;
  }

  /** `toHex` writes lower-case digits only, so it never looks prefixed. */
  lemma {:induction false} ToHexIsHex(bytes: seq<byte>)
    ensures AllHex(ToHex(bytes)) && Lower(ToHex(bytes)) == ToHex(bytes)
    ensures Stripped(ToHex(bytes)) == ToHex(bytes)
  {
    hide ByteHex, IsHexChar, LowerChar;
    if bytes != [] {
      ToHexIsHex(bytes[..|bytes| - 1]);
      ByteHexFacts(bytes[|bytes| - 1]);
      SecondDigit(bytes);
    }
  }

  lemma {:induction false} SecondDigit(bytes: seq<byte>)
    requires bytes != []
    ensures ToHex(bytes)[..2] == ByteHex(bytes[0])
    ensures ToHex(bytes)[1] != 'x' && ToHex(bytes)[1] != 'X'
  {
    ByteHexFacts(bytes[0]);
    if |bytes| > 1 {
      SecondDigit(bytes[..|bytes| - 1]);
    }
    hide ByteHex;
    assert ToHex(bytes)[1] == ToHex(bytes)[..2][1];
  }

  /** Decoding what `toHex` wrote gives the bytes back. */
  lemma {:induction false} HexRoundTrip(bytes: seq<byte>)
    ensures FromHexOf(ToHex(bytes)) == Ok(bytes)
  {
    hide ByteHex, IsHexChar, ByteAt, Nibble, Stripped;
    ToHexIsHex(bytes);
    if bytes != [] {
      var front, last := bytes[..|bytes| - 1], bytes[|bytes| - 1];
      HexRoundTrip(front);
      ToHexIsHex(front);
      ByteHexFacts(last);
      var text := ToHex(bytes);
      assert text[..|text| - 2] == ToHex(front);
      assert text[|text| - 2..] == ByteHex(last);
      ByteAtTail(text, ByteHex(last));
      assert bytes == front + [last];
      assert Unhex(text) == Unhex(text[..|text| - 2]) + [ByteAt(text, |text| - 2)];
    }
  }

  lemma ByteAtTail(s: string, tail: string)
    requires |tail| == 2 && |s| >= 2 && s[|s| - 2..] == tail && AllHex(tail)
    ensures IsHexChar(s[|s| - 2]) && IsHexChar(s[|s| - 1]) && ByteAt(s, |s| - 2) == ByteAt(tail, 0)
  {
    assert s[|s| - 2] == s[|s| - 2..][0] && s[|s| - 1] == s[|s| - 2..][1];
  }

  lemma ToHexSnoc(front: seq<byte>, last: byte)
    ensures ToHex(front + [last]) == ToHex(front) + ByteHex(last)
  {
    assert (front + [last])[..|front|] == front;
  }

  lemma LowerSnocTwo(front: string, c: char, d: char)
    ensures Lower(front + [c, d]) == Lower(front) + [LowerChar(c), LowerChar(d)]
  {
    hide LowerChar;
  }

  /** Whatever `fromHex` accepts, `toHex` spells back in lower case. */
  lemma {:induction false} UnhexRoundTrip(clean: string)
    requires |clean| % 2 == 0 && AllHex(clean)
    ensures ToHex(Unhex(clean)) == Lower(clean)
  {
    hide ByteHex, IsHexChar, ByteAt, Nibble, LowerChar, ToHex, Lower;
    if clean == "" {
      assert ToHex([]) == Lower("") by {
        NothingIsHex();
      }
    } else {
      var n := |clean|;
      UnhexRoundTrip(clean[..n - 2]);
      HexByteOf(clean, n - 2);
      ToHexSnoc(Unhex(clean[..n - 2]), ByteAt(clean, n - 2));
      LowerSnocTwo(clean[..n - 2], clean[n - 2], clean[n - 1]);
      assert clean == clean[..n - 2] + [clean[n - 2], clean[n - 1]];
    }
  }

  lemma NothingIsHex()
    ensures ToHex([]) == Lower("")
  {
  }

  /** Two byte strings with the same hex are the same. */
  lemma ToHexInjective(a: seq<byte>, b: seq<byte>)
    requires ToHex(a) == ToHex(b)
    ensures a == b
  {
    HexRoundTrip(a);
    HexRoundTrip(b);
    hide FromHexOf, ToHex;
  }

  lemma LowerIsHex(c: char)
    ensures IsHexChar(LowerChar(c)) ==> IsHexChar(c)
    ensures LowerChar(c) == '0' ==> c == '0'
    ensures LowerChar(c) == 'x' ==> c == 'x' || c == 'X'
  {
  }

  lemma LowerAllHex(s: string, bytes: seq<byte>)
    requires Lower(s) == ToHex(bytes)
    ensures AllHex(s) && |s| % 2 == 0 && Stripped(s) == s
  {
    ToHexIsHex(bytes);
    forall i | 0 <= i < |s|
      ensures IsHexChar(s[i])
    {
      assert Lower(s)[i] == LowerChar(s[i]) && IsHexChar(ToHex(bytes)[i]);
      LowerIsHex(s[i]);
    }
    if |s| >= 2 {
      assert IsHexChar(s[1]);
    }
    hide ToHex;
  }

  lemma LowerPrefixed(s: string, tail: string)
    requires Lower(s) == "0x" + tail
    ensures |s| >= 2 && s[0] == '0' && (s[1] == 'x' || s[1] == 'X') && Lower(s[2..]) == tail && Stripped(s) == s[2..]
  {
    assert |s| == |Lower(s)| == 2 + |tail|;
    assert Lower(s)[0] == LowerChar(s[0]) && Lower(s)[1] == LowerChar(s[1]);
    LowerIsHex(s[0]);
    LowerIsHex(s[1]);
    forall i | 0 <= i < |tail|
      ensures Lower(s[2..])[i] == tail[i]
    {
      assert Lower(s)[2 + i] == LowerChar(s[2 + i]);
    }
    assert Lower(s[2..]) == tail;
  }

  lemma StrippedIs(s: string)
    ensures Stripped(s) == s || (|s| >= 2 && Stripped(s) == s[2..] && Lower(s) == "0x" + Lower(s[2..]))
  {
    if Stripped(s) != s {
      assert s == s[..2] + s[2..];
    }
  }

  lemma CleanDecodes(clean: string, bytes: seq<byte>)
    requires Lower(clean) == ToHex(bytes)
    ensures |clean| % 2 == 0 && AllHex(clean) && Unhex(clean) == bytes
  {
    LowerAllHex(clean, bytes);
    UnhexRoundTrip(clean);
    ToHexInjective(Unhex(clean), bytes);
  }

  /** Accepted text, exactly: in lower case it is the hex of the bytes, with or without a prefix. */
  lemma AcceptsIff(hex: string, bytes: seq<byte>)
    ensures FromHexOf(hex) == Ok(bytes) <==> Lower(hex) == ToHex(bytes) || Lower(hex) == "0x" + ToHex(bytes)
  {
    StrippedIs(hex);
    if FromHexOf(hex) == Ok(bytes) {
      UnhexRoundTrip(Stripped(hex));
    }
    if Lower(hex) == ToHex(bytes) {
      LowerAllHex(hex, bytes);
      CleanDecodes(hex, bytes);
    }
    if Lower(hex) == "0x" + ToHex(bytes) {
      LowerPrefixed(hex, ToHex(bytes));
      CleanDecodes(hex[2..], bytes);
    }
    hide Unhex, ToHex, Lower, Stripped;
  }
}
