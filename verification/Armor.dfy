/** The ASCII armor around a sealed payload. */
module Armor {
  import opened Prelude
  import Age = AgeHeader

  const HEADER: string := "-----BEGIN AGE ENCRYPTED FILE-----"
  const FOOTER: string := "-----END AGE ENCRYPTED FILE-----"
  const ARMOR_LINE_WIDTH: nat := 64
  const MAX_ARMOR_PADDING: nat := 1024

  datatype Rejection =
    | NotUtf8 | ExcessivePadding | MissingHeader | MissingFooter | LineTooLong | InvalidBase64
    | Age(rejection: Age.Rejection)

  /** The characters `trim` removes. */
  predicate IsSpace(c: char) {
    c in "\t\n\U{000B}\U{000C}\r \U{00A0}\U{1680}\U{2028}\U{2029}\U{202F}\U{205F}\U{3000}\U{FEFF}"
    || '\U{2000}' <= c <= '\U{200A}'
  }

  function TrimStart(s: string): (t: string)
    ensures |t| <= |s|
  {
    if s != "" && IsSpace(s[0]) then TrimStart(s[1..]) else s
  }

  function TrimEnd(s: string): (t: string)
    ensures |t| <= |s|
  {
    if s != "" && IsSpace(s[|s| - 1]) then TrimEnd(s[..|s| - 1]) else s
  }

  function Trim(s: string): (t: string)
    ensures |t| <= |s|
  {
    TrimEnd(TrimStart(s))
  }

  predicate EndsWith(s: string, suffix: string) {
    |suffix| <= |s| && s[|s| - |suffix|..] == suffix
  }

  /** `slice(from, to)` for non-negative bounds: empty when they cross. */
  function Slice(s: string, from: nat, to: nat): string {
    if from <= to <= |s| then s[from..to] else ""
  }

  /** `/^[A-Za-z0-9+/]*={0,2}$/`. */
  predicate IsPaddedBase64(s: string) {
    Age.AllBase64(s) || (|s| >= 1 && s[|s| - 1] == '=' && (Age.AllBase64(s[..|s| - 1])
      || (|s| >= 2 && s[|s| - 2] == '=' && Age.AllBase64(s[..|s| - 2]))))
  }

  /**
   * `parseSealedPayload`: `text` is `None` when the bytes are not UTF-8, and `decode` is base64 decoding
   * to one character per byte.
   */
  function ParseSealedPayload(text: Option<string>, decode: string -> string): Result<Age.Header, Rejection> {
    if text.None? then Err(NotUtf8)
    else
      var trimmed := Trim(text.value);
      if |text.value| - |trimmed| > MAX_ARMOR_PADDING then Err(ExcessivePadding) else ParseTrimmed(trimmed, decode)
  }

  function ParseTrimmed(trimmed: string, decode: string -> string): Result<Age.Header, Rejection> {
    if !(HEADER <= trimmed) then Err(MissingHeader)
    else if !EndsWith(trimmed, FOOTER) then Err(MissingFooter)
    else
      var lines := Age.Split(Slice(trimmed, |HEADER|, |trimmed| - |FOOTER|), '\n');
      if (exists line :: line in lines && |line| > ARMOR_LINE_WIDTH) || |lines[|lines| - 1]| >= ARMOR_LINE_WIDTH
      then Err(LineTooLong)
      else ParseBase64(Age.Concat(lines), decode)
  }

  function ParseBase64(base64: string, decode: string -> string): Result<Age.Header, Rejection> {
    if |base64| % 4 != 0 || !IsPaddedBase64(base64) then Err(InvalidBase64)
    else
      match Age.AgeOf(decode(base64))
      case Ok(header) => Ok(header)
      case Err(e) => Err(Rejection.Age(e))
  }

  ghost predicate AllSpace(s: string) {
    forall i :: 0 <= i < |s| ==> IsSpace(s[i])
  }

  lemma {:induction false} TrimStartPadding(pad: string, core: string)
    requires AllSpace(pad) && core != "" && !IsSpace(core[0])
    ensures TrimStart(pad + core) == core
  {
    if pad == "" {
      assert pad + core == core;
    } else {
      assert (pad + core)[1..] == pad[1..] + core;
      TrimStartPadding(pad[1..], core);
    }
  }

  lemma {:induction false} TrimEndPadding(core: string, pad: string)
    requires AllSpace(pad) && core != "" && !IsSpace(core[|core| - 1])
    ensures TrimEnd(core + pad) == core
  {
    if pad == "" {
      assert core + pad == core;
    } else {
      assert (core + pad)[..|core + pad| - 1] == core + pad[..|pad| - 1];
      TrimEndPadding(core, pad[..|pad| - 1]);
    }
  }

  /** The armored text of base64 lines. */
  ghost function Armored(lines: seq<string>): string
    requires |lines| >= 1
  {
    HEADER + ("\n" + Age.Join(lines, '\n') + "\n") + FOOTER
  }

  lemma TrimArmored(before: string, lines: seq<string>, after: string)
    requires |lines| >= 1 && AllSpace(before) && AllSpace(after)
    ensures Trim(before + Armored(lines) + after) == Armored(lines)
  {
    hide Age.Join, AllSpace;
    var core := Armored(lines);
    assert core[0] == '-' && core[|core| - 1] == '-' && !IsSpace('-');
    assert before + core + after == before + (core + after);
    TrimStartPadding(before, core + after);
    TrimEndPadding(core, after);
  }

  lemma {:induction false} ConcatAround(lines: seq<string>)
    ensures Age.Concat([""] + lines + [""]) == Age.Concat(lines)
  {
    assert ([""] + lines + [""])[1..] == lines + [""];
    ConcatLast(lines);
  }

  lemma {:induction false} ConcatLast(lines: seq<string>)
    ensures Age.Concat(lines + [""]) == Age.Concat(lines)
  {
    if lines == [] {
      assert [""][1..] == [];
    } else {
      assert (lines + [""])[1..] == lines[1..] + [""];
      ConcatLast(lines[1..]);
    }
  }

  lemma SplitLeading(sep: char, rest: string)
    ensures Age.Split([sep] + rest, sep) == [""] + Age.Split(rest, sep)
    ensures Age.Split("", sep) == [""]
  {
    assert ([sep] + rest)[1..] == rest;
  }

  lemma SplitArmored(lines: seq<string>)
    requires |lines| >= 1 && forall line :: line in lines ==> '\n' !in line
    ensures Age.Split("\n" + Age.Join(lines, '\n') + "\n", '\n') == [""] + lines + [""]
  {
    hide Age.Split, Age.Join;
    var inner := Age.Join(lines, '\n') + ['\n'];
    Age.SplitJoined(lines, '\n', "");
    SplitLeading('\n', inner);
    assert inner + "" == inner;
    assert ['\n'] + inner == "\n" + Age.Join(lines, '\n') + "\n";
    assert [""] + (lines + [""]) == [""] + lines + [""];
  }

  /**
   * Armored lines no wider than the armor, with up to 1024 blanks around them, parse as the age payload
   * their base64 decodes to.
   */
  lemma ArmorRecovers(before: string, lines: seq<string>, after: string, decode: string -> string)
    requires AllSpace(before) && AllSpace(after) && |before| + |after| <= MAX_ARMOR_PADDING
    requires |lines| >= 1 && forall line :: line in lines ==> '\n' !in line && |line| <= ARMOR_LINE_WIDTH
    requires |Age.Concat(lines)| % 4 == 0 && IsPaddedBase64(Age.Concat(lines))
    ensures ParseSealedPayload(Some(before + Armored(lines) + after), decode)
         == match Age.AgeOf(decode(Age.Concat(lines))) { case Ok(h) => Ok(h) case Err(e) => Err(Rejection.Age(e)) }
  {
    hide Trim, AllSpace, ParseTrimmed, Armored, Age.Concat, Age.AgeOf, IsPaddedBase64;
    TrimArmored(before, lines, after);
    ArmoredParses(lines, decode);
  }

  lemma ArmoredParses(lines: seq<string>, decode: string -> string)
    requires |lines| >= 1 && forall line :: line in lines ==> '\n' !in line && |line| <= ARMOR_LINE_WIDTH
    ensures ParseTrimmed(Armored(lines), decode) == ParseBase64(Age.Concat(lines), decode)
  {
    hide Age.Split, Age.Join, Age.Concat, ParseBase64, Slice, EndsWith;
    var inner := "\n" + Age.Join(lines, '\n') + "\n";
    SlicesOf(HEADER, inner, FOOTER);
    SplitArmored(lines);
    ConcatAround(lines);
    WidthsAround(lines);
  }

  lemma WidthsAround(lines: seq<string>)
    requires forall line :: line in lines ==> |line| <= ARMOR_LINE_WIDTH
    ensures var all := [""] + lines + [""];
            (forall line :: line in all ==> |line| <= ARMOR_LINE_WIDTH) && all[|all| - 1] == ""
  {
  }

  lemma SlicesOf(head: string, inner: string, foot: string)
    ensures var s := head + inner + foot;
            head <= s && EndsWith(s, foot) && |s| >= |foot| && Slice(s, |head|, |s| - |foot|) == inner
  {
  }

  /**
   * Seal to header: an armored, padded, well-formed tlock payload declares its round, chain hash and plaintext
   * length.
   */
  lemma SealRecovers(before: string, lines: seq<string>, after: string, decode: string -> string, l: Age.Layout)
    requires AllSpace(before) && AllSpace(after) && |before| + |after| <= MAX_ARMOR_PADDING
    requires |lines| >= 1 && forall line :: line in lines ==> '\n' !in line && |line| <= ARMOR_LINE_WIDTH
    requires |Age.Concat(lines)| % 4 == 0 && IsPaddedBase64(Age.Concat(lines))
    requires Age.WellFormed(l) && decode(Age.Concat(lines)) == Age.Laid(l)
    ensures ParseSealedPayload(Some(before + Armored(lines) + after), decode) == Ok(Age.HeaderOf(l))
  {
    ArmorRecovers(before, lines, after, decode);
    Age.ParserRecovers(l);
    hide Age.AgeOf, Age.Laid, Age.HeaderOf, Age.WellFormed, Armored, ParseSealedPayload;
  }

  // ---- Exactly what is accepted -------------------------------------------------------------------------

  /** Up to two padding characters after base64 characters, and nothing else. */
  lemma PaddedIff(s: string)
    ensures IsPaddedBase64(s) <==>
            (exists core, pad :: Age.AllBase64(core) && pad in {"", "=", "=="} && s == core + pad)
  {
    if IsPaddedBase64(s) {
      if Age.AllBase64(s) {
        assert s == s + "";
      } else if Age.AllBase64(s[..|s| - 1]) {
        assert s == s[..|s| - 1] + "=";
      } else {
        assert s == s[..|s| - 2] + "==";
      }
    }
    forall core, pad | Age.AllBase64(core) && pad in {"", "=", "=="} && s == core + pad
      ensures IsPaddedBase64(s)
    {
      assert core == s[..|core|];
      if pad == "" {
        assert s == core;
      }
    }
  }

  lemma {:induction false} TrimStartSplits(s: string) returns (pad: string)
    ensures AllSpace(pad) && s == pad + TrimStart(s)
  {
    if s != "" && IsSpace(s[0]) {
      var rest := TrimStartSplits(s[1..]);
      pad := [s[0]] + rest;
      hide IsSpace;
      assert s == [s[0]] + s[1..];
    } else {
      pad := "";
    }
  }

  lemma {:induction false} TrimEndSplits(s: string) returns (pad: string)
    ensures AllSpace(pad) && s == TrimEnd(s) + pad
  {
    if s != "" && IsSpace(s[|s| - 1]) {
      var rest := TrimEndSplits(s[..|s| - 1]);
      pad := rest + [s[|s| - 1]];
      hide IsSpace;
      assert s == s[..|s| - 1] + [s[|s| - 1]];
    } else {
      pad := "";
    }
  }

  /** A text is what `trim` leaves of it, with blanks around. */
  lemma TrimSplits(text: string) returns (before: string, after: string)
    ensures AllSpace(before) && AllSpace(after) && text == before + Trim(text) + after
  {
    before := TrimStartSplits(text);
    after := TrimEndSplits(TrimStart(text));
    hide AllSpace, TrimStart, TrimEnd;
    assert before + (Trim(text) + after) == before + Trim(text) + after;
  }

  /** What the armor may look like between header and footer: lines, none over 64 characters, the last under 64. */
  ghost predicate LinesOk(lines: seq<string>) {
    && |lines| >= 1
    && (forall line :: line in lines ==> '\n' !in line && |line| <= 64)
    && |lines[|lines| - 1]| < 64
  }

  /** The text is an armored payload that decodes to an age payload with this header. */
  ghost predicate Seals(text: string, before: string, lines: seq<string>, after: string, decode: string -> string,
                        h: Age.Header)
  {
    && AllSpace(before) && AllSpace(after) && |before| + |after| <= 1024
    && LinesOk(lines)
    && text == before + (HEADER + Age.Join(lines, '\n') + FOOTER) + after
    && |Age.Concat(lines)| % 4 == 0 && IsPaddedBase64(Age.Concat(lines))
    && Age.AgeOf(decode(Age.Concat(lines))) == Ok(h)
  }

  lemma ParseBase64Iff(base64: string, decode: string -> string, h: Age.Header)
    ensures ParseBase64(base64, decode) == Ok(h) <==>
            |base64| % 4 == 0 && IsPaddedBase64(base64) && Age.AgeOf(decode(base64)) == Ok(h)
  {
    hide IsPaddedBase64, Age.AgeOf;
  }

  /** The nothing between a header and a footer that overlap holds no payload. */
  lemma NoPayload(decode: string -> string, h: Age.Header)
    requires decode("") == ""
    ensures ParseBase64("", decode) != Ok(h)
  {
    ParseBase64Iff("", decode, h);
    Age.AcceptsIff("", h);
    hide ParseBase64, Age.AgeOf;
    if exists l :: Age.WellFormed(l) && "" == Age.Laid(l) && h == Age.HeaderOf(l) {
      var l :| Age.WellFormed(l) && "" == Age.Laid(l) && h == Age.HeaderOf(l);
      Age.LaidStarts(l);
    }
  }

  lemma TrimmedAccepts(lines: seq<string>, decode: string -> string)
    requires LinesOk(lines)
    ensures ParseTrimmed(HEADER + Age.Join(lines, '\n') + FOOTER, decode) == ParseBase64(Age.Concat(lines), decode)
  {
    hide Age.Split, Age.Join, Age.Concat, ParseBase64, Slice, EndsWith;
    SlicesOf(HEADER, Age.Join(lines, '\n'), FOOTER);
    Age.SplitJoined(lines, '\n', "");
  }

  lemma BetweenEnds(s: string, head: string, foot: string)
    requires head <= s && EndsWith(s, foot)
    ensures var inner := Slice(s, |head|, |s| - |foot|);
            if |s| < |head| + |foot| then inner == "" else s == head + inner + foot
  {
  }

  lemma TrimmedAccepted(trimmed: string, decode: string -> string, h: Age.Header) returns (lines: seq<string>)
    requires decode("") == "" && ParseTrimmed(trimmed, decode) == Ok(h)
    ensures LinesOk(lines) && trimmed == HEADER + Age.Join(lines, '\n') + FOOTER
    ensures ParseBase64(Age.Concat(lines), decode) == Ok(h)
  {
    hide Age.Split, Age.Join, Age.Concat, ParseBase64, Slice, EndsWith;
    var inner := Slice(trimmed, |HEADER|, |trimmed| - |FOOTER|);
    lines := Age.Split(inner, '\n');
    Age.JoinSplit(inner, '\n');
    BetweenEnds(trimmed, HEADER, FOOTER);
    NoLines();
    NoPayload(decode, h);
  }

  lemma NoLines()
    ensures Age.Concat(Age.Split("", '\n')) == ""
  {
    assert [""][1..] == [];
  }

  lemma TrimCore(before: string, core: string, after: string)
    requires core != "" && !IsSpace(core[0]) && !IsSpace(core[|core| - 1]) && AllSpace(before) && AllSpace(after)
    ensures Trim(before + core + after) == core
  {
    hide AllSpace, IsSpace;
    assert before + core + after == before + (core + after);
    TrimStartPadding(before, core + after);
    TrimEndPadding(core, after);
  }

  lemma TrimBetween(before: string, head: string, inner: string, foot: string, after: string)
    requires head != "" && foot != "" && !IsSpace(head[0]) && !IsSpace(foot[|foot| - 1])
    requires AllSpace(before) && AllSpace(after)
    ensures Trim(before + (head + inner + foot) + after) == head + inner + foot
  {
    hide AllSpace, Trim, IsSpace;
    TrimCore(before, head + inner + foot, after);
  }

  lemma MarksAreVisible()
    ensures HEADER != "" && FOOTER != "" && !IsSpace(HEADER[0]) && !IsSpace(FOOTER[|FOOTER| - 1])
  {
    assert HEADER[0] == '-' && FOOTER[|FOOTER| - 1] == '-';
  }

  lemma TrimSealed(before: string, lines: seq<string>, after: string)
    requires |lines| >= 1 && AllSpace(before) && AllSpace(after)
    ensures var core := HEADER + Age.Join(lines, '\n') + FOOTER; Trim(before + core + after) == core
  {
    hide Age.Join, AllSpace, Trim, IsSpace;
    MarksAreVisible();
    TrimBetween(before, HEADER, Age.Join(lines, '\n'), FOOTER, after);
  }

  /**
   * Accepted texts, exactly: at most 1024 blanks around header, lines and footer; no line over 64 characters and
   * the last under 64; the lines together padded base64 of a length divisible by four, decoding to an age payload
   * with that header. Base64 of nothing is assumed to decode to nothing.
   */
  lemma AcceptsIff(text: Option<string>, decode: string -> string, h: Age.Header)
    requires decode("") == ""
    ensures ParseSealedPayload(text, decode) == Ok(h) <==>
            text.Some? && exists before, lines, after :: Seals(text.value, before, lines, after, decode, h)
  {
    hide Trim, AllSpace, ParseTrimmed, ParseBase64, Age.Join, Age.Concat, Age.AgeOf, IsPaddedBase64, LinesOk;
    if ParseSealedPayload(text, decode) == Ok(h) {
      var before, after := TrimSplits(text.value);
      var lines := TrimmedAccepted(Trim(text.value), decode, h);
      ParseBase64Iff(Age.Concat(lines), decode, h);
      assert Seals(text.value, before, lines, after, decode, h);
    }
    if text.Some? {
      forall before, lines, after | Seals(text.value, before, lines, after, decode, h)
        ensures ParseSealedPayload(text, decode) == Ok(h)
      {
        LinesNotEmpty(lines);
        TrimSealed(before, lines, after);
        TrimmedAccepts(lines, decode);
        ParseBase64Iff(Age.Concat(lines), decode, h);
      }
    }
  }

  lemma LinesNotEmpty(lines: seq<string>)
    requires LinesOk(lines)
    ensures |lines| >= 1
  {
  }

  /** What is wrong with a text that is rejected; an age rejection is that of the bytes its lines decode to. */
  ghost predicate RefusalSays(text: Option<string>, decode: string -> string, e: Rejection) {
    if text.None? then e == NotUtf8
    else
      var core := Trim(text.value);
      var lines := Age.Split(if |core| < |FOOTER| then "" else Slice(core, |HEADER|, |core| - |FOOTER|), '\n');
      match e
      case NotUtf8 => false
      case ExcessivePadding => |text.value| > |core| + 1024
      case MissingHeader => !(HEADER <= core)
      case MissingFooter => !EndsWith(core, FOOTER)
      case LineTooLong => (exists line :: line in lines && |line| > 64) || |lines[|lines| - 1]| >= 64
      case InvalidBase64 => |Age.Concat(lines)| % 4 != 0 || !IsPaddedBase64(Age.Concat(lines))
      case Age(rejection) => Age.AgeOf(decode(Age.Concat(lines))) == Err(rejection)
  }

  /** Every rejection names a defect the text has. */
  lemma RefusalsAreTrue(text: Option<string>, decode: string -> string)
    ensures var r := ParseSealedPayload(text, decode); r.Err? ==> RefusalSays(text, decode, r.error)
  {
    hide Trim, Age.Split, Age.Concat, Age.AgeOf, IsPaddedBase64, Slice, EndsWith;
  }
}
