/** The header of a sealed ciphertext: an age file with one tlock stanza, read without decrypting. */
module AgeHeader {
  import opened Prelude
  import Decimal

  const AGE_VERSION: string := "age-encryption.org/v1"
  const TLOCK_STANZA_TYPE: string := "tlock"
  const ARROW: string := "-> "
  const MAC_MARK: string := "--- "
  const BODY_OVERHEAD_BYTES: nat := 32
  const MAX_SAFE_INTEGER: nat := 0x1F_FFFF_FFFF_FFFF

  datatype Rejection = MissingVersion | MissingRecipient | NotTlock | MalformedRecipient | MissingMac

  datatype Header = Header(round: nat, chainHash: string, stanzaBodyBytes: nat, payloadBytes: nat, plaintextBytes: int)

  // ---- Splitting and joining text -------------------------------------------------------------------

  function Split(s: string, sep: char): (parts: seq<string>)
    ensures |parts| >= 1
  {
    if s == "" then [""]
    else
      var rest := Split(s[1..], sep);
      if s[0] == sep then [""] + rest else [[s[0]] + rest[0]] + rest[1..]
  }

  function Join(parts: seq<string>, sep: char): string
    requires |parts| >= 1
  {
    if |parts| == 1 then parts[0] else parts[0] + [sep] + Join(parts[1..], sep)
  }

  function Concat(parts: seq<string>): string {
    if parts == [] then "" else parts[0] + Concat(parts[1..])
  }

  lemma JoinFirst(c: char, parts: seq<string>, sep: char)
    requires |parts| >= 1
    ensures Join([[c] + parts[0]] + parts[1..], sep) == [c] + Join(parts, sep)
  {
    var longer := [[c] + parts[0]] + parts[1..];
    assert longer[1..] == parts[1..];
    if |parts| > 1 {
      var tail := Join(parts[1..], sep);
      assert ([c] + parts[0]) + [sep] + tail == [c] + (parts[0] + [sep] + tail);
    }
  }

  lemma {:induction false} JoinSplit(s: string, sep: char)
    ensures Join(Split(s, sep), sep) == s
    ensures forall p :: p in Split(s, sep) ==> sep !in p
  {
    if s != "" {
      JoinSplit(s[1..], sep);
      var rest := Split(s[1..], sep);
      var parts := Split(s, sep);
      if s[0] == sep {
        assert parts[1..] == rest;
        assert s == [sep] + s[1..];
        assert Join(parts, sep) == "" + [sep] + Join(rest, sep);
      } else {
        assert parts[1..] == rest[1..];
        assert rest[0] in rest && sep !in parts[0];
        JoinFirst(s[0], rest, sep);
        assert s == [s[0]] + s[1..];
      }
    }
  }

  /** Text up to the first separator is the first part. */
  lemma {:induction false} SplitFirst(p: string, sep: char, tail: string)
    requires sep !in p
    ensures Split(p + [sep] + tail, sep) == [p] + Split(tail, sep)
    ensures Split(p, sep) == [p]
  {
    if p == "" {
      assert "" + [sep] + tail == [sep] + tail;
      assert ([sep] + tail)[1..] == tail;
    } else {
      SplitFirst(p[1..], sep, tail);
      assert (p + [sep] + tail)[1..] == p[1..] + [sep] + tail;
      assert [p[0]] + p[1..] == p;
      assert ([p[1..]] + Split(tail, sep))[1..] == Split(tail, sep);
    }
  }

  /** Joined parts, then more text, split back into the parts and the split of the rest. */
  lemma {:induction false} SplitJoined(parts: seq<string>, sep: char, tail: string)
    requires |parts| >= 1 && forall p :: p in parts ==> sep !in p
    ensures Split(Join(parts, sep), sep) == parts
    ensures Split(Join(parts, sep) + [sep] + tail, sep) == parts + Split(tail, sep)
  {
    hide Split;
    if |parts| == 1 {
      SplitFirst(parts[0], sep, tail);
      assert parts == [parts[0]];
    } else {
      assert Join(parts, sep) == parts[0] + [sep] + Join(parts[1..], sep);
      hide Join;
      var rest := Join(parts[1..], sep);
      SplitJoined(parts[1..], sep, tail);
      SplitFirst(parts[0], sep, rest);
      SplitFirst(parts[0], sep, rest + [sep] + tail);
      assert Join(parts, sep) + [sep] + tail == parts[0] + [sep] + (rest + [sep] + tail);
      assert parts == [parts[0]] + parts[1..];
    }
  }

  lemma {:induction false} JoinParts(a: seq<string>, b: seq<string>, sep: char)
    requires |a| >= 1 && |b| >= 1
    ensures Join(a + b, sep) == Join(a, sep) + [sep] + Join(b, sep)
    decreases |a|
  {
    if |a| == 1 {
      assert (a + b)[1..] == b;
    } else {
      assert (a + b)[1..] == a[1..] + b;
      JoinParts(a[1..], b, sep);
      assert a[0] + [sep] + (Join(a[1..], sep) + [sep] + Join(b, sep))
          == (a[0] + [sep] + Join(a[1..], sep)) + [sep] + Join(b, sep);
    }
  }

  // ---- Character classes ---------------------------------------------------------------------------------

  predicate IsBase64Char(c: char) {
    'A' <= c <= 'Z' || 'a' <= c <= 'z' || '0' <= c <= '9' || c == '+' || c == '/'
  }

  predicate AllBase64(s: string) {
    forall i :: 0 <= i < |s| ==> IsBase64Char(s[i])
  }

  /** `/^[A-Za-z0-9+/]+$/`. */
  predicate IsUnpaddedBase64(s: string) {
    |s| > 0 && AllBase64(s)
  }

  predicate IsLowerHex(c: char) {
    '0' <= c <= '9' || 'a' <= c <= 'f'
  }

  predicate IsChainHash(s: string) {
    |s| == 64 && forall i :: 0 <= i < |s| ==> IsLowerHex(s[i])
  }

  /** Decimal digits that name a drand round a double holds exactly. */
  predicate IsRound(s: string) {
    Decimal.IsDigits(s) && 1 <= Decimal.Value(s) <= MAX_SAFE_INTEGER
  }

  // ---- The parser's result as a function of the lines ------------------------------------------------------

  function Recipient(line: string): Result<(nat, string), Rejection> {
    if !(ARROW <= line) then Err(MissingRecipient)
    else
      var fields := Split(line[|ARROW|..], ' ');
      if fields[0] != TLOCK_STANZA_TYPE then Err(NotTlock)
      else if |fields| != 3 || !IsRound(fields[1]) || !IsChainHash(fields[2]) then Err(MalformedRecipient)
      else Ok((Decimal.Value(fields[1]), fields[2]))
  }

  /** Position of the MAC line. */
  function FirstMac(lines: seq<string>, from: nat): (at: Option<nat>)
    ensures at.Some? ==> from <= at.value < |lines| && MAC_MARK <= lines[at.value]
    ensures at.Some? ==> forall i :: from <= i < at.value ==> !(MAC_MARK <= lines[i])
    ensures at.None? ==> forall i :: from <= i < |lines| ==> !(MAC_MARK <= lines[i])
    decreases |lines| - from
  {
    if from >= |lines| then None
    else if MAC_MARK <= lines[from] then Some(from)
    else FirstMac(lines, from + 1)
  }

  function BodyLength(lines: seq<string>, from: nat): nat {
    if from >= |lines| then 0 else |Join(lines[from..], '\n')|
  }

  function AgeOf(payload: string): Result<Header, Rejection> {
    var lines := Split(payload, '\n');
    if lines[0] != AGE_VERSION then Err(MissingVersion)
    else
      var declared :- Recipient(if |lines| > 1 then lines[1] else "");
      var mac := FirstMac(lines, 2);
      if mac.None? then Err(MissingMac)
      else
        var stanzaBody := Concat(lines[2..mac.value]);
        if mac.value == 2 || |stanzaBody| % 4 == 1 || !IsUnpaddedBase64(stanzaBody) then Err(MalformedRecipient)
        else if !IsUnpaddedBase64(lines[mac.value][|MAC_MARK|..]) then Err(MissingMac)
        else Ok(Header(declared.0, declared.1, |stanzaBody| * 3 / 4, |payload|,
                       BodyLength(lines, mac.value + 1) - BODY_OVERHEAD_BYTES))
  }

  // ---- The parser --------------------------------------------------------------------------------------------

  /** The lines not yet taken, and how many bytes of the payload the taken ones and their newlines account for. */
  datatype Cursor = Cursor(lines: seq<string>, consumed: nat)

  /** `take`: shift a line, count it and its newline. */
  function Take(c: Cursor): (string, Cursor) {
    if c.lines == [] then ("", Cursor([], c.consumed + 1))
    else (c.lines[0], Cursor(c.lines[1..], c.consumed + |c.lines[0]| + 1))
  }

  /** After `k` lines were taken from a payload. */
  ghost predicate At(c: Cursor, payload: string, k: nat) {
    var lines := Split(payload, '\n');
    && k <= |lines| && c.lines == lines[k..]
    && c.consumed == (if k == |lines| then |payload| + 1 else |payload| - |Join(lines[k..], '\n')|)
  }

  lemma Starts(payload: string)
    ensures At(Cursor(Split(payload, '\n'), 0), payload, 0)
  {
    JoinSplit(payload, '\n');
    assert Split(payload, '\n')[0..] == Split(payload, '\n');
  }

  lemma Takes(c: Cursor, payload: string, k: nat)
    requires At(c, payload, k) && k < |Split(payload, '\n')|
    ensures At(Take(c).1, payload, k + 1) && Take(c).0 == Split(payload, '\n')[k]
  {
    var lines := Split(payload, '\n');
    assert lines[k..][1..] == lines[k + 1..];
  }

  /** Take stanza lines until a MAC line; none left is `None`. */
  method TakeStanza(start: Cursor, ghost payload: string) returns (stanza: seq<string>, c: Cursor)
    requires 2 <= |Split(payload, '\n')| && At(start, payload, 2)
    ensures var lines := Split(payload, '\n'); var mac := FirstMac(lines, 2);
            if mac.None? then c.lines == []
            else c.lines != [] && At(c, payload, mac.value) && stanza == lines[2..mac.value]
  {
    hide Split, Join;
    ghost var all := Split(payload, '\n');
    c := start;
    stanza := [];
    ghost var k := 2;
    while c.lines != [] && !(MAC_MARK <= c.lines[0])
      invariant 2 <= k <= |all| && At(c, payload, k) && stanza == all[2..k]
      invariant FirstMac(all, 2) == FirstMac(all, k)
      decreases |all| - k
    {
      assert c.lines[0] == all[k];
      Takes(c, payload, k);
      var taken := Take(c);
      stanza := stanza + [taken.0];
      c := taken.1;
      k := k + 1;
    }
  }

  method ParseRecipient(line: string) returns (r: Result<(nat, string), Rejection>)
    ensures r == Recipient(line)
  {
    if !(ARROW <= line) {
      return Err(MissingRecipient);
    }
    var fields := Split(line[|ARROW|..], ' ');
    if fields[0] != TLOCK_STANZA_TYPE {
      return Err(NotTlock);
    }
    var args := fields[1..];
    if |args| != 2 {
      return Err(MalformedRecipient);
    }
    var rawRound, chainHash := args[0], args[1];
    if !Decimal.IsDigits(rawRound) {
      return Err(MalformedRecipient);
    }
    if !IsChainHash(chainHash) {
      return Err(MalformedRecipient);
    }
    var round := Decimal.Value(rawRound);
    if round > MAX_SAFE_INTEGER || round < 1 {
      return Err(MalformedRecipient);
    }
    r := Ok((round, chainHash));
  }

  /** `parseAgePayload`, on the payload as one character per byte. */
  method ParseAgePayload(payload: string) returns (r: Result<Header, Rejection>)
    ensures r == AgeOf(payload)
  {
    hide Split, Join, Recipient;
    var c := Cursor(Split(payload, '\n'), 0);
    ghost var all := c.lines;
    Starts(payload);
    Takes(c, payload, 0);
    var version := Take(c);
    c := version.1;
    if version.0 != AGE_VERSION {
      return Err(MissingVersion);
    }
    if |all| > 1 {
      Takes(c, payload, 1);
    }
    var recipient := Take(c);
    c := recipient.1;
    var declared :- ParseRecipient(recipient.0);
    if |all| == 1 {
      EmptyRecipient();
    }
    var stanza: seq<string>;
    stanza, c := TakeStanza(c, payload);
    if c.lines == [] {
      return Err(MissingMac);
    }
    if |stanza| == 0 {
      return Err(MalformedRecipient);
    }
    var stanzaBody := Concat(stanza);
    if |stanzaBody| % 4 == 1 || !IsUnpaddedBase64(stanzaBody) {
      return Err(MalformedRecipient);
    }
    ghost var mac := FirstMac(all, 2).value;
    Takes(c, payload, mac);
    var macLine := Take(c);
    c := macLine.1;
    if !(MAC_MARK <= macLine.0) {
      return Err(MissingMac);
    }
    if !IsUnpaddedBase64(macLine.0[|MAC_MARK|..]) {
      return Err(MissingMac);
    }
    var bodyBytes := |payload| - (c.consumed - 1) - (if |c.lines| > 0 then 1 else 0);
    r := Ok(Header(declared.0, declared.1, |stanzaBody| * 3 / 4, |payload|, bodyBytes - BODY_OVERHEAD_BYTES));
  }

  lemma EmptyRecipient()
    ensures Recipient("").Err?
  {
  }

  // ---- What is accepted, and what it declares -------------------------------------------------------------------

  /** The pieces of an age payload with one tlock stanza; `body` is what follows the MAC line's newline, if any. */
  datatype Layout = Layout(rawRound: string, chainHash: string, stanza: seq<string>, mac: string, body: Option<string>)

  ghost predicate WellFormed(l: Layout) {
    && IsRound(l.rawRound) && IsChainHash(l.chainHash)
    && |l.stanza| > 0 && |Concat(l.stanza)| % 4 != 1 && IsUnpaddedBase64(Concat(l.stanza))
    && IsUnpaddedBase64(l.mac)
  }

  ghost function RecipientLine(l: Layout): string {
    ARROW + Join([TLOCK_STANZA_TYPE, l.rawRound, l.chainHash], ' ')
  }

  ghost function HeadLines(l: Layout): seq<string> {
    [AGE_VERSION, RecipientLine(l)] + l.stanza + [MAC_MARK + l.mac]
  }

  ghost function Laid(l: Layout): string {
    Join(HeadLines(l), '\n') + (if l.body.None? then "" else "\n" + l.body.value)
  }

  ghost function HeaderOf(l: Layout): Header
    requires WellFormed(l)
  {
    Header(Decimal.Value(l.rawRound), l.chainHash, |Concat(l.stanza)| * 3 / 4, |Laid(l)|,
           (if l.body.None? then 0 else |l.body.value|) - 32)
  }

  lemma {:induction false} ConcatMember(parts: seq<string>, p: string)
    requires p in parts && AllBase64(Concat(parts))
    ensures AllBase64(p)
  {
    var head, rest := parts[0], Concat(parts[1..]);
    assert Concat(parts) == head + rest;
    assert AllBase64(head) by {
      assert forall i :: 0 <= i < |head| ==> head[i] == Concat(parts)[i];
    }
    if p != head {
      assert forall i :: 0 <= i < |rest| ==> rest[i] == Concat(parts)[|head| + i];
      ConcatMember(parts[1..], p);
    }
  }

  lemma Base64Line(line: string)
    requires AllBase64(line)
    ensures '\n' !in line && !(MAC_MARK <= line)
  {
    if |line| > 0 {
      assert IsBase64Char(line[0]) && line[0] != MAC_MARK[0];
    }
  }

  lemma RecipientRead(l: Layout)
    requires IsRound(l.rawRound) && IsChainHash(l.chainHash)
    ensures Recipient(RecipientLine(l)) == Ok((Decimal.Value(l.rawRound), l.chainHash))
    ensures '\n' !in RecipientLine(l)
  {
    var fields := [TLOCK_STANZA_TYPE, l.rawRound, l.chainHash];
    var line := RecipientLine(l);
    assert forall i :: 0 <= i < |l.rawRound| ==> Decimal.IsDigit(l.rawRound[i]);
    assert ' ' !in l.rawRound;
    assert forall i :: 0 <= i < |l.chainHash| ==> IsLowerHex(l.chainHash[i]);
    assert ' ' !in l.chainHash;
    assert ' ' !in TLOCK_STANZA_TYPE;
    SplitJoined(fields, ' ', "");
    assert line[|ARROW|..] == Join(fields, ' ');
    assert fields[1..] == [l.rawRound, l.chainHash] && [l.rawRound, l.chainHash][1..] == [l.chainHash];
    assert Join([l.rawRound, l.chainHash], ' ') == l.rawRound + [' '] + l.chainHash;
    assert Join(fields, ' ') == TLOCK_STANZA_TYPE + [' '] + (l.rawRound + [' '] + l.chainHash);
    hide Split, IsRound;
  }

  lemma HeadLinesSingle(l: Layout)
    requires WellFormed(l)
    ensures forall line :: line in HeadLines(l) ==> '\n' !in line
    ensures forall line :: line in l.stanza ==> !(MAC_MARK <= line)
  {
    RecipientRead(l);
    forall line | line in l.stanza
      ensures '\n' !in line && !(MAC_MARK <= line)
    {
      ConcatMember(l.stanza, line);
      Base64Line(line);
    }
    Base64Line(l.mac);
    hide RecipientLine, IsRound, Concat, IsChainHash, AllBase64;
  }

  /** The lines of a laid-out payload. */
  lemma LaidLines(l: Layout)
    requires WellFormed(l)
    ensures Split(Laid(l), '\n') == HeadLines(l) + (if l.body.None? then [] else Split(l.body.value, '\n'))
  {
    HeadLinesSingle(l);
    var tail := if l.body.None? then "" else l.body.value;
    SplitJoined(HeadLines(l), '\n', tail);
    hide Split, HeadLines, Join;
    var head := Join(HeadLines(l), '\n');
    if l.body.None? {
      assert Laid(l) == head;
    } else {
      assert Laid(l) == head + ['\n'] + tail;
    }
  }

  lemma {:induction false} FirstMacAt(lines: seq<string>, from: nat, at: nat)
    requires from <= at < |lines| && MAC_MARK <= lines[at]
    requires forall i :: from <= i < at ==> !(MAC_MARK <= lines[i])
    ensures FirstMac(lines, from) == Some(at)
    decreases at - from
  {
    if from < at {
      FirstMacAt(lines, from + 1, at);
    }
  }

  /** The parser recovers what was laid out, for every body whatever bytes it holds. */
  lemma ParserRecovers(l: Layout)
    requires WellFormed(l)
    ensures AgeOf(Laid(l)) == Ok(HeaderOf(l))
  {
    hide Split, Join, RecipientLine, Recipient, IsRound, IsChainHash, Concat, IsUnpaddedBase64, Laid;
    var lines := Split(Laid(l), '\n');
    var mac := 2 + |l.stanza|;
    LaidLines(l);
    HeadLinesSingle(l);
    RecipientRead(l);
    assert lines[0] == AGE_VERSION && lines[1] == RecipientLine(l);
    forall i | 2 <= i < mac
      ensures lines[i] == l.stanza[i - 2] && !(MAC_MARK <= lines[i])
    {
      assert l.stanza[i - 2] in l.stanza;
    }
    assert lines[mac] == MAC_MARK + l.mac && lines[mac][..|MAC_MARK|] == MAC_MARK;
    assert MAC_MARK <= lines[mac];
    FirstMacAt(lines, 2, mac);
    assert lines[2..mac] == l.stanza;
    assert lines[mac][|MAC_MARK|..] == l.mac;
    assert BodyLength(lines, mac + 1) == if l.body.None? then 0 else |l.body.value| by {
      if l.body.Some? {
        assert lines[mac + 1..] == Split(l.body.value, '\n');
        JoinSplit(l.body.value, '\n');
      }
    }
  }

  /** The pieces of an accepted payload. */
  ghost function LayoutOf(payload: string): (l: Layout)
    requires AgeOf(payload).Ok?
  {
    var lines := Split(payload, '\n');
    var fields := Split(lines[1][|ARROW|..], ' ');
    var mac := FirstMac(lines, 2).value;
    Layout(fields[1], fields[2], lines[2..mac], lines[mac][|MAC_MARK|..],
           if mac + 1 == |lines| then None else Some(Join(lines[mac + 1..], '\n')))
  }

  lemma RecipientLaid(line: string)
    requires Recipient(line).Ok?
    ensures ARROW <= line && |Split(line[|ARROW|..], ' ')| == 3
    ensures var fields := Split(line[|ARROW|..], ' ');
            && line == ARROW + Join([TLOCK_STANZA_TYPE, fields[1], fields[2]], ' ')
            && IsRound(fields[1]) && IsChainHash(fields[2])
            && Recipient(line).value == (Decimal.Value(fields[1]), fields[2])
  {
    var fields := Split(line[|ARROW|..], ' ');
    JoinSplit(line[|ARROW|..], ' ');
    hide Split, Join, IsRound, IsChainHash;
    assert fields == [TLOCK_STANZA_TYPE, fields[1], fields[2]];
    assert line == ARROW + line[|ARROW|..];
  }

  lemma AcceptedLines(payload: string)
    requires AgeOf(payload).Ok?
    ensures var l := LayoutOf(payload); var lines := Split(payload, '\n'); var mac := FirstMac(lines, 2).value;
            && WellFormed(l)
            && HeadLines(l) == lines[..mac + 1]
            && AgeOf(payload).value
               == Header(Decimal.Value(l.rawRound), l.chainHash, |Concat(l.stanza)| * 3 / 4, |payload|,
                                              (if l.body.None? then 0 else |l.body.value|) - BODY_OVERHEAD_BYTES)
  {
    hide Split, Join, Recipient, IsRound, IsChainHash, Concat, IsUnpaddedBase64;
    var lines := Split(payload, '\n');
    assert |lines| > 1 by {
      EmptyRecipient();
    }
    RecipientLaid(lines[1]);
    var mac := FirstMac(lines, 2).value;
    assert lines[mac] == MAC_MARK + lines[mac][|MAC_MARK|..];
    assert lines[..mac + 1] == [lines[0], lines[1]] + lines[2..mac] + [lines[mac]];
  }

  /** An accepted payload is its pieces laid out, and its header is theirs. */
  lemma AcceptedIsLaid(payload: string)
    requires AgeOf(payload).Ok?
    ensures var l := LayoutOf(payload); WellFormed(l) && payload == Laid(l) && AgeOf(payload) == Ok(HeaderOf(l))
  {
    var l := LayoutOf(payload);
    AcceptedLines(payload);
    AcceptedText(payload);
    hide LayoutOf, AgeOf, Concat, HeadLines, WellFormed, Split, Join, Laid;
  }

  lemma AcceptedText(payload: string)
    requires AgeOf(payload).Ok?
    ensures payload == Laid(LayoutOf(payload))
  {
    var l := LayoutOf(payload);
    var lines := Split(payload, '\n');
    var mac := FirstMac(lines, 2).value;
    AcceptedLines(payload);
    JoinSplit(payload, '\n');
    hide Split, Join, HeadLines, AgeOf, WellFormed;
    if mac + 1 < |lines| {
      assert lines == lines[..mac + 1] + lines[mac + 1..];
      JoinParts(lines[..mac + 1], lines[mac + 1..], '\n');
      assert Laid(l) == Join(HeadLines(l), '\n') + ("\n" + l.body.value);
      assert Join(HeadLines(l), '\n') + ['\n'] + l.body.value == Join(HeadLines(l), '\n') + ("\n" + l.body.value);
    } else {
      assert lines[..mac + 1] == lines;
      assert Laid(l) == Join(HeadLines(l), '\n') + "";
    }
  }

  /** A laid-out payload is never empty. */
  lemma LaidStarts(l: Layout)
    requires WellFormed(l)
    ensures Laid(l) != ""
  {
  }

  /**
   * The parser accepts exactly the payloads laid out as an age file with one tlock stanza, and reports the
   * round and chain hash written there and the length of whatever follows the MAC line less the overhead.
   */
  lemma AcceptsIff(payload: string, h: Header)
    ensures AgeOf(payload) == Ok(h) <==> exists l :: WellFormed(l) && payload == Laid(l) && h == HeaderOf(l)
  {
    hide AgeOf, WellFormed, Laid, HeaderOf, LayoutOf;
    if AgeOf(payload) == Ok(h) {
      AcceptedIsLaid(payload);
    }
    forall l | WellFormed(l) && payload == Laid(l)
      ensures AgeOf(payload) == Ok(HeaderOf(l))
    {
      ParserRecovers(l);
    }
  }

  /** What is wrong with a payload that is rejected. */
  ghost predicate RefusalSays(payload: string, e: Rejection) {
    var lines := Split(payload, '\n');
    var second := if |lines| > 1 then lines[1] else "";
    var mac := FirstMac(lines, 2);
    match e
    case MissingVersion => lines[0] != "age-encryption.org/v1"
    case MissingRecipient => !("-> " <= second)
    case NotTlock => "-> " <= second && Split(second[3..], ' ')[0] != "tlock"
    case MissingMac => mac.None? || !IsUnpaddedBase64(lines[mac.value][4..])
    case MalformedRecipient =>
      "-> " <= second
      && var fields := Split(second[3..], ' ');
         || |fields| != 3 || !IsRound(fields[1]) || !IsChainHash(fields[2])
         || (mac.Some? && var body := Concat(lines[2..mac.value]);
              mac.value == 2 || |body| % 4 == 1 || !IsUnpaddedBase64(body))
  }

  /** Every rejection names a defect the payload has. */
  lemma RefusalsAreTrue(payload: string)
    ensures AgeOf(payload).Err? ==> RefusalSays(payload, AgeOf(payload).error)
  {
    hide Split, Concat, IsUnpaddedBase64, IsRound, IsChainHash, FirstMac;
  }
}
