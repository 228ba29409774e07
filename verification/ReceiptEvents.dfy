/** The event log of a round receipt, its checks, and the log the exporter writes. */
module ReceiptEvents {
  import opened Prelude
  import RoundTypes
  import Decimal

  datatype EventName = Created | Commit | Revealing | Reveal | Cleared | Settled | Voided

  datatype Phase = RoundCreated | BidCommit | RevealOpened | BidReveal | RoundCleared | RoundFinalized

  const LIFECYCLE_ORDER: seq<EventName> := [Created, Commit, Revealing, Reveal, Cleared, Settled]

  function PhaseOf(name: EventName): Phase {
    match name
    case Created => RoundCreated
    case Commit => BidCommit
    case Revealing => RevealOpened
    case Reveal => BidReveal
    case Cleared => RoundCleared
    case Settled => RoundFinalized
    case Voided => RoundFinalized
  }

  /** Position of a phase in the lifecycle. */
  function Rank(phase: Phase): nat {
    match phase
    case RoundCreated => 0
    case BidCommit => 1
    case RevealOpened => 2
    case BidReveal => 3
    case RoundCleared => 4
    case RoundFinalized => 5
  }

  datatype PhaseField = PhaseMissing | PhaseOther | PhaseIs(phase: Phase)

  /**
   * One element of the `events` array of a receipt from anywhere: null, something that is not an object,
   * or an object whose fields may be malformed (`None`: not one of the known names, not an integer, not a string).
   */
  datatype Entry =
    | NullEntry
    | Primitive
    | Event(name: Option<EventName>, topicsOk: bool, ledger: Option<int>, phase: PhaseField, roundId: Option<string>)

  datatype Severity = Error | Warning

  datatype Code =
    | ContractMismatch | NetworkMismatch
    | MissingEvents | InvalidEventEntry | UnknownEventName | InvalidEventTopics
    | EventPhaseMismatch | InvalidEventRoundId | EventRoundIdMismatch
    | NotInLedgerOrder | DuplicateSettleEvent | MissingEventsRequired

  /** `at` is the index of the event complained about, when there is one. */
  datatype Issue = Issue(severity: Severity, code: Code, at: Option<nat>)

  /** What the event checks read of a receipt. `events` is `None` when it is not an array. */
  datatype Log = Log(
    contractId: Option<string>,
    network: Option<string>,
    roundId: Option<string>,
    status: Option<RoundTypes.Status>,
    events: Option<seq<Entry>>)

  datatype Expectation = Expectation(contractId: Option<string>, network: Option<string>)

  /** Reading a property of null. */
  datatype Thrown = TypeError

  predicate IsRoundId(s: Option<string>) {
    s.Some? && Decimal.IsDigits(s.value)
  }

  function NameOf(e: Entry): Option<EventName> {
    if e.Event? then e.name else None
  }

  predicate IsFinal(e: Entry) {
    NameOf(e) == Some(Settled) || NameOf(e) == Some(Voided)
  }

  // ---- The issues of each part, in the order they are added --------------------------------------

  function Complaint(when: bool, code: Code, at: Option<nat>): seq<Issue> {
    if when then [Issue(Error, code, at)] else []
  }

  function IdentityIssues(log: Log, expected: Expectation): seq<Issue> {
    Complaint(expected.contractId.Some? && log.contractId != expected.contractId, ContractMismatch, None)
    + Complaint(expected.network.Some? && log.network != expected.network, NetworkMismatch, None)
  }

  function RoundIdIssues(i: nat, roundId: Option<string>, receiptRoundId: Option<string>): seq<Issue> {
    if !IsRoundId(roundId) then [Issue(Error, InvalidEventRoundId, Some(i))]
    else Complaint(IsRoundId(receiptRoundId) && roundId != receiptRoundId, EventRoundIdMismatch, Some(i))
  }

  predicate PhaseAgrees(name: Option<EventName>, phase: PhaseField) {
    name.Some? && phase == PhaseIs(PhaseOf(name.value))
  }

  function EntryIssues(i: nat, e: Entry, receiptRoundId: Option<string>): seq<Issue> {
    if !e.Event? then [Issue(Error, InvalidEventEntry, Some(i))]
    else
      Complaint(e.name.None?, UnknownEventName, Some(i))
      + Complaint(!e.topicsOk, InvalidEventTopics, Some(i))
      + Complaint(e.ledger.None?, InvalidEventEntry, Some(i))
      + Complaint(!PhaseAgrees(e.name, e.phase), EventPhaseMismatch, Some(i))
      + RoundIdIssues(i, e.roundId, receiptRoundId)
  }

  function EntriesIssues(events: seq<Entry>, receiptRoundId: Option<string>): seq<Issue> {
    if events == [] then []
    else
      var front := EntriesIssues(events[..|events| - 1], receiptRoundId);
      front + EntryIssues(|events| - 1, events[|events| - 1], receiptRoundId)
  }

  /** The second event regresses behind the first; unknown names are not compared. */
  predicate Regresses(prev: Entry, curr: Entry) {
    && NameOf(prev).Some? && NameOf(curr).Some?
    && Rank(PhaseOf(NameOf(curr).value)) < Rank(PhaseOf(NameOf(prev).value))
  }

  function OrderIssues(events: seq<Entry>): seq<Issue> {
    if |events| < 2 then []
    else
      var n := |events|;
      OrderIssues(events[..n - 1]) + Complaint(Regresses(events[n - 2], events[n - 1]), NotInLedgerOrder, Some(n - 1))
  }

  function FinalCount(events: seq<Entry>): nat {
    if events == [] then 0
    else FinalCount(events[..|events| - 1]) + if IsFinal(events[|events| - 1]) then 1 else 0
  }

  function Names(events: seq<Entry>): set<EventName> {
    set e | e in events && NameOf(e).Some? :: NameOf(e).value
  }

  function MissingIssues(required: seq<EventName>, present: set<EventName>): seq<Issue> {
    if required == [] then []
    else MissingIssues(required[..|required| - 1], present)
         + Complaint(required[|required| - 1] !in present, MissingEventsRequired, None)
  }

  function StatusIssues(status: Option<RoundTypes.Status>, present: set<EventName>): seq<Issue> {
    if status == Some(RoundTypes.Settled) then
      MissingIssues(LIFECYCLE_ORDER, present) + Complaint(Voided in present, EventPhaseMismatch, None)
    else if status == Some(RoundTypes.Voided) then
      Complaint(Voided !in present, MissingEventsRequired, None)
      + Complaint(Created !in present, MissingEventsRequired, None)
      + Complaint(Settled in present, EventPhaseMismatch, None)
    else if Settled in present || Voided in present then [Issue(Warning, EventPhaseMismatch, None)]
    else []
  }

  function EventIssues(events: seq<Entry>, log: Log): seq<Issue> {
    EntriesIssues(events, log.roundId) + OrderIssues(events)
    + Complaint(FinalCount(events) > 1, DuplicateSettleEvent, None)
    + StatusIssues(log.status, Names(events))
  }

  function LogIssues(log: Log, expected: Expectation): seq<Issue> {
    IdentityIssues(log, expected)
    + if log.events.None? || log.events.value == [] then [Issue(Error, MissingEvents, None)]
      else EventIssues(log.events.value, log)
  }

  ghost predicate Clean(issues: seq<Issue>) {
    forall x :: x in issues ==> x.severity != Error
  }

  // ---- The verifier -----------------------------------------------------------------------------------

  method CheckEntry(i: nat, e: Entry, receiptRoundId: Option<string>, issues: seq<Issue>) returns (r: seq<Issue>)
    ensures r == issues + EntryIssues(i, e, receiptRoundId)
  {
    hide Complaint, RoundIdIssues, PhaseAgrees;
    if !e.Event? {
      return issues + [Issue(Error, InvalidEventEntry, Some(i))];
    }
    var shaped := CheckShape(i, e, issues);
    ghost var shape := Complaint(e.name.None?, UnknownEventName, Some(i))
        + Complaint(!e.topicsOk, InvalidEventTopics, Some(i)) + Complaint(e.ledger.None?, InvalidEventEntry, Some(i));
    assert shaped == issues + shape;
    var phased := CheckPhase(i, e, shaped);
    r := CheckRoundId(i, e.roundId, receiptRoundId, phased);
    ghost var phase := Complaint(!PhaseAgrees(e.name, e.phase), EventPhaseMismatch, Some(i));
    assert issues + shape + phase + RoundIdIssues(i, e.roundId, receiptRoundId)
        == issues + (shape + phase + RoundIdIssues(i, e.roundId, receiptRoundId));
  }

  method CheckShape(i: nat, e: Entry, issues: seq<Issue>) returns (r: seq<Issue>)
    requires e.Event?
    ensures r == issues + Complaint(e.name.None?, UnknownEventName, Some(i))
                 + Complaint(!e.topicsOk, InvalidEventTopics, Some(i))
                     + Complaint(e.ledger.None?, InvalidEventEntry, Some(i))
  {
    r := issues;
    if e.name.None? {
      r := r + [Issue(Error, UnknownEventName, Some(i))];
    }
    if !e.topicsOk {
      r := r + [Issue(Error, InvalidEventTopics, Some(i))];
    }
    if e.ledger.None? {
      r := r + [Issue(Error, InvalidEventEntry, Some(i))];
    }
  }

  method CheckPhase(i: nat, e: Entry, issues: seq<Issue>) returns (r: seq<Issue>)
    requires e.Event?
    ensures r == issues + Complaint(!PhaseAgrees(e.name, e.phase), EventPhaseMismatch, Some(i))
  {
    r := issues;
    if e.phase.PhaseMissing? {
      r := r + [Issue(Error, EventPhaseMismatch, Some(i))];
    } else if !PhaseAgrees(e.name, e.phase) {
      r := r + [Issue(Error, EventPhaseMismatch, Some(i))];
    }
  }

  method CheckRoundId(i: nat, roundId: Option<string>, receiptRoundId: Option<string>, issues: seq<Issue>)
    returns (r: seq<Issue>)
    ensures r == issues + RoundIdIssues(i, roundId, receiptRoundId)
  {
    r := issues;
    if !IsRoundId(roundId) {
      r := r + [Issue(Error, InvalidEventRoundId, Some(i))];
    } else if IsRoundId(receiptRoundId) && roundId != receiptRoundId {
      r := r + [Issue(Error, EventRoundIdMismatch, Some(i))];
    }
  }

  method CheckEntries(events: seq<Entry>, receiptRoundId: Option<string>, issues: seq<Issue>) returns (r: seq<Issue>)
    ensures r == issues + EntriesIssues(events, receiptRoundId)
  {
    hide EntryIssues;
    r := issues;
    for i := 0 to |events|
      invariant r == issues + EntriesIssues(events[..i], receiptRoundId)
    {
      r := CheckEntry(i, events[i], receiptRoundId, r);
      assert events[..i + 1][..i] == events[..i];
    }
    assert events[..|events|] == events;
  }

  /** Throws on the first null it reads a name of. */
  method CheckOrder(events: seq<Entry>, issues: seq<Issue>) returns (r: Result<seq<Issue>, Thrown>)
    ensures if |events| >= 2 && NullEntry in events then r == Err(TypeError) else r == Ok(issues + OrderIssues(events))
  {
    var found := issues;
    assert issues + [] == issues;
    if |events| < 2 {
      return Ok(found);
    }
    assert events[..1][..0] == [];
    for i := 1 to |events|
      invariant i > 1 ==> NullEntry !in events[..i]
      invariant found == issues + OrderIssues(events[..i])
    {
      if events[i - 1].NullEntry? || events[i].NullEntry? {
        return Err(TypeError);
      }
      assert events[..i + 1][..i] == events[..i];
      if Regresses(events[i - 1], events[i]) {
        found := found + [Issue(Error, NotInLedgerOrder, Some(i))];
      }
    }
    assert events[..|events|] == events;
    r := Ok(found);
  }

  /** The settle-phase events, and the names present. */
  method ScanNames(events: seq<Entry>) returns (r: Result<(nat, set<EventName>), Thrown>)
    ensures if NullEntry in events then r == Err(TypeError) else r == Ok((FinalCount(events), Names(events)))
  {
    var finals, present := 0, {};
    for i := 0 to |events|
      invariant NullEntry !in events[..i]
      invariant finals == FinalCount(events[..i]) && present == Names(events[..i])
    {
      if events[i].NullEntry? {
        return Err(TypeError);
      }
      assert events[..i + 1][..i] == events[..i] && events[..i + 1] == events[..i] + [events[i]];
      if IsFinal(events[i]) {
        finals := finals + 1;
      }
      if NameOf(events[i]).Some? {
        present := present + {NameOf(events[i]).value};
      }
    }
    assert events[..|events|] == events;
    r := Ok((finals, present));
  }

  method CheckRequired(present: set<EventName>, issues: seq<Issue>) returns (r: seq<Issue>)
    ensures r == issues + MissingIssues(LIFECYCLE_ORDER, present)
  {
    r := issues;
    var required := LIFECYCLE_ORDER;
    for i := 0 to |required|
      invariant r == issues + MissingIssues(required[..i], present)
    {
      assert required[..i + 1][..i] == required[..i];
      if required[i] !in present {
        r := r + [Issue(Error, MissingEventsRequired, None)];
      }
    }
    assert required[..|required|] == required;
  }

  method CheckStatus(status: Option<RoundTypes.Status>, present: set<EventName>,
          issues: seq<Issue>) returns (r: seq<Issue>)
    ensures r == issues + StatusIssues(status, present)
  {
    hide MissingIssues;
    r := issues;
    if status == Some(RoundTypes.Settled) {
      r := CheckRequired(present, r);
      if Voided in present {
        r := r + [Issue(Error, EventPhaseMismatch, None)];
      }
    } else if status == Some(RoundTypes.Voided) {
      if Voided !in present {
        r := r + [Issue(Error, MissingEventsRequired, None)];
      }
      if Created !in present {
        r := r + [Issue(Error, MissingEventsRequired, None)];
      }
      if Settled in present {
        r := r + [Issue(Error, EventPhaseMismatch, None)];
      }
    } else if Settled in present || Voided in present {
      r := r + [Issue(Warning, EventPhaseMismatch, None)];
    }
  }

  method HasErrors(issues: seq<Issue>) returns (r: bool)
    ensures r == !Clean(issues)
  {
    for i := 0 to |issues|
      invariant Clean(issues[..i])
    {
      if issues[i].severity == Error {
        return true;
      }
    }
    assert issues[..|issues|] == issues;
    r := false;
  }

  /** `verifyReceiptEvents`: the issues found, and whether none of them is an error; a null entry throws. */
  method VerifyReceiptEvents(log: Log, expected: Expectation) returns (r: Result<(bool, seq<Issue>), Thrown>)
    ensures if log.events.Some? && NullEntry in log.events.value then r == Err(TypeError)
            else r.Ok? && r.value.1 == LogIssues(log, expected) && r.value.0 == Clean(r.value.1)
  {
    hide IdentityIssues, EntriesIssues, OrderIssues, FinalCount, Names, StatusIssues;
    var issues := CheckIdentity(log, expected);
    if log.events.None? || log.events.value == [] {
      issues := issues + [Issue(Error, MissingEvents, None)];
      assert issues[|issues| - 1] in issues;
      return Ok((false, issues));
    }
    var events := log.events.value;
    issues := CheckEntries(events, log.roundId, issues);
    issues :- CheckOrder(events, issues);
    var scanned :- ScanNames(events);
    var (finals, present) := scanned;
    if finals > 1 {
      issues := issues + [Issue(Error, DuplicateSettleEvent, None)];
    }
    issues := CheckStatus(log.status, present, issues);
    assert issues == LogIssues(log, expected);
    var errors := HasErrors(issues);
    r := Ok((!errors, issues));
  }

  method CheckIdentity(log: Log, expected: Expectation) returns (r: seq<Issue>)
    ensures r == IdentityIssues(log, expected)
  {
    r := [];
    if expected.contractId.Some? {
      if log.contractId != expected.contractId {
        r := r + [Issue(Error, ContractMismatch, None)];
      }
    }
    if expected.network.Some? {
      if log.network != expected.network {
        r := r + [Issue(Error, NetworkMismatch, None)];
      }
    }
  }

  // ---- What an error-free log means ------------------------------------------------------------------------

  /** A well-formed entry, of the receipt's own round when the receipt names one. */
  ghost predicate EntryOk(e: Entry, receiptRoundId: Option<string>) {
    && e.Event? && e.name.Some? && e.topicsOk && e.ledger.Some?
    && e.phase == PhaseIs(PhaseOf(e.name.value))
    && IsRoundId(e.roundId)
    && (IsRoundId(receiptRoundId) ==> e.roundId == receiptRoundId)
  }

  ghost predicate EntriesOk(events: seq<Entry>, receiptRoundId: Option<string>) {
    forall e :: e in events ==> EntryOk(e, receiptRoundId)
  }

  ghost function RankOf(e: Entry): nat
    requires NameOf(e).Some?
  {
    Rank(PhaseOf(NameOf(e).value))
  }

  ghost predicate AllNamed(events: seq<Entry>) {
    forall e :: e in events ==> NameOf(e).Some?
  }

  /** No event, near or far, is of an earlier phase than one before it. */
  ghost predicate Ordered(events: seq<Entry>)
    requires AllNamed(events)
  {
    forall i, j :: 0 <= i < j < |events| ==> RankOf(events[i]) <= RankOf(events[j])
  }

  ghost predicate FinalOnce(events: seq<Entry>) {
    forall i, j :: 0 <= i < j < |events| ==> !(IsFinal(events[i]) && IsFinal(events[j]))
  }

  ghost predicate StatusAgrees(status: Option<RoundTypes.Status>, present: set<EventName>) {
    && (status == Some(RoundTypes.Settled) ==>
          (forall n :: n in LIFECYCLE_ORDER ==> n in present) && Voided !in present)
    && (status == Some(RoundTypes.Voided) ==> Voided in present && Created in present && Settled !in present)
  }

  ghost predicate IdentityAgrees(log: Log, expected: Expectation) {
    && (expected.contractId.Some? ==> log.contractId == expected.contractId)
    && (expected.network.Some? ==> log.network == expected.network)
  }

  ghost predicate Sound(log: Log, expected: Expectation) {
    && IdentityAgrees(log, expected)
    && log.events.Some? && log.events.value != []
    && EntriesOk(log.events.value, log.roundId)
    && AllNamed(log.events.value) && Ordered(log.events.value)
    && FinalOnce(log.events.value)
    && StatusAgrees(log.status, Names(log.events.value))
  }

  lemma CleanConcat(a: seq<Issue>, b: seq<Issue>)
    ensures Clean(a + b) <==> Clean(a) && Clean(b)
  {
    assert forall x :: x in a + b <==> x in a || x in b;
  }

  lemma CleanComplaint(when: bool, code: Code, at: Option<nat>)
    ensures Clean(Complaint(when, code, at)) <==> !when
  {
    if when {
      assert Complaint(when, code, at)[0].severity == Error;
    }
  }

  lemma CleanEntry(i: nat, e: Entry, receiptRoundId: Option<string>)
    ensures Clean(EntryIssues(i, e, receiptRoundId)) <==> EntryOk(e, receiptRoundId)
  {
    if !e.Event? {
      CleanComplaint(true, InvalidEventEntry, Some(i));
    } else {
      CleanShape(i, e);
      CleanRoundId(i, e.roundId, receiptRoundId);
      var shape := Complaint(e.name.None?, UnknownEventName, Some(i))
          + Complaint(!e.topicsOk, InvalidEventTopics, Some(i))
                   + Complaint(e.ledger.None?, InvalidEventEntry, Some(i))
                   + Complaint(!PhaseAgrees(e.name, e.phase), EventPhaseMismatch, Some(i));
      CleanConcat(shape, RoundIdIssues(i, e.roundId, receiptRoundId));
    }
    hide Clean, Complaint, RoundIdIssues;
  }

  lemma CleanShape(i: nat, e: Entry)
    requires e.Event?
    ensures Clean(Complaint(e.name.None?, UnknownEventName, Some(i))
              + Complaint(!e.topicsOk, InvalidEventTopics, Some(i))
                  + Complaint(e.ledger.None?, InvalidEventEntry, Some(i))
                  + Complaint(!PhaseAgrees(e.name, e.phase), EventPhaseMismatch, Some(i)))
            <==> e.name.Some? && e.topicsOk && e.ledger.Some? && PhaseAgrees(e.name, e.phase)
  {
    var a, b, c := Complaint(e.name.None?, UnknownEventName, Some(i)),
        Complaint(!e.topicsOk, InvalidEventTopics, Some(i)),
      Complaint(e.ledger.None?, InvalidEventEntry, Some(i));
    var d := Complaint(!PhaseAgrees(e.name, e.phase), EventPhaseMismatch, Some(i));
    CleanComplaint(e.name.None?, UnknownEventName, Some(i));
    CleanComplaint(!e.topicsOk, InvalidEventTopics, Some(i));
    CleanComplaint(e.ledger.None?, InvalidEventEntry, Some(i));
    CleanComplaint(!PhaseAgrees(e.name, e.phase), EventPhaseMismatch, Some(i));
    CleanConcat(a, b);
    CleanConcat(a + b, c);
    CleanConcat(a + b + c, d);
    hide Clean, Complaint;
  }

  lemma CleanRoundId(i: nat, roundId: Option<string>, receiptRoundId: Option<string>)
    ensures Clean(RoundIdIssues(i, roundId, receiptRoundId)) <==>
            IsRoundId(roundId) && (IsRoundId(receiptRoundId) ==> roundId == receiptRoundId)
  {
    if !IsRoundId(roundId) {
      CleanComplaint(true, InvalidEventRoundId, Some(i));
    } else {
      CleanComplaint(IsRoundId(receiptRoundId) && roundId != receiptRoundId, EventRoundIdMismatch, Some(i));
    }
    hide Clean, IsRoundId;
  }

  lemma {:induction false} CleanEntries(events: seq<Entry>, receiptRoundId: Option<string>)
    ensures Clean(EntriesIssues(events, receiptRoundId)) <==> EntriesOk(events, receiptRoundId)
  {
    hide EntryIssues, EntryOk;
    if events != [] {
      var front, last := events[..|events| - 1], events[|events| - 1];
      CleanEntries(front, receiptRoundId);
      CleanEntry(|front|, last, receiptRoundId);
      CleanConcat(EntriesIssues(front, receiptRoundId), EntryIssues(|front|, last, receiptRoundId));
      assert events == front + [last];
      hide Clean;
      assert forall e :: e in events <==> e in front || e == last;
    }
  }

  lemma {:induction false} CleanOrder(events: seq<Entry>)
    requires AllNamed(events)
    ensures Clean(OrderIssues(events)) <==> Ordered(events)
  {
    if |events| >= 2 {
      var n := |events|;
      var front := events[..n - 1];
      CleanOrder(front);
      CleanComplaint(Regresses(events[n - 2], events[n - 1]), NotInLedgerOrder, Some(n - 1));
      CleanConcat(OrderIssues(front),
          Complaint(Regresses(events[n - 2], events[n - 1]), NotInLedgerOrder, Some(n - 1)));
      hide Clean;
      assert events[n - 2] in events && events[n - 1] in events;
      OrderedSnoc(events);
    }
  }

  /** Comparing neighbours is enough. */
  lemma OrderedSnoc(events: seq<Entry>)
    requires |events| >= 2 && AllNamed(events)
    ensures Ordered(events) <==>
            Ordered(events[..|events| - 1]) && RankOf(events[|events| - 2]) <= RankOf(events[|events| - 1])
  {
    hide RankOf;
    var front := events[..|events| - 1];
    assert forall i :: 0 <= i < |front| ==> front[i] == events[i];
  }

  lemma {:induction false} FinalsCounted(events: seq<Entry>)
    ensures FinalCount(events) <= 1 <==> FinalOnce(events)
    ensures FinalCount(events) == 0 <==> forall e :: e in events ==> !IsFinal(e)
  {
    if events != [] {
      var front, last := events[..|events| - 1], events[|events| - 1];
      FinalsCounted(front);
      assert events == front + [last];
      hide IsFinal;
      assert forall i :: 0 <= i < |front| ==> front[i] == events[i];
    }
  }

  lemma CleanStatus(status: Option<RoundTypes.Status>, present: set<EventName>)
    ensures Clean(StatusIssues(status, present)) <==> StatusAgrees(status, present)
  {
    if status == Some(RoundTypes.Settled) {
      CleanMissing(LIFECYCLE_ORDER, present);
      CleanComplaint(Voided in present, EventPhaseMismatch, None);
      CleanConcat(MissingIssues(LIFECYCLE_ORDER, present), Complaint(Voided in present, EventPhaseMismatch, None));
      hide Clean, Complaint, MissingIssues;
    } else if status == Some(RoundTypes.Voided) {
      CleanComplaint(Voided !in present, MissingEventsRequired, None);
      CleanComplaint(Created !in present, MissingEventsRequired, None);
      CleanComplaint(Settled in present, EventPhaseMismatch, None);
      var a, b := Complaint(Voided !in present, MissingEventsRequired, None),
          Complaint(Created !in present, MissingEventsRequired, None);
      CleanConcat(a, b);
      CleanConcat(a + b, Complaint(Settled in present, EventPhaseMismatch, None));
      hide Clean, Complaint;
    }
  }

  lemma {:induction false} CleanMissing(required: seq<EventName>, present: set<EventName>)
    ensures Clean(MissingIssues(required, present)) <==> forall n :: n in required ==> n in present
  {
    if required != [] {
      var front, last := required[..|required| - 1], required[|required| - 1];
      CleanMissing(front, present);
      CleanComplaint(last !in present, MissingEventsRequired, None);
      CleanConcat(MissingIssues(front, present), Complaint(last !in present, MissingEventsRequired, None));
      assert required == front + [last];
      hide Clean, Complaint;
    }
  }

  /**
   * What `valid` means, for every log: the caller's identity matches, the log is there, every entry is well
   * formed and of the receipt's round, phases never go back, at most one event ends the round, and the
   * events required by the declared status are present.
   */
  lemma ValidIffSound(log: Log, expected: Expectation)
    ensures Clean(LogIssues(log, expected)) <==> Sound(log, expected)
  {
    hide EntriesIssues, OrderIssues, FinalCount, StatusIssues, Names, EntriesOk, Ordered, FinalOnce, StatusAgrees;
    CleanIdentity(log, expected);
    if log.events.None? || log.events.value == [] {
      CleanComplaint(true, MissingEvents, None);
      CleanConcat(IdentityIssues(log, expected), [Issue(Error, MissingEvents, None)]);
    } else {
      CleanEvents(log.events.value, log);
      CleanConcat(IdentityIssues(log, expected), EventIssues(log.events.value, log));
    }
    hide Clean, IdentityIssues, IdentityAgrees, EventIssues;
  }

  // ---- Ledger numbers are not compared ------------------------------------------------------------------

  /** The same log but for the values of integer ledger numbers. */
  ghost predicate SameButLedgers(es: seq<Entry>, fs: seq<Entry>) {
    && |es| == |fs|
    && forall i :: 0 <= i < |es| ==> SameButLedger(es[i], fs[i])
  }

  ghost predicate SameButLedger(e: Entry, f: Entry) {
    f == e || (e.Event? && f.Event? && e.ledger.Some? && f.ledger.Some? && f == e.(ledger := f.ledger))
  }

  lemma {:induction false} LedgersNotRead(es: seq<Entry>, fs: seq<Entry>, receiptRoundId: Option<string>)
    requires SameButLedgers(es, fs)
    ensures EntriesIssues(es, receiptRoundId) == EntriesIssues(fs, receiptRoundId)
    ensures OrderIssues(es) == OrderIssues(fs) && FinalCount(es) == FinalCount(fs)
  {
    if es != [] {
      var n := |es|;
      LedgersNotRead(es[..n - 1], fs[..n - 1], receiptRoundId);
      LedgerNotRead(n - 1, es[n - 1], fs[n - 1], receiptRoundId);
      if n > 1 {
        LedgerNotRead(n - 2, es[n - 2], fs[n - 2], receiptRoundId);
      }
      hide EntryIssues, NameOf, SameButLedger, Complaint;
    }
  }

  lemma LedgerNotRead(i: nat, e: Entry, f: Entry, receiptRoundId: Option<string>)
    requires SameButLedger(e, f)
    ensures EntryIssues(i, e, receiptRoundId) == EntryIssues(i, f, receiptRoundId) && NameOf(e) == NameOf(f)
  {
    hide RoundIdIssues, Complaint, PhaseAgrees;
  }

  lemma LedgersNotNamed(es: seq<Entry>, fs: seq<Entry>)
    requires SameButLedgers(es, fs)
    ensures Names(es) == Names(fs) && (NullEntry in es <==> NullEntry in fs)
  {
    assert forall i :: 0 <= i < |es| ==> es[i] in es && fs[i] in fs && NameOf(es[i]) == NameOf(fs[i]);
  }

  /** Whatever its ledger numbers are, a log gets the same issues, in the same order, and the same verdict. */
  lemma LedgersDoNotMatter(log: Log, fs: seq<Entry>, expected: Expectation)
    requires log.events.Some? && SameButLedgers(log.events.value, fs)
    ensures var other := log.(events := Some(fs));
            && LogIssues(other, expected) == LogIssues(log, expected)
            && (Sound(other, expected) <==> Sound(log, expected))
            && (NullEntry in fs <==> NullEntry in log.events.value)
  {
    hide Sound, EntriesIssues, OrderIssues, FinalCount, StatusIssues, Clean;
    LedgersNotRead(log.events.value, fs, log.roundId);
    LedgersNotNamed(log.events.value, fs);
    ValidIffSound(log, expected);
    ValidIffSound(log.(events := Some(fs)), expected);
  }

  /** The order the verifier's comment describes: by phase, ties broken by ledger number. */
  ghost predicate ByPhaseThenLedger(events: seq<Entry>)
    requires AllNamed(events)
  {
    forall i, j :: 0 <= i < j < |events| ==>
      RankOf(events[i]) < RankOf(events[j])
      || (RankOf(events[i]) == RankOf(events[j]) && LedgerOf(events[i]) <= LedgerOf(events[j]))
  }

  ghost function LedgerOf(e: Entry): int {
    if e.Event? && e.ledger.Some? then e.ledger.value else 0
  }

  /** No event has a lower ledger number than a neighbour of its own phase before it. */
  ghost predicate TiesAscend(events: seq<Entry>)
    requires AllNamed(events)
  {
    forall j :: 0 < j < |events| && RankOf(events[j - 1]) == RankOf(events[j]) ==>
      LedgerOf(events[j - 1]) <= LedgerOf(events[j])
  }

  lemma {:induction false} TieAscends(events: seq<Entry>, i: nat, j: nat)
    requires AllNamed(events) && Ordered(events) && TiesAscend(events)
    requires i <= j < |events| && RankOf(events[i]) == RankOf(events[j])
    ensures LedgerOf(events[i]) <= LedgerOf(events[j])
    decreases j - i
  {
    hide RankOf, LedgerOf;
    if i < j {
      assert RankOf(events[i]) <= RankOf(events[j - 1]) <= RankOf(events[j]) by {
        if i < j - 1 {
          assert RankOf(events[i]) <= RankOf(events[j - 1]);
        }
      }
      TieAscends(events, i, j - 1);
    }
  }

  /** An accepted log is in the described order exactly when neighbours of one phase do not descend. */
  lemma AcceptedOrderIff(log: Log, expected: Expectation)
    requires Sound(log, expected)
    ensures ByPhaseThenLedger(log.events.value) <==> TiesAscend(log.events.value)
  {
    var events := log.events.value;
    if TiesAscend(events) {
      forall i, j | 0 <= i < j < |events| && RankOf(events[i]) == RankOf(events[j])
        ensures LedgerOf(events[i]) <= LedgerOf(events[j])
      {
        TieAscends(events, i, j);
      }
    }
    hide RankOf, LedgerOf;
  }

  function Plain(name: EventName, ledger: int): Entry {
    Event(Some(name), true, Some(ledger), PhaseIs(PhaseOf(name)), Some("1"))
  }

  /** An accepted log that is not: its two commits come in descending ledger order. */
  lemma DescendingLedgersAccepted()
    ensures var events := [Plain(Created, 5), Plain(Commit, 9), Plain(Commit, 8)];
            var log := Log(None, None, Some("1"), Some(RoundTypes.Open), Some(events));
            Sound(log, Expectation(None, None)) && !ByPhaseThenLedger(events)
  {
    var events := [Plain(Created, 5), Plain(Commit, 9), Plain(Commit, 8)];
    assert Decimal.IsDigits("1");
    assert RankOf(events[1]) == RankOf(events[2]) && LedgerOf(events[1]) > LedgerOf(events[2]);
  }

  lemma CleanIdentity(log: Log, expected: Expectation)
    ensures Clean(IdentityIssues(log, expected)) <==> IdentityAgrees(log, expected)
  {
    var a := expected.contractId.Some? && log.contractId != expected.contractId;
    var b := expected.network.Some? && log.network != expected.network;
    CleanComplaint(a, ContractMismatch, None);
    CleanComplaint(b, NetworkMismatch, None);
    CleanConcat(Complaint(a, ContractMismatch, None), Complaint(b, NetworkMismatch, None));
    hide Clean, Complaint;
  }

  lemma CleanEvents(events: seq<Entry>, log: Log)
    ensures Clean(EventIssues(events, log)) <==>
            && EntriesOk(events, log.roundId) && AllNamed(events) && Ordered(events) && FinalOnce(events)
            && StatusAgrees(log.status, Names(events))
  {
    hide EntriesIssues, OrderIssues, FinalCount, StatusIssues, Names, Ordered, FinalOnce, StatusAgrees;
    var a, b, c := EntriesIssues(events, log.roundId), OrderIssues(events),
        Complaint(FinalCount(events) > 1, DuplicateSettleEvent, None);
    CleanEntries(events, log.roundId);
    if EntriesOk(events, log.roundId) {
      assert AllNamed(events);
      CleanOrder(events);
    }
    FinalsCounted(events);
    CleanComplaint(FinalCount(events) > 1, DuplicateSettleEvent, None);
    CleanStatus(log.status, Names(events));
    CleanConcat(a, b);
    CleanConcat(a + b, c);
    CleanConcat(a + b + c, StatusIssues(log.status, Names(events)));
    hide Clean, Complaint;
  }

  // ---- The shape of a settled round's log ---------------------------------------------------------------

  ghost predicate Block(events: seq<Entry>, lo: nat, hi: nat, name: EventName) {
    lo <= hi <= |events| && forall i :: lo <= i < hi ==> NameOf(events[i]) == Some(name)
  }

  /** Consecutive non-empty blocks in lifecycle order, the last of them a single `settled`. */
  ghost predicate BlocksAt(events: seq<Entry>, cuts: seq<nat>) {
    && |cuts| == 7 && cuts[0] == 0 && cuts[6] == |events| && cuts[5] == |events| - 1
    && forall k :: 0 <= k < 6 ==> cuts[k] < cuts[k + 1] && Block(events, cuts[k], cuts[k + 1], LIFECYCLE_ORDER[k])
  }

  /** The first position whose phase is of rank `k` or later. */
  ghost function Cut(events: seq<Entry>, k: nat): (c: nat)
    requires AllNamed(events)
    ensures c <= |events|
  {
    if events == [] || RankOf(events[0]) >= k then 0 else 1 + Cut(events[1..], k)
  }

  lemma {:induction false} CutSplits(events: seq<Entry>, k: nat)
    requires AllNamed(events) && Ordered(events)
    ensures forall i :: 0 <= i < Cut(events, k) ==> RankOf(events[i]) < k
    ensures forall i :: Cut(events, k) <= i < |events| ==> RankOf(events[i]) >= k
  {
    hide RankOf;
    if events != [] && RankOf(events[0]) < k {
      assert AllNamed(events[1..]) && Ordered(events[1..]);
      CutSplits(events[1..], k);
      forall i | 0 < i < |events|
        ensures i < Cut(events, k) ==> RankOf(events[i]) < k
        ensures i >= Cut(events, k) ==> RankOf(events[i]) >= k
      {
        assert events[i] == events[1..][i - 1];
      }
    }
  }

  lemma NameOfRank(e: Entry, k: nat)
    requires NameOf(e).Some? && NameOf(e) != Some(Voided) && RankOf(e) == k
    ensures k < 6 && NameOf(e) == Some(LIFECYCLE_ORDER[k])
  {
  }

  /** The block of rank `k` starts where rank `k` is first reached, and is not empty when its event is present. */
  lemma BlockOfRank(events: seq<Entry>, k: nat)
    requires AllNamed(events) && Ordered(events) && Voided !in Names(events)
    requires k < 6 && LIFECYCLE_ORDER[k] in Names(events)
    ensures Cut(events, k) < Cut(events, k + 1)
    ensures Block(events, Cut(events, k), Cut(events, k + 1), LIFECYCLE_ORDER[k])
  {
    hide RankOf;
    CutSplits(events, k);
    CutSplits(events, k + 1);
    var e :| e in events && NameOf(e) == Some(LIFECYCLE_ORDER[k]);
    RankOfName(e, k);
    var at :| 0 <= at < |events| && events[at] == e;
    forall i | Cut(events, k) <= i < Cut(events, k + 1)
      ensures NameOf(events[i]) == Some(LIFECYCLE_ORDER[k])
    {
      assert events[i] in events;
      NameOfRank(events[i], k);
    }
  }

  lemma RankOfName(e: Entry, k: nat)
    requires k < 6 && NameOf(e) == Some(LIFECYCLE_ORDER[k])
    ensures RankOf(e) == k
  {
  }

  lemma RankBelowSix(e: Entry)
    requires NameOf(e).Some?
    ensures RankOf(e) < 6 && (RankOf(e) == 5 ==> IsFinal(e))
  {
  }

  lemma CutEnds(events: seq<Entry>)
    requires AllNamed(events) && Ordered(events)
    ensures Cut(events, 0) == 0 && Cut(events, 6) == |events|
  {
    hide RankOf, Ordered;
    CutSplits(events, 6);
    if Cut(events, 6) < |events| {
      assert events[Cut(events, 6)] in events;
      RankBelowSix(events[Cut(events, 6)]);
    }
  }

  /** A single final event sits at the very end. */
  lemma LastCut(events: seq<Entry>)
    requires AllNamed(events) && Ordered(events) && FinalOnce(events)
    requires Cut(events, 5) < |events|
    ensures Cut(events, 5) == |events| - 1
  {
    hide RankOf, Ordered, Cut, IsFinal;
    CutSplits(events, 5);
    if Cut(events, 5) < |events| - 1 {
      var i := Cut(events, 5);
      assert events[i] in events && events[i + 1] in events;
      RankBelowSix(events[i]);
      RankBelowSix(events[i + 1]);
    }
  }

  ghost function Cuts(events: seq<Entry>): seq<nat>
    requires AllNamed(events)
  {
    [Cut(events, 0), Cut(events, 1), Cut(events, 2), Cut(events, 3), Cut(events, 4), Cut(events, 5), Cut(events, 6)]
  }

  /** A sound log of a settled round falls into the six lifecycle blocks, with one final `settled`. */
  lemma SoundIsBlocks(events: seq<Entry>)
    requires AllNamed(events) && Ordered(events) && FinalOnce(events)
    requires StatusAgrees(Some(RoundTypes.Settled), Names(events))
    ensures BlocksAt(events, Cuts(events))
  {
    hide Ordered, Names, FinalOnce, Cut, Block;
    CutEnds(events);
    forall k | 0 <= k < 6
      ensures Cut(events, k) < Cut(events, k + 1)
              && Block(events, Cut(events, k), Cut(events, k + 1), LIFECYCLE_ORDER[k])
    {
      assert LIFECYCLE_ORDER[k] in LIFECYCLE_ORDER;
      BlockOfRank(events, k);
    }
    assert Cut(events, 5) < Cut(events, 5 + 1);
    LastCut(events);
  }

  ghost function BlockAt(cuts: seq<nat>, i: nat): nat
    requires |cuts| == 7
  {
    if i < cuts[1] then 0 else if i < cuts[2] then 1 else if i < cuts[3] then 2
    else if i < cuts[4] then 3 else if i < cuts[5] then 4 else 5
  }

  lemma RankInBlock(events: seq<Entry>, cuts: seq<nat>, i: nat)
    requires BlocksAt(events, cuts) && i < |events|
    ensures NameOf(events[i]) == Some(LIFECYCLE_ORDER[BlockAt(cuts, i)]) && RankOf(events[i]) == BlockAt(cuts, i)
  {
    var k := BlockAt(cuts, i);
    assert cuts[k] <= i < cuts[k + 1];
    RankOfName(events[i], k);
  }

  /** Conversely the six blocks are named, ordered, finished once, and complete. */
  lemma BlocksAreSound(events: seq<Entry>, cuts: seq<nat>)
    requires BlocksAt(events, cuts)
    ensures AllNamed(events) && Ordered(events) && FinalOnce(events)
    ensures StatusAgrees(Some(RoundTypes.Settled), Names(events))
  {
    hide RankOf;
    forall i | 0 <= i < |events|
      ensures NameOf(events[i]) == Some(LIFECYCLE_ORDER[BlockAt(cuts, i)]) && NameOf(events[i]) != Some(Voided)
      ensures NameOf(events[i]).Some? && RankOf(events[i]) == BlockAt(cuts, i)
      ensures IsFinal(events[i]) ==> i == |events| - 1
    {
      RankInBlock(events, cuts, i);
    }
    assert AllNamed(events);
    forall i, j | 0 <= i < j < |events|
      ensures RankOf(events[i]) <= RankOf(events[j])
    {
      assert BlockAt(cuts, i) <= BlockAt(cuts, j);
    }
    forall k | 0 <= k < 6
      ensures LIFECYCLE_ORDER[k] in Names(events)
    {
      assert NameOf(events[cuts[k]]) == Some(LIFECYCLE_ORDER[k]);
      assert events[cuts[k]] in events;
    }
  }

  /**
   * For a receipt that declares Settled: the log is valid exactly when the identity matches, every entry is
   * well formed and of this round, and the log is non-empty blocks of created, commit, revealing, reveal and
   * cleared in that order, then one final settled.
   */
  lemma SettledLogIsBlocks(log: Log, expected: Expectation)
    requires log.status == Some(RoundTypes.Settled)
    ensures Clean(LogIssues(log, expected)) <==>
            && IdentityAgrees(log, expected)
            && log.events.Some? && EntriesOk(log.events.value, log.roundId)
            && exists cuts :: BlocksAt(log.events.value, cuts)
  {
    ValidIffSound(log, expected);
    hide LogIssues, Names, Ordered, FinalOnce, Block;
    if Sound(log, expected) {
      SoundIsBlocks(log.events.value);
      assert BlocksAt(log.events.value, Cuts(log.events.value));
    }
    if log.events.Some? && exists cuts :: BlocksAt(log.events.value, cuts) {
      var cuts :| BlocksAt(log.events.value, cuts);
      BlocksAreSound(log.events.value, cuts);
    }
  }

  // ---- The log the exporter writes ------------------------------------------------------------------------

  function Max(a: int, b: int): int {
    if a >= b then a else b
  }

  function LedgerBase(name: EventName, commitDeadline: nat, revealDeadline: nat): int {
    match name
    case Created => Max(1, commitDeadline - 10)
    case Commit => Max(1, commitDeadline)
    case Revealing => Max(1, commitDeadline)
    case Reveal => Max(1, revealDeadline)
    case _ => Max(1, revealDeadline + 1)
  }

  /** `#roundEventLog`: always the full healthy lifecycle, whatever the round's status. */
  function RoundEventLog(roundId: string, commitDeadline: nat, revealDeadline: nat): seq<Entry> {
    seq(|LIFECYCLE_ORDER|, i requires 0 <= i < |LIFECYCLE_ORDER| =>
      var name := LIFECYCLE_ORDER[i];
      Event(Some(name), true, Some(LedgerBase(name, commitDeadline, revealDeadline) + i), PhaseIs(PhaseOf(name)),
          Some(roundId)))
  }

  /** The six events: created before the commit deadline, reveals and what follows after the reveal deadline. */
  lemma ExportedLedgersAre(roundId: string, commitDeadline: nat, revealDeadline: nat)
    ensures var es := RoundEventLog(roundId, commitDeadline, revealDeadline);
            && |es| == 6 && (forall i :: 0 <= i < 6 ==> NameOf(es[i]) == Some(LIFECYCLE_ORDER[i]))
            && (commitDeadline > 10 && revealDeadline > 0 ==>
                  && es[0].ledger == Some(commitDeadline - 10) && es[1].ledger == Some(commitDeadline + 1)
                  && es[2].ledger == Some(commitDeadline + 2) && es[3].ledger == Some(revealDeadline + 3)
                  && es[4].ledger == Some(revealDeadline + 5) && es[5].ledger == Some(revealDeadline + 6))
  {
  }

  /** Its ledger numbers ascend strictly exactly when the commit deadline is not past the reveal deadline. */
  lemma ExportedLedgersAscend(roundId: string, commitDeadline: nat, revealDeadline: nat)
    ensures var es := RoundEventLog(roundId, commitDeadline, revealDeadline);
            (forall i, j :: 0 <= i < j < |es| ==> es[i].ledger.value < es[j].ledger.value)
            <==> commitDeadline <= Max(1, revealDeadline)
  {
    var es := RoundEventLog(roundId, commitDeadline, revealDeadline);
    var a, b, c, d, e, f := es[0].ledger.value, es[1].ledger.value, es[2].ledger.value, es[3].ledger.value,
        es[4].ledger.value, es[5].ledger.value;
    assert a < b < c && d < e < f;
    assert c < d <==> commitDeadline <= Max(1, revealDeadline);
  }

  /**
   * A receipt carrying the exporter's log passes the event checks exactly when the round is not Voided: the
   * exporter lists a `settled` event, and no `voided` one, for voided rounds too.
   */
  lemma ExportedLogValidIff(log: Log, expected: Expectation, roundId: string, commitDeadline: nat, revealDeadline: nat)
    requires Decimal.IsDigits(roundId) && log.roundId == Some(roundId) && log.status.Some?
    requires log.events == Some(RoundEventLog(roundId, commitDeadline, revealDeadline))
    requires IdentityAgrees(log, expected)
    ensures Clean(LogIssues(log, expected)) <==> log.status != Some(RoundTypes.Voided)
  {
    hide LogIssues, Names, Ordered, FinalOnce, RoundEventLog;
    ValidIffSound(log, expected);
    ExportedIsBlocks(roundId, commitDeadline, revealDeadline);
    BlocksAreSound(log.events.value, [0, 1, 2, 3, 4, 5, 6]);
  }

  lemma ExportedIsBlocks(roundId: string, commitDeadline: nat, revealDeadline: nat)
    requires Decimal.IsDigits(roundId)
    ensures var es := RoundEventLog(roundId, commitDeadline, revealDeadline);
            BlocksAt(es, [0, 1, 2, 3, 4, 5, 6]) && EntriesOk(es, Some(roundId))
  {
    hide LedgerBase, Decimal.IsDigits;
    var es := RoundEventLog(roundId, commitDeadline, revealDeadline);
    forall k | 0 <= k < 6
      ensures NameOf(es[k]) == Some(LIFECYCLE_ORDER[k]) && EntryOk(es[k], Some(roundId))
    {
      assert PhaseAgrees(es[k].name, es[k].phase);
    }
    assert |es| == 6;
    hide EntryOk, RoundEventLog;
    assert EntriesOk(es, Some(roundId));
  }
}
