/** What each issue of a receipt stands for: the verifier reports exactly the defects there are. */
module ReceiptReport {
  import opened Prelude
  import opened RoundTypes
  import opened Receipt
  import Commitment
  import Hex
  import Decimal
  import Events = ReceiptEvents

  // ---- The event log ---------------------------------------------------------------------------------

  /** What is wrong with one event, apart from its place among the others. */
  ghost predicate EntryHas(e: Events.Entry, receiptRoundId: Option<string>, code: Events.Code) {
    if !e.Event? then code == Events.InvalidEventEntry
    else
      match code
      case InvalidEventEntry => e.ledger.None?
      case UnknownEventName => e.name.None?
      case InvalidEventTopics => !e.topicsOk
      case EventPhaseMismatch => e.name.None? || e.phase != Events.PhaseIs(Events.PhaseOf(e.name.value))
      case InvalidEventRoundId => e.roundId.None? || !Decimal.IsDigits(e.roundId.value)
      case EventRoundIdMismatch =>
        Events.IsRoundId(e.roundId) && Events.IsRoundId(receiptRoundId) && e.roundId != receiptRoundId
      case _ => false
  }

  ghost predicate Named(es: seq<Events.Entry>, name: Events.EventName) {
    exists e :: e in es && Events.NameOf(e) == Some(name)
  }

  /** An event the declared status calls for is missing. */
  ghost predicate LacksEvent(es: seq<Events.Entry>, status: Option<Status>) {
    || (status == Some(Settled) && exists n :: n in Events.LIFECYCLE_ORDER && !Named(es, n))
    || (status == Some(Status.Voided) && (!Named(es, Events.Voided) || !Named(es, Events.Created)))
  }

  /** The log ends the round otherwise than its declared status says; only a warning when it declares no end. */
  ghost predicate EndsOtherwise(es: seq<Events.Entry>, status: Option<Status>, severity: Events.Severity) {
    if status == Some(Status.Settled) then severity == Events.Error && Named(es, Events.Voided)
    else if status == Some(Status.Voided) then severity == Events.Error && Named(es, Events.Settled)
    else severity == Events.Warning && (Named(es, Events.Settled) || Named(es, Events.Voided))
  }

  /** The defect of a non-empty log that an issue stands for. */
  ghost predicate EventsHave(es: seq<Events.Entry>, log: Events.Log, x: Events.Issue) {
    match x.at
    case Some(i) =>
      && x.severity == Events.Error && i < |es|
      && (EntryHas(es[i], log.roundId, x.code)
          || (x.code == Events.NotInLedgerOrder && i > 0 && Events.Regresses(es[i - 1], es[i])))
    case None =>
      match x.code
      case DuplicateSettleEvent => x.severity == Events.Error && !Events.FinalOnce(es)
      case MissingEventsRequired => x.severity == Events.Error && LacksEvent(es, log.status)
      case EventPhaseMismatch => EndsOtherwise(es, log.status, x.severity)
      case _ => false
  }

  /** The defect of a log that an issue stands for. */
  ghost predicate LogHas(log: Events.Log, expected: Events.Expectation, x: Events.Issue) {
    match x.code
    case ContractMismatch =>
      x == Events.Issue(Events.Error, x.code, None) && expected.contractId.Some?
      && log.contractId != expected.contractId
    case NetworkMismatch =>
      x == Events.Issue(Events.Error, x.code, None) && expected.network.Some? && log.network != expected.network
    case MissingEvents =>
      x == Events.Issue(Events.Error, x.code, None) && (log.events.None? || log.events.value == [])
    case _ => log.events.Some? && log.events.value != [] && EventsHave(log.events.value, log, x)
  }

  lemma EntryIssuesAre(i: nat, e: Events.Entry, receiptRoundId: Option<string>, x: Events.Issue)
    ensures x in Events.EntryIssues(i, e, receiptRoundId) <==>
            x.severity == Events.Error && x.at == Some(i) && EntryHas(e, receiptRoundId, x.code)
  {
    hide Decimal.IsDigits;
  }

  lemma {:induction false} EntriesIssuesAre(es: seq<Events.Entry>, receiptRoundId: Option<string>, x: Events.Issue)
    ensures x in Events.EntriesIssues(es, receiptRoundId) <==>
            && x.severity == Events.Error && x.at.Some? && x.at.value < |es|
            && EntryHas(es[x.at.value], receiptRoundId, x.code)
  {
    if es != [] {
      var n := |es| - 1;
      EntriesIssuesAre(es[..n], receiptRoundId, x);
      EntryIssuesAre(n, es[n], receiptRoundId, x);
    }
    hide EntryHas, Events.EntryIssues;
  }

  lemma {:induction false} OrderIssuesAre(es: seq<Events.Entry>, x: Events.Issue)
    ensures x in Events.OrderIssues(es) <==>
            && x.severity == Events.Error && x.code == Events.NotInLedgerOrder
            && x.at.Some? && 0 < x.at.value < |es| && Events.Regresses(es[x.at.value - 1], es[x.at.value])
  {
    if |es| >= 2 {
      OrderIssuesAre(es[..|es| - 1], x);
    }
    hide Events.Regresses;
  }

  lemma {:induction false} MissingAre(required: seq<Events.EventName>, present: set<Events.EventName>, x: Events.Issue)
    ensures x in Events.MissingIssues(required, present) <==>
            && x == Events.Issue(Events.Error, Events.MissingEventsRequired, None)
            && exists n :: n in required && n !in present
  {
    if required != [] {
      var n := |required| - 1;
      MissingAre(required[..n], present, x);
      assert forall name :: name in required <==> name in required[..n] || name == required[n];
    }
  }

  lemma NamesAre(es: seq<Events.Entry>)
    ensures forall n :: n in Events.Names(es) <==> Named(es, n)
  {
  }

  lemma StatusIssuesAre(es: seq<Events.Entry>, status: Option<Status>, x: Events.Issue)
    ensures x in Events.StatusIssues(status, Events.Names(es)) <==>
            && x.at.None?
            && ((x.severity == Events.Error && x.code == Events.MissingEventsRequired && LacksEvent(es, status))
                || (x.code == Events.EventPhaseMismatch && EndsOtherwise(es, status, x.severity)))
  {
    NamesAre(es);
    MissingAre(Events.LIFECYCLE_ORDER, Events.Names(es), x);
    hide Named, Events.Names, Events.MissingIssues;
  }

  lemma EventIssuesAre(es: seq<Events.Entry>, log: Events.Log, x: Events.Issue)
    ensures x in Events.EventIssues(es, log) <==> EventsHave(es, log, x)
  {
    EntriesIssuesAre(es, log.roundId, x);
    OrderIssuesAre(es, x);
    Events.FinalsCounted(es);
    StatusIssuesAre(es, log.status, x);
    hide Events.EntriesIssues, Events.OrderIssues, Events.FinalCount, Events.FinalOnce;
    hide Events.StatusIssues, Events.Names;
    hide LacksEvent, EndsOtherwise, Events.Regresses;
  }

  /** The event checks report exactly the defects of the log, each at its own event. */
  lemma LogIssuesAre(log: Events.Log, expected: Events.Expectation, x: Events.Issue)
    ensures x in Events.LogIssues(log, expected) <==> LogHas(log, expected, x)
  {
    if log.events.Some? && log.events.value != [] {
      EventIssuesAre(log.events.value, log, x);
      if EventsHave(log.events.value, log, x) {
        NotIdentity(log.events.value, log, x);
      }
    }
    hide Events.EventIssues, EventsHave;
  }

  lemma NotIdentity(es: seq<Events.Entry>, log: Events.Log, x: Events.Issue)
    requires EventsHave(es, log, x)
    ensures x.code !in {Events.ContractMismatch, Events.NetworkMismatch, Events.MissingEvents}
  {
    hide Events.Regresses, Events.FinalOnce, LacksEvent, EndsOtherwise, Decimal.IsDigits;
  }

  // ---- The receipt --------------------------------------------------------------------------------------

  /** What is wrong with one bid. */
  ghost predicate BidHas(h: Host, e: BidEntry, code: Code) {
    var value := if e.revealedValue.Some? then h.bigInt(e.revealedValue.value) else None;
    var bytes := if e.nonce.Some? then Hex.FromHexOf(e.nonce.value) else Err(Hex.OddLength);
    match code
    case InvalidCommitment => e.commitment.None? || |e.commitment.value| != 64 || !Hex.AllHex(e.commitment.value)
    case InvalidEscrow => h.bigInt(e.escrow).None? || h.bigInt(e.escrow).value < 0
    case PartialReveal => e.revealedValue.None? && e.nonce.Some?
    case InvalidRevealedValue => e.revealedValue.Some? && value.None?
    case InvalidNonce => value.Some? && e.nonce.Some? && bytes.Err?
    case InvalidNonceLength => value.Some? && bytes.Ok? && |bytes.value| != 32
    case CommitmentMismatch =>
      value.Some? && bytes.Ok? && |bytes.value| == 32 && InI128(value.value) && e.commitment.Some? && !Binds(h, e)
    case _ => false
  }

  ghost predicate EvidenceHas(e: BidEntry) {
    e.evidence.Some? && (!IsHexText(e.evidence.value.ciphertext) || !IsHexText(e.evidence.value.auditorBlob))
  }

  ghost predicate HasNetwork(r: Receipt) {
    r.log.network.Some? && r.log.network.value != ""
  }

  ghost predicate SchemaHas(h: Host, r: Receipt, code: Code) {
    match code
    case MissingNetwork => !HasNetwork(r)
    case NetworkMismatch => HasNetwork(r) && r.networkFingerprint != Some(h.fingerprint(r.log.network.value))
    case ForeignContract => HasNetwork(r) && !IsContractAddress(r.log.contractId)
    case InvalidContractId => !IsContractAddress(r.log.contractId)
    case InvalidRoundId => r.log.roundId.None? || h.bigInt(r.log.roundId.value).None?
    case InvalidClearingRule => r.clearingRule.None?
    case _ => false
  }

  ghost predicate NonAccount(bidders: seq<Address>) {
    exists b :: b in bidders && !b.Account?
  }

  ghost predicate Orphan(r: Receipt, bidders: seq<Address>) {
    exists b :: b in r.bids && b !in bidders
  }

  ghost predicate Unentered(r: Receipt, bidders: seq<Address>) {
    exists b :: b in bidders && b !in r.bids
  }

  ghost predicate SomeEvidenceHas(r: Receipt, bidders: seq<Address>) {
    exists b :: b in bidders && EntryAt(r, b).Some? && EvidenceHas(EntryAt(r, b).value)
  }

  ghost predicate SomeBidHas(h: Host, r: Receipt, bidders: seq<Address>, code: Code) {
    exists b :: b in bidders && EntryAt(r, b).Some? && BidHas(h, EntryAt(r, b).value, code)
  }

  ghost predicate BiddersHave(h: Host, r: Receipt, bidders: seq<Address>, code: Code) {
    match code
    case InvalidBidder => NonAccount(bidders)
    case DuplicateBidder => !NoDup(bidders)
    case OrphanBidEntry => Orphan(r, bidders)
    case MissingBidEntry => Unentered(r, bidders)
    case InvalidEvidenceHex => SomeEvidenceHas(r, bidders)
    case WinnerMismatch =>
      Computed(h, r, bidders).Some? && r.winner.Some? && r.winner.value != Computed(h, r, bidders).value.0
    case _ => SomeBidHas(h, r, bidders, code)
  }

  ghost predicate LogReports(log: Events.Log, expected: Events.Expectation, severity: Events.Severity,
                             code: Events.Code)
  {
    exists at :: LogHas(log, expected, Events.Issue(severity, code, at))
  }

  ghost predicate SchemaReports(h: Host, r: Receipt, x: Issue) {
    || (x.severity == Events.Error && SchemaHas(h, r, x.code))
    || (x == Issue(Events.Warning, UnknownStatus) && r.log.status.None?)
  }

  ghost predicate BiddersReport(h: Host, r: Receipt, bidders: seq<Address>, x: Issue) {
    || (x.severity == Events.Error && BiddersHave(h, r, bidders, x.code))
    || (x == Issue(Events.Warning, WinnerNotDeclared) && Computed(h, r, bidders).Some? && r.winner.None?)
    || (x == Issue(Events.Warning, WinnerNotComputed) && Computed(h, r, bidders).None? && r.winner.Some?)
  }

  /** The defect of a receipt that an issue stands for. */
  ghost predicate ReceiptHas(h: Host, r: Receipt, expected: Events.Expectation, x: Issue) {
    if r.version != Some(1) then x == Issue(Events.Error, UnsupportedVersion)
    else
      || SchemaReports(h, r, x)
      || (x.code.EventCode? && LogReports(r.log, expected, x.severity, x.code.code))
      || (if r.bidders.None? then x == Issue(Events.Error, MissingBidders) else BiddersReport(h, r, r.bidders.value, x))
  }

  lemma BidIssuesAre(h: Host, e: BidEntry, x: Issue)
    ensures x in BidIssues(h, e) <==> x.severity == Events.Error && BidHas(h, e, x.code)
  {
    hide Hex.FromHexOf, Hex.ToHex, Hex.Lower, Hex.AllHex, Commitment.BidPreimage;
  }

  lemma {:induction false} AllBidIssuesAre(h: Host, r: Receipt, bidders: seq<Address>, x: Issue)
    ensures x in AllBidIssues(h, r, bidders) <==>
            x.severity == Events.Error && SomeBidHas(h, r, bidders, x.code)
  {
    if bidders != [] {
      var n := |bidders| - 1;
      AllBidIssuesAre(h, r, bidders[..n], x);
      if EntryAt(r, bidders[n]).Some? {
        BidIssuesAre(h, EntryAt(r, bidders[n]).value, x);
      }
      assert forall b :: b in bidders <==> b in bidders[..n] || b == bidders[n];
    }
    hide BidIssues, BidHas, EntryAt;
  }

  lemma {:induction false} EvidenceIssuesAre(r: Receipt, bidders: seq<Address>, x: Issue)
    ensures x in EvidenceIssues(r, bidders) <==>
              x == Issue(Events.Error, InvalidEvidenceHex) && SomeEvidenceHas(r, bidders)
  {
    if bidders != [] {
      var n := |bidders| - 1;
      EvidenceIssuesAre(r, bidders[..n], x);
      OneEvidence(EntryAt(r, bidders[n]), x);
      assert forall b :: b in bidders <==> b in bidders[..n] || b == bidders[n];
    }
    hide EntryAt, EvidenceHas, EntryEvidenceIssues;
  }

  lemma OneEvidence(e: Option<BidEntry>, x: Issue)
    ensures x in EntryEvidenceIssues(e) <==>
            x == Issue(Events.Error, InvalidEvidenceHex) && e.Some? && EvidenceHas(e.value)
  {
    hide IsHexText;
  }

  lemma {:induction false} DistinctIssuesAre(bidders: seq<Address>, x: Issue)
    ensures x in DistinctIssues(bidders) <==>
            && x.severity == Events.Error
            && ((x.code == InvalidBidder && NonAccount(bidders))
                || (x.code == DuplicateBidder && !NoDup(bidders)))
  {
    if bidders != [] {
      var n := |bidders| - 1;
      DistinctIssuesAre(bidders[..n], x);
      NoDupSnoc(bidders[..n], bidders[n]);
      assert bidders == bidders[..n] + [bidders[n]];
      assert forall b :: b in bidders <==> b in bidders[..n] || b == bidders[n];
    }
    hide NoDup;
  }

  lemma {:induction false} MissingEntriesAre(r: Receipt, bidders: seq<Address>, x: Issue)
    ensures x in MissingIssues(r, bidders) <==>
            x == Issue(Events.Error, MissingBidEntry) && Unentered(r, bidders)
  {
    if bidders != [] {
      var n := |bidders| - 1;
      MissingEntriesAre(r, bidders[..n], x);
      assert forall b :: b in bidders <==> b in bidders[..n] || b == bidders[n];
    }
  }

  lemma {:induction false} OrphanIssuesAre(n: nat, x: Issue)
    ensures x in OrphanIssues(n) <==> n > 0 && x == Issue(Events.Error, OrphanBidEntry)
  {
    if n > 0 {
      OrphanIssuesAre(n - 1, x);
    }
  }

  lemma ImportedAre(issues: seq<Events.Issue>, x: Issue)
    ensures x in Imported(issues) <==>
              x.code.EventCode? && exists at :: Events.Issue(x.severity, x.code.code, at) in issues
  {
    if x in Imported(issues) {
      var i :| 0 <= i < |issues| && Imported(issues)[i] == x;
      assert Events.Issue(x.severity, x.code.code, issues[i].at) == issues[i];
    }
    if x.code.EventCode? {
      forall at | Events.Issue(x.severity, x.code.code, at) in issues
        ensures x in Imported(issues)
      {
        var i :| 0 <= i < |issues| && issues[i] == Events.Issue(x.severity, x.code.code, at);
        assert Imported(issues)[i] == x;
      }
    }
  }

  lemma NetworkIssuesAre(h: Host, r: Receipt, x: Issue)
    ensures x in NetworkIssues(h, r) <==>
            x.severity == Events.Error && x.code in {MissingNetwork, Code.NetworkMismatch, ForeignContract}
            && SchemaHas(h, r, x.code)
  {
    hide IsContractAddress;
  }

  lemma SchemaIssuesAre(h: Host, r: Receipt, x: Issue)
    ensures x in SchemaIssues(h, r) <==> SchemaReports(h, r, x)
  {
    NetworkIssuesAre(h, r, x);
    hide IsContractAddress, NetworkIssues, HasNetwork;
  }

  /** The issues found once there is a list of bidders. */
  ghost function BidderIssues(h: Host, r: Receipt, bidders: seq<Address>): seq<Issue> {
    DistinctIssues(bidders) + OrphanIssues(|Orphans(r, bidders)|) + MissingIssues(r, bidders)
    + AllBidIssues(h, r, bidders) + WinnerIssues(Computed(h, r, bidders), r.winner) + EvidenceIssues(r, bidders)
  }

  lemma BidderIssuesAre(h: Host, r: Receipt, bidders: seq<Address>, x: Issue)
    ensures x in BidderIssues(h, r, bidders) <==> BiddersReport(h, r, bidders, x)
  {
    DistinctIssuesAre(bidders, x);
    OrphansReported(r, bidders, x);
    MissingEntriesAre(r, bidders, x);
    AllBidIssuesAre(h, r, bidders, x);
    EvidenceIssuesAre(r, bidders, x);
    OnlyBidCodes(h, r, bidders, x.code);
    hide DistinctIssues, OrphanIssues, Orphans, MissingIssues, AllBidIssues, EvidenceIssues, Computed, NoDup;
    hide NonAccount, Orphan, Unentered, SomeBidHas, SomeEvidenceHas;
    WinnerIssuesAre(Computed(h, r, bidders), r.winner, x);
    hide WinnerIssues;
  }

  lemma WinnerIssuesAre(computed: Option<(Address, int)>, declared: Option<Address>, x: Issue)
    ensures x in WinnerIssues(computed, declared) <==>
            || (x == Issue(Events.Error, WinnerMismatch) && computed.Some? && declared.Some?
                && declared.value != computed.value.0)
            || (x == Issue(Events.Warning, WinnerNotDeclared) && computed.Some? && declared.None?)
            || (x == Issue(Events.Warning, WinnerNotComputed) && computed.None? && declared.Some?)
  {
  }

  lemma OrphansReported(r: Receipt, bidders: seq<Address>, x: Issue)
    ensures x in OrphanIssues(|Orphans(r, bidders)|) <==> x == Issue(Events.Error, OrphanBidEntry) && Orphan(r, bidders)
  {
    OrphanIssuesAre(|Orphans(r, bidders)|, x);
    OrphansAre(r, bidders);
    hide OrphanIssues, Orphans;
  }

  lemma OnlyBidCodes(h: Host, r: Receipt, bidders: seq<Address>, code: Code)
    ensures SomeBidHas(h, r, bidders, code) ==>
              code in {InvalidCommitment, InvalidEscrow, PartialReveal, InvalidRevealedValue, InvalidNonce,
                       InvalidNonceLength, CommitmentMismatch}
  {
    hide EntryAt, Hex.FromHexOf, Hex.AllHex, Binds;
  }

  lemma ImportedLog(log: Events.Log, expected: Events.Expectation, x: Issue)
    ensures x in Imported(Events.LogIssues(log, expected)) <==>
            x.code.EventCode? && LogReports(log, expected, x.severity, x.code.code)
  {
    ImportedAre(Events.LogIssues(log, expected), x);
    if x.code.EventCode? {
      forall at
        ensures Events.Issue(x.severity, x.code.code, at) in Events.LogIssues(log, expected)
           <==> LogHas(log, expected, Events.Issue(x.severity, x.code.code, at))
      {
        LogIssuesAre(log, expected, Events.Issue(x.severity, x.code.code, at));
      }
    }
    hide Events.LogIssues, LogHas, Imported;
  }

  /** The verifier reports exactly the defects of the receipt, each with its severity. */
  lemma ReceiptIssuesAre(h: Host, r: Receipt, expected: Events.Expectation, x: Issue)
    ensures x in ReceiptIssues(h, r, expected) <==> ReceiptHas(h, r, expected, x)
  {
    if r.version == Some(1) {
      SchemaIssuesAre(h, r, x);
      ImportedLog(r.log, expected, x);
      if r.bidders.Some? {
        BidderIssuesAre(h, r, r.bidders.value, x);
        SameReport(h, r, expected);
      }
      hide Events.LogIssues, LogReports, SchemaIssues, Imported, BidderIssues, BiddersReport, SchemaReports;
      if r.bidders.Some? {
        hide ReceiptIssues;
      }
    }
  }

  lemma SameReport(h: Host, r: Receipt, expected: Events.Expectation)
    requires r.version == Some(1) && r.bidders.Some?
    ensures ReceiptIssues(h, r, expected)
         == SchemaIssues(h, r) + Imported(Events.LogIssues(r.log, expected)) + BidderIssues(h, r, r.bidders.value)
  {
    hide SchemaIssues, Imported, Events.LogIssues, DistinctIssues, OrphanIssues, Orphans, MissingIssues, AllBidIssues;
    hide WinnerIssues, EvidenceIssues, Computed;
  }
}
