/** Round receipts: the offline verifier, the exporter, and when the one accepts the other. */
module Receipt {
  import opened Prelude
  import opened RoundTypes
  import Spec = RoundSpec
  import opened RoundInvariant
  import Commitment
  import Hex
  import Decimal
  import Events = ReceiptEvents

  datatype Evidence = Evidence(ciphertext: Option<string>, auditorBlob: Option<string>)

  /** One bid of a receipt; `commitment` is `None` when it is not a string. */
  datatype BidEntry = BidEntry(
    commitment: Option<string>,
    escrow: string,
    revealedValue: Option<string>,
    nonce: Option<string>,
    valid: bool,
    settled: bool,
    evidence: Option<Evidence>)

  /** A receipt from anywhere. A bid may be null; a field that is not of its kind is `None`. */
  datatype Receipt = Receipt(
    version: Option<int>,
    log: Events.Log,
    networkFingerprint: Option<string>,
    clearingRule: Option<ClearingRule>,
    bidders: Option<seq<Address>>,
    bids: map<Address, Option<BidEntry>>,
    winner: Option<Address>)

  /** What the verifier takes from outside: `BigInt(text)`, the passphrase digest, and the hash. */
  datatype Host = Host(bigInt: string -> Option<int>, fingerprint: string -> string, sha: seq<byte> -> Bytes32)

  datatype Code =
    | EventCode(code: Events.Code)
    | UnsupportedVersion | MissingNetwork | NetworkMismatch | ForeignContract | InvalidContractId
    | InvalidRoundId | InvalidClearingRule | UnknownStatus
    | MissingBidders | InvalidBidder | DuplicateBidder | OrphanBidEntry | MissingBidEntry
    | InvalidCommitment | InvalidEscrow | InvalidRevealedValue | InvalidNonce | InvalidNonceLength
    | CommitmentMismatch | PartialReveal
    | WinnerMismatch | WinnerNotDeclared | WinnerNotComputed
    | InvalidEvidenceHex

  datatype Issue = Issue(severity: Events.Severity, code: Code)

  /** A property of null was read, or a number outside i128 was encoded. */
  datatype Thrown = TypeError | RangeError

  datatype Verdict = Verdict(valid: bool, issues: seq<Issue>, computed: Option<(Address, int)>)

  ghost predicate Clean(issues: seq<Issue>) {
    forall x :: x in issues ==> x.severity != Events.Error
  }

  function Fault(when: bool, code: Code): seq<Issue> {
    if when then [Issue(Events.Error, code)] else []
  }

  // ---- One bid ----------------------------------------------------------------------------------------

  /** The value and nonce of a bid whose nonce decodes to 32 bytes. */
  function Preimage(h: Host, e: BidEntry): Option<(int, Bytes32)> {
    if e.revealedValue.None? || e.nonce.None? || h.bigInt(e.revealedValue.value).None? then None
    else
      var nonce := Hex.FromHexOf(e.nonce.value);
      if nonce.Err? || |nonce.value| != 32 then None else Some((h.bigInt(e.revealedValue.value).value, nonce.value))
  }

  /** Checking the binding of this bid throws. */
  ghost predicate BindingThrows(h: Host, e: BidEntry) {
    Preimage(h, e).Some? && (!InI128(Preimage(h, e).value.0) || e.commitment.None?)
  }

  /** The value this bid enters the winner computation with. */
  function Candidate(h: Host, e: BidEntry): Option<int> {
    if !e.valid || e.revealedValue.None? then None
    else if e.nonce.Some? then (if Preimage(h, e).Some? then Some(Preimage(h, e).value.0) else None)
    else h.bigInt(e.revealedValue.value)
  }

  predicate IsCommitmentHex(c: Option<string>) {
    c.Some? && |c.value| == 64 && Hex.AllHex(c.value)
  }

  /** The commitment is the hash of the revealed value and nonce. */
  ghost predicate Binds(h: Host, e: BidEntry)
    requires Preimage(h, e).Some? && InI128(Preimage(h, e).value.0) && e.commitment.Some?
  {
    var (v, nonce) := Preimage(h, e).value;
    Hex.ToHex(h.sha(Commitment.BidPreimage(v, nonce))) == Hex.Lower(e.commitment.value)
  }

  /** No complaint about this bid's reveal. */
  ghost predicate RevealClean(h: Host, e: BidEntry) {
    && (e.revealedValue.Some? ==> h.bigInt(e.revealedValue.value).Some?)
    && (e.nonce.Some? ==> Preimage(h, e).Some? && InI128(Preimage(h, e).value.0) && e.commitment.Some? && Binds(h, e))
  }

  /** No complaint about this bid. */
  ghost predicate EntryClean(h: Host, e: BidEntry) {
    && IsCommitmentHex(e.commitment)
    && h.bigInt(e.escrow).Some? && h.bigInt(e.escrow).value >= 0
    && (e.revealedValue.Some? ==> h.bigInt(e.revealedValue.value).Some?)
    && (e.nonce.Some? ==> Preimage(h, e).Some? && InI128(Preimage(h, e).value.0) && Binds(h, e))
  }

  /** What is found wrong with the reveal of a bid whose binding can be checked. */
  function RevealIssues(h: Host, e: BidEntry): seq<Issue> {
    if e.revealedValue.None? then Fault(e.nonce.Some?, PartialReveal)
    else if h.bigInt(e.revealedValue.value).None? then [Issue(Events.Error, InvalidRevealedValue)]
    else if e.nonce.None? then []
    else
      var nonce := Hex.FromHexOf(e.nonce.value);
      if nonce.Err? then [Issue(Events.Error, InvalidNonce)]
      else if |nonce.value| != 32 then [Issue(Events.Error, InvalidNonceLength)]
      else
        var v := h.bigInt(e.revealedValue.value).value;
        if !InI128(v) || e.commitment.None? then []
        else Fault(Hex.ToHex(h.sha(Commitment.BidPreimage(v, nonce.value))) != Hex.Lower(e.commitment.value),
            CommitmentMismatch)
  }

  /** What is found wrong with one bid, in order. */
  function BidIssues(h: Host, e: BidEntry): seq<Issue> {
    var escrow := h.bigInt(e.escrow);
    Fault(!IsCommitmentHex(e.commitment), InvalidCommitment)
    + Fault(escrow.None? || escrow.value < 0, InvalidEscrow)
    + RevealIssues(h, e)
  }

  /** The checks and the ranked value of one bid; `issues` grows by an error unless the bid is clean. */
  method CheckBid(h: Host, e: BidEntry, issues: seq<Issue>) returns (r: Result<(seq<Issue>, Option<int>), Thrown>)
    ensures r.Err? <==> BindingThrows(h, e)
    ensures r.Err? ==> r.error == if InI128(Preimage(h, e).value.0) then TypeError else RangeError
    ensures r.Ok? ==> r.value.1 == Candidate(h, e)
    ensures r.Ok? ==> r.value.0 == issues + BidIssues(h, e)
    ensures r.Ok? ==> (Clean(r.value.0) <==> Clean(issues) && EntryClean(h, e))
  {
    hide Fault, RevealIssues, Clean, Candidate, BindingThrows, RevealClean;
    var found := Note(issues, !IsCommitmentHex(e.commitment), InvalidCommitment);
    var escrow := h.bigInt(e.escrow);
    found := Note(found, escrow.None? || escrow.value < 0, InvalidEscrow);
    r := CheckReveal(h, e, found);
    EntryCleanParts(h, e);
  }

  /** The reveal half of the checks on one bid, which ranks its value. */
  method CheckReveal(h: Host, e: BidEntry, issues: seq<Issue>) returns (r: Result<(seq<Issue>, Option<int>), Thrown>)
    ensures r.Err? <==> BindingThrows(h, e)
    ensures r.Err? ==> r.error == if InI128(Preimage(h, e).value.0) then TypeError else RangeError
    ensures r.Ok? ==> r.value.1 == Candidate(h, e)
    ensures r.Ok? ==> r.value.0 == issues + RevealIssues(h, e)
    ensures r.Ok? ==> (Clean(r.value.0) <==> Clean(issues) && RevealClean(h, e))
  {
    hide Hex.FromHexOf, Hex.ToHex, Hex.Lower, Hex.AllHex, Clean, Commitment.BidPreimage;
    assert issues + [] == issues;
    if e.revealedValue.Some? && e.nonce.Some? {
      var rv := h.bigInt(e.revealedValue.value);
      if rv.None? {
        var found := Note(issues, true, InvalidRevealedValue);
        return Ok((found, None));
      }
      var nonce := Hex.FromHex(e.nonce.value);
      if nonce.Err? {
        var found := Note(issues, true, InvalidNonce);
        return Ok((found, None));
      }
      if |nonce.value| != 32 {
        var found := Note(issues, true, InvalidNonceLength);
        return Ok((found, None));
      }
      if !InI128(rv.value) {
        return Err(RangeError);
      }
      if e.commitment.None? {
        return Err(TypeError);
      }
      var recomputed := Hex.ToHex(h.sha(Commitment.BidPreimage(rv.value, nonce.value)));
      var found := Note(issues, recomputed != Hex.Lower(e.commitment.value), CommitmentMismatch);
      return Ok((found, if e.valid then rv else None));
    } else if e.revealedValue.Some? {
      var rv := h.bigInt(e.revealedValue.value);
      var found := Note(issues, rv.None?, InvalidRevealedValue);
      return Ok((found, if e.valid then rv else None));
    } else {
      var found := Note(issues, e.nonce.Some?, PartialReveal);
      return Ok((found, None));
    }
  }

  lemma EntryCleanParts(h: Host, e: BidEntry)
    ensures EntryClean(h, e) <==>
            && IsCommitmentHex(e.commitment)
            && h.bigInt(e.escrow).Some? && h.bigInt(e.escrow).value >= 0
            && RevealClean(h, e)
  {
    hide Hex.ToHex, Hex.Lower, Hex.AllHex;
  }

  /** `add("error", …)` under a condition. */
  method Note(issues: seq<Issue>, when: bool, code: Code) returns (r: seq<Issue>)
    ensures r == issues + Fault(when, code)
    ensures Clean(r) <==> Clean(issues) && !when
  {
    r := if when then issues + [Issue(Events.Error, code)] else issues;
    if when {
      assert r[|issues|] in r;
    }
    assert forall x :: x in issues ==> x in r;
  }

  // ---- All bids, and the winner they make -----------------------------------------------------------------

  function EntryAt(r: Receipt, bidder: Address): Option<BidEntry> {
    if bidder in r.bids then r.bids[bidder] else None
  }

  predicate Beats(rule: Option<ClearingRule>, value: int, best: Option<(Address, int)>) {
    best.None? || if rule == Some(HighestBid) then value > best.value.1 else value < best.value.1
  }

  function RankStep(h: Host, r: Receipt, best: Option<(Address, int)>, bidder: Address): Option<(Address, int)> {
    var e := EntryAt(r, bidder);
    if e.None? || Candidate(h, e.value).None? then best
    else
      var value := Candidate(h, e.value).value;
      if Beats(r.clearingRule, value, best) then Some((bidder, value)) else best
  }

  /** The winner recomputed over the bidders in order. */
  function Computed(h: Host, r: Receipt, bidders: seq<Address>): Option<(Address, int)> {
    if bidders == [] then None
    else RankStep(h, r, Computed(h, r, bidders[..|bidders| - 1]), bidders[|bidders| - 1])
  }

  ghost predicate BidThrows(h: Host, r: Receipt, bidder: Address) {
    EntryAt(r, bidder).Some? && BindingThrows(h, EntryAt(r, bidder).value)
  }

  ghost predicate BidClean(h: Host, r: Receipt, bidder: Address) {
    EntryAt(r, bidder).Some? ==> EntryClean(h, EntryAt(r, bidder).value)
  }

  ghost predicate BidsClean(h: Host, r: Receipt, bidders: seq<Address>) {
    forall b :: b in bidders ==> BidClean(h, r, b)
  }

  lemma NoBids(h: Host, r: Receipt)
    ensures BidsClean(h, r, [])
  {
  }

  lemma BidsCleanSnoc(h: Host, r: Receipt, bidders: seq<Address>, b: Address)
    ensures BidsClean(h, r, bidders + [b]) <==> BidsClean(h, r, bidders) && BidClean(h, r, b)
  {
    hide BidClean;
    assert forall x :: x in bidders + [b] <==> x in bidders || x == b;
  }

  function AllBidIssues(h: Host, r: Receipt, bidders: seq<Address>): seq<Issue> {
    if bidders == [] then []
    else
      var last := EntryAt(r, bidders[|bidders| - 1]);
      AllBidIssues(h, r, bidders[..|bidders| - 1]) + (if last.Some? then BidIssues(h, last.value) else [])
  }

  method CheckBids(h: Host, r: Receipt, bidders: seq<Address>, issues: seq<Issue>)
    returns (out: Result<(seq<Issue>, Option<(Address, int)>), Thrown>)
    ensures out.Err? <==> exists b :: b in bidders && BidThrows(h, r, b)
    ensures out.Ok? ==> out.value.1 == Computed(h, r, bidders)
    ensures out.Ok? ==> out.value.0 == issues + AllBidIssues(h, r, bidders)
    ensures out.Ok? ==> (Clean(out.value.0) <==> Clean(issues) && BidsClean(h, r, bidders))
  {
    hide Clean, BindingThrows, EntryClean, Candidate, BidsClean, BidIssues;
    NoBids(h, r);
    var found := issues;
    var best: Option<(Address, int)> := None;
    for i := 0 to |bidders|
      invariant forall b :: b in bidders[..i] ==> !BidThrows(h, r, b)
      invariant best == Computed(h, r, bidders[..i])
      invariant found == issues + AllBidIssues(h, r, bidders[..i])
      invariant Clean(found) <==> Clean(issues) && BidsClean(h, r, bidders[..i])
    {
      assert bidders[..i + 1][..i] == bidders[..i] && bidders[..i + 1] == bidders[..i] + [bidders[i]];
      BidsCleanSnoc(h, r, bidders[..i], bidders[i]);
      var e := EntryAt(r, bidders[i]);
      if e.None? {
        continue;
      }
      var checked := CheckBid(h, e.value, found);
      if checked.Err? {
        assert BidThrows(h, r, bidders[i]);
        return Err(checked.error);
      }
      found := checked.value.0;
      if checked.value.1.Some? && Beats(r.clearingRule, checked.value.1.value, best) {
        best := Some((bidders[i], checked.value.1.value));
      }
    }
    assert bidders[..|bidders|] == bidders;
    out := Ok((found, best));
  }

  // ---- Bidder list, evidence, schema ---------------------------------------------------------------------------

  ghost predicate BiddersClean(r: Receipt, bidders: seq<Address>) {
    && (forall b :: b in bidders ==> b.Account? && b in r.bids)
    && NoDup(bidders)
    && forall b :: b in r.bids ==> b in bidders
  }

  function DistinctIssues(bidders: seq<Address>): seq<Issue> {
    if bidders == [] then []
    else
      var front, last := bidders[..|bidders| - 1], bidders[|bidders| - 1];
      DistinctIssues(front) + Fault(!last.Account?, InvalidBidder) + Fault(last in front, DuplicateBidder)
  }

  function OrphanIssues(n: nat): seq<Issue> {
    if n == 0 then [] else OrphanIssues(n - 1) + [Issue(Events.Error, OrphanBidEntry)]
  }

  function MissingIssues(r: Receipt, bidders: seq<Address>): seq<Issue> {
    if bidders == [] then []
    else MissingIssues(r, bidders[..|bidders| - 1]) + Fault(bidders[|bidders| - 1] !in r.bids, MissingBidEntry)
  }

  /** The bid entries of nobody listed. */
  function Orphans(r: Receipt, bidders: seq<Address>): set<Address> {
    set k | k in r.bids && k !in bidders
  }

  method CheckBidders(r: Receipt, bidders: seq<Address>, issues: seq<Issue>) returns (found: seq<Issue>)
    ensures found == issues + DistinctIssues(bidders) + OrphanIssues(|Orphans(r, bidders)|) + MissingIssues(r, bidders)
    ensures Clean(found) <==> Clean(issues) && BiddersClean(r, bidders)
  {
    hide Clean, Fault, DistinctIssues, OrphanIssues, Orphans;
    found := CheckDistinctAccounts(bidders, issues);
    found := CheckOrphans(r, bidders, found);
    ghost var before := found;
    for i := 0 to |bidders|
      invariant found == before + MissingIssues(r, bidders[..i])
      invariant Clean(found) <==> Clean(before) && forall b :: b in bidders[..i] ==> b in r.bids
    {
      assert bidders[..i + 1] == bidders[..i] + [bidders[i]];
      found := Note(found, bidders[i] !in r.bids, MissingBidEntry);
    }
    assert bidders[..|bidders|] == bidders;
  }

  /** The bid entries are enumerated in some order; the complaints about them are alike. */
  method CheckOrphans(r: Receipt, bidders: seq<Address>, issues: seq<Issue>) returns (found: seq<Issue>)
    ensures found == issues + OrphanIssues(|Orphans(r, bidders)|)
    ensures Clean(found) <==> Clean(issues) && forall b :: b in r.bids ==> b in bidders
  {
    hide Clean, Fault, OrphanIssues, Orphans;
    found := issues;
    var keys := r.bids.Keys;
    ghost var orphans := Orphans(r, bidders);
    OrphansAre(r, bidders);
    NoOrphans(issues);
    assert orphans - keys == {};
    while keys != {}
      invariant keys <= r.bids.Keys
      invariant found == issues + OrphanIssues(|orphans - keys|)
      decreases keys
    {
      var key :| key in keys;
      ghost var was := orphans - keys;
      keys := keys - {key};
      OneMoreOrphan(issues, |was|);
      found := Note(found, key !in bidders, OrphanBidEntry);
      assert orphans - keys == if key in bidders then was else was + {key};
    }
    assert orphans - keys == orphans;
    CleanOrphans(issues, |orphans|);
  }

  lemma OrphansAre(r: Receipt, bidders: seq<Address>)
    ensures forall k :: k in Orphans(r, bidders) <==> k in r.bids && k !in bidders
    ensures |Orphans(r, bidders)| == 0 <==> forall b :: b in r.bids ==> b in bidders
  {
    if |Orphans(r, bidders)| == 0 {
      forall b | b in r.bids
        ensures b in bidders
      {
        assert b !in Orphans(r, bidders);
      }
    } else {
      var k :| k in Orphans(r, bidders);
    }
  }

  lemma CleanOrphans(issues: seq<Issue>, n: nat)
    ensures Clean(issues + OrphanIssues(n)) <==> Clean(issues) && n == 0
  {
    var all := issues + OrphanIssues(n);
    assert forall x :: x in issues ==> x in all;
    if n > 0 {
      assert all[|all| - 1] in all && all[|all| - 1] == Issue(Events.Error, OrphanBidEntry);
    }
  }

  lemma NoOrphans(issues: seq<Issue>)
    ensures issues + OrphanIssues(0) == issues
  {
  }

  lemma OneMoreOrphan(issues: seq<Issue>, n: nat)
    ensures issues + OrphanIssues(n) + Fault(true, OrphanBidEntry) == issues + OrphanIssues(n + 1)
    ensures issues + OrphanIssues(n) + Fault(false, OrphanBidEntry) == issues + OrphanIssues(n)
  {
  }

  method CheckDistinctAccounts(bidders: seq<Address>, issues: seq<Issue>) returns (found: seq<Issue>)
    ensures found == issues + DistinctIssues(bidders)
    ensures Clean(found) <==> Clean(issues) && NoDup(bidders) && forall b :: b in bidders ==> b.Account?
  {
    hide Clean, Fault, DistinctIssues, NoDup;
    found := issues;
    var seen: set<Address> := {};
    NobodyRepeats(issues);
    for i := 0 to |bidders|
      invariant seen == ToSet(bidders[..i])
      invariant found == issues + DistinctIssues(bidders[..i])
      invariant Clean(found) <==> Clean(issues) && NoDup(bidders[..i]) && forall b :: b in bidders[..i] ==> b.Account?
    {
      var bidder := bidders[i];
      NoDupSnoc(bidders[..i], bidder);
      DistinctIssuesSnoc(bidders[..i], bidder);
      assert bidders[..i + 1] == bidders[..i] + [bidder];
      found := Note(found, !bidder.Account?, InvalidBidder);
      found := Note(found, bidder in seen, DuplicateBidder);
      seen := seen + {bidder};
    }
    assert bidders[..|bidders|] == bidders;
  }

  lemma NobodyRepeats(issues: seq<Issue>)
    ensures NoDup<Address>([]) && issues + DistinctIssues([]) == issues
  {
  }

  lemma DistinctIssuesSnoc(front: seq<Address>, last: Address)
    ensures DistinctIssues(front + [last])
         == DistinctIssues(front) + Fault(!last.Account?, InvalidBidder) + Fault(last in front, DuplicateBidder)
  {
    assert (front + [last])[..|front|] == front;
  }

  lemma NoDupSnoc(s: seq<Address>, a: Address)
    ensures NoDup(s + [a]) <==> NoDup(s) && a !in s
  {
    if NoDup(s + [a]) {
      assert forall i :: 0 <= i < |s| ==> (s + [a])[i] == s[i];
      assert (s + [a])[|s|] == a;
    }
  }

  predicate IsHexText(t: Option<string>) {
    t.Some? ==> t.value != "" && Hex.AllHex(t.value)
  }

  ghost predicate EvidenceClean(r: Receipt, bidder: Address) {
    EntryAt(r, bidder).Some? && EntryAt(r, bidder).value.evidence.Some? ==>
      IsHexText(EntryAt(r, bidder).value.evidence.value.ciphertext)
      && IsHexText(EntryAt(r, bidder).value.evidence.value.auditorBlob)
  }

  ghost predicate AllEvidenceClean(r: Receipt, bidders: seq<Address>) {
    forall b :: b in bidders ==> EvidenceClean(r, b)
  }

  lemma NoEvidence(r: Receipt)
    ensures AllEvidenceClean(r, []) && EvidenceIssues(r, []) == []
  {
  }

  lemma EvidenceIssuesSnoc(r: Receipt, bidders: seq<Address>, b: Address)
    ensures EvidenceIssues(r, bidders + [b]) == EvidenceIssues(r, bidders) + EntryEvidenceIssues(EntryAt(r, b))
  {
    assert (bidders + [b])[..|bidders|] == bidders;
  }

  lemma AllEvidenceCleanSnoc(r: Receipt, bidders: seq<Address>, b: Address)
    ensures AllEvidenceClean(r, bidders + [b]) <==> AllEvidenceClean(r, bidders) && EvidenceClean(r, b)
  {
    hide EvidenceClean;
    assert forall x :: x in bidders + [b] <==> x in bidders || x == b;
  }

  function EvidenceIssues(r: Receipt, bidders: seq<Address>): seq<Issue> {
    if bidders == [] then []
    else EvidenceIssues(r, bidders[..|bidders| - 1]) + EntryEvidenceIssues(EntryAt(r, bidders[|bidders| - 1]))
  }

  function EntryEvidenceIssues(e: Option<BidEntry>): seq<Issue> {
    if e.None? || e.value.evidence.None? then []
    else
      Fault(!IsHexText(e.value.evidence.value.ciphertext), InvalidEvidenceHex)
      + Fault(!IsHexText(e.value.evidence.value.auditorBlob), InvalidEvidenceHex)
  }

  method CheckEvidence(r: Receipt, bidders: seq<Address>, issues: seq<Issue>) returns (found: seq<Issue>)
    ensures found == issues + EvidenceIssues(r, bidders)
    ensures Clean(found) <==> Clean(issues) && AllEvidenceClean(r, bidders)
  {
    NoEvidence(r);
    hide Clean, AllEvidenceClean, EntryEvidenceIssues, EvidenceClean, EvidenceIssues, EntryAt;
    found := issues;
    assert issues + [] == issues;
    for i := 0 to |bidders|
      invariant found == issues + EvidenceIssues(r, bidders[..i])
      invariant Clean(found) <==> Clean(issues) && AllEvidenceClean(r, bidders[..i])
    {
      assert bidders[..i + 1] == bidders[..i] + [bidders[i]];
      AllEvidenceCleanSnoc(r, bidders[..i], bidders[i]);
      EvidenceIssuesSnoc(r, bidders[..i], bidders[i]);
      found := CheckEntryEvidence(r, bidders[i], found);
    }
    assert bidders[..|bidders|] == bidders;
  }

  method CheckEntryEvidence(r: Receipt, bidder: Address, issues: seq<Issue>) returns (found: seq<Issue>)
    ensures found == issues + EntryEvidenceIssues(EntryAt(r, bidder))
    ensures Clean(found) <==> Clean(issues) && EvidenceClean(r, bidder)
  {
    hide Clean, IsHexText;
    found := issues;
    var e := EntryAt(r, bidder);
    if e.None? || e.value.evidence.None? {
      assert issues + [] == issues;
      return;
    }
    found := Note(found, !IsHexText(e.value.evidence.value.ciphertext), InvalidEvidenceHex);
    found := Note(found, !IsHexText(e.value.evidence.value.auditorBlob), InvalidEvidenceHex);
  }

  predicate IsContractAddress(c: Option<string>) {
    c.Some? && "C" <= c.value
  }

  ghost predicate SchemaClean(h: Host, r: Receipt) {
    && r.log.network.Some? && r.log.network.value != ""
    && r.networkFingerprint == Some(h.fingerprint(r.log.network.value))
    && IsContractAddress(r.log.contractId)
    && r.log.roundId.Some? && h.bigInt(r.log.roundId.value).Some?
    && r.clearingRule.Some?
  }

  function NetworkIssues(h: Host, r: Receipt): seq<Issue> {
    if r.log.network.None? || r.log.network.value == "" then [Issue(Events.Error, MissingNetwork)]
    else Fault(r.networkFingerprint != Some(h.fingerprint(r.log.network.value)), NetworkMismatch)
         + Fault(!IsContractAddress(r.log.contractId), ForeignContract)
  }

  function SchemaIssues(h: Host, r: Receipt): seq<Issue> {
    NetworkIssues(h, r)
    + Fault(!IsContractAddress(r.log.contractId), InvalidContractId)
    + Fault(r.log.roundId.None? || h.bigInt(r.log.roundId.value).None?, InvalidRoundId)
    + Fault(r.clearingRule.None?, InvalidClearingRule)
    + (if r.log.status.None? then [Issue(Events.Warning, UnknownStatus)] else [])
  }

  method CheckNetwork(h: Host, r: Receipt) returns (found: seq<Issue>)
    ensures found == NetworkIssues(h, r)
    ensures Clean(found) <==>
            && r.log.network.Some? && r.log.network.value != ""
            && r.networkFingerprint == Some(h.fingerprint(r.log.network.value))
            && IsContractAddress(r.log.contractId)
  {
    hide Clean, IsContractAddress;
    NothingClean();
    found := [];
    if r.log.network.None? || r.log.network.value == "" {
      found := Note(found, true, MissingNetwork);
    } else {
      found := Note(found, r.networkFingerprint != Some(h.fingerprint(r.log.network.value)), NetworkMismatch);
      found := Note(found, !IsContractAddress(r.log.contractId), ForeignContract);
    }
  }

  method CheckSchema(h: Host, r: Receipt) returns (found: seq<Issue>)
    ensures found == SchemaIssues(h, r)
    ensures Clean(found) <==> SchemaClean(h, r)
  {
    hide Clean, IsContractAddress, Fault, NetworkIssues;
    found := CheckNetwork(h, r);
    found := Note(found, !IsContractAddress(r.log.contractId), InvalidContractId);
    found := Note(found, r.log.roundId.None? || h.bigInt(r.log.roundId.value).None?, InvalidRoundId);
    found := Note(found, r.clearingRule.None?, InvalidClearingRule);
    ghost var before := found;
    if r.log.status.None? {
      found := Warn(found, UnknownStatus);
    }
    assert before + [] == before;
  }

  lemma NothingClean()
    ensures Clean([])
  {
  }

  method Warn(issues: seq<Issue>, code: Code) returns (r: seq<Issue>)
    ensures r == issues + [Issue(Events.Warning, code)] && (Clean(r) <==> Clean(issues))
  {
    r := issues + [Issue(Events.Warning, code)];
    assert forall x :: x in issues ==> x in r;
  }

  function Imported(issues: seq<Events.Issue>): seq<Issue> {
    seq(|issues|, i requires 0 <= i < |issues| => Issue(issues[i].severity, EventCode(issues[i].code)))
  }

  lemma ImportedClean(found: seq<Issue>, issues: seq<Events.Issue>)
    ensures Clean(found + Imported(issues)) <==> Clean(found) && Events.Clean(issues)
  {
    var all := found + Imported(issues);
    if Clean(all) {
      forall x | x in issues
        ensures x.severity != Events.Error
      {
        var i :| 0 <= i < |issues| && issues[i] == x;
        assert all[|found| + i] in all;
      }
      assert forall x :: x in found ==> x in all;
    }
    if Events.Clean(issues) {
      assert forall i :: 0 <= i < |issues| ==> issues[i] in issues;
    }
  }

  // ---- The verifier ---------------------------------------------------------------------------------------------

  /** Verifying this receipt throws. */
  ghost predicate Throws(h: Host, r: Receipt) {
    && r.version == Some(1)
    && ((r.log.events.Some? && Events.NullEntry in r.log.events.value)
        || (r.bidders.Some? && exists b :: b in r.bidders.value && BidThrows(h, r, b)))
  }

  ghost function WinnerOf(h: Host, r: Receipt): Option<(Address, int)> {
    if r.version == Some(1) && r.bidders.Some? then Computed(h, r, r.bidders.value) else None
  }

  /** What it takes for a receipt to verify. */
  ghost predicate Valid(h: Host, r: Receipt, expected: Events.Expectation) {
    && r.version == Some(1) && SchemaClean(h, r)
    && Events.Sound(r.log, expected)
    && r.bidders.Some? && BiddersClean(r, r.bidders.value)
    && BidsClean(h, r, r.bidders.value) && AllEvidenceClean(r, r.bidders.value)
    && (WinnerOf(h, r).Some? && r.winner.Some? ==> r.winner.value == WinnerOf(h, r).value.0)
  }

  /** Everything found wrong with a receipt whose verification does not throw, in order. */
  ghost function ReceiptIssues(h: Host, r: Receipt, expected: Events.Expectation): seq<Issue> {
    if r.version != Some(1) then [Issue(Events.Error, UnsupportedVersion)]
    else
      var head := SchemaIssues(h, r) + Imported(Events.LogIssues(r.log, expected));
      if r.bidders.None? then head + [Issue(Events.Error, MissingBidders)]
      else
        var bidders := r.bidders.value;
        head + DistinctIssues(bidders) + OrphanIssues(|Orphans(r, bidders)|) + MissingIssues(r, bidders)
        + AllBidIssues(h, r, bidders) + WinnerIssues(Computed(h, r, bidders), r.winner) + EvidenceIssues(r, bidders)
  }

  /** `verifyReceipt`. */
  method VerifyReceipt(h: Host, r: Receipt, expected: Events.Expectation) returns (out: Result<Verdict, Thrown>)
    ensures out.Err? <==> Throws(h, r)
    ensures out.Ok? ==> out.value.computed == WinnerOf(h, r) && out.value.issues == ReceiptIssues(h, r, expected)
    ensures out.Ok? ==> (out.value.valid <==> Valid(h, r, expected))
    ensures out.Ok? ==> (out.value.valid <==> Clean(out.value.issues))
  {
    hide Clean, SchemaClean, BiddersClean, BidsClean, AllEvidenceClean, BidThrows;
    hide Events.Sound, Computed, Imported, Events.LogIssues;
    hide SchemaIssues, DistinctIssues, OrphanIssues, MissingIssues, AllBidIssues, WinnerIssues, EvidenceIssues, Orphans;
    if r.version != Some(1) {
      var unsupported := Note([], true, UnsupportedVersion);
      return Ok(Verdict(false, unsupported, None));
    }
    var issues := CheckSchema(h, r);
    var events := Events.VerifyReceiptEvents(r.log, expected);
    if events.Err? {
      return Err(TypeError);
    }
    ImportedClean(issues, events.value.1);
    Events.ValidIffSound(r.log, expected);
    issues := issues + Imported(events.value.1);
    if r.bidders.None? {
      issues := Note(issues, true, MissingBidders);
      return Ok(Verdict(false, issues, None));
    }
    var bidders := r.bidders.value;
    issues := CheckBidders(r, bidders, issues);
    var ranked := CheckBids(h, r, bidders, issues);
    if ranked.Err? {
      return Err(ranked.error);
    }
    var computed := ranked.value.1;
    issues := CheckWinner(computed, r.winner, ranked.value.0);
    issues := CheckEvidence(r, bidders, issues);
    var errors := HasErrors(issues);
    out := Ok(Verdict(!errors, issues, computed));
  }

  function WinnerIssues(computed: Option<(Address, int)>, declared: Option<Address>): seq<Issue> {
    if computed.Some? && declared.Some? then Fault(computed.value.0 != declared.value, WinnerMismatch)
    else if computed.Some? then [Issue(Events.Warning, WinnerNotDeclared)]
    else if declared.Some? then [Issue(Events.Warning, WinnerNotComputed)]
    else []
  }

  method CheckWinner(computed: Option<(Address, int)>, declared: Option<Address>,
          issues: seq<Issue>) returns (found: seq<Issue>)
    ensures found == issues + WinnerIssues(computed, declared)
    ensures Clean(found) <==> Clean(issues) && (computed.Some? && declared.Some? ==> declared.value == computed.value.0)
  {
    found := issues;
    if computed.Some? && declared.Some? {
      found := Note(found, computed.value.0 != declared.value, WinnerMismatch);
    } else if declared.None? && computed.Some? {
      found := Warn(found, WinnerNotDeclared);
    } else if declared.Some? && computed.None? {
      found := Warn(found, WinnerNotComputed);
    }
  }

  method HasErrors(issues: seq<Issue>) returns (r: bool)
    ensures r == !Clean(issues)
  {
    for i := 0 to |issues|
      invariant Clean(issues[..i])
    {
      if issues[i].severity == Events.Error {
        return true;
      }
    }
    assert issues[..|issues|] == issues;
    r := false;
  }

  // ---- The exporter ------------------------------------------------------------------------------------------------

  datatype Seal = Seal(ciphertext: seq<byte>, auditorBlob: seq<byte>)

  /** The client an exporter runs in. */
  datatype Client = Client(network: string, contractId: string)

  function ExportedBid(b: BidState, seal: Option<Seal>): BidEntry {
    BidEntry(
      Some(Hex.ToHex(b.commitment)),
      Decimal.Text(b.escrow),
      if b.revealedValue.Some? then Some(Decimal.Text(b.revealedValue.value)) else None,
      if b.revealedNonce.Some? then Some(Hex.ToHex(b.revealedNonce.value)) else None,
      b.valid,
      b.settled,
      Some(if seal.Some? then Evidence(Some(Hex.ToHex(seal.value.ciphertext)), Some(Hex.ToHex(seal.value.auditorBlob)))
           else Evidence(None, None)))
  }

  /** The receipt of a round whose indexed bidders all have a stored bid. */
  function Exported(h: Host, client: Client, c: Cell, rid: nat, seals: Address -> Option<Seal>): Receipt
    requires forall b :: b in c.round.bidders ==> b in c.bids
  {
    Receipt(
      Some(1),
      Events.Log(Some(client.contractId), Some(client.network), Some(Decimal.Text(rid)), Some(c.round.status),
                 Some(Events.RoundEventLog(Decimal.Text(rid), c.round.commitDeadline, c.round.revealDeadline))),
      Some(h.fingerprint(client.network)),
      Some(c.round.rule),
      Some(c.round.bidders),
      map b | b in c.round.bidders :: Some(ExportedBid(c.bids[b], seals(b))),
      c.round.winner)
  }

  /** `exportReceipt` over one state of the chain. */
  method ExportReceipt(h: Host, client: Client, s: State, rid: nat, seals: Address -> Option<Seal>)
    returns (r: Result<Receipt, Error>)
    ensures if rid !in s.cells then r == Err(RoundNotFound)
            else if exists b :: b in s.cells[rid].round.bidders && b !in s.cells[rid].bids then r == Err(BidNotFound)
            else r == Ok(Exported(h, client, s.cells[rid], rid, seals))
  {
    if rid !in s.cells {
      return Err(RoundNotFound);
    }
    var c := s.cells[rid];
    var bidders := c.round.bidders;
    var bids: map<Address, Option<BidEntry>> := map[];
    for i := 0 to |bidders|
      invariant forall b :: b in bidders[..i] ==> b in c.bids
      invariant bids == map b | b in bidders[..i] :: Some(ExportedBid(c.bids[b], seals(b)))
    {
      assert bidders[..i + 1] == bidders[..i] + [bidders[i]];
      if bidders[i] !in c.bids {
        return Err(BidNotFound);
      }
      bids := bids[bidders[i] := Some(ExportedBid(c.bids[bidders[i]], seals(bidders[i])))];
    }
    assert bidders[..|bidders|] == bidders;
    var id := Decimal.Text(rid);
    r := Ok(Receipt(
        Some(1),
        Events.Log(Some(client.contractId), Some(client.network), Some(id), Some(c.round.status),
                   Some(Events.RoundEventLog(id, c.round.commitDeadline, c.round.revealDeadline))),
        Some(h.fingerprint(client.network)), Some(c.round.rule), Some(bidders), bids, c.round.winner));
  }

  // ---- Exporter, contract and verifier agree ----------------------------------------------------------------------

  /** `BigInt` reads back what `toString` wrote. */
  ghost predicate ReadsDecimals(h: Host) {
    forall v: int :: h.bigInt(Decimal.Text(v)) == Some(v)
  }

  lemma ExportedPreimage(h: Host, sha: seq<byte> -> Bytes32, b: BidState, seal: Option<Seal>)
    requires ReadsDecimals(h) && BidOk(sha, b)
    ensures Preimage(h, ExportedBid(b, seal))
         == if b.revealedValue.Some? then Some((b.revealedValue.value, b.revealedNonce.value)) else None
    ensures Candidate(h, ExportedBid(b, seal)) == if b.valid then b.revealedValue else None
    ensures !BindingThrows(h, ExportedBid(b, seal))
  {
    hide Decimal.Text, Hex.ToHex, Hex.FromHexOf;
    if b.revealedValue.Some? {
      Hex.HexRoundTrip(b.revealedNonce.value);
      assert h.bigInt(Decimal.Text(b.revealedValue.value)) == b.revealedValue;
    }
  }

  /** A stored bid exports to an entry the verifier has nothing against. */
  lemma ExportedBidClean(h: Host, b: BidState, seal: Option<Seal>)
    requires ReadsDecimals(h) && BidOk(h.sha, b)
    ensures EntryClean(h, ExportedBid(b, seal))
  {
    ExportedPreimage(h, h.sha, b, seal);
    Hex.ToHexIsHex(b.commitment);
    hide Decimal.Text, Hex.ToHex, Hex.FromHexOf, Hex.AllHex, Hex.Lower, BidOk, Preimage, Commitment.BidPreimage;
    assert h.bigInt(Decimal.Text(b.escrow)) == Some(b.escrow);
    if b.revealedValue.Some? {
      assert h.bigInt(Decimal.Text(b.revealedValue.value)) == b.revealedValue;
    }
    BidOkFacts(h.sha, b);
  }

  lemma BidOkFacts(sha: seq<byte> -> Bytes32, b: BidState)
    requires BidOk(sha, b)
    ensures b.escrow > 0 && (b.revealedValue.Some? <==> b.revealedNonce.Some?)
    ensures b.revealedValue.Some? ==>
              b.commitment == sha(Commitment.BidPreimage(b.revealedValue.value, b.revealedNonce.value))
  {
  }

  ghost predicate SealExportable(seal: Option<Seal>) {
    seal.Some? ==> seal.value.ciphertext != [] && seal.value.auditorBlob != []
  }

  lemma ExportedEvidence(bytes: seq<byte>)
    ensures IsHexText(Some(Hex.ToHex(bytes))) <==> bytes != []
  {
    Hex.ToHexIsHex(bytes);
  }

  lemma {:induction false} BestBidSnoc(best: Option<(Address, i128)>, bids: map<Address, BidState>,
          rule: ClearingRule, front: seq<Address>, last: Address)
    ensures Spec.BestBid(best, bids, rule, front + [last])
            == Spec.ClearStep(Spec.BestBid(best, bids, rule, front), bids, rule, last)
    decreases |front|
  {
    if front == [] {
      assert [last][1..] == [];
    } else {
      assert (front + [last])[1..] == front[1..] + [last];
      BestBidSnoc(Spec.ClearStep(best, bids, rule, front[0]), bids, rule, front[1..], last);
    }
  }

  ghost function AsInts(best: Option<(Address, i128)>): Option<(Address, int)> {
    if best.Some? then Some((best.value.0, best.value.1)) else None
  }

  /** One turn of the verifier's winner loop is one turn of the contract's. */
  lemma RankIsClear(h: Host, r: Receipt, best: Option<(Address, i128)>, bids: map<Address, BidState>,
          rule: ClearingRule,
                    bidder: Address, seal: Option<Seal>)
    requires bidder in bids && (bids[bidder].valid ==> bids[bidder].revealedValue.Some?)
    requires r.clearingRule == Some(rule) && EntryAt(r, bidder) == Some(ExportedBid(bids[bidder], seal))
    requires Candidate(h, ExportedBid(bids[bidder], seal))
          == if bids[bidder].valid then bids[bidder].revealedValue else None
    ensures RankStep(h, r, AsInts(best), bidder) == AsInts(Spec.ClearStep(best, bids, rule, bidder))
  {
    hide ExportedBid, Candidate, EntryAt;
  }

  lemma ExportedEntry(h: Host, client: Client, c: Cell, rid: nat, seals: Address -> Option<Seal>, bidder: Address)
    requires forall b :: b in c.round.bidders ==> b in c.bids
    requires bidder in c.round.bidders
    ensures EntryAt(Exported(h, client, c, rid, seals), bidder) == Some(ExportedBid(c.bids[bidder], seals(bidder)))
  {
    hide ExportedBid;
  }

  ghost predicate BidsOk(sha: seq<byte> -> Bytes32, c: Cell) {
    (forall b :: b in c.round.bidders ==> b in c.bids) && forall b :: b in c.bids ==> BidOk(sha, c.bids[b])
  }

  /** The verifier's winner fold over an exported receipt is the contract's over the stored bids. */
  lemma {:induction false} ComputedIsBestBid(h: Host, client: Client, c: Cell, rid: nat,
          seals: Address -> Option<Seal>, bidders: seq<Address>)
    requires ReadsDecimals(h) && BidsOk(h.sha, c) && forall b :: b in bidders ==> b in c.round.bidders
    ensures Computed(h, Exported(h, client, c, rid, seals), bidders)
         == AsInts(Spec.BestBid(None, c.bids, c.round.rule, bidders))
    decreases |bidders|
  {
    hide ReadsDecimals, RankStep, Spec.ClearStep, Candidate, ExportedBid, BidOk;
    if bidders != [] {
      var front, b := bidders[..|bidders| - 1], bidders[|bidders| - 1];
      ComputedIsBestBid(h, client, c, rid, seals, front);
      BestBidSnoc(None, c.bids, c.round.rule, front, b);
      assert bidders == front + [b];
      ExportedEntry(h, client, c, rid, seals, b);
      ExportedPreimage(h, h.sha, c.bids[b], seals(b));
      ValidIsRevealed(h.sha, c.bids[b]);
      var r := Exported(h, client, c, rid, seals);
      assert r.clearingRule == Some(c.round.rule);
      hide Spec.BestBid, Exported;
      RankIsClear(h, r, Spec.BestBid(None, c.bids, c.round.rule, front), c.bids, c.round.rule, b, seals(b));
    }
  }

  lemma ValidIsRevealed(sha: seq<byte> -> Bytes32, b: BidState)
    requires BidOk(sha, b)
    ensures b.valid ==> b.revealedValue.Some?
  {
  }

  /** What an exporter with this client, and a round with these bidders and seals, must be for its receipt to pass. */
  ghost predicate Exportable(client: Client, c: Cell, seals: Address -> Option<Seal>) {
    && client.network != "" && "C" <= client.contractId
    && c.round.status != Voided
    && forall b :: b in c.round.bidders ==> b.Account? && SealExportable(seals(b))
  }

  lemma ExportedBidsClean(h: Host, client: Client, c: Cell, rid: nat, seals: Address -> Option<Seal>)
    requires ReadsDecimals(h) && BidsOk(h.sha, c)
    ensures var r := Exported(h, client, c, rid, seals);
            && BidsClean(h, r, c.round.bidders)
            && (AllEvidenceClean(r, c.round.bidders) <==> forall b :: b in c.round.bidders ==> SealExportable(seals(b)))
            && forall b :: b in c.round.bidders ==> !BidThrows(h, r, b)
  {
    hide ReadsDecimals, BidOk, EntryClean, BindingThrows, IsHexText, Hex.ToHex;
    var r := Exported(h, client, c, rid, seals);
    forall b | b in c.round.bidders
      ensures BidClean(h, r, b) && !BidThrows(h, r, b) && (EvidenceClean(r, b) <==> SealExportable(seals(b)))
    {
      ExportedEntry(h, client, c, rid, seals, b);
      ExportedPreimage(h, h.sha, c.bids[b], seals(b));
      ExportedBidClean(h, c.bids[b], seals(b));
      if seals(b).Some? {
        ExportedEvidence(seals(b).value.ciphertext);
        ExportedEvidence(seals(b).value.auditorBlob);
      } else {
        NoEvidenceIsHex();
      }
    }
  }

  lemma NoEvidenceIsHex()
    ensures IsHexText(None)
  {
  }

  lemma ExportedSchemaAndLog(h: Host, client: Client, c: Cell, rid: nat, seals: Address -> Option<Seal>,
          expected: Events.Expectation)
    requires ReadsDecimals(h) && (forall b :: b in c.round.bidders ==> b in c.bids)
    requires expected.contractId.Some? ==> expected.contractId == Some(client.contractId)
    requires expected.network.Some? ==> expected.network == Some(client.network)
    ensures var r := Exported(h, client, c, rid, seals);
            && (SchemaClean(h, r) <==> client.network != "" && "C" <= client.contractId)
            && (Events.Sound(r.log, expected) <==> c.round.status != Voided)
            && Events.NullEntry !in r.log.events.value
  {
    var r := Exported(h, client, c, rid, seals);
    var id := Decimal.Text(rid);
    hide Decimal.Natural;
    assert h.bigInt(id) == Some(rid);
    Events.ExportedIsBlocks(id, c.round.commitDeadline, c.round.revealDeadline);
    Events.ExportedLogValidIff(r.log, expected, id, c.round.commitDeadline, c.round.revealDeadline);
    Events.ValidIffSound(r.log, expected);
    hide Events.Sound, Events.LogIssues, Events.RoundEventLog, ReadsDecimals, Events.Clean;
    assert forall e :: e in r.log.events.value ==> Events.EntryOk(e, Some(id));
  }

  /** The declared winner of a reachable round is the best of its stored bids, or there is none. */
  lemma DeclaredWinner(s: State, c: Cell)
    requires RoundInv(s, c)
    ensures BidsOk(s.sha, c) && NoDup(c.round.bidders)
    ensures c.round.winner.Some? ==>
              Spec.BestBid(None, c.bids, c.round.rule, c.round.bidders)
                 == Some((c.round.winner.value, c.round.winningBid))
    ensures c.round.status in {Cleared, Settled} ==> c.round.winner.Some?
  {
  }

  /**
   * On every reachable round the verifier recomputes exactly the contract's best bid; on a cleared or settled
   * round that is the winner and the winning bid.
   */
  lemma VerifierFindsTheWinner(h: Host, client: Client, s: State, rid: nat, seals: Address -> Option<Seal>)
    requires Inv(s) && rid in s.cells && ReadsDecimals(h) && h.sha == s.sha
    ensures var c := s.cells[rid];
            && (forall b :: b in c.round.bidders ==> b in c.bids)
            && WinnerOf(h, Exported(h, client, c, rid, seals))
               == AsInts(Spec.BestBid(None, c.bids, c.round.rule, c.round.bidders))
            && (c.round.winner.Some? ==>
                  WinnerOf(h, Exported(h, client, c, rid, seals))
                     == Some((c.round.winner.value, c.round.winningBid as int)))
            && (c.round.status in {Cleared, Settled} ==> c.round.winner.Some?)
  {
    var c := s.cells[rid];
    assert RoundInv(s, c);
    DeclaredWinner(s, c);
    hide Inv, RoundInv, ReadsDecimals, BidOk, Spec.BestBid, Computed;
    ComputedIsBestBid(h, client, c, rid, seals, c.round.bidders);
  }

  /** The entry of a bid in a receipt tells the stored bid, and its seal, in full. */
  ghost predicate ReadsBack(h: Host, e: BidEntry, b: BidState, seal: Option<Seal>) {
    && e.commitment.Some? && Hex.FromHexOf(e.commitment.value) == Ok(b.commitment)
    && h.bigInt(e.escrow) == Some(b.escrow)
    && (if b.revealedValue.Some? then
          e.revealedValue.Some? && h.bigInt(e.revealedValue.value) == Some(b.revealedValue.value)
        else e.revealedValue == None)
    && (if b.revealedNonce.Some? then e.nonce.Some? && Hex.FromHexOf(e.nonce.value) == Ok(b.revealedNonce.value)
        else e.nonce == None)
    && e.valid == b.valid && e.settled == b.settled
    && e.evidence.Some?
    && (if seal.Some? then
          && e.evidence.value.ciphertext.Some?
          && Hex.FromHexOf(e.evidence.value.ciphertext.value) == Ok(seal.value.ciphertext)
          && e.evidence.value.auditorBlob.Some?
          && Hex.FromHexOf(e.evidence.value.auditorBlob.value) == Ok(seal.value.auditorBlob)
        else e.evidence.value == Evidence(None, None))
  }

  lemma EntryReadsBack(h: Host, b: BidState, seal: Option<Seal>)
    requires ReadsDecimals(h)
    ensures ReadsBack(h, ExportedBid(b, seal), b, seal)
  {
    hide Hex.ToHex, Hex.FromHexOf, Decimal.Text;
    Hex.HexRoundTrip(b.commitment);
    if b.revealedNonce.Some? {
      Hex.HexRoundTrip(b.revealedNonce.value);
    }
    if seal.Some? {
      Hex.HexRoundTrip(seal.value.ciphertext);
      Hex.HexRoundTrip(seal.value.auditorBlob);
    }
    assert h.bigInt(Decimal.Text(b.escrow)) == Some(b.escrow);
    if b.revealedValue.Some? {
      assert h.bigInt(Decimal.Text(b.revealedValue.value)) == Some(b.revealedValue.value);
    }
  }

  /** Nothing stored is lost in a receipt: rule, index, winner, status, id and every indexed bid read back from it. */
  lemma ExportReadsBack(h: Host, client: Client, c: Cell, rid: nat, seals: Address -> Option<Seal>)
    requires ReadsDecimals(h) && forall b :: b in c.round.bidders ==> b in c.bids
    ensures var r := Exported(h, client, c, rid, seals);
            && r.version == Some(1) && r.clearingRule == Some(c.round.rule) && r.bidders == Some(c.round.bidders)
            && r.winner == c.round.winner && r.log.status == Some(c.round.status)
            && r.log.network == Some(client.network) && r.log.contractId == Some(client.contractId)
            && r.networkFingerprint == Some(h.fingerprint(client.network))
            && r.log.roundId.Some? && h.bigInt(r.log.roundId.value) == Some(rid)
            && (forall b :: b in r.bids <==> b in c.round.bidders)
            && forall b :: b in c.round.bidders ==>
                 EntryAt(r, b).Some? && ReadsBack(h, EntryAt(r, b).value, c.bids[b], seals(b))
  {
    assert h.bigInt(Decimal.Text(rid)) == Some(rid as int);
    hide ReadsDecimals, ReadsBack, Decimal.Text, ExportedBid;
    forall b | b in c.round.bidders
      ensures ReadsBack(h, ExportedBid(c.bids[b], seals(b)), c.bids[b], seals(b))
      ensures EntryAt(Exported(h, client, c, rid, seals), b) == Some(ExportedBid(c.bids[b], seals(b)))
    {
      EntryReadsBack(h, c.bids[b], seals(b));
      ExportedEntry(h, client, c, rid, seals, b);
    }
    hide EntryAt;
  }

  /**
   * The receipt of a reachable round verifies exactly when the round is not Voided, its bidders are accounts,
   * and every seal still stored has a non-empty ciphertext and auditor blob. Verifying it never throws.
   */
  lemma ExportVerifiesIff(h: Host, client: Client, s: State, rid: nat, seals: Address -> Option<Seal>,
          expected: Events.Expectation)
    requires Inv(s) && rid in s.cells && ReadsDecimals(h) && h.sha == s.sha
    requires expected.contractId.Some? ==> expected.contractId == Some(client.contractId)
    requires expected.network.Some? ==> expected.network == Some(client.network)
    ensures forall b :: b in s.cells[rid].round.bidders ==> b in s.cells[rid].bids
    ensures var r := Exported(h, client, s.cells[rid], rid, seals);
            !Throws(h, r) && (Valid(h, r, expected) <==> Exportable(client, s.cells[rid], seals))
  {
    var c := s.cells[rid];
    DeclaredWinner(s, c);
    VerifierFindsTheWinner(h, client, s, rid, seals);
    hide Inv, RoundInv, ReadsDecimals, BidOk, Spec.BestBid, Computed;
    hide SchemaClean, Events.Sound, BidsClean, AllEvidenceClean;
    hide BidThrows, SealExportable, BiddersClean, WinnerOf;
    var r := Exported(h, client, c, rid, seals);
    assert r.version == Some(1) && r.bidders == Some(c.round.bidders) && r.winner == c.round.winner
        && r.log.events.Some?;
    ExportedSchemaAndLog(h, client, c, rid, seals, expected);
    ExportedBidsClean(h, client, c, rid, seals);
    ExportedBidders(h, client, c, rid, seals);
    hide Exported;
  }

  lemma ExportedBidders(h: Host, client: Client, c: Cell, rid: nat, seals: Address -> Option<Seal>)
    requires (forall b :: b in c.round.bidders ==> b in c.bids) && NoDup(c.round.bidders)
    ensures BiddersClean(Exported(h, client, c, rid, seals), c.round.bidders) <==>
            (forall b :: b in c.round.bidders ==> b.Account?)
  {
    hide ExportedBid;
  }
}
