/** The winner the verifier recomputes, on receipts from anywhere, and receipts that carry no nonces. */
module ReceiptWinner {
  import opened Prelude
  import opened RoundTypes
  import Spec = RoundSpec
  import opened RoundInvariant
  import opened Receipt
  import Clearing
  import Commitment
  import Hex
  import Events = ReceiptEvents

  // ---- Who is ranked ---------------------------------------------------------------------------------

  /** The nonce of a bid, when there is one, is the hex of 32 bytes. */
  ghost predicate NonceReads(e: BidEntry) {
    e.nonce.Some? ==> Hex.FromHexOf(e.nonce.value).Ok? && |Hex.FromHexOf(e.nonce.value).value| == 32
  }

  /** A bid is ranked exactly when it is marked valid, its value reads, and its nonce, if any, does too. */
  lemma RankedIff(h: Host, e: BidEntry, v: int)
    ensures Candidate(h, e) == Some(v) <==>
            e.valid && e.revealedValue.Some? && h.bigInt(e.revealedValue.value) == Some(v) && NonceReads(e)
  {
    hide Hex.FromHexOf;
  }

  /**
   * Checking a bid throws exactly when value and nonce both read, and the value fits no i128 or nothing is
   * committed.
   */
  lemma ThrowsIff(h: Host, e: BidEntry)
    ensures BindingThrows(h, e) <==>
            && e.revealedValue.Some? && h.bigInt(e.revealedValue.value).Some? && e.nonce.Some? && NonceReads(e)
            && (!InI128(h.bigInt(e.revealedValue.value).value) || e.commitment.None?)
  {
    hide Hex.FromHexOf;
  }

  // ---- Who wins --------------------------------------------------------------------------------------------

  ghost function RankedAt(h: Host, r: Receipt, bidder: Address): Option<int> {
    if EntryAt(r, bidder).Some? then Candidate(h, EntryAt(r, bidder).value) else None
  }

  /** An unknown rule ranks as lowest bid. */
  ghost function RuleOf(r: Receipt): ClearingRule {
    if r.clearingRule == Some(HighestBid) then HighestBid else LowestBid
  }

  /** Position `i` is preferred to every ranked bid before it, and no ranked bid after it is preferred to it. */
  ghost predicate WinsAt(h: Host, r: Receipt, bidders: seq<Address>, i: int) {
    && 0 <= i < |bidders| && RankedAt(h, r, bidders[i]).Some?
    && (forall j :: 0 <= j < i && RankedAt(h, r, bidders[j]).Some? ==>
          Clearing.Preferred(RuleOf(r), RankedAt(h, r, bidders[i]).value, RankedAt(h, r, bidders[j]).value))
    && (forall j :: i < j < |bidders| && RankedAt(h, r, bidders[j]).Some? ==>
          !Clearing.Preferred(RuleOf(r), RankedAt(h, r, bidders[j]).value, RankedAt(h, r, bidders[i]).value))
  }

  lemma RankOne(h: Host, r: Receipt, best: Option<(Address, int)>, bidder: Address)
    ensures var next := RankStep(h, r, best, bidder); var v := RankedAt(h, r, bidder);
            if v.Some? && (best.None? || Clearing.Preferred(RuleOf(r), v.value, best.value.1))
            then next == Some((bidder, v.value))
            else next == best
  {
    hide Candidate;
  }

  /** On any receipt the recomputed winner is the earliest most preferred ranked bid, and there is none without one. */
  lemma {:induction false} ComputedIsExtremal(h: Host, r: Receipt, bidders: seq<Address>)
    ensures match Computed(h, r, bidders)
            case None => forall j :: 0 <= j < |bidders| ==> RankedAt(h, r, bidders[j]).None?
            case Some(w) => exists i :: WinsAt(h, r, bidders, i) && w == (bidders[i], RankedAt(h, r, bidders[i]).value)
  {
    if bidders != [] {
      var n := |bidders| - 1;
      var front, last := bidders[..n], bidders[n];
      ComputedIsExtremal(h, r, front);
      RankOne(h, r, Computed(h, r, front), last);
      hide RankStep, RankedAt;
      var best := Computed(h, r, front);
      if best.Some? {
        var i :| WinsAt(h, r, front, i) && best.value == (front[i], RankedAt(h, r, front[i]).value);
        ExtendWinner(h, r, bidders, i);
      } else if RankedAt(h, r, last).Some? {
        assert forall j :: 0 <= j < n ==> bidders[j] == front[j];
        assert WinsAt(h, r, bidders, n);
      }
    }
  }

  lemma ExtendWinner(h: Host, r: Receipt, bidders: seq<Address>, i: int)
    requires bidders != [] && WinsAt(h, r, bidders[..|bidders| - 1], i)
    ensures var n := |bidders| - 1; var v := RankedAt(h, r, bidders[n]);
            if v.Some? && Clearing.Preferred(RuleOf(r), v.value, RankedAt(h, r, bidders[i]).value)
            then WinsAt(h, r, bidders, n)
            else WinsAt(h, r, bidders, i)
  {
    hide RankedAt;
    var front := bidders[..|bidders| - 1];
    assert forall j :: 0 <= j < |front| ==> bidders[j] == front[j];
  }

  /** Only one position wins. */
  lemma WinsOnce(h: Host, r: Receipt, bidders: seq<Address>, i: int, j: int)
    requires WinsAt(h, r, bidders, i) && WinsAt(h, r, bidders, j)
    ensures i == j
  {
    hide RankedAt;
  }

  // ---- Receipts without nonces ----------------------------------------------------------------------------

  ghost function Bare(e: Option<BidEntry>): Option<BidEntry> {
    if e.Some? then Some(e.value.(nonce := None)) else None
  }

  /** The same receipt from an exporter that kept no nonces. */
  ghost function WithoutNonces(r: Receipt): Receipt {
    r.(bids := map b | b in r.bids :: Bare(r.bids[b]))
  }

  lemma BareEntry(r: Receipt, b: Address)
    ensures EntryAt(WithoutNonces(r), b) == Bare(EntryAt(r, b))
  {
  }

  /** Every nonce of the receipt is the hex of 32 bytes. */
  ghost predicate NoncesRead(r: Receipt) {
    forall b :: b in r.bids && r.bids[b].Some? ==> NonceReads(r.bids[b].value)
  }

  lemma BareRanksAlike(h: Host, r: Receipt, b: Address)
    requires NoncesRead(r)
    ensures RankedAt(h, WithoutNonces(r), b) == RankedAt(h, r, b)
  {
    BareEntry(r, b);
    if EntryAt(r, b).Some? {
      var e := EntryAt(r, b).value;
      if Candidate(h, e).Some? {
        RankedIff(h, e, Candidate(h, e).value);
        RankedIff(h, e.(nonce := None), Candidate(h, e).value);
      }
      if Candidate(h, e.(nonce := None)).Some? {
        RankedIff(h, e, Candidate(h, e.(nonce := None)).value);
        RankedIff(h, e.(nonce := None), Candidate(h, e.(nonce := None)).value);
      }
    }
    hide Candidate, Hex.FromHexOf;
  }

  /** Without its nonces a receipt has the same recomputed winner. */
  lemma {:induction false} BareComputesAlike(h: Host, r: Receipt, bidders: seq<Address>)
    requires NoncesRead(r)
    ensures Computed(h, WithoutNonces(r), bidders) == Computed(h, r, bidders)
  {
    if bidders != [] {
      var n := |bidders| - 1;
      BareComputesAlike(h, r, bidders[..n]);
      RankOne(h, r, Computed(h, r, bidders[..n]), bidders[n]);
      RankOne(h, WithoutNonces(r), Computed(h, r, bidders[..n]), bidders[n]);
      BareRanksAlike(h, r, bidders[n]);
      hide RankStep, RankedAt, NoncesRead, EntryAt;
    }
  }

  lemma BareEntryClean(h: Host, e: BidEntry)
    requires EntryClean(h, e)
    ensures EntryClean(h, e.(nonce := None)) && !BindingThrows(h, e.(nonce := None))
  {
    hide Hex.ToHex, Hex.Lower, Hex.AllHex, Hex.FromHexOf;
  }

  /**
   * Leaving the nonces out of a valid receipt leaves it valid: the winner is still recomputed, only the bindings
   * are no longer checked. So a receipt without nonces vouches for its bids only as far as whoever made it.
   */
  lemma ValidWithoutNonces(h: Host, r: Receipt, expected: Events.Expectation)
    requires Valid(h, r, expected)
    ensures Valid(h, WithoutNonces(r), expected) && WinnerOf(h, WithoutNonces(r)) == WinnerOf(h, r)
  {
    var t := WithoutNonces(r);
    var bidders := r.bidders.value;
    CleanNoncesRead(h, r);
    BareComputesAlike(h, r, bidders);
    hide Computed, Events.Sound, EntryClean, EvidenceClean;
    forall b | b in bidders
      ensures BidClean(h, t, b) && (EvidenceClean(t, b) <==> EvidenceClean(r, b))
    {
      BareEntry(r, b);
      BareEvidence(r, b);
      assert BidClean(h, r, b);
      if EntryAt(r, b).Some? {
        BareEntryClean(h, EntryAt(r, b).value);
      }
    }
    assert t.bids.Keys == r.bids.Keys;
  }

  lemma BareEvidence(r: Receipt, b: Address)
    ensures EvidenceClean(WithoutNonces(r), b) <==> EvidenceClean(r, b)
  {
    BareEntry(r, b);
    hide IsHexText;
  }

  lemma CleanNoncesRead(h: Host, r: Receipt)
    requires r.bidders.Some? && BidsClean(h, r, r.bidders.value) && forall b :: b in r.bids ==> b in r.bidders.value
    ensures NoncesRead(r)
  {
    hide Hex.FromHexOf, Hex.ToHex, Hex.Lower, Hex.AllHex;
    forall b | b in r.bids && r.bids[b].Some?
      ensures NonceReads(r.bids[b].value)
    {
      assert BidClean(h, r, b) && EntryAt(r, b) == r.bids[b];
    }
  }
}
