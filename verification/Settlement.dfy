/** `settle` cannot fail on a cleared round, and a void's refund cannot fail on a live one. */
module Settlement {
  import opened Prelude
  import opened RoundTypes
  import opened RoundSpec
  import opened RoundInvariant
  import opened Payout
  import opened Clearing

  /** The winner of a cleared round is indexed, and escrowed at least the winning bid. */
  lemma WinnerIsCovered(s: State, c: Cell)
    requires RoundInv(s, c) && WinnerIsBest(c)
    ensures c.round.winner.value in c.round.bidders
    ensures 0 < c.round.winningBid <= c.bids[c.round.winner.value].escrow
    ensures c.bids[c.round.winner.value].revealedValue == Some(c.round.winningBid)
  {
    ClearPicksEarliestExtremal(c.bids, c.round.rule, c.round.bidders, c.round.winner.value, c.round.winningBid);
  }

  ghost function LivePurse(s: State, c: Cell): Purse
    requires LedgerOk(c)
  {
    Purse(c.bids, LiveLedger(c), s.balances, s.log)
  }

  lemma LiveRoundIsFunded(s: State, rid: nat)
    requires Inv(s) && rid in s.cells && NoneSettled(s.cells[rid])
    ensures Funded(LivePurse(s, s.cells[rid]), s.cells[rid].bids, s.cells[rid].round.bidders)
  {
    BalanceCoversRound(s, rid);
  }

  /** A cleared round once settled: every bid paid out, the winning bid booked as the payout. */
  ghost function SettledCell(c: Cell): Cell
    requires LedgerOk(c) && 0 < c.round.winningBid <= CellHeld(c)
  {
    var l := LiveLedger(c);
    Cell(c.round.(status := Settled), MarkAll(c.bids, c.round.bidders),
         Some(EscrowLedger(l.committed, l.payout + c.round.winningBid, l.refunds + CellHeld(c) - c.round.winningBid,
             0)))
  }

  /** A live round once voided: everything ever committed has gone back. */
  ghost function VoidedCell(c: Cell): Cell
    requires LedgerOk(c)
  {
    var l := LiveLedger(c);
    Cell(c.round.(status := Voided), MarkAll(c.bids, c.round.bidders),
         Some(EscrowLedger(l.committed, l.payout, l.refunds + CellHeld(c), 0)))
  }

  lemma {:induction false} OneEscrowIsHeld(bids: map<Address, BidState>, bidders: seq<Address>, b: Address)
    requires b in bidders && forall a :: a in bidders ==> a in bids && bids[a].escrow >= 0 && !bids[a].settled
    ensures bids[b].escrow <= Held(bids, bidders)
    decreases |bidders|
  {
    HeldBounds(bids, bidders[1..]);
    if b != bidders[0] {
      OneEscrowIsHeld(bids, bidders[1..], b);
    }
  }

  /** The scan and plan checks pass on every cleared round. */
  lemma SettleChecksPass(s: State, rid: nat)
    requires Inv(s) && rid in s.cells && s.cells[rid].round.status == Cleared
    ensures var c := s.cells[rid];
            && SettleChecks(c, c.round.winner.value) == Ok(LiveLedger(c))
            && Payable(c.bids, c.round.winner.value, c.round.winningBid, c.round.bidders)
            && c.round.winner.value in c.round.bidders
            && 0 < c.round.winningBid <= CellHeld(c)
  {
    var c := s.cells[rid];
    GuardPasses(s, c);
    WinnerIsCovered(s, c);
    PlanIsExact(0, c.bids, c.round.winner.value, c.round.winningBid, c.round.bidders);
    OneEscrowIsHeld(c.bids, c.round.bidders, c.round.winner.value);
  }

  ghost predicate Closed(l: EscrowLedger) {
    l.payout >= 0 && l.refunds >= 0 && l.committed == l.payout + l.refunds && l.locked == 0
  }

  lemma SettleFromChecks(s: State, rid: nat, w: Address, l: EscrowLedger, q: Purse)
    requires rid in s.cells && s.cells[rid].round.status == Cleared && s.cells[rid].round.winner == Some(w)
    requires SettleChecks(s.cells[rid], w) == Ok(l)
    requires var c := s.cells[rid];
             SettleAll(Purse(c.bids, l, s.balances, s.log), rid, c.round.operator, w, c.round.winningBid,
                 c.round.bidders) == Ok(q)
    requires Closed(q.ledger)
    ensures Settle(s, rid) == Ok(Put(s, rid, s.cells[rid].round.(status := Settled), q))
  {
  }

  lemma RefundFromChecks(s: State, rid: nat, c: Cell, l: EscrowLedger, q: Purse)
    requires EnsureLedger(c) == Ok(l) && l.payout == 0
    requires ProveConserved(c, l).Ok? && ProveConserved(c, l).value.settled == 0
    requires RefundEach(Purse(c.bids, l, s.balances, s.log), rid, c.round.bidders) == Ok(q)
    requires Closed(q.ledger)
    ensures RefundAll(s, rid, c) == Ok(Put(s, rid, c.round, q))
  {
  }

  lemma SettledPut(s: State, rid: nat, q: Purse, ts: seq<Transfer>)
    requires rid in s.cells && LedgerOk(s.cells[rid]) && 0 < s.cells[rid].round.winningBid <= CellHeld(s.cells[rid])
    requires var c := s.cells[rid];
             q.bids == MarkAll(c.bids, c.round.bidders)
             && Paid(LivePurse(s, c), q, c.round.winningBid, CellHeld(c) - c.round.winningBid, ts)
    ensures Put(s, rid, s.cells[rid].round.(status := Settled), q)
         == s.(cells := s.cells[rid := SettledCell(s.cells[rid])], balances := q.balances, log := s.log + ts)
  {
  }

  lemma VoidedPut(s: State, rid: nat, q: Purse, ts: seq<Transfer>)
    requires rid in s.cells && LedgerOk(s.cells[rid])
    requires var c := s.cells[rid];
             q.bids == MarkAll(c.bids, c.round.bidders) && Paid(LivePurse(s, c), q, 0, CellHeld(c), ts)
    ensures Put(s, rid, s.cells[rid].round.(status := Voided), q)
         == s.(cells := s.cells[rid := VoidedCell(s.cells[rid])], balances := q.balances, log := s.log + ts)
  {
  }

  /**
   * From every reachable cleared round `settle` succeeds, and this is all it does: the operator
   * gets the winning bid, the winner the rest of the winning escrow, every other bidder the full
   * escrow, each in one transfer, in index order; every bid is settled and nothing stays locked.
   */
  lemma SettleCannotFail(s: State, rid: nat)
    requires Inv(s) && rid in s.cells && s.cells[rid].round.status == Cleared
    ensures Settle(s, rid).Ok?
    ensures var c := s.cells[rid]; var r := c.round; var t := Settle(s, rid).value;
            && Payable(c.bids, r.winner.value, r.winningBid, r.bidders) && 0 < r.winningBid <= CellHeld(c)
            && t == s.(cells := s.cells[rid := SettledCell(c)], balances := t.balances,
                       log := s.log + SettleTransfers(rid, r.operator, r.winner.value, r.winningBid, c.bids, r.bidders))
            && Balance(t.balances, SELF) == Balance(s.balances, SELF) - CellHeld(c)
  {
    var c := s.cells[rid];
    var r := c.round;
    SettleChecksPass(s, rid);
    LiveRoundIsFunded(s, rid);
    var p := LivePurse(s, c);
    SettleAllPays(p, rid, r.operator, r.winner.value, r.winningBid, c.bids, r.bidders);
    var q := SettleAll(p, rid, r.operator, r.winner.value, r.winningBid, r.bidders).value;
    SettleFromChecks(s, rid, r.winner.value, LiveLedger(c), q);
    SettledPut(s, rid, q, SettleTransfers(rid, r.operator, r.winner.value, r.winningBid, c.bids, r.bidders));
  }

  /**
   * Voiding a live round succeeds, and this is all it does: every bidder gets the full escrow
   * back in one transfer, in index order; every bid is settled and nothing stays locked.
   */
  lemma RefundCannotFail(s: State, rid: nat)
    requires Inv(s) && rid in s.cells && s.cells[rid].round.status in {Open, Revealing}
    ensures var c := s.cells[rid]; var t := RefundAll(s, rid, c.(round := c.round.(status := Voided)));
            && t.Ok?
            && t.value == s.(cells := s.cells[rid := VoidedCell(c)], balances := t.value.balances,
                             log := s.log + RefundTransfers(rid, c.bids, c.round.bidders))
            && Balance(t.value.balances, SELF) == Balance(s.balances, SELF) - CellHeld(c)
  {
    var c := s.cells[rid];
    VoidChecksPass(s, rid);
    LiveRoundIsFunded(s, rid);
    hide Inv, RefundAll, ProveConserved, EnsureLedger;
    var p := LivePurse(s, c);
    RefundEachPays(p, rid, c.bids, c.round.bidders);
    var q := RefundEach(p, rid, c.round.bidders).value;
    RefundFromChecks(s, rid, c.(round := c.round.(status := Voided)), LiveLedger(c), q);
    hide RoundInv;
    VoidedPut(s, rid, q, RefundTransfers(rid, c.bids, c.round.bidders));
  }

  /** The guard of a refund reads nothing of the status, so it accepts a sound live round marked Voided. */
  lemma VoidChecksPass(s: State, rid: nat)
    requires Inv(s) && rid in s.cells && s.cells[rid].round.status in {Open, Revealing}
    ensures var c := s.cells[rid]; var d := c.(round := c.round.(status := Voided));
            && RoundInv(s, c) && LedgerOk(c)
            && EnsureLedger(d) == Ok(LiveLedger(c)) && LiveLedger(c).payout == 0
            && ProveConserved(d, LiveLedger(c)).Ok? && ProveConserved(d, LiveLedger(c)).value.settled == 0
  {
    var c := s.cells[rid];
    assert RoundInv(s, c) && NoneSettled(c) && LedgerOk(c);
    hide Inv;
    GuardPasses(s, c);
    LiveLedgerUnpaid(s, c);
    hide RoundInv, LedgerOk, NoneSettled, LiveLedger, CellHeld;
    var d := c.(round := c.round.(status := Voided));
    assert ScanBidderIndex(d) == ScanBidderIndex(c);
    assert EnsureLedger(d) == EnsureLedger(c);
  }

  lemma LiveLedgerUnpaid(s: State, c: Cell)
    requires RoundInv(s, c) && c.round.status in {Open, Revealing}
    ensures LiveLedger(c).payout == 0
  {
  }
}
