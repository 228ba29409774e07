/**
 * The escrow guard on arbitrary storage: whatever the stored index looks like (dropped, duplicated
 * or phantom entries), a `settle` or a void that succeeds pays each indexed escrow exactly once.
 */
module Guard {
  import opened Prelude
  import opened RoundTypes
  import opened RoundSpec
  import opened RoundInvariant

  /** Escrow of the indexed, unsettled bids outside `seen`, each address counted once. */
  ghost function Distinct(bids: map<Address, BidState>, seen: set<Address>, bidders: seq<Address>): int
    decreases |bidders|
  {
    if bidders == [] then 0
    else
      var first := if bidders[0] in seen then 0 else HeldBy(bids, bidders[0]);
      first + Distinct(bids, seen + {bidders[0]}, bidders[1..])
  }

  /** Tokens the contract has sent out. */
  function Out(log: seq<Transfer>): int {
    if log == [] then 0
    else Out(log[..|log| - 1]) + (if log[|log| - 1].from == SELF then log[|log| - 1].amount else 0)
  }

  lemma OutSend(log: seq<Transfer>, t: Transfer)
    ensures Out(log + [t]) == Out(log) + (if t.from == SELF then t.amount else 0)
  {
    assert (log + [t])[..|log + [t]| - 1] == log;
  }

  /** A positive escrow stands in the index at most once. */
  ghost predicate NoDoubleEscrow(bids: map<Address, BidState>, bidders: seq<Address>) {
    forall i, j :: 0 <= i < j < |bidders| && bidders[i] == bidders[j] && bidders[i] in bids ==>
      bids[bidders[i]].escrow == 0
  }

  /** The same, of the indexed bids only. */
  ghost predicate NonNegativeAt(bids: map<Address, BidState>, bidders: seq<Address>) {
    forall b :: b in bidders && b in bids ==> bids[b].escrow >= 0
  }

  ghost predicate NonNegative(bids: map<Address, BidState>) {
    forall a :: a in bids ==> bids[a].escrow >= 0
  }

  ghost predicate Unsettled(bids: map<Address, BidState>, bidders: seq<Address>) {
    forall b :: b in bidders ==> b in bids && !bids[b].settled
  }

  /** Counting with and without repetition agree only when nothing positive is repeated. */
  lemma {:induction false} DistinctBelowHeld(bids: map<Address, BidState>, seen: set<Address>, bidders: seq<Address>)
    requires NonNegativeAt(bids, bidders) && Unsettled(bids, bidders)
    ensures Distinct(bids, seen, bidders) <= Held(bids, bidders)
    ensures Distinct(bids, seen, bidders) == Held(bids, bidders) ==>
              forall i :: 0 <= i < |bidders| && (bidders[i] in seen || bidders[i] in bidders[..i]) ==>
                bids[bidders[i]].escrow == 0
    decreases |bidders|
  {
    if bidders != [] {
      var rest := bidders[1..];
      DistinctBelowHeld(bids, seen + {bidders[0]}, rest);
      if Distinct(bids, seen, bidders) == Held(bids, bidders) {
        forall i | 0 <= i < |bidders| && (bidders[i] in seen || bidders[i] in bidders[..i])
          ensures bids[bidders[i]].escrow == 0
        {
          if i > 0 {
            assert bidders[i] == rest[i - 1];
            assert bidders[i] in bidders[..i] ==> bidders[i] == bidders[0] || bidders[i] in rest[..i - 1] by {
              assert bidders[..i] == [bidders[0]] + rest[..i - 1];
            }
          }
        }
      }
    }
  }

  lemma EqualMeansNoDouble(bids: map<Address, BidState>, bidders: seq<Address>)
    requires NonNegativeAt(bids, bidders) && Unsettled(bids, bidders)
    requires Distinct(bids, {}, bidders) == Held(bids, bidders)
    ensures NoDoubleEscrow(bids, bidders)
  {
    DistinctBelowHeld(bids, {}, bidders);
    forall i, j | 0 <= i < j < |bidders| && bidders[i] == bidders[j] && bidders[i] in bids
      ensures bids[bidders[i]].escrow == 0
    {
      assert bidders[j] == bidders[..j][i];
    }
  }

  /** Conversely, when nothing positive is repeated both counts agree. */
  lemma {:induction false} NoDoubleMeansEqual(bids: map<Address, BidState>, seen: set<Address>, bidders: seq<Address>)
    requires Unsettled(bids, bidders) && NoDoubleEscrow(bids, bidders)
    requires forall b :: b in bidders && b in seen ==> bids[b].escrow == 0
    ensures Distinct(bids, seen, bidders) == Held(bids, bidders)
    decreases |bidders|
  {
    if bidders != [] {
      var first, rest := bidders[0], bidders[1..];
      assert first in bidders;
      forall i, j | 0 <= i < j < |rest| && rest[i] == rest[j] && rest[i] in bids
        ensures bids[rest[i]].escrow == 0
      {
        assert bidders[i + 1] == bidders[j + 1];
      }
      forall b | b in rest && b in seen + {first}
        ensures bids[b].escrow == 0
      {
        if b == first {
          var j :| 0 <= j < |rest| && rest[j] == b;
          assert bidders[0] == bidders[j + 1];
        }
      }
      NoDoubleMeansEqual(bids, seen + {first}, rest);
    }
  }

  lemma NobodyListed(members: seq<Address>)
    ensures ToSet(members) == {} ==> members == []
  {
    if members != [] {
      assert members[0] in ToSet(members);
    }
  }

  /** Counted without repetition, an index holds what any duplicate-free list of its members holds. */
  lemma {:induction false} DistinctIsHeld(bids: map<Address, BidState>, seen: set<Address>, bidders: seq<Address>,
                                          members: seq<Address>)
    requires NoDup(members) && ToSet(members) == ToSet(bidders) - seen
    ensures Distinct(bids, seen, bidders) == Held(bids, members)
    decreases |bidders|
  {
    if bidders == [] {
      NobodyListed(members);
    } else {
      var first, rest := bidders[0], bidders[1..];
      assert forall b :: b in bidders <==> b == first || b in rest;
      if first in seen {
        assert seen + {first} == seen;
        assert ToSet(rest) - seen == ToSet(bidders) - seen;
        DistinctIsHeld(bids, seen, rest, members);
      } else {
        assert first in ToSet(members);
        var i :| 0 <= i < |members| && members[i] == first;
        var others := members[..i] + members[i + 1..];
        assert members == members[..i] + [first] + members[i + 1..];
        HeldSplit(bids, members[..i], first, members[i + 1..]);
        WithoutOne(members, i);
        assert ToSet(rest) - (seen + {first}) == ToSet(members) - {first};
        DistinctIsHeld(bids, seen + {first}, rest, others);
      }
    }
  }

  // ---- What a passing scan and plan say ------------------------------------------------

  lemma {:induction false} ScanSays(acc: EscrowIndex, bids: map<Address, BidState>, bidders: seq<Address>)
    requires Scan(acc, bids, bidders).Ok?
    ensures var index := Scan(acc, bids, bidders).value;
            && (forall b :: b in bidders ==> b in bids)
            && index.locked == acc.locked + Held(bids, bidders)
            && index.settled >= acc.settled
            && (index.settled == acc.settled ==> Unsettled(bids, bidders))
    decreases |bidders|
  {
    if bidders != [] {
      ScanSays(ScanStep(acc, bids, bidders[0]).value, bids, bidders[1..]);
      assert forall b :: b in bidders ==> b == bidders[0] || b in bidders[1..];
    }
  }

  /** `w` once per occurrence of `winner` in the index. */
  ghost function Claimed(bidders: seq<Address>, winner: Address, w: int): int {
    if bidders == [] then 0 else (if bidders[0] == winner then w else 0) + Claimed(bidders[1..], winner, w)
  }

  ghost predicate OccursOnce(bidders: seq<Address>, a: Address) {
    exists i :: 0 <= i < |bidders| && bidders[i] == a && (forall j :: 0 <= j < |bidders| && bidders[j] == a ==> j == i)
  }

  lemma {:induction false} ClaimedOnce(bidders: seq<Address>, winner: Address, w: int)
    requires w > 0
    ensures Claimed(bidders, winner, w) >= 0
    ensures Claimed(bidders, winner, w) == 0 ==> winner !in bidders
    ensures Claimed(bidders, winner, w) == w ==> OccursOnce(bidders, winner)
  {
    if bidders != [] {
      var rest := bidders[1..];
      ClaimedOnce(rest, winner, w);
      if Claimed(bidders, winner, w) == w {
        if bidders[0] == winner {
          assert forall j :: 0 < j < |bidders| ==> bidders[j] == rest[j - 1];
          assert bidders[0] == winner && forall j :: 0 <= j < |bidders| && bidders[j] == winner ==> j == 0;
        } else {
          var i :| 0 <= i < |rest| && rest[i] == winner
              && (forall j :: 0 <= j < |rest| && rest[j] == winner ==> j == i);
          assert bidders[i + 1] == winner;
          forall j | 0 <= j < |bidders| && bidders[j] == winner
            ensures j == i + 1
          {
            assert bidders[j] == rest[j - 1];
          }
        }
      }
    }
  }

  lemma {:induction false} PlanSays(acc: i128, bids: map<Address, BidState>, winner: Address, w: i128,
          bidders: seq<Address>)
    requires Unsettled(bids, bidders) && Plan(acc, bids, winner, w, bidders).Ok?
    ensures Plan(acc, bids, winner, w, bidders).value == acc + Held(bids, bidders) - Claimed(bidders, winner, w)
    ensures winner in bidders ==> w <= bids[winner].escrow
    decreases |bidders|
  {
    if bidders != [] {
      assert bidders[0] in bidders;
      PlanSays(PlanStep(acc, bids, winner, w, bidders[0]).value, bids, winner, w, bidders[1..]);
    }
  }

  /** A plan that fits runs to its end. */
  lemma {:induction false} PlanRuns(acc: i128, bids: map<Address, BidState>, winner: Address, w: i128,
            bidders: seq<Address>)
    requires Unsettled(bids, bidders) && NonNegativeAt(bids, bidders)
    requires w >= 0 && (winner in bidders ==> w <= bids[winner].escrow)
    requires acc >= 0 && acc + Held(bids, bidders) < TWO_127
    ensures Plan(acc, bids, winner, w, bidders).Ok?
    decreases |bidders|
  {
    if bidders != [] {
      assert bidders[0] in bidders;
      HeldBounds(bids, bidders[1..]);
      PlanRuns(PlanStep(acc, bids, winner, w, bidders[0]).value, bids, winner, w, bidders[1..]);
    }
  }

  lemma {:induction false} AbsentClaimsNothing(bidders: seq<Address>, winner: Address, w: int)
    requires winner !in bidders
    ensures Claimed(bidders, winner, w) == 0
  {
    if bidders != [] {
      AbsentClaimsNothing(bidders[1..], winner, w);
    }
  }

  lemma {:induction false} OnceClaims(bidders: seq<Address>, winner: Address, w: int)
    requires OccursOnce(bidders, winner)
    ensures winner in bidders && Claimed(bidders, winner, w) == w
  {
    var rest := bidders[1..];
    var i :| 0 <= i < |bidders| && bidders[i] == winner
             && forall j :: 0 <= j < |bidders| && bidders[j] == winner ==> j == i;
    assert forall j :: 0 <= j < |rest| ==> rest[j] == bidders[j + 1];
    if i == 0 {
      AbsentClaimsNothing(rest, winner, w);
    } else {
      assert rest[i - 1] == winner;
      OnceClaims(rest, winner, w);
    }
  }

  lemma {:induction false} ScanRuns(acc: EscrowIndex, bids: map<Address, BidState>, bidders: seq<Address>)
    requires NonNegativeAt(bids, bidders) && forall b :: b in bidders ==> b in bids
    requires 0 <= acc.locked && acc.locked + Held(bids, bidders) < TWO_127
    ensures Scan(acc, bids, bidders).Ok?
    ensures Unsettled(bids, bidders) ==> Scan(acc, bids, bidders).value.settled == acc.settled
    decreases |bidders|
  {
    if bidders != [] {
      assert bidders[0] in bidders;
      HeldBounds(bids, bidders[1..]);
      ScanRuns(ScanStep(acc, bids, bidders[0]).value, bids, bidders[1..]);
    }
  }

  /** No flow is negative, and what was committed is what was paid, refunded or is still locked. */
  ghost predicate Balanced(l: EscrowLedger) {
    && l.committed >= 0 && l.payout >= 0 && l.refunds >= 0 && l.locked >= 0
    && l.committed == l.payout + l.refunds + l.locked
  }

  lemma ConservedIff(l: EscrowLedger)
    ensures Conserved(l) == Ok(true) <==> Balanced(l)
  {
  }

  /**
   * The guard, exactly, on any storage without negative escrow: it passes when and only when every indexed bidder
   * has a bid, the ledger is balanced, and what it locks is what the unsettled bids of the index hold.
   */
  lemma GuardAcceptsIff(c: Cell, ledger: EscrowLedger)
    requires NonNegativeAt(c.bids, c.round.bidders)
    ensures ProveConserved(c, ledger).Ok? <==>
            && (forall b :: b in c.round.bidders ==> b in c.bids)
            && Balanced(ledger) && ledger.locked == Held(c.bids, c.round.bidders)
    ensures ProveConserved(c, ledger).Ok? ==>
              ProveConserved(c, ledger).value.locked == ledger.locked
              && (ProveConserved(c, ledger).value.settled == 0 <==> Unsettled(c.bids, c.round.bidders))
  {
    ConservedIff(ledger);
    var start := EscrowIndex(0, 0);
    if ScanBidderIndex(c).Ok? {
      ScanSays(start, c.bids, c.round.bidders);
    }
    if (forall b :: b in c.round.bidders ==> b in c.bids) && Held(c.bids, c.round.bidders) < TWO_127 {
      ScanRuns(start, c.bids, c.round.bidders);
    }
    hide Scan, Conserved, Balanced, Held;
  }

  // ---- What a completed payout loop paid ----------------------------------------------------

  /** `p.bids` is `bids` with the positive escrows of `seen` paid. */
  ghost predicate PaidOff(p: Purse, bids: map<Address, BidState>, seen: set<Address>) {
    && p.bids.Keys == bids.Keys
    && (forall a :: a in bids ==> p.bids[a].escrow == bids[a].escrow)
    && (forall a :: a in bids && a !in seen ==> p.bids[a].settled == bids[a].settled)
    && (forall a :: a in bids && a in seen ==> p.bids[a].settled || bids[a].escrow == 0)
  }

  /** From `p` to `q`, `amount` tokens left the contract and the locked balance fell by as much. */
  ghost predicate SentOut(p: Purse, q: Purse, amount: int) {
    q.bids == p.bids && q.ledger.locked == p.ledger.locked - amount && Out(q.log) == Out(p.log) + amount
  }

  lemma SendRefundSays(p: Purse, rid: nat, to: Address, amount: i128)
    ensures SendRefund(p, rid, to, amount).Ok? ==> SentOut(p, SendRefund(p, rid, to, amount).value, amount)
  {
    OutSend(p.log, Transfer(rid, SELF, to, amount));
  }

  lemma SendPayoutSays(p: Purse, rid: nat, to: Address, amount: i128)
    ensures SendPayout(p, rid, to, amount).Ok? ==> SentOut(p, SendPayout(p, rid, to, amount).value, amount)
  {
    OutSend(p.log, Transfer(rid, SELF, to, amount));
  }

  lemma RefundStepSays(p: Purse, rid: nat, bids: map<Address, BidState>, seen: set<Address>, b: Address)
    requires NonNegative(bids) && PaidOff(p, bids, seen) && b in bids && !bids[b].settled
    requires RefundStep(p, rid, b).Ok?
    ensures var q := RefundStep(p, rid, b).value; var e := if b in seen then 0 else bids[b].escrow;
            PaidOff(q, bids, seen + {b}) && q.ledger.locked == p.ledger.locked - e && Out(q.log) == Out(p.log) + e
  {
    SendRefundSays(p, rid, b, p.bids[b].escrow);
    hide SendRefund;
  }

  lemma SettleStepSent(p: Purse, rid: nat, op: Address, winner: Address, w: i128, b: Address)
    requires b in p.bids && !p.bids[b].settled && p.bids[b].escrow >= 0 && (b == winner ==> 0 < w <= p.bids[b].escrow)
    requires SettleStep(p, rid, op, winner, w, b).Ok?
    ensures var q := SettleStep(p, rid, op, winner, w, b).value; var e := p.bids[b].escrow;
            && q.bids == p.bids[b := p.bids[b].(settled := true)]
            && q.ledger.locked == p.ledger.locked - e && Out(q.log) == Out(p.log) + e
  {
    var e := p.bids[b].escrow;
    if b == winner {
      SendPayoutSays(p, rid, op, w);
      SendRefundSays(SendPayout(p, rid, op, w).value, rid, b, e - w);
    } else {
      SendRefundSays(p, rid, b, e);
    }
    hide SendRefund, SendPayout;
  }

  lemma SettleStepSays(p: Purse, rid: nat, op: Address, winner: Address, w: i128, bids: map<Address, BidState>,
          seen: set<Address>, b: Address)
    requires NonNegative(bids) && PaidOff(p, bids, seen) && b in bids && !bids[b].settled
    requires b in seen ==> p.bids[b].settled
    requires b == winner ==> 0 < w <= bids[b].escrow
    requires SettleStep(p, rid, op, winner, w, b).Ok?
    ensures var q := SettleStep(p, rid, op, winner, w, b).value; var e := if b in seen then 0 else bids[b].escrow;
            && PaidOff(q, bids, seen + {b}) && q.bids[b].settled
            && (forall a :: a in bids && p.bids[a].settled ==> q.bids[a].settled)
            && q.ledger.locked == p.ledger.locked - e && Out(q.log) == Out(p.log) + e
  {
    if b in seen {
      assert SettleStep(p, rid, op, winner, w, b) == Ok(p);
    } else {
      SettleStepSent(p, rid, op, winner, w, b);
    }
    hide SettleStep;
  }

  lemma {:induction false} SettleAllSays(p: Purse, rid: nat, op: Address, winner: Address, w: i128,
          bids: map<Address, BidState>,
                                         seen: set<Address>, bidders: seq<Address>)
    requires NonNegative(bids) && PaidOff(p, bids, seen) && Unsettled(bids, bidders)
    requires forall a :: a in bids && a in seen ==> p.bids[a].settled
    requires winner in bidders ==> 0 < w <= bids[winner].escrow
    requires SettleAll(p, rid, op, winner, w, bidders).Ok?
    ensures var q := SettleAll(p, rid, op, winner, w, bidders).value;
            && q.ledger.locked == p.ledger.locked - Distinct(bids, seen, bidders)
            && Out(q.log) == Out(p.log) + Distinct(bids, seen, bidders)
    decreases |bidders|
  {
    if bidders != [] {
      var b := bidders[0];
      assert b in bidders;
      SettleStepSays(p, rid, op, winner, w, bids, seen, b);
      SettleAllSays(SettleStep(p, rid, op, winner, w, b).value, rid, op, winner, w, bids, seen + {b}, bidders[1..]);
    }
  }

  lemma {:induction false} RefundEachSays(p: Purse, rid: nat, bids: map<Address, BidState>, seen: set<Address>,
          bidders: seq<Address>)
    requires NonNegative(bids) && PaidOff(p, bids, seen) && Unsettled(bids, bidders)
    requires RefundEach(p, rid, bidders).Ok?
    ensures var q := RefundEach(p, rid, bidders).value;
            && q.ledger.locked == p.ledger.locked - Distinct(bids, seen, bidders)
            && Out(q.log) == Out(p.log) + Distinct(bids, seen, bidders)
    decreases |bidders|
  {
    if bidders != [] {
      var b := bidders[0];
      assert b in bidders;
      RefundStepSays(p, rid, bids, seen, b);
      RefundEachSays(RefundStep(p, rid, b).value, rid, bids, seen + {b}, bidders[1..]);
    }
  }

  // ---- The guard ---------------------------------------------------------------------------

  /** What passing the scan and plan checks alone already rules out. */
  lemma ChecksSay(c: Cell, winner: Address)
    requires NonNegative(c.bids) && c.round.winningBid > 0 && SettleChecks(c, winner).Ok?
    ensures SettleChecks(c, winner) == EnsureLedger(c)
    ensures Unsettled(c.bids, c.round.bidders) && OccursOnce(c.round.bidders, winner)
    ensures winner in c.round.bidders && c.round.winningBid <= c.bids[winner].escrow
    ensures EnsureLedger(c).value.locked == Held(c.bids, c.round.bidders)
  {
    var w := c.round.winningBid;
    ScanSays(EscrowIndex(0, 0), c.bids, c.round.bidders);
    PlanSays(0, c.bids, winner, w, c.round.bidders);
    ClaimedOnce(c.round.bidders, winner, w);
  }

  /**
   * The checks of `settle`, exactly, on any storage without negative escrow and with a positive winning bid: they
   * pass when and only when the guard does, nothing indexed is settled, and the winner stands in the index once
   * with an escrow that covers the winning bid.
   */
  lemma SettleChecksIff(c: Cell, winner: Address)
    requires NonNegative(c.bids) && c.round.winningBid > 0 && c.ledger.Some?
    ensures SettleChecks(c, winner).Ok? <==>
            && ProveConserved(c, c.ledger.value).Ok?
            && Unsettled(c.bids, c.round.bidders) && OccursOnce(c.round.bidders, winner)
            && winner in c.bids && c.round.winningBid <= c.bids[winner].escrow
  {
    var ledger, bidders := c.ledger.value, c.round.bidders;
    if SettleChecks(c, winner).Ok? {
      ChecksSay(c, winner);
    }
    GuardAcceptsIff(c, ledger);
    if ProveConserved(c, ledger).Ok? && Unsettled(c.bids, bidders) && OccursOnce(bidders, winner)
       && winner in c.bids && c.round.winningBid <= c.bids[winner].escrow {
      PlanRuns(0, c.bids, winner, c.round.winningBid, bidders);
      PlanSays(0, c.bids, winner, c.round.winningBid, bidders);
      OnceClaims(bidders, winner, c.round.winningBid);
    }
    hide ProveConserved, Plan, OccursOnce, Held, Claimed;
  }

  /**
   * If `settle` returns Ok on any storage with non-negative escrows and a positive winning bid, the
   * winner stood in the index exactly once, nobody with escrow stood there twice, and the tokens
   * sent out are exactly the locked balance, which is the sum of the distinct indexed escrows.
   */
  lemma SettleGuardSound(s: State, rid: nat)
    requires rid in s.cells && NonNegative(s.cells[rid].bids) && s.cells[rid].round.winningBid > 0
    requires Settle(s, rid).Ok?
    ensures var c := s.cells[rid];
            && c.round.winner.Some? && OccursOnce(c.round.bidders, c.round.winner.value)
            && Unsettled(c.bids, c.round.bidders) && NoDoubleEscrow(c.bids, c.round.bidders)
            && EnsureLedger(c).Ok?
            && EnsureLedger(c).value.locked == Distinct(c.bids, {}, c.round.bidders)
            && Out(Settle(s, rid).value.log) == Out(s.log) + EnsureLedger(c).value.locked
  {
    var c := s.cells[rid];
    var w := c.round.winner.value;
    ChecksSay(c, w);
    SettleAllSays(Purse(c.bids, EnsureLedger(c).value, s.balances, s.log), rid, c.round.operator, w,
                  c.round.winningBid, c.bids, {}, c.round.bidders);
    EqualMeansNoDouble(c.bids, c.round.bidders);
  }

  /** The same for every path that refunds a whole round. */
  lemma RefundGuardSound(s: State, rid: nat, c: Cell)
    requires NonNegative(c.bids) && RefundAll(s, rid, c).Ok?
    ensures && Unsettled(c.bids, c.round.bidders) && NoDoubleEscrow(c.bids, c.round.bidders)
            && EnsureLedger(c).Ok? && EnsureLedger(c).value.payout == 0
            && EnsureLedger(c).value.locked == Distinct(c.bids, {}, c.round.bidders)
            && Out(RefundAll(s, rid, c).value.log) == Out(s.log) + EnsureLedger(c).value.locked
  {
    ScanSays(EscrowIndex(0, 0), c.bids, c.round.bidders);
    RefundEachSays(Purse(c.bids, EnsureLedger(c).value, s.balances, s.log), rid, c.bids, {}, c.round.bidders);
    EqualMeansNoDouble(c.bids, c.round.bidders);
  }
}
