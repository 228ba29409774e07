/** What the payout loops of `settle` and `refund_all` do, in closed form, and that they cannot fail. */
module Payout {
  import opened Prelude
  import opened RoundTypes
  import opened RoundSpec
  import opened RoundInvariant

  /** The transfers `settle` makes for one bidder: the bid to the operator, the rest back. */
  ghost function SettlePayments(rid: nat, operator: Address, winner: Address, winningBid: i128,
                                bids: map<Address, BidState>, b: Address): seq<Transfer>
    requires b in bids && bids[b].escrow > 0
    requires b == winner ==> 0 < winningBid <= bids[b].escrow
  {
    if b != winner then [Transfer(rid, SELF, b, bids[b].escrow)]
    else if bids[b].escrow > winningBid then
      [Transfer(rid, SELF, operator, winningBid), Transfer(rid, SELF, b, bids[b].escrow - winningBid)]
    else [Transfer(rid, SELF, operator, winningBid)]
  }

  ghost predicate Payable(bids: map<Address, BidState>, winner: Address, winningBid: i128, bidders: seq<Address>) {
    && (forall b :: b in bidders ==> b in bids && bids[b].escrow > 0)
    && (winner in bidders ==> 0 < winningBid <= bids[winner].escrow)
  }

  /** Every transfer of a settlement, in index order. */
  ghost function SettleTransfers(rid: nat, operator: Address, winner: Address, winningBid: i128,
                                 bids: map<Address, BidState>, bidders: seq<Address>): seq<Transfer>
    requires Payable(bids, winner, winningBid, bidders)
    decreases |bidders|
  {
    if bidders == [] then []
    else
      SettlePayments(rid, operator, winner, winningBid, bids, bidders[0])
      + SettleTransfers(rid, operator, winner, winningBid, bids, bidders[1..])
  }

  /** Every transfer of a void, in index order. */
  ghost function RefundTransfers(rid: nat, bids: map<Address, BidState>, bidders: seq<Address>): seq<Transfer>
    requires forall b :: b in bidders ==> b in bids
    decreases |bidders|
  {
    if bidders == [] then []
    else [Transfer(rid, SELF, bidders[0], bids[bidders[0]].escrow)] + RefundTransfers(rid, bids, bidders[1..])
  }

  /** The bid states once everyone in `paid` is settled. */
  ghost function MarkAll(bids: map<Address, BidState>, paid: seq<Address>): (m: map<Address, BidState>)
    ensures m.Keys == bids.Keys
    ensures forall a :: a in bids ==> m[a] == if a in paid then bids[a].(settled := true) else bids[a]
  {
    map a | a in bids :: if a in paid then bids[a].(settled := true) else bids[a]
  }

  /** The purse can pay what is still owed to `bidders`, and no sum it forms leaves the i128 range. */
  ghost predicate Funded(p: Purse, bids: map<Address, BidState>, bidders: seq<Address>) {
    && NoDup(bidders)
    && (forall b :: b in bidders ==>
          b in bids && b in p.bids && p.bids[b] == bids[b] && bids[b].escrow > 0 && !bids[b].settled && b != SELF)
    && p.ledger.payout >= 0 && p.ledger.refunds >= 0
    && 0 <= Held(bids, bidders) <= p.ledger.locked
    && p.ledger.committed == p.ledger.payout + p.ledger.refunds + p.ledger.locked
    && Balance(p.balances, SELF) >= Held(bids, bidders)
  }

  /** From `p` to `q` the contract paid out `payout` and refunded `refunds`, by the transfers `ts`. */
  ghost predicate Paid(p: Purse, q: Purse, payout: int, refunds: int, ts: seq<Transfer>) {
    && q.ledger.committed == p.ledger.committed
    && q.ledger.payout == p.ledger.payout + payout
    && q.ledger.refunds == p.ledger.refunds + refunds
    && q.ledger.locked == p.ledger.locked - payout - refunds
    && q.log == p.log + ts
    && Balance(q.balances, SELF) == Balance(p.balances, SELF) - payout - refunds
  }

  lemma PaidTrans(p: Purse, q: Purse, r: Purse, w: int, f: int, ts: seq<Transfer>, w': int, f': int, ts': seq<Transfer>)
    requires Paid(p, q, w, f, ts) && Paid(q, r, w', f', ts')
    ensures Paid(p, r, w + w', f + f', ts + ts')
  {
  }

  /** The contract can send `amount` out of `p` without a trap. */
  ghost predicate CanSend(p: Purse, amount: int) {
    && 0 < amount <= p.ledger.locked
    && p.ledger.payout >= 0 && p.ledger.refunds >= 0
    && p.ledger.committed == p.ledger.payout + p.ledger.refunds + p.ledger.locked
    && Balance(p.balances, SELF) >= amount
  }

  lemma SendRefundPays(p: Purse, rid: nat, to: Address, amount: i128)
    requires CanSend(p, amount) && to != SELF
    ensures SendRefund(p, rid, to, amount).Ok?
    ensures var q := SendRefund(p, rid, to, amount).value;
            q.bids == p.bids && Paid(p, q, 0, amount, [Transfer(rid, SELF, to, amount)])
  {
  }

  lemma SendPayoutPays(p: Purse, rid: nat, to: Address, amount: i128)
    requires CanSend(p, amount) && to != SELF
    ensures SendPayout(p, rid, to, amount).Ok?
    ensures var q := SendPayout(p, rid, to, amount).value;
            q.bids == p.bids && Paid(p, q, amount, 0, [Transfer(rid, SELF, to, amount)])
  {
  }

  lemma SettleStepPays(p: Purse, rid: nat, operator: Address, winner: Address, winningBid: i128,
                       bids: map<Address, BidState>, b: Address)
    requires b in bids && b in p.bids && p.bids[b] == bids[b] && !bids[b].settled && b != SELF && operator != SELF
    requires CanSend(p, bids[b].escrow) && (b == winner ==> 0 < winningBid <= bids[b].escrow)
    ensures SettleStep(p, rid, operator, winner, winningBid, b).Ok?
    ensures var w := if b == winner then winningBid else 0;
            var q := SettleStep(p, rid, operator, winner, winningBid, b).value;
            && q.bids == p.bids[b := bids[b].(settled := true)]
            && Paid(p, q, w, bids[b].escrow - w, SettlePayments(rid, operator, winner, winningBid, bids, b))
  {
    var e := bids[b].escrow;
    if b == winner {
      SendPayoutPays(p, rid, operator, winningBid);
      var paid := SendPayout(p, rid, operator, winningBid).value;
      if e > winningBid {
        SendRefundPays(paid, rid, b, e - winningBid);
        PaidTrans(p, paid, SendRefund(paid, rid, b, e - winningBid).value,
                  winningBid, 0, [Transfer(rid, SELF, operator, winningBid)],
                  0, e - winningBid, [Transfer(rid, SELF, b, e - winningBid)]);
      }
    } else {
      SendRefundPays(p, rid, b, e);
    }
  }

  /** Paying the head of the index leaves the purse funded for the rest of it. */
  lemma FundedStep(p: Purse, q: Purse, bids: map<Address, BidState>, bidders: seq<Address>, w: int, ts: seq<Transfer>)
    requires bidders != [] && Funded(p, bids, bidders)
    requires Paid(p, q, w, bids[bidders[0]].escrow - w, ts) && 0 <= w <= bids[bidders[0]].escrow
    requires q.bids == p.bids[bidders[0] := bids[bidders[0]].(settled := true)]
    ensures Funded(q, bids, bidders[1..])
    ensures MarkAll(q.bids, bidders[1..]) == MarkAll(p.bids, bidders)
  {
    HeldBounds(bids, bidders[1..]);
    assert bidders == [bidders[0]] + bidders[1..];
  }

  lemma FundedHead(p: Purse, bids: map<Address, BidState>, bidders: seq<Address>)
    requires bidders != [] && Funded(p, bids, bidders)
    ensures CanSend(p, bids[bidders[0]].escrow)
    ensures Held(bids, bidders) == bids[bidders[0]].escrow + Held(bids, bidders[1..])
  {
    assert bidders[0] in bidders;
    HeldBounds(bids, bidders[1..]);
  }

  /** The whole payout loop runs to the end and pays exactly `SettleTransfers`. */
  lemma {:induction false} SettleAllPays(p: Purse, rid: nat, operator: Address, winner: Address, winningBid: i128,
                                         bids: map<Address, BidState>, bidders: seq<Address>)
    requires Funded(p, bids, bidders) && Payable(bids, winner, winningBid, bidders) && operator != SELF
    ensures SettleAll(p, rid, operator, winner, winningBid, bidders).Ok?
    ensures var w := if winner in bidders then winningBid else 0;
            var q := SettleAll(p, rid, operator, winner, winningBid, bidders).value;
            && q.bids == MarkAll(p.bids, bidders)
            && Paid(p, q, w, Held(bids, bidders) - w,
                    SettleTransfers(rid, operator, winner, winningBid, bids, bidders))
    decreases |bidders|
  {
    if bidders == [] {
      assert MarkAll(p.bids, []) == p.bids;
    } else {
      var b := bidders[0];
      var w := if b == winner then winningBid else 0;
      FundedHead(p, bids, bidders);
      SettleStepPays(p, rid, operator, winner, winningBid, bids, b);
      var next := SettleStep(p, rid, operator, winner, winningBid, b).value;
      var ts := SettlePayments(rid, operator, winner, winningBid, bids, b);
      FundedStep(p, next, bids, bidders, w, ts);
      SettleAllPays(next, rid, operator, winner, winningBid, bids, bidders[1..]);
      var w' := if winner in bidders[1..] then winningBid else 0;
      PaidTrans(p, next, SettleAll(next, rid, operator, winner, winningBid, bidders[1..]).value,
                w, bids[b].escrow - w, ts,
                w', Held(bids, bidders[1..]) - w',
                SettleTransfers(rid, operator, winner, winningBid, bids, bidders[1..]));
    }
  }

  /** The refund loop runs to the end and returns every bidder's escrow, in index order. */
  lemma {:induction false} RefundEachPays(p: Purse, rid: nat, bids: map<Address, BidState>, bidders: seq<Address>)
    requires Funded(p, bids, bidders)
    ensures RefundEach(p, rid, bidders).Ok?
    ensures var q := RefundEach(p, rid, bidders).value;
            && q.bids == MarkAll(p.bids, bidders)
            && Paid(p, q, 0, Held(bids, bidders), RefundTransfers(rid, bids, bidders))
    decreases |bidders|
  {
    if bidders == [] {
      assert MarkAll(p.bids, []) == p.bids;
    } else {
      var b := bidders[0];
      FundedHead(p, bids, bidders);
      SendRefundPays(p, rid, b, bids[b].escrow);
      var next := RefundStep(p, rid, b).value;
      var ts := [Transfer(rid, SELF, b, bids[b].escrow)];
      FundedStep(p, next, bids, bidders, 0, ts);
      RefundEachPays(next, rid, bids, bidders[1..]);
      PaidTrans(p, next, RefundEach(next, rid, bidders[1..]).value, 0, bids[b].escrow, ts,
                0, Held(bids, bidders[1..]), RefundTransfers(rid, bids, bidders[1..]));
    }
  }

  /** The plan sums to exactly what is locked. */
  lemma {:induction false} PlanIsExact(acc: i128, bids: map<Address, BidState>, winner: Address,
          winningBid: i128, bidders: seq<Address>)
    requires NoDup(bidders) && (winner in bidders ==> winner in bids && 0 <= winningBid <= bids[winner].escrow)
    requires forall b :: b in bidders ==> b in bids && bids[b].escrow >= 0 && !bids[b].settled
    requires 0 <= acc <= acc + Held(bids, bidders) < TWO_127
    ensures Plan(acc, bids, winner, winningBid, bidders) ==
            Ok(acc + Held(bids, bidders) - (if winner in bidders then winningBid else 0))
    decreases |bidders|
  {
    if bidders != [] {
      var b := bidders[0];
      assert b in bidders;
      HeldBounds(bids, bidders[1..]);
      PlanIsExact(PlanStep(acc, bids, winner, winningBid, b).value, bids, winner, winningBid, bidders[1..]);
    }
  }
}
