/** Who gained and lost what: net token flows per round and address, over whole runs. */
module Flows {
  import opened Prelude
  import opened RoundTypes
  import Spec = RoundSpec
  import opened RoundInvariant
  import opened Payout
  import opened Settlement
  import opened Runs

  /** What one transfer made for round `rid` means to address `a`. */
  function Delta(t: Transfer, rid: nat, a: Address): int {
    if t.round != rid then 0
    else (if t.to == a then t.amount else 0) - (if t.from == a then t.amount else 0)
  }

  /** Net tokens `a` received through round `rid`. */
  function Net(log: seq<Transfer>, rid: nat, a: Address): int {
    if log == [] then 0 else Net(log[..|log| - 1], rid, a) + Delta(log[|log| - 1], rid, a)
  }

  lemma {:induction false} NetAppend(x: seq<Transfer>, y: seq<Transfer>, rid: nat, a: Address)
    ensures Net(x + y, rid, a) == Net(x, rid, a) + Net(y, rid, a)
    decreases |y|
  {
    if y == [] {
      assert x + y == x;
    } else {
      NetAppend(x, y[..|y| - 1], rid, a);
      assert (x + y)[..|x + y| - 1] == x + y[..|y| - 1];
    }
  }

  lemma NetOne(t: Transfer, rid: nat, a: Address)
    ensures Net([t], rid, a) == Delta(t, rid, a)
  {
    assert [t][..0] == [];
  }

  lemma NetTwo(t: Transfer, u: Transfer, rid: nat, a: Address)
    ensures Net([t, u], rid, a) == Delta(t, rid, a) + Delta(u, rid, a)
  {
    NetOne(t, rid, a);
    assert [t, u][..1] == [t];
  }

  lemma {:induction false} NetOfOtherRound(ts: seq<Transfer>, rid: nat, k: nat, a: Address)
    requires forall t :: t in ts ==> t.round == rid
    requires k != rid
    ensures Net(ts, k, a) == 0
  {
    if ts != [] {
      assert ts[|ts| - 1] in ts;
      NetOfOtherRound(ts[..|ts| - 1], rid, k, a);
    }
  }

  // ---- The three shapes of payment ---------------------------------------------------

  lemma NetOfCommit(rid: nat, bids: map<Address, BidState>, bidder: Address, escrow: i128, k: nat, a: Address)
    requires a != SELF && PrevEscrow(bids, bidder) >= 0
    ensures Net(CommitTransfers(rid, bids, bidder, escrow), k, a)
         == if k == rid && a == bidder then PrevEscrow(bids, bidder) - escrow else 0
  {
    var prev := PrevEscrow(bids, bidder);
    if prev > 0 {
      NetTwo(Transfer(rid, SELF, bidder, prev), Transfer(rid, bidder, SELF, escrow), k, a);
      assert CommitTransfers(rid, bids, bidder, escrow)
          == [Transfer(rid, SELF, bidder, prev), Transfer(rid, bidder, SELF, escrow)];
    } else {
      NetOne(Transfer(rid, bidder, SELF, escrow), k, a);
      assert CommitTransfers(rid, bids, bidder, escrow) == [Transfer(rid, bidder, SELF, escrow)];
    }
  }

  /** What settling bidder `b` of a round shifts to `a`. */
  ghost function SettledTo(op: Address, winner: Address, w: i128, bids: map<Address, BidState>, b: Address,
                           a: Address): int
    requires b in bids
  {
    (if a == b then bids[b].escrow else 0)
    + (if b == winner then (if a == op then w else 0) - (if a == winner then w else 0) else 0)
  }

  /** What one bidder's settlement moves. */
  lemma NetOfPayments(rid: nat, op: Address, winner: Address, w: i128, bids: map<Address, BidState>,
          b: Address, k: nat, a: Address)
    requires a != SELF && Payable(bids, winner, w, [b])
    ensures Net(SettlePayments(rid, op, winner, w, bids, b), k, a)
         == if k == rid then SettledTo(op, winner, w, bids, b, a) else 0
  {
    hide Net;
    var e := bids[b].escrow;
    assert b in [b];
    if b != winner {
      NetOne(Transfer(rid, SELF, b, e), k, a);
    } else if e > w {
      NetTwo(Transfer(rid, SELF, op, w), Transfer(rid, SELF, b, e - w), k, a);
    } else {
      NetOne(Transfer(rid, SELF, op, w), k, a);
    }
  }

  /** What settling all of `bidders` shifts to `a`. */
  ghost function AllSettledTo(op: Address, winner: Address, w: i128, bids: map<Address, BidState>,
                              bidders: seq<Address>, a: Address): int
    requires Payable(bids, winner, w, bidders)
  {
    (if a in bidders then bids[a].escrow else 0)
    + (if winner in bidders then (if a == op then w else 0) - (if a == winner then w else 0) else 0)
  }

  lemma AllSettledStep(op: Address, winner: Address, w: i128, bids: map<Address, BidState>, bidders: seq<Address>,
          a: Address)
    requires bidders != [] && NoDup(bidders) && Payable(bids, winner, w, bidders)
    ensures Payable(bids, winner, w, bidders[1..]) && NoDup(bidders[1..]) && Payable(bids, winner, w, [bidders[0]])
    ensures AllSettledTo(op, winner, w, bids, bidders, a)
         == SettledTo(op, winner, w, bids, bidders[0], a) + AllSettledTo(op, winner, w, bids, bidders[1..], a)
  {
    assert bidders[0] !in bidders[1..];
    assert forall x :: x in bidders <==> x == bidders[0] || x in bidders[1..];
  }

  lemma {:induction false} NetOfSettleSum(rid: nat, op: Address, winner: Address, w: i128,
                                          bids: map<Address, BidState>, bidders: seq<Address>, k: nat, a: Address)
    requires a != SELF && NoDup(bidders) && Payable(bids, winner, w, bidders)
    ensures Net(SettleTransfers(rid, op, winner, w, bids, bidders), k, a)
         == if k == rid then AllSettledTo(op, winner, w, bids, bidders, a) else 0
    decreases |bidders|
  {
    if bidders != [] {
      var b := bidders[0];
      AllSettledStep(op, winner, w, bids, bidders, a);
      NetOfSettleSum(rid, op, winner, w, bids, bidders[1..], k, a);
      NetOfPayments(rid, op, winner, w, bids, b, k, a);
      hide Net, SettlePayments, AllSettledTo, SettledTo, NoDup;
      NetAppend(SettlePayments(rid, op, winner, w, bids, b), SettleTransfers(rid, op, winner, w, bids, bidders[1..]),
          k, a);
    }
  }

  lemma NetOfSettle(rid: nat, op: Address, winner: Address, w: i128, bids: map<Address, BidState>,
          bidders: seq<Address>, k: nat, a: Address)
    requires a != SELF && NoDup(bidders) && Payable(bids, winner, w, bidders)
    ensures Net(SettleTransfers(rid, op, winner, w, bids, bidders), k, a)
         == if k == rid then
              (if a in bidders then bids[a].escrow else 0)
              + (if winner in bidders then (if a == op then w else 0) - (if a == winner then w else 0) else 0)
            else 0
  {
    hide Net, SettleTransfers;
    NetOfSettleSum(rid, op, winner, w, bids, bidders, k, a);
  }

  lemma {:induction false} NetOfRefund(rid: nat, bids: map<Address, BidState>, bidders: seq<Address>, k: nat,
          a: Address)
    requires a != SELF && NoDup(bidders) && forall b :: b in bidders ==> b in bids
    ensures Net(RefundTransfers(rid, bids, bidders), k, a) == if k == rid && a in bidders then bids[a].escrow else 0
    decreases |bidders|
  {
    if bidders != [] {
      var t := Transfer(rid, SELF, bidders[0], bids[bidders[0]].escrow);
      NetAppend([t], RefundTransfers(rid, bids, bidders[1..]), k, a);
      NetOne(t, k, a);
      NetOfRefund(rid, bids, bidders[1..], k, a);
    }
  }

  // ---- Equity -------------------------------------------------------------------------

  /** Escrow the contract still holds for `a` in round `rid`. */
  ghost function Holding(s: State, rid: nat, a: Address): int {
    if rid in s.cells then HeldBy(s.cells[rid].bids, a) else 0
  }

  /** What a settlement is meant to shift to `a`: the bid, from the winner to the operator. */
  ghost function Award(s: State, rid: nat, a: Address): int {
    if rid in s.cells && s.cells[rid].round.status == Settled then
      var r := s.cells[rid].round;
      (if a == r.operator then r.winningBid else 0) - (if r.winner == Some(a) then r.winningBid else 0)
    else 0
  }

  /** Net flow so far, plus what is still held for `a`, less what the settlement awards. */
  ghost function Equity(s: State, rid: nat, a: Address): int {
    Net(s.log, rid, a) + Holding(s, rid, a) - Award(s, rid, a)
  }

  lemma EquityCommit(s: State, rid: nat, bidder: Address, h: Bytes32, len: nat, e: i128, blob: nat, seal: u64,
          k: nat, a: Address)
    requires Inv(s) && a != SELF && Spec.Commit(s, rid, bidder, h, len, e, blob, seal).Ok?
    ensures Equity(Spec.Commit(s, rid, bidder, h, len, e, blob, seal).value, k, a) == Equity(s, k, a)
  {
    CommitEffect(s, rid, bidder, h, len, e, blob, seal);
    var c := s.cells[rid];
    var t := Spec.Commit(s, rid, bidder, h, len, e, blob, seal).value;
    assert PrevEscrow(c.bids, bidder) >= 0 && (bidder in c.bids ==> !c.bids[bidder].settled) by {
      assert RoundInv(s, c);
    }
    EquityOfCommittedCell(s, t, rid, bidder, h, e, t.cells[rid].ledger.value, k, a);
  }

  lemma EquityOfCommittedCell(s: State, t: State, rid: nat, bidder: Address, h: Bytes32, e: i128,
          l: EscrowLedger, k: nat, a: Address)
    requires a != SELF && rid in s.cells && s.cells[rid].round.status == Open
    requires var c := s.cells[rid];
             && PrevEscrow(c.bids, bidder) >= 0 && (bidder in c.bids ==> !c.bids[bidder].settled)
             && t.cells == s.cells[rid := CommittedCell(c, bidder, h, e, l)]
             && t.log == s.log + CommitTransfers(rid, c.bids, bidder, e)
    ensures Equity(t, k, a) == Equity(s, k, a)
  {
    NetAppend(s.log, CommitTransfers(rid, s.cells[rid].bids, bidder, e), k, a);
    NetOfCommit(rid, s.cells[rid].bids, bidder, e, k, a);
  }

  lemma EquitySettle(s: State, rid: nat, k: nat, a: Address)
    requires Inv(s) && a != SELF && Spec.Settle(s, rid).Ok?
    ensures Equity(Spec.Settle(s, rid).value, k, a) == Equity(s, k, a)
  {
    SettleInv(s, rid);
    SettleCannotFail(s, rid);
    WinnerIsCovered(s, s.cells[rid]);
    hide Spec.Settle, Inv;
    EquityOfSettledCell(s, Spec.Settle(s, rid).value, rid, k, a);
  }

  lemma EquityOfSettledCell(s: State, t: State, rid: nat, k: nat, a: Address)
    requires a != SELF && rid in s.cells && RoundInv(s, s.cells[rid]) && s.cells[rid].round.status == Cleared
    requires var c := s.cells[rid]; var r := c.round;
             && r.winner.Some? && r.winner.value in r.bidders
             && Payable(c.bids, r.winner.value, r.winningBid, r.bidders) && 0 < r.winningBid <= CellHeld(c)
             && t.cells == s.cells[rid := SettledCell(c)]
             && t.log == s.log + SettleTransfers(rid, r.operator, r.winner.value, r.winningBid, c.bids, r.bidders)
    ensures Equity(t, k, a) == Equity(s, k, a)
  {
    var c := s.cells[rid];
    var r := c.round;
    NetAppend(s.log, SettleTransfers(rid, r.operator, r.winner.value, r.winningBid, c.bids, r.bidders), k, a);
    NetOfSettle(rid, r.operator, r.winner.value, r.winningBid, c.bids, r.bidders, k, a);
  }

  lemma EquityVoid(s: State, rid: nat, k: nat, a: Address)
    requires Inv(s) && a != SELF && rid in s.cells && s.cells[rid].round.status in {Open, Revealing}
    ensures var c := s.cells[rid]; var t := Spec.RefundAll(s, rid, c.(round := c.round.(status := Voided)));
            t.Ok? && Equity(t.value, k, a) == Equity(s, k, a)
  {
    RefundCannotFail(s, rid);
    var c := s.cells[rid];
    assert RoundInv(s, c);
    hide Spec.RefundAll, Inv;
    EquityOfVoidedCell(s, Spec.RefundAll(s, rid, c.(round := c.round.(status := Voided))).value, rid, k, a);
  }

  lemma EquityOfVoidedCell(s: State, t: State, rid: nat, k: nat, a: Address)
    requires a != SELF && rid in s.cells && RoundInv(s, s.cells[rid])
    requires s.cells[rid].round.status in {Open, Revealing}
    requires var c := s.cells[rid];
             && t.cells == s.cells[rid := VoidedCell(c)]
             && t.log == s.log + RefundTransfers(rid, c.bids, c.round.bidders)
    ensures Equity(t, k, a) == Equity(s, k, a)
  {
    var c := s.cells[rid];
    NetAppend(s.log, RefundTransfers(rid, c.bids, c.round.bidders), k, a);
    NetOfRefund(rid, c.bids, c.round.bidders, k, a);
  }

  /** A call that writes one cell, moves no token, and neither settles a round nor a bid. */
  lemma EquityQuiet(s: State, t: State, rid: nat, c: Cell, k: nat, a: Address)
    requires t.log == s.log && t.cells == s.cells[rid := c] && c.round.status != Settled
    requires rid in s.cells ==> s.cells[rid].round.status != Settled
    requires HeldBy(c.bids, a) == Holding(s, rid, a)
    ensures Equity(t, k, a) == Equity(s, k, a)
  {
  }

  lemma EquityCreateRound(s: State, o: Address, r: u64, rule: ClearingRule, cd: u64, rd: u64, len: nat, k: nat,
          a: Address)
    requires Inv(s) && Spec.CreateRound(s, o, r, rule, cd, rd, len).Ok?
    ensures Equity(Spec.CreateRound(s, o, r, rule, cd, rd, len).value.0, k, a) == Equity(s, k, a)
  {
    var (t, rid) := Spec.CreateRound(s, o, r, rule, cd, rd, len).value;
    EquityQuiet(s, t, rid, t.cells[rid], k, a);
  }

  lemma EquityOpenReveal(s: State, rid: nat, ok: bool, k: nat, a: Address)
    requires Spec.OpenReveal(s, rid, ok).Ok?
    ensures Equity(Spec.OpenReveal(s, rid, ok).value, k, a) == Equity(s, k, a)
  {
    var t := Spec.OpenReveal(s, rid, ok).value;
    EquityQuiet(s, t, rid, t.cells[rid], k, a);
  }

  lemma EquityReveal(s: State, rid: nat, b: Address, v: i128, n: Bytes32, k: nat, a: Address)
    requires Spec.Reveal(s, rid, b, v, n).Ok?
    ensures Equity(Spec.Reveal(s, rid, b, v, n).value, k, a) == Equity(s, k, a)
  {
    var t := Spec.Reveal(s, rid, b, v, n).value;
    EquityQuiet(s, t, rid, t.cells[rid], k, a);
  }

  lemma EquityClear(s: State, rid: nat, k: nat, a: Address)
    requires Inv(s) && a != SELF && Spec.Clear(s, rid).Ok?
    ensures Equity(Spec.Clear(s, rid).value.0, k, a) == Equity(s, k, a)
  {
    var d := s.cells[rid];
    if Spec.BestBid(None, d.bids, d.round.rule, d.round.bidders).None? {
      EquityVoid(s, rid, k, a);
    } else {
      var t := Spec.Clear(s, rid).value.0;
      EquityQuiet(s, t, rid, t.cells[rid], k, a);
    }
  }

  lemma EquityVoidCall(s: State, rid: nat, k: nat, a: Address)
    requires Inv(s) && a != SELF && Spec.Void(s, rid).Ok?
    ensures Equity(Spec.Void(s, rid).value, k, a) == Equity(s, k, a)
  {
    EquityVoid(s, rid, k, a);
  }

  /** No call changes anybody's equity in any round. */
  lemma EquityStep(s: State, c: Call, k: nat, a: Address)
    requires Inv(s) && a != SELF
    ensures Equity(Step(s, c), k, a) == Equity(s, k, a)
  {
    hide Inv, Spec.CreateRound, Spec.Commit, Spec.OpenReveal, Spec.Reveal, Spec.Clear, Spec.Settle, Spec.Void;
    if Attempt(s, c).Ok? {
      match c {
        case CreateRound(o, r, rule, cd, rd, len) => EquityCreateRound(s, o, r, rule, cd, rd, len, k, a);
        case Commit(rid, b, h, len, e, blob, r) => EquityCommit(s, rid, b, h, len, e, blob, r, k, a);
        case OpenReveal(rid, ok) => EquityOpenReveal(s, rid, ok, k, a);
        case Reveal(rid, b, v, n) => EquityReveal(s, rid, b, v, n, k, a);
        case Clear(rid) => EquityClear(s, rid, k, a);
        case Settle(rid) => EquitySettle(s, rid, k, a);
        case Void(rid) => EquityVoidCall(s, rid, k, a);
        case _ =>
      }
    }
  }

  lemma {:induction false} EquityRun(s: State, calls: seq<Call>, k: nat, a: Address)
    requires Inv(s) && a != SELF
    ensures Equity(Run(s, calls), k, a) == Equity(s, k, a)
  {
    if calls != [] {
      var front := calls[..|calls| - 1];
      EquityRun(s, front, k, a);
      RunInv(s, front);
      EquityStep(Run(s, front), calls[|calls| - 1], k, a);
    }
  }

  /**
   * Net flows over a whole run, from deployment, overwrites included. Once a round is settled, the
   * winning bid has gone from the winner to the operator and everybody else is even; once it is
   * voided everybody is even; before that each bidder is short exactly the escrow still held.
   */
  lemma NetFlowsOverRun(s: State, calls: seq<Call>, rid: nat, a: Address)
    requires Genesis(s) && a != SELF
    ensures var t := Run(s, calls);
            && Net(t.log, rid, a) == Award(t, rid, a) - Holding(t, rid, a)
            && (rid in t.cells && t.cells[rid].round.status in {Settled, Voided} ==> Holding(t, rid, a) == 0)
  {
    GenesisEquity(s, rid, a);
    hide Inv, Genesis, Run, Net, Award, Holding;
    EquityRun(s, calls, rid, a);
    RunInv(s, calls);
    FinishedHoldsNothing(Run(s, calls), rid, a);
  }

  lemma GenesisEquity(s: State, rid: nat, a: Address)
    requires Genesis(s)
    ensures Inv(s) && Equity(s, rid, a) == 0
  {
  }

  lemma FinishedHoldsNothing(s: State, rid: nat, a: Address)
    requires Inv(s)
    ensures rid in s.cells && s.cells[rid].round.status in {Settled, Voided} ==> Holding(s, rid, a) == 0
  {
    if rid in s.cells {
      assert RoundInv(s, s.cells[rid]);
    }
  }

  // ---- The log tells the truth ------------------------------------------------------------

  function DeltaAll(t: Transfer, a: Address): int {
    (if t.to == a then t.amount else 0) - (if t.from == a then t.amount else 0)
  }

  function NetAll(log: seq<Transfer>, a: Address): int {
    if log == [] then 0 else NetAll(log[..|log| - 1], a) + DeltaAll(log[|log| - 1], a)
  }

  /** A balance, with everything the contract's own transfers did to it undone. */
  function Books(balances: map<Address, nat>, log: seq<Transfer>, a: Address): int {
    Spec.Balance(balances, a) - NetAll(log, a)
  }

  lemma SendKeepsBooks(p: Spec.Purse, rid: nat, from: Address, to: Address, amount: i128, a: Address)
    ensures var q := Spec.Send(p, rid, from, to, amount);
            q.Ok? ==> Books(q.value.balances, q.value.log, a) == Books(p.balances, p.log, a)
  {
    var t := Transfer(rid, from, to, amount);
    assert (p.log + [t])[..|p.log + [t]| - 1] == p.log;
  }

  lemma SendRefundKeepsBooks(p: Spec.Purse, rid: nat, to: Address, amount: i128, a: Address)
    ensures var q := Spec.SendRefund(p, rid, to, amount);
            q.Ok? ==> Books(q.value.balances, q.value.log, a) == Books(p.balances, p.log, a)
  {
    SendKeepsBooks(p, rid, SELF, to, amount, a);
    hide Spec.Send, Books;
  }

  lemma SendPayoutKeepsBooks(p: Spec.Purse, rid: nat, op: Address, amount: i128, a: Address)
    ensures var q := Spec.SendPayout(p, rid, op, amount);
            q.Ok? ==> Books(q.value.balances, q.value.log, a) == Books(p.balances, p.log, a)
  {
    SendKeepsBooks(p, rid, SELF, op, amount, a);
    hide Spec.Send, Books;
  }

  lemma SettleStepKeepsBooks(p: Spec.Purse, rid: nat, op: Address, winner: Address, w: i128, b: Address, a: Address)
    ensures var q := Spec.SettleStep(p, rid, op, winner, w, b);
            q.Ok? ==> Books(q.value.balances, q.value.log, a) == Books(p.balances, p.log, a)
  {
    hide Spec.SendRefund, Spec.SendPayout, Books;
    if b in p.bids && !p.bids[b].settled {
      var e := p.bids[b].escrow;
      if b == winner {
        SendPayoutKeepsBooks(p, rid, op, w, a);
        var paid := Spec.SendPayout(p, rid, op, w);
        if paid.Ok? && Spec.Sub(e, w).Ok? {
          SendRefundKeepsBooks(paid.value, rid, b, Spec.Sub(e, w).value, a);
        }
      } else {
        SendRefundKeepsBooks(p, rid, b, e, a);
      }
    }
  }

  lemma {:induction false} SettleAllKeepsBooks(p: Spec.Purse, rid: nat, op: Address, winner: Address, w: i128,
          bidders: seq<Address>, a: Address)
    ensures var q := Spec.SettleAll(p, rid, op, winner, w, bidders);
            q.Ok? ==> Books(q.value.balances, q.value.log, a) == Books(p.balances, p.log, a)
    decreases |bidders|
  {
    hide Spec.SettleStep, Books;
    if bidders != [] {
      SettleStepKeepsBooks(p, rid, op, winner, w, bidders[0], a);
      var next := Spec.SettleStep(p, rid, op, winner, w, bidders[0]);
      if next.Ok? {
        SettleAllKeepsBooks(next.value, rid, op, winner, w, bidders[1..], a);
      }
    }
  }

  lemma {:induction false} RefundEachKeepsBooks(p: Spec.Purse, rid: nat, bidders: seq<Address>, a: Address)
    ensures var q := Spec.RefundEach(p, rid, bidders);
            q.Ok? ==> Books(q.value.balances, q.value.log, a) == Books(p.balances, p.log, a)
    decreases |bidders|
  {
    if bidders != [] {
      hide Spec.SendRefund, Books;
      var b := bidders[0];
      if b in p.bids {
        SendRefundKeepsBooks(p, rid, b, p.bids[b].escrow, a);
      }
      var next := Spec.RefundStep(p, rid, b);
      if next.Ok? {
        RefundEachKeepsBooks(next.value, rid, bidders[1..], a);
      }
    }
  }

  lemma RefundAllKeepsBooks(s: State, rid: nat, c: Cell, a: Address)
    ensures var t := Spec.RefundAll(s, rid, c);
            t.Ok? ==> Books(t.value.balances, t.value.log, a) == Books(s.balances, s.log, a)
  {
    var ledger := Spec.EnsureLedger(c);
    if ledger.Ok? {
      RefundEachKeepsBooks(Spec.Purse(c.bids, ledger.value, s.balances, s.log), rid, c.round.bidders, a);
    }
  }

  lemma SwapEscrowKeepsBooks(p: Spec.Purse, rid: nat, b: Address, e: i128, a: Address)
    ensures var q := Spec.SwapEscrow(p, rid, b, e);
            q.Ok? ==> Books(q.value.balances, q.value.log, a) == Books(p.balances, p.log, a)
  {
    hide Spec.Send, Spec.SendRefund, Books;
    SendRefundKeepsBooks(p, rid, b, PrevEscrow(p.bids, b), a);
    var back := if b in p.bids && p.bids[b].escrow > 0 then Spec.SendRefund(p, rid, b, p.bids[b].escrow) else Ok(p);
    if back.Ok? {
      SendKeepsBooks(back.value, rid, b, SELF, e, a);
    }
  }

  lemma AcceptBidKeepsBooks(s: State, rid: nat, c: Cell, b: Address, h: Bytes32, e: i128, a: Address)
    ensures var t := Spec.AcceptBid(s, rid, c, b, h, e);
            t.Ok? ==> Books(t.value.balances, t.value.log, a) == Books(s.balances, s.log, a)
  {
    hide Spec.SwapEscrow, Spec.EnsureLedger, Books;
    var ledger := Spec.EnsureLedger(c);
    if ledger.Ok? {
      SwapEscrowKeepsBooks(Spec.Purse(c.bids, ledger.value, s.balances, s.log), rid, b, e, a);
    }
  }

  /**
   * Every balance moves by exactly what the log says, on any stored state: no call, other than
   * outside token traffic, moves a token it does not log or logs one it does not move.
   */
  lemma LogIsTruthful(s: State, c: Call, a: Address)
    requires !c.TokenTraffic?
    ensures Books(Step(s, c).balances, Step(s, c).log, a) == Books(s.balances, s.log, a)
  {
    if Attempt(s, c).Ok? {
      match c {
        case Commit(rid, b, h, _, e, _, _) => AcceptBidKeepsBooks(s, rid, s.cells[rid], b, h, e, a);
        case Clear(rid) =>
          var d := s.cells[rid];
          RefundAllKeepsBooks(s, rid, d.(round := d.round.(status := Voided)), a);
        case Void(rid) =>
          var d := s.cells[rid];
          RefundAllKeepsBooks(s, rid, d.(round := d.round.(status := Voided)), a);
        case Settle(rid) =>
          var d := s.cells[rid];
          var ledger := Spec.SettleChecks(d, d.round.winner.value).value;
          SettleAllKeepsBooks(Spec.Purse(d.bids, ledger, s.balances, s.log), rid, d.round.operator,
                              d.round.winner.value, d.round.winningBid, d.round.bidders, a);
        case _ =>
      }
    }
  }
}
