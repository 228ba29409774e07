/** Runs of the contract: any interleaving of calls on any rounds, the clock, and outside token traffic. */
module Runs {
  import opened Prelude
  import opened RoundTypes
  import Spec = RoundSpec
  import opened RoundInvariant
  import opened Payout
  import opened Settlement
  import opened Clearing

  datatype Call =
    | CreateRound(operator: Address, revealRound: u64, rule: ClearingRule, commitDeadline: u64, revealDeadline: u64,
        pubkeyLen: nat)
    | Commit(rid: nat, bidder: Address, commitment: Bytes32, ciphertextLen: nat, escrow: i128, blobLen: nat,
        sealRound: u64)
    | OpenReveal(rid: nat, beaconValid: bool)
    | Reveal(rid: nat, bidder: Address, value: i128, nonce: Bytes32)
    | Clear(rid: nat)
    | Settle(rid: nat)
    | Void(rid: nat)
    /** The ledger closes at a later time. */
    | Tick(to: u64)
    /** Others mint, burn, trade or donate tokens; only the contract can spend its own. */
    | TokenTraffic(balances: map<Address, nat>)

  function Attempt(s: State, c: Call): Result<State, Error> {
    match c
    case CreateRound(o, r, rule, cd, rd, len) =>
      var made :- Spec.CreateRound(s, o, r, rule, cd, rd, len);
      Ok(made.0)
    case Commit(rid, b, h, len, e, blob, r) => Spec.Commit(s, rid, b, h, len, e, blob, r)
    case OpenReveal(rid, ok) => Spec.OpenReveal(s, rid, ok)
    case Reveal(rid, b, v, n) => Spec.Reveal(s, rid, b, v, n)
    case Clear(rid) =>
      var cleared :- Spec.Clear(s, rid);
      Ok(cleared.0)
    case Settle(rid) => Spec.Settle(s, rid)
    case Void(rid) => Spec.Void(s, rid)
    case Tick(to) => if to >= s.now then Ok(s.(now := to)) else Err(Trap)
    case TokenTraffic(balances) =>
      var before, after := Spec.Balance(s.balances, SELF), Spec.Balance(balances, SELF);
      if after >= before then Ok(s.(balances := balances, donated := s.donated + after - before)) else Err(Trap)
  }

  /** A call that fails changes nothing. */
  function Step(s: State, c: Call): State {
    match Attempt(s, c)
    case Ok(t) => t
    case Err(_) => s
  }

  function Run(s: State, calls: seq<Call>): State {
    if calls == [] then s else Step(Run(s, calls[..|calls| - 1]), calls[|calls| - 1])
  }

  // ---- One call keeps the invariant --------------------------------------------------

  ghost predicate SameHost(s: State, t: State) {
    s.config == t.config && s.sha == t.sha && s.now == t.now && s.counter == t.counter && s.donated == t.donated
  }

  /** It is enough to look at the one cell a call writes, and at the tokens it moved for it. */
  lemma CellStep(s: State, t: State, rid: nat, c: Cell)
    requires Inv(s) && rid in s.cells && SameHost(s, t) && t.cells == s.cells[rid := c]
    requires RoundInv(s, c)
    requires Spec.Balance(t.balances, SELF) - Spec.Balance(s.balances, SELF) == CellHeld(c) - CellHeld(s.cells[rid])
    ensures Inv(t)
  {
    TotalHeldUpdate(s.cells, s.counter, rid, c);
  }

  lemma CreateRoundInv(s: State, o: Address, r: u64, rule: ClearingRule, cd: u64, rd: u64, len: nat)
    requires Inv(s) && Spec.CreateRound(s, o, r, rule, cd, rd, len).Ok?
    ensures Inv(Spec.CreateRound(s, o, r, rule, cd, rd, len).value.0)
  {
    var (t, rid) := Spec.CreateRound(s, o, r, rule, cd, rd, len).value;
    assert t.cells[rid].round.bidders == [] && t.cells[rid].bids == map[];
    assert RoundInv(s, t.cells[rid]);
    AddCell(s, t, rid, t.cells[rid]);
  }

  lemma AddCell(s: State, t: State, rid: nat, c: Cell)
    requires Inv(s) && rid == s.counter + 1 && RoundInv(s, c) && CellHeld(c) == 0
    requires rid < TWO_64 && t == s.(counter := rid, cells := s.cells[rid := c])
    ensures Inv(t)
  {
    hide RoundInv;
    assert TotalHeld(t.cells, t.counter) == TotalHeld(s.cells, s.counter) by {
      TotalHeldUpdate(s.cells, s.counter, rid, c);
    }
    forall k | k in t.cells
      ensures RoundInv(t, t.cells[k])
    {
      SameRoundInv(s, t, t.cells[k]);
    }
  }

  lemma SameRoundInv(s: State, t: State, c: Cell)
    requires RoundInv(s, c) && s.config == t.config && s.sha == t.sha && s.now <= t.now
    ensures RoundInv(t, c)
  {
  }

  ghost function PrevEscrow(bids: map<Address, BidState>, bidder: Address): i128 {
    if bidder in bids then bids[bidder].escrow else 0
  }

  /** What a commit transfers: the overwritten escrow back, the new escrow in. */
  ghost function CommitTransfers(rid: nat, bids: map<Address, BidState>, bidder: Address, escrow: i128): seq<Transfer> {
    (if PrevEscrow(bids, bidder) > 0 then [Transfer(rid, SELF, bidder, PrevEscrow(bids, bidder))] else [])
    + [Transfer(rid, bidder, SELF, escrow)]
  }

  lemma SwapEscrowMoves(p: Spec.Purse, rid: nat, bidder: Address, escrow: i128)
    requires bidder != SELF && PrevEscrow(p.bids, bidder) >= 0 && Spec.SwapEscrow(p, rid, bidder, escrow).Ok?
    ensures var q := Spec.SwapEscrow(p, rid, bidder, escrow).value; var prev := PrevEscrow(p.bids, bidder);
            && q.bids == p.bids
            && q.ledger == EscrowLedger(p.ledger.committed + escrow, p.ledger.payout, p.ledger.refunds + prev,
                                        p.ledger.locked - prev + escrow)
            && Spec.Balance(q.balances, SELF) == Spec.Balance(p.balances, SELF) - prev + escrow
            && q.log == p.log + CommitTransfers(rid, p.bids, bidder, escrow)
  {
  }

  /** The cell after a successful commit. */
  ghost function CommittedCell(c: Cell, bidder: Address, commitment: Bytes32, escrow: i128,
          ledger: EscrowLedger): Cell {
    Cell(if bidder in c.bids then c.round else c.round.(bidders := c.round.bidders + [bidder]),
         c.bids[bidder := BidState(commitment, escrow, None, None, false, false)], Some(ledger))
  }

  lemma CommittedHeld(s: State, c: Cell, bidder: Address, commitment: Bytes32, escrow: i128, ledger: EscrowLedger)
    requires RoundInv(s, c) && c.round.status == Open
    ensures CellHeld(CommittedCell(c, bidder, commitment, escrow, ledger))
         == CellHeld(c) - PrevEscrow(c.bids, bidder) + escrow
  {
    var state := BidState(commitment, escrow, None, None, false, false);
    if bidder in c.bids {
      HeldUpdate(c.bids, c.round.bidders, bidder, state);
    } else {
      HeldFrame(c.bids, c.bids[bidder := state], c.round.bidders);
      HeldAppend(c.bids[bidder := state], c.round.bidders, bidder);
    }
  }

  lemma CommittedIndex(c: Cell, bidder: Address, commitment: Bytes32, escrow: i128, ledger: EscrowLedger)
    requires IndexMatches(c) && bidder != SELF && (bidder in c.bids || |c.round.bidders| < MAX_BIDDERS)
    ensures IndexMatches(CommittedCell(c, bidder, commitment, escrow, ledger))
  {
    var d := CommittedCell(c, bidder, commitment, escrow, ledger);
    assert forall a :: a in d.round.bidders <==> a in c.round.bidders || a == bidder;
  }

  lemma CommittedStatus(c: Cell, bidder: Address, commitment: Bytes32, escrow: i128, ledger: EscrowLedger, now: u64)
    requires c.round.status == Open && StatusOk(c, now) && ledger.payout == 0
    ensures StatusOk(CommittedCell(c, bidder, commitment, escrow, ledger), now)
  {
  }

  lemma CommittedCellOk(s: State, c: Cell, bidder: Address, commitment: Bytes32, escrow: i128, ledger: EscrowLedger)
    requires RoundInv(s, c) && c.round.status == Open
    requires bidder != SELF && escrow > 0 && (bidder in c.bids || |c.round.bidders| < MAX_BIDDERS)
    requires ledger.payout == 0 && ledger.refunds >= 0 && ledger.committed == ledger.refunds + ledger.locked
    requires ledger.locked == CellHeld(c) - PrevEscrow(c.bids, bidder) + escrow
    ensures RoundInv(s, CommittedCell(c, bidder, commitment, escrow, ledger))
  {
    var d := CommittedCell(c, bidder, commitment, escrow, ledger);
    CommittedHeld(s, c, bidder, commitment, escrow, ledger);
    CommittedIndex(c, bidder, commitment, escrow, ledger);
    CommittedStatus(c, bidder, commitment, escrow, ledger, s.now);
    assert forall a :: a in d.bids ==> BidOk(s.sha, d.bids[a]);
    assert forall a :: a in d.round.bidders ==> a in d.bids && d.bids[a].escrow > 0;
    HeldBounds(d.bids, d.round.bidders);
    hide StatusOk, IndexMatches, ScheduleOk, BidOk;
  }

  /** The checks a successful commit passed. */
  lemma CommitChecked(s: State, rid: nat, bidder: Address, h: Bytes32, len: nat, e: i128, blob: nat, seal: u64)
    requires Spec.Commit(s, rid, bidder, h, len, e, blob, seal).Ok?
    ensures rid in s.cells && s.cells[rid].round.status == Open && s.now <= s.cells[rid].round.commitDeadline
    ensures bidder != SELF && e > 0 && seal == s.cells[rid].round.revealRound
    ensures bidder in s.cells[rid].bids || |s.cells[rid].round.bidders| < MAX_BIDDERS
    ensures Spec.Commit(s, rid, bidder, h, len, e, blob, seal) == Spec.AcceptBid(s, rid, s.cells[rid], bidder, h, e)
  {
    hide Spec.AcceptBid;
  }

  lemma AcceptEffect(s: State, rid: nat, bidder: Address, h: Bytes32, e: i128)
    requires rid in s.cells && RoundInv(s, s.cells[rid]) && s.cells[rid].round.status == Open
    requires bidder != SELF && e > 0 && (bidder in s.cells[rid].bids || |s.cells[rid].round.bidders| < MAX_BIDDERS)
    requires Spec.AcceptBid(s, rid, s.cells[rid], bidder, h, e).Ok?
    ensures var c := s.cells[rid]; var t := Spec.AcceptBid(s, rid, c, bidder, h, e).value;
            && rid in t.cells && t.cells[rid].ledger.Some?
            && t == s.(cells := s.cells[rid := CommittedCell(c, bidder, h, e, t.cells[rid].ledger.value)],
                       balances := t.balances, log := s.log + CommitTransfers(rid, c.bids, bidder, e))
            && RoundInv(s, t.cells[rid])
            && Spec.Balance(t.balances, SELF) == Spec.Balance(s.balances, SELF) - PrevEscrow(c.bids, bidder) + e
  {
    var c := s.cells[rid];
    GuardPasses(s, c);
    var p := Spec.Purse(c.bids, LiveLedger(c), s.balances, s.log);
    SwapEscrowMoves(p, rid, bidder, e);
    hide Spec.EnsureLedger, Spec.ProveConserved, Spec.SwapEscrow;
    CommittedCellOk(s, c, bidder, h, e, Spec.SwapEscrow(p, rid, bidder, e).value.ledger);
  }

  /** A successful commit, described outright. */
  lemma CommitEffect(s: State, rid: nat, bidder: Address, h: Bytes32, len: nat, e: i128, blob: nat, seal: u64)
    requires Inv(s) && Spec.Commit(s, rid, bidder, h, len, e, blob, seal).Ok?
    ensures rid in s.cells && s.cells[rid].round.status == Open && s.now <= s.cells[rid].round.commitDeadline
    ensures bidder != SELF && e > 0 && seal == s.cells[rid].round.revealRound
    ensures var c := s.cells[rid]; var t := Spec.Commit(s, rid, bidder, h, len, e, blob, seal).value;
            && rid in t.cells && t.cells[rid].ledger.Some?
            && t == s.(cells := s.cells[rid := CommittedCell(c, bidder, h, e, t.cells[rid].ledger.value)],
                       balances := t.balances, log := s.log + CommitTransfers(rid, c.bids, bidder, e))
            && RoundInv(s, t.cells[rid])
            && Spec.Balance(t.balances, SELF) == Spec.Balance(s.balances, SELF) - PrevEscrow(c.bids, bidder) + e
  {
    hide Spec.Commit, Spec.AcceptBid, RoundInv, CommittedCell, CommitTransfers;
    CommitChecked(s, rid, bidder, h, len, e, blob, seal);
    AcceptEffect(s, rid, bidder, h, e);
  }

  lemma CommitInv(s: State, rid: nat, bidder: Address, h: Bytes32, len: nat, e: i128, blob: nat, seal: u64)
    requires Inv(s) && Spec.Commit(s, rid, bidder, h, len, e, blob, seal).Ok?
    ensures Inv(Spec.Commit(s, rid, bidder, h, len, e, blob, seal).value)
  {
    CommitEffect(s, rid, bidder, h, len, e, blob, seal);
    var t := Spec.Commit(s, rid, bidder, h, len, e, blob, seal).value;
    CommittedHeld(s, s.cells[rid], bidder, h, e, t.cells[rid].ledger.value);
    CellStep(s, t, rid, t.cells[rid]);
  }

  lemma OpenRevealInv(s: State, rid: nat, ok: bool)
    requires Inv(s) && Spec.OpenReveal(s, rid, ok).Ok?
    ensures Inv(Spec.OpenReveal(s, rid, ok).value)
  {
    var t := Spec.OpenReveal(s, rid, ok).value;
    assert RoundInv(s, t.cells[rid]);
    CellStep(s, t, rid, t.cells[rid]);
  }

  ghost function RevealedBid(b: BidState, value: i128, nonce: Bytes32): BidState {
    b.(revealedValue := Some(value), revealedNonce := Some(nonce), valid := value > 0)
  }

  /** A successful reveal, described outright. */
  lemma RevealEffect(s: State, rid: nat, bidder: Address, v: i128, n: Bytes32)
    requires Inv(s) && Spec.Reveal(s, rid, bidder, v, n).Ok?
    ensures rid in s.cells && bidder in s.cells[rid].bids && s.cells[rid].round.status == Revealing
    ensures var c := s.cells[rid];
            && c.bids[bidder].revealedValue == None
            && c.bids[bidder].commitment == s.sha(Spec.Commitment.BidPreimage(v, n)) && v <= c.bids[bidder].escrow
            && Spec.Reveal(s, rid, bidder, v, n).value
               == s.(cells := s.cells[rid := Cell(c.round, c.bids[bidder := RevealedBid(c.bids[bidder], v, n)],
                   Some(LiveLedger(c)))])
  {
    GuardPasses(s, s.cells[rid]);
  }

  lemma RevealedCellOk(s: State, c: Cell, bidder: Address, v: i128, n: Bytes32)
    requires RoundInv(s, c) && c.round.status == Revealing && bidder in c.bids && v <= c.bids[bidder].escrow
    requires c.bids[bidder].commitment == s.sha(Spec.Commitment.BidPreimage(v, n))
    ensures var d := Cell(c.round, c.bids[bidder := RevealedBid(c.bids[bidder], v, n)], Some(LiveLedger(c)));
            RoundInv(s, d) && CellHeld(d) == CellHeld(c)
  {
    HeldFrame(c.bids, c.bids[bidder := RevealedBid(c.bids[bidder], v, n)], c.round.bidders);
  }

  lemma RevealInv(s: State, rid: nat, bidder: Address, v: i128, n: Bytes32)
    requires Inv(s) && Spec.Reveal(s, rid, bidder, v, n).Ok?
    ensures Inv(Spec.Reveal(s, rid, bidder, v, n).value)
  {
    RevealEffect(s, rid, bidder, v, n);
    var t := Spec.Reveal(s, rid, bidder, v, n).value;
    var c, d := s.cells[rid], t.cells[rid];
    RevealedCellOk(s, c, bidder, v, n);
    CellStep(s, t, rid, d);
  }

  lemma MarkedCellOk(c: Cell)
    requires IndexMatches(c)
    ensures var bids := MarkAll(c.bids, c.round.bidders);
            && Held(bids, c.round.bidders) == 0
            && (forall a :: a in bids <==> a in c.round.bidders)
            && (forall a :: a in bids ==> bids[a] == c.bids[a].(settled := true))
            && Spec.BestBid(None, bids, c.round.rule, c.round.bidders)
               == Spec.BestBid(None, c.bids, c.round.rule, c.round.bidders)
  {
    var bids := MarkAll(c.bids, c.round.bidders);
    NoneHeld(bids, c.round.bidders);
    BestBidFrame(None, bids, c.bids, c.round.rule, c.round.bidders);
  }

  lemma SettledCellOk(s: State, c: Cell)
    requires RoundInv(s, c) && c.round.status == Cleared && 0 < c.round.winningBid <= CellHeld(c)
    ensures RoundInv(s, SettledCell(c)) && CellHeld(SettledCell(c)) == 0
  {
    MarkedCellOk(c);
  }

  lemma VoidedCellOk(s: State, c: Cell)
    requires RoundInv(s, c) && c.round.status in {Open, Revealing}
    ensures RoundInv(s, VoidedCell(c)) && CellHeld(VoidedCell(c)) == 0
  {
    MarkedCellOk(c);
  }

  lemma SettleInv(s: State, rid: nat)
    requires Inv(s) && Spec.Settle(s, rid).Ok?
    ensures s.cells[rid].round.status == Cleared
    ensures Inv(Spec.Settle(s, rid).value)
  {
    SettleCannotFail(s, rid);
    SettledCellOk(s, s.cells[rid]);
    CellStep(s, Spec.Settle(s, rid).value, rid, SettledCell(s.cells[rid]));
  }

  lemma RefundInv(s: State, rid: nat)
    requires Inv(s) && rid in s.cells && s.cells[rid].round.status in {Open, Revealing}
    ensures var c := s.cells[rid]; var t := Spec.RefundAll(s, rid, c.(round := c.round.(status := Voided)));
            t.Ok? && Inv(t.value)
  {
    RefundCannotFail(s, rid);
    var c := s.cells[rid];
    var t := Spec.RefundAll(s, rid, c.(round := c.round.(status := Voided))).value;
    VoidedCellOk(s, c);
    CellStep(s, t, rid, VoidedCell(c));
  }

  lemma ClearInv(s: State, rid: nat)
    requires Inv(s) && Spec.Clear(s, rid).Ok?
    ensures Inv(Spec.Clear(s, rid).value.0)
  {
    var c := s.cells[rid];
    if Spec.BestBid(None, c.bids, c.round.rule, c.round.bidders).None? {
      RefundInv(s, rid);
    } else {
      var t := Spec.Clear(s, rid).value.0;
      assert RoundInv(s, t.cells[rid]);
      CellStep(s, t, rid, t.cells[rid]);
    }
  }

  lemma VoidInv(s: State, rid: nat)
    requires Inv(s) && Spec.Void(s, rid).Ok?
    ensures Inv(Spec.Void(s, rid).value)
  {
    RefundInv(s, rid);
  }

  lemma HostInv(s: State, t: State)
    requires Inv(s) && s.now <= t.now && t.donated >= s.donated
    requires t == s.(now := t.now, balances := t.balances, donated := t.donated)
    requires Spec.Balance(t.balances, SELF) - Spec.Balance(s.balances, SELF) == t.donated - s.donated
    ensures Inv(t)
  {
    forall rid | rid in t.cells
      ensures RoundInv(t, t.cells[rid])
    {
      SameRoundInv(s, t, s.cells[rid]);
    }
  }

  /** Every call, successful or not, keeps every round sound and the balance accounted for. */
  lemma StepInv(s: State, c: Call)
    requires Inv(s)
    ensures Inv(Step(s, c))
  {
    hide Inv, Spec.CreateRound, Spec.Commit, Spec.OpenReveal, Spec.Reveal, Spec.Clear, Spec.Settle, Spec.Void;
    if Attempt(s, c).Ok? {
      match c {
        case CreateRound(o, r, rule, cd, rd, len) => CreateRoundInv(s, o, r, rule, cd, rd, len);
        case Commit(rid, b, h, len, e, blob, r) => CommitInv(s, rid, b, h, len, e, blob, r);
        case OpenReveal(rid, ok) => OpenRevealInv(s, rid, ok);
        case Reveal(rid, b, v, n) => RevealInv(s, rid, b, v, n);
        case Clear(rid) => ClearInv(s, rid);
        case Settle(rid) => SettleInv(s, rid);
        case Void(rid) => VoidInv(s, rid);
        case Tick(to) => HostInv(s, Step(s, c));
        case TokenTraffic(_) => HostInv(s, Step(s, c));
      }
    }
  }

  /** Custody over all runs: from any sound state, after any calls by anyone, every round is sound. */
  lemma {:induction false} RunInv(s: State, calls: seq<Call>)
    requires Inv(s)
    ensures Inv(Run(s, calls))
  {
    if calls != [] {
      RunInv(s, calls[..|calls| - 1]);
      StepInv(Run(s, calls[..|calls| - 1]), calls[|calls| - 1]);
    }
  }

  lemma {:induction false} RunConcat(s: State, a: seq<Call>, b: seq<Call>)
    ensures Run(s, a + b) == Run(Run(s, a), b)
  {
    hide Step;
    if b == [] {
      assert a + b == a;
    } else {
      assert (a + b)[..|a + b| - 1] == a + b[..|b| - 1];
      RunConcat(s, a, b[..|b| - 1]);
    }
  }
}
