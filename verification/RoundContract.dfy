/**
 * The Round contract as the host runs it: storage, token balances and clock are fields that the
 * entry points update in place. Every entry point is proved equal to its function in `RoundSpec`
 * on every stored state; a call that fails leaves storage and balances as they were.
 */
module RoundContract {
  import opened Prelude
  import opened RoundTypes
  import Spec = RoundSpec
  import Drand
  import Commitment

  class SubRosaRound {
    const config: Config
    const sha: seq<byte> -> Bytes32
    var now: u64
    var counter: u64
    var cells: map<nat, Cell>
    var balances: map<Address, nat>
    ghost var donated: nat
    ghost var log: seq<Transfer>

    ghost function View(): State
      reads this
    {
      State(config, sha, now, counter, cells, balances, donated, log)
    }

    constructor (config: Config, sha: seq<byte> -> Bytes32, now: u64, balances: map<Address, nat>)
      ensures View() == State(config, sha, now, 0, map[], balances, Spec.Balance(balances, SELF), [])
    {
      this.config, this.sha, this.now, this.counter := config, sha, now, 0;
      this.cells, this.balances := map[], balances;
      this.donated, this.log := Spec.Balance(balances, SELF), [];
    }

    // ---- Storage and token -------------------------------------------------

    method SetState(rid: nat, bidder: Address, state: BidState)
      requires rid in cells
      modifies this`cells
      ensures cells == old(cells)[rid := old(cells)[rid].(bids := old(cells)[rid].bids[bidder := state])]
    {
      cells := cells[rid := cells[rid].(bids := cells[rid].bids[bidder := state])];
    }

    method SetLedger(rid: nat, ledger: EscrowLedger)
      requires rid in cells
      modifies this`cells
      ensures cells == old(cells)[rid := old(cells)[rid].(ledger := Some(ledger))]
    {
      cells := cells[rid := cells[rid].(ledger := Some(ledger))];
    }

    method SetRound(rid: nat, round: Round)
      requires rid in cells
      modifies this`cells
      ensures cells == old(cells)[rid := old(cells)[rid].(round := round)]
    {
      cells := cells[rid := cells[rid].(round := round)];
    }

    /** `usdc.transfer` on behalf of round `rid`. */
    method Transfer(rid: nat, from: Address, to: Address, amount: i128) returns (r: Result<(), Error>)
      modifies this`balances, this`log
      ensures match Spec.Move(old(balances), from, to, amount)
              case Ok(moved) => r == Ok(()) && balances == moved
                                && log == old(log) + [RoundTypes.Transfer(rid, from, to, amount)]
              case Err(e) => r == Err(e) && unchanged(this)
    {
      var available := if from in balances then balances[from] else 0;
      if amount < 0 || available < amount {
        return Err(Trap);
      }
      balances := balances[from := available - amount];
      balances := balances[to := (if to in balances then balances[to] else 0) + amount];
      log := log + [RoundTypes.Transfer(rid, from, to, amount)];
      r := Ok(());
    }

    // ---- Escrow accounting ------------------------------------------------------

    method ScanBidderIndex(c: Cell) returns (r: Result<EscrowIndex, Error>)
      ensures r == Spec.ScanBidderIndex(c)
    {
      var index := EscrowIndex(0, 0);
      var bidders := c.round.bidders;
      for i := 0 to |bidders|
        invariant Spec.Scan(index, c.bids, bidders[i..]) == Spec.ScanBidderIndex(c)
      {
        assert bidders[i..][1..] == bidders[i + 1..];
        if bidders[i] !in c.bids {
          return Err(EscrowNotConserved);
        }
        var state := c.bids[bidders[i]];
        if state.settled {
          index := index.(settled := index.settled + 1);
        } else {
          var locked :- Spec.Add(index.locked, state.escrow);
          index := index.(locked := locked);
        }
      }
      r := Ok(index);
    }

    method ProveConserved(c: Cell, ledger: EscrowLedger) returns (r: Result<EscrowIndex, Error>)
      ensures r == Spec.ProveConserved(c, ledger)
    {
      var index :- ScanBidderIndex(c);
      var ok :- Spec.Conserved(ledger);
      if !(ok && index.locked == ledger.locked) {
        return Err(EscrowNotConserved);
      }
      r := Ok(index);
    }

    /** Reads the ledger, seeding and storing it the first time it is needed. */
    method EnsureLedger(rid: nat) returns (r: Result<EscrowLedger, Error>)
      requires rid in cells
      modifies this`cells
      ensures r == Spec.EnsureLedger(old(cells)[rid])
      ensures r.Ok? ==> cells == old(cells)[rid := old(cells)[rid].(ledger := Some(r.value))]
    {
      var c := cells[rid];
      if c.ledger.Some? {
        assert c.(ledger := Some(c.ledger.value)) == c;
        return Ok(c.ledger.value);
      }
      var index :- ScanBidderIndex(c);
      var ledger := EscrowLedger(index.locked, 0, 0, index.locked);
      SetLedger(rid, ledger);
      r := Ok(ledger);
    }

    /** The purse the payout loops thread along, read off the fields. */
    ghost function PurseOf(rid: nat, ledger: EscrowLedger): Spec.Purse
      reads this
      requires rid in cells
    {
      Spec.Purse(cells[rid].bids, ledger, balances, log)
    }

    // ---- Entry points -------------------------------------------------------------

    method CreateRound(operator: Address, revealRound: u64, rule: ClearingRule, commitDeadline: u64,
                       revealDeadline: u64, pubkeyLen: nat) returns (r: Result<u64, Error>)
      modifies this
      ensures match Spec.CreateRound(old(View()), operator, revealRound, rule, commitDeadline, revealDeadline,
                pubkeyLen)
              case Ok((s, rid)) => r == Ok(rid) && View() == s
              case Err(e) => r == Err(e) && View() == old(View())
    {
      if operator == SELF {
        return Err(Trap);
      }
      if revealRound == 0 {
        return Err(InvalidSealRoundZero);
      }
      if pubkeyLen > MAX_AUDITOR_PUBKEY {
        return Err(PayloadTooLarge);
      }
      var opening := Drand.CheckedTimeOfRound(config, revealRound);
      if opening.None? {
        return Err(InvalidSealRoundZero);
      }
      if commitDeadline >= opening.value || revealDeadline <= opening.value {
        return Err(CommitDeadlineAfterReveal);
      }
      if commitDeadline <= now {
        return Err(DeadlineInPast);
      }
      if counter + 1 >= TWO_64 {
        return Err(Trap);
      }
      counter := counter + 1;
      var round := Round(operator, revealRound, rule, commitDeadline, revealDeadline, Open, [], None, 0);
      cells := cells[counter := Cell(round, map[], None)];
      r := Ok(counter);
    }

    method Commit(rid: nat, bidder: Address, commitment: Bytes32, ciphertextLen: nat, escrow: i128,
                  blobLen: nat, sealRound: u64) returns (r: Result<(), Error>)
      modifies this
      ensures match Spec.Commit(old(View()), rid, bidder, commitment, ciphertextLen, escrow, blobLen, sealRound)
              case Ok(s) => r == Ok(()) && View() == s
              case Err(e) => r == Err(e) && View() == old(View())
    {
      var cells0, balances0 := cells, balances;
      ghost var log0 := log;
      r := CommitBody(rid, bidder, commitment, ciphertextLen, escrow, blobLen, sealRound);
      if r.Err? {
        cells, balances := cells0, balances0;
        log := log0;
      }
    }

    method CommitBody(rid: nat, bidder: Address, commitment: Bytes32, ciphertextLen: nat, escrow: i128,
                      blobLen: nat, sealRound: u64) returns (r: Result<(), Error>)
      modifies this`cells, this`balances, this`log
      ensures match Spec.Commit(old(View()), rid, bidder, commitment, ciphertextLen, escrow, blobLen, sealRound)
              case Ok(s) => r == Ok(()) && View() == s
              case Err(e) => r == Err(e)
    {
      if bidder == SELF {
        return Err(Trap);
      }
      if rid !in cells {
        return Err(RoundNotFound);
      }
      var c := cells[rid];
      var round := c.round;
      if round.status == Voided {
        return Err(RoundVoided);
      }
      if round.status == Settled {
        return Err(AlreadySettled);
      }
      if round.status != Open {
        return Err(WrongStatus);
      }
      if now > round.commitDeadline {
        return Err(CommitClosed);
      }
      if escrow <= 0 {
        return Err(InvalidAmount);
      }
      if ciphertextLen > MAX_CIPHERTEXT || blobLen > MAX_AUDITOR_BLOB {
        return Err(PayloadTooLarge);
      }
      var _ :- Drand.ValidateSealRound(round, sealRound);
      if bidder !in c.bids && |round.bidders| >= MAX_BIDDERS {
        return Err(RoundFull);
      }
      r := AcceptBid(rid, bidder, commitment, escrow);
    }

    method AcceptBid(rid: nat, bidder: Address, commitment: Bytes32, escrow: i128) returns (r: Result<(), Error>)
      requires rid in cells
      modifies this`cells, this`balances, this`log
      ensures match Spec.AcceptBid(old(View()), rid, old(cells)[rid], bidder, commitment, escrow)
              case Ok(s) => r == Ok(()) && View() == s
              case Err(e) => r == Err(e)
    {
      ghost var cells0 := cells;
      var round := cells[rid].round;
      if bidder !in cells[rid].bids {
        round := round.(bidders := round.bidders + [bidder]);
      }
      var ledger :- EnsureLedger(rid);
      ledger :- SwapEscrow(rid, ledger, bidder, escrow);
      SetLedger(rid, ledger);
      var state := BidState(commitment, escrow, None, None, false, false);
      SetState(rid, bidder, state);
      SetRound(rid, round);
      assert cells == cells0[rid := Cell(round, cells0[rid].bids[bidder := state], Some(ledger))];
      r := Ok(());
    }

    /** The transfers of `commit`: refund the overwritten bid, then take the new escrow. */
    method SwapEscrow(rid: nat, start: EscrowLedger, bidder: Address, escrow: i128)
      returns (r: Result<EscrowLedger, Error>)
      requires rid in cells
      modifies this`balances, this`log
      ensures match Spec.SwapEscrow(old(PurseOf(rid, start)), rid, bidder, escrow)
              case Ok(p) => r == Ok(p.ledger) && balances == p.balances && log == p.log && p.bids == cells[rid].bids
              case Err(e) => r == Err(e)
    {
      var ledger := start;
      var bids := cells[rid].bids;
      if bidder in bids && bids[bidder].escrow > 0 {
        var _ :- Transfer(rid, SELF, bidder, bids[bidder].escrow);
        ledger :- Spec.Refund(ledger, bids[bidder].escrow);
      }
      var _ :- Transfer(rid, bidder, SELF, escrow);
      ledger :- Spec.Deposit(ledger, escrow);
      r := Ok(ledger);
    }

    method OpenReveal(rid: nat, beaconValid: bool) returns (r: Result<(), Error>)
      modifies this
      ensures match Spec.OpenReveal(old(View()), rid, beaconValid)
              case Ok(s) => r == Ok(()) && View() == s
              case Err(e) => r == Err(e) && View() == old(View())
    {
      if rid !in cells {
        return Err(RoundNotFound);
      }
      var round := cells[rid].round;
      if round.status == Settled {
        return Err(AlreadySettled);
      }
      if round.status == Voided {
        return Err(RoundVoided);
      }
      if round.status == Cleared {
        return Err(AlreadyCleared);
      }
      if round.status != Open {
        return Err(RevealAlreadyOpen);
      }
      if now <= round.commitDeadline {
        return Err(CommitNotClosed);
      }
      if !beaconValid {
        return Err(InvalidDrandSignature);
      }
      SetRound(rid, round.(status := Revealing));
      r := Ok(());
    }

    method Reveal(rid: nat, bidder: Address, value: i128, nonce: Bytes32) returns (r: Result<(), Error>)
      modifies this
      ensures match Spec.Reveal(old(View()), rid, bidder, value, nonce)
              case Ok(s) => r == Ok(()) && View() == s
              case Err(e) => r == Err(e) && View() == old(View())
    {
      var cells0 := cells;
      r := RevealBody(rid, bidder, value, nonce);
      if r.Err? {
        cells := cells0;
      }
    }

    method RevealBody(rid: nat, bidder: Address, value: i128, nonce: Bytes32) returns (r: Result<(), Error>)
      modifies this`cells
      ensures match Spec.Reveal(old(View()), rid, bidder, value, nonce)
              case Ok(s) => r == Ok(()) && View() == s
              case Err(e) => r == Err(e)
    {
      if rid !in cells {
        return Err(RoundNotFound);
      }
      var c := cells[rid];
      if c.round.status == Settled {
        return Err(AlreadySettled);
      }
      if c.round.status == Voided {
        return Err(RoundVoided);
      }
      if c.round.status != Revealing {
        return Err(RevealNotOpen);
      }
      if now > c.round.revealDeadline {
        return Err(RevealWindowClosed);
      }
      if bidder !in c.bids {
        return Err(BidNotFound);
      }
      var state := c.bids[bidder];
      if state.revealedValue.Some? {
        return Err(AlreadyRevealed);
      }
      var ledger :- EnsureLedger(rid);
      var _ :- ProveConserved(c, ledger);
      var preimage := Commitment.BidPreimage(value, nonce);
      if sha(preimage) != state.commitment {
        return Err(HashMismatch);
      }
      if value > state.escrow {
        return Err(BidExceedsEscrow);
      }
      SetState(rid, bidder, state.(revealedValue := Some(value), revealedNonce := Some(nonce), valid := value > 0));
      r := Ok(());
    }

    method Clear(rid: nat) returns (r: Result<Option<Address>, Error>)
      modifies this
      ensures match Spec.Clear(old(View()), rid)
              case Ok((s, winner)) => r == Ok(winner) && View() == s
              case Err(e) => r == Err(e) && View() == old(View())
    {
      var cells0, balances0 := cells, balances;
      ghost var log0 := log;
      r := ClearBody(rid);
      if r.Err? {
        cells, balances := cells0, balances0;
        log := log0;
      }
    }

    /** `clear`'s loop over the bidder index. */
    method PickWinner(c: Cell) returns (winner: Option<Address>, best: i128)
      ensures match Spec.BestBid(None, c.bids, c.round.rule, c.round.bidders)
              case None => winner == None
              case Some(w) => winner == Some(w.0) && best == w.1
    {
      var found := false;
      var bidders := c.round.bidders;
      winner, best := None, 0;
      for i := 0 to |bidders|
        invariant found == winner.Some?
        invariant Spec.BestBid(if winner.Some? then Some((winner.value, best)) else None,
                               c.bids, c.round.rule, bidders[i..])
               == Spec.BestBid(None, c.bids, c.round.rule, bidders)
      {
        assert bidders[i..][1..] == bidders[i + 1..];
        if bidders[i] !in c.bids {
          continue;
        }
        var state := c.bids[bidders[i]];
        if !state.valid || state.revealedValue.None? {
          continue;
        }
        var value := state.revealedValue.value;
        if !found || Spec.Better(c.round.rule, value, best) {
          best, winner, found := value, Some(bidders[i]), true;
        }
      }
    }

    method ClearBody(rid: nat) returns (r: Result<Option<Address>, Error>)
      modifies this`cells, this`balances, this`log
      ensures match Spec.Clear(old(View()), rid)
              case Ok((s, winner)) => r == Ok(winner) && View() == s
              case Err(e) => r == Err(e)
    {
      hide Spec.BestBid, Spec.RefundEach, Spec.EnsureLedger, Spec.ProveConserved;
      if rid !in cells {
        return Err(RoundNotFound);
      }
      var c := cells[rid];
      if c.round.status == Cleared {
        return Err(AlreadyCleared);
      }
      if c.round.status == Settled {
        return Err(AlreadySettled);
      }
      if c.round.status == Voided {
        return Err(RoundVoided);
      }
      if c.round.status != Revealing {
        return Err(RevealNotOpen);
      }
      if now <= c.round.revealDeadline {
        return Err(RevealStillOpen);
      }
      var winner, best := PickWinner(c);
      if winner.None? {
        SetRound(rid, c.round.(status := Voided));
        var _ :- RefundAll(rid);
        return Ok(None);
      }
      SetRound(rid, c.round.(winner := winner, winningBid := best, status := Cleared));
      r := Ok(winner);
    }

    /** Refund every locked escrow of a round already marked voided. */
    method RefundAll(rid: nat) returns (r: Result<(), Error>)
      requires rid in cells
      modifies this`cells, this`balances, this`log
      ensures match Spec.RefundAll(old(View()), rid, old(cells)[rid])
              case Ok(s) => r == Ok(()) && s.cells == cells && s.balances == balances && s.log == log
              case Err(e) => r == Err(e)
    {
      ghost var c0 := cells[rid];
      var ledger :- EnsureLedger(rid);
      var c := cells[rid];
      assert Spec.ScanBidderIndex(c) == Spec.ScanBidderIndex(c0);
      var index :- ProveConserved(c, ledger);
      if ledger.payout != 0 || index.settled != 0 {
        return Err(EscrowNotConserved);
      }
      ledger :- RefundEach(rid, ledger);
      SetLedger(rid, ledger);
      var ok :- Spec.Conserved(ledger);
      if !ok || ledger.locked != 0 {
        return Err(EscrowNotConserved);
      }
      r := Ok(());
    }

    /** The refund loop of `refund_all`. */
    method RefundEach(rid: nat, start: EscrowLedger) returns (r: Result<EscrowLedger, Error>)
      requires rid in cells
      modifies this`cells, this`balances, this`log
      ensures match Spec.RefundEach(old(PurseOf(rid, start)), rid, old(cells)[rid].round.bidders)
              case Ok(p) => r == Ok(p.ledger) && balances == p.balances && log == p.log
                            && cells == old(cells)[rid := old(cells)[rid].(bids := p.bids)]
              case Err(e) => r == Err(e)
    {
      var ledger := start;
      var bidders := cells[rid].round.bidders;
      ghost var cells0, p0 := cells, PurseOf(rid, ledger);
      for i := 0 to |bidders|
        invariant rid in cells && cells == cells0[rid := cells0[rid].(bids := cells[rid].bids)]
        invariant Spec.RefundEach(PurseOf(rid, ledger), rid, bidders[i..]) == Spec.RefundEach(p0, rid, bidders)
      {
        var bidder := bidders[i];
        assert bidders[i..][1..] == bidders[i + 1..];
        if bidder !in cells[rid].bids {
          return Err(EscrowNotConserved);
        }
        var state := cells[rid].bids[bidder];
        if state.settled || state.escrow <= 0 {
          continue;
        }
        var _ :- Transfer(rid, SELF, bidder, state.escrow);
        ledger :- Spec.Refund(ledger, state.escrow);
        SetState(rid, bidder, state.(settled := true));
      }
      r := Ok(ledger);
    }

    method Settle(rid: nat) returns (r: Result<(), Error>)
      modifies this
      ensures match Spec.Settle(old(View()), rid)
              case Ok(s) => r == Ok(()) && View() == s
              case Err(e) => r == Err(e) && View() == old(View())
    {
      var cells0, balances0 := cells, balances;
      ghost var log0 := log;
      r := SettleBody(rid);
      if r.Err? {
        cells, balances := cells0, balances0;
        log := log0;
      }
    }

    /** The planning loop of `settle`: what would be refunded, moving nothing. */
    method PlanRefunds(c: Cell, winner: Address) returns (r: Result<i128, Error>)
      ensures r == Spec.Plan(0, c.bids, winner, c.round.winningBid, c.round.bidders)
    {
      var total: i128 := 0;
      var bidders := c.round.bidders;
      for i := 0 to |bidders|
        invariant Spec.Plan(total, c.bids, winner, c.round.winningBid, bidders[i..])
               == Spec.Plan(0, c.bids, winner, c.round.winningBid, bidders)
      {
        assert bidders[i..][1..] == bidders[i + 1..];
        if bidders[i] !in c.bids {
          return Err(EscrowNotConserved);
        }
        var state := c.bids[bidders[i]];
        if state.settled {
          continue;
        }
        if bidders[i] == winner {
          if c.round.winningBid > state.escrow {
            return Err(EscrowNotConserved);
          }
          var surplus :- Spec.Sub(state.escrow, c.round.winningBid);
          total :- Spec.Add(total, surplus);
        } else {
          total :- Spec.Add(total, state.escrow);
        }
      }
      r := Ok(total);
    }

    method SettleBody(rid: nat) returns (r: Result<(), Error>)
      modifies this`cells, this`balances, this`log
      ensures match Spec.Settle(old(View()), rid)
              case Ok(s) => r == Ok(()) && View() == s
              case Err(e) => r == Err(e)
    {
      hide Spec.SettleChecks, Spec.SettleAll, Spec.Conserved;
      if rid !in cells {
        return Err(RoundNotFound);
      }
      var round := cells[rid].round;
      if round.status == Settled {
        return Err(AlreadySettled);
      }
      if round.status == Voided {
        return Err(RoundVoided);
      }
      if round.status != Cleared {
        return Err(NotCleared);
      }
      if round.winner.None? {
        return Err(NoValidBids);
      }
      var ledger :- SettleChecks(rid, round.winner.value);
      ledger :- PayOut(rid, ledger, round.winner.value);
      SetLedger(rid, ledger);
      var ok :- Spec.Conserved(ledger);
      if !ok || ledger.locked != 0 {
        return Err(EscrowNotConserved);
      }
      SetRound(rid, round.(status := Settled));
      r := Ok(());
    }

    /** Prove the escrow conserved and the plan exact, before any transfer runs. */
    method SettleChecks(rid: nat, winner: Address) returns (r: Result<EscrowLedger, Error>)
      requires rid in cells
      modifies this`cells
      ensures r == Spec.SettleChecks(old(cells)[rid], winner)
      ensures r.Ok? ==> cells == old(cells)[rid := old(cells)[rid].(ledger := Some(r.value))]
    {
      ghost var c0 := cells[rid];
      var ledger :- EnsureLedger(rid);
      var c := cells[rid];
      assert Spec.ScanBidderIndex(c) == Spec.ScanBidderIndex(c0);
      var index :- ProveConserved(c, ledger);
      var refunds :- PlanRefunds(c, winner);
      var planned :- Spec.Add(c.round.winningBid, refunds);
      if planned != index.locked || index.settled != 0 {
        return Err(EscrowNotConserved);
      }
      r := Ok(ledger);
    }

    /** The payout loop of `settle`. */
    method PayOut(rid: nat, start: EscrowLedger, winner: Address) returns (r: Result<EscrowLedger, Error>)
      requires rid in cells
      modifies this`cells, this`balances, this`log
      ensures var round := old(cells)[rid].round;
              match Spec.SettleAll(old(PurseOf(rid, start)), rid, round.operator, winner, round.winningBid,
                  round.bidders)
              case Ok(p) => r == Ok(p.ledger) && balances == p.balances && log == p.log
                            && cells == old(cells)[rid := old(cells)[rid].(bids := p.bids)]
              case Err(e) => r == Err(e)
    {
      var ledger := start;
      var round := cells[rid].round;
      var bidders := round.bidders;
      ghost var cells0, p0 := cells, PurseOf(rid, ledger);
      for i := 0 to |bidders|
        invariant rid in cells && cells == cells0[rid := cells0[rid].(bids := cells[rid].bids)]
        invariant Spec.SettleAll(PurseOf(rid, ledger), rid, round.operator, winner, round.winningBid, bidders[i..])
               == Spec.SettleAll(p0, rid, round.operator, winner, round.winningBid, bidders)
      {
        var bidder := bidders[i];
        assert bidders[i..][1..] == bidders[i + 1..];
        if bidder !in cells[rid].bids {
          return Err(EscrowNotConserved);
        }
        var state := cells[rid].bids[bidder];
        if state.settled {
          continue;
        }
        if bidder == winner {
          var _ :- Transfer(rid, SELF, round.operator, round.winningBid);
          ledger :- Spec.PayOperator(ledger, round.winningBid);
          var surplus :- Spec.Sub(state.escrow, round.winningBid);
          if surplus > 0 {
            var _ :- Transfer(rid, SELF, bidder, surplus);
            ledger :- Spec.Refund(ledger, surplus);
          }
        } else if state.escrow > 0 {
          var _ :- Transfer(rid, SELF, bidder, state.escrow);
          ledger :- Spec.Refund(ledger, state.escrow);
        }
        SetState(rid, bidder, state.(settled := true));
      }
      r := Ok(ledger);
    }

    method Void(rid: nat) returns (r: Result<(), Error>)
      modifies this
      ensures match Spec.Void(old(View()), rid)
              case Ok(s) => r == Ok(()) && View() == s
              case Err(e) => r == Err(e) && View() == old(View())
    {
      var cells0, balances0 := cells, balances;
      ghost var log0 := log;
      r := VoidBody(rid);
      if r.Err? {
        cells, balances := cells0, balances0;
        log := log0;
      }
    }

    method VoidBody(rid: nat) returns (r: Result<(), Error>)
      modifies this`cells, this`balances, this`log
      ensures match Spec.Void(old(View()), rid)
              case Ok(s) => r == Ok(()) && View() == s
              case Err(e) => r == Err(e)
    {
      if rid !in cells {
        return Err(RoundNotFound);
      }
      var round := cells[rid].round;
      if round.status == Voided {
        return Err(RoundVoided);
      }
      if round.status == Settled {
        return Err(AlreadySettled);
      }
      if round.status != Open {
        return Err(NotVoidable);
      }
      if round.revealDeadline + VOID_GRACE >= TWO_64 {
        return Err(Trap);
      }
      if now <= round.revealDeadline + VOID_GRACE {
        return Err(NotVoidable);
      }
      SetRound(rid, round.(status := Voided));
      r := RefundAll(rid);
    }
  }
}
