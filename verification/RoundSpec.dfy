/**
 * What each entry point of the Round contract does to the stored state, as a function.
 * The loops appear as left-to-right folds, so the imperative contract can be proved equal to
 * these functions on every state, reachable or not.
 */
module RoundSpec {
  import opened Prelude
  import opened RoundTypes
  import Drand
  import Commitment

  // ---- Checked arithmetic -------------------------------------------------

  function Add(a: i128, b: i128): Result<i128, Error> {
    if -TWO_127 <= a + b < TWO_127 then Ok(a + b) else Err(Trap)
  }

  function Sub(a: i128, b: i128): Result<i128, Error> {
    if -TWO_127 <= a - b < TWO_127 then Ok(a - b) else Err(Trap)
  }

  // ---- Token ---------------------------------------------------------------

  function Balance(balances: map<Address, nat>, a: Address): nat {
    if a in balances then balances[a] else 0
  }

  /** A transfer fails only on a negative amount or an insufficient balance. */
  function Move(balances: map<Address, nat>, from: Address, to: Address, amount: int)
    : Result<map<Address, nat>, Error>
  {
    if amount < 0 || Balance(balances, from) < amount then Err(Trap)
    else
      var debited := balances[from := Balance(balances, from) - amount];
      Ok(debited[to := Balance(debited, to) + amount])
  }

  // ---- Escrow ledger ---------------------------------------------------------

  function Deposit(l: EscrowLedger, amount: i128): Result<EscrowLedger, Error> {
    var committed :- Add(l.committed, amount);
    var locked :- Add(l.locked, amount);
    Ok(l.(committed := committed, locked := locked))
  }

  function Refund(l: EscrowLedger, amount: i128): Result<EscrowLedger, Error> {
    var refunds :- Add(l.refunds, amount);
    var locked :- Sub(l.locked, amount);
    Ok(l.(refunds := refunds, locked := locked))
  }

  function PayOperator(l: EscrowLedger, amount: i128): Result<EscrowLedger, Error> {
    var payout :- Add(l.payout, amount);
    var locked :- Sub(l.locked, amount);
    Ok(l.(payout := payout, locked := locked))
  }

  /** `conserved`: no negative flow, and committed == payout + refunds + locked. */
  function Conserved(l: EscrowLedger): Result<bool, Error> {
    if l.committed < 0 || l.payout < 0 || l.refunds < 0 || l.locked < 0 then Ok(false)
    else
      var left :- Add(l.payout, l.refunds);
      var total :- Add(left, l.locked);
      Ok(l.committed == total)
  }

  function ScanStep(acc: EscrowIndex, bids: map<Address, BidState>, bidder: Address): Result<EscrowIndex, Error> {
    if bidder !in bids then Err(EscrowNotConserved)
    else if bids[bidder].settled then Ok(acc.(settled := acc.settled + 1))
    else
      var locked :- Add(acc.locked, bids[bidder].escrow);
      Ok(acc.(locked := locked))
  }

  function Scan(acc: EscrowIndex, bids: map<Address, BidState>, bidders: seq<Address>): Result<EscrowIndex, Error>
    decreases |bidders|
  {
    if bidders == [] then Ok(acc)
    else
      var next :- ScanStep(acc, bids, bidders[0]);
      Scan(next, bids, bidders[1..])
  }

  function ScanBidderIndex(c: Cell): Result<EscrowIndex, Error> {
    Scan(EscrowIndex(0, 0), c.bids, c.round.bidders)
  }

  function ProveConserved(c: Cell, ledger: EscrowLedger): Result<EscrowIndex, Error> {
    var index :- ScanBidderIndex(c);
    var ok :- Conserved(ledger);
    if ok && index.locked == ledger.locked then Ok(index) else Err(EscrowNotConserved)
  }

  function EnsureLedger(c: Cell): Result<EscrowLedger, Error> {
    if c.ledger.Some? then Ok(c.ledger.value)
    else
      var index :- ScanBidderIndex(c);
      Ok(EscrowLedger(index.locked, 0, 0, index.locked))
  }

  // ---- Paying out -------------------------------------------------------------

  /** What a payout loop threads along: bid states, ledger, token balances, transfer log. */
  datatype Purse = Purse(
    bids: map<Address, BidState>,
    ledger: EscrowLedger,
    balances: map<Address, nat>,
    log: seq<Transfer>)

  function Send(p: Purse, rid: nat, from: Address, to: Address, amount: i128): Result<Purse, Error> {
    var balances :- Move(p.balances, from, to, amount);
    Ok(p.(balances := balances, log := p.log + [Transfer(rid, from, to, amount)]))
  }

  /** Transfer to a bidder and book it as a refund. */
  function SendRefund(p: Purse, rid: nat, to: Address, amount: i128): Result<Purse, Error> {
    var sent :- Send(p, rid, SELF, to, amount);
    var ledger :- Refund(sent.ledger, amount);
    Ok(sent.(ledger := ledger))
  }

  function SendPayout(p: Purse, rid: nat, operator: Address, amount: i128): Result<Purse, Error> {
    var sent :- Send(p, rid, SELF, operator, amount);
    var ledger :- PayOperator(sent.ledger, amount);
    Ok(sent.(ledger := ledger))
  }

  function MarkSettled(p: Purse, bidder: Address): Purse
    requires bidder in p.bids
  {
    p.(bids := p.bids[bidder := p.bids[bidder].(settled := true)])
  }

  /** One turn of `settle`'s payout loop. */
  function SettleStep(p: Purse, rid: nat, operator: Address, winner: Address, winningBid: i128, bidder: Address)
    : Result<Purse, Error>
  {
    if bidder !in p.bids then Err(EscrowNotConserved)
    else
      var state := p.bids[bidder];
      if state.settled then Ok(p)
      else if bidder == winner then
        var paid :- SendPayout(p, rid, operator, winningBid);
        var surplus :- Sub(state.escrow, winningBid);
        if surplus > 0 then
          var refunded :- SendRefund(paid, rid, bidder, surplus);
          Ok(MarkSettled(refunded, bidder))
        else Ok(MarkSettled(paid, bidder))
      else if state.escrow > 0 then
        var refunded :- SendRefund(p, rid, bidder, state.escrow);
        Ok(MarkSettled(refunded, bidder))
      else Ok(MarkSettled(p, bidder))
  }

  function SettleAll(p: Purse, rid: nat, operator: Address, winner: Address, winningBid: i128, bidders: seq<Address>)
    : Result<Purse, Error>
    decreases |bidders|
  {
    if bidders == [] then Ok(p)
    else
      var next :- SettleStep(p, rid, operator, winner, winningBid, bidders[0]);
      SettleAll(next, rid, operator, winner, winningBid, bidders[1..])
  }

  /** One turn of `refund_all`'s loop. */
  function RefundStep(p: Purse, rid: nat, bidder: Address): Result<Purse, Error> {
    if bidder !in p.bids then Err(EscrowNotConserved)
    else if p.bids[bidder].settled || p.bids[bidder].escrow <= 0 then Ok(p)
    else
      var refunded :- SendRefund(p, rid, bidder, p.bids[bidder].escrow);
      Ok(MarkSettled(refunded, bidder))
  }

  function RefundEach(p: Purse, rid: nat, bidders: seq<Address>): Result<Purse, Error>
    decreases |bidders|
  {
    if bidders == [] then Ok(p)
    else
      var next :- RefundStep(p, rid, bidders[0]);
      RefundEach(next, rid, bidders[1..])
  }

  /** The refunds `settle` plans before it moves anything. */
  function PlanStep(acc: i128, bids: map<Address, BidState>, winner: Address, winningBid: i128, bidder: Address)
    : Result<i128, Error>
  {
    if bidder !in bids then Err(EscrowNotConserved)
    else
      var state := bids[bidder];
      if state.settled then Ok(acc)
      else if bidder == winner then
        if winningBid > state.escrow then Err(EscrowNotConserved)
        else
          var surplus :- Sub(state.escrow, winningBid);
          Add(acc, surplus)
      else Add(acc, state.escrow)
  }

  function Plan(acc: i128, bids: map<Address, BidState>, winner: Address, winningBid: i128, bidders: seq<Address>)
    : Result<i128, Error>
    decreases |bidders|
  {
    if bidders == [] then Ok(acc)
    else
      var next :- PlanStep(acc, bids, winner, winningBid, bidders[0]);
      Plan(next, bids, winner, winningBid, bidders[1..])
  }

  // ---- Storage -----------------------------------------------------------------

  function Put(s: State, rid: nat, round: Round, p: Purse): State {
    s.(cells := s.cells[rid := Cell(round, p.bids, Some(p.ledger))], balances := p.balances, log := p.log)
  }

  function Drained(l: EscrowLedger): Result<(), Error> {
    var ok :- Conserved(l);
    if !ok || l.locked != 0 then Err(EscrowNotConserved) else Ok(())
  }

  /** `refund_all` on a cell whose round is already marked voided. */
  function RefundAll(s: State, rid: nat, c: Cell): Result<State, Error> {
    var ledger :- EnsureLedger(c);
    var index :- ProveConserved(c, ledger);
    if ledger.payout != 0 || index.settled != 0 then Err(EscrowNotConserved)
    else
      var p :- RefundEach(Purse(c.bids, ledger, s.balances, s.log), rid, c.round.bidders);
      var _ :- Drained(p.ledger);
      Ok(Put(s, rid, c.round, p))
  }

  // ---- Entry points ------------------------------------------------------------

  function CreateRound(s: State, operator: Address, revealRound: u64, rule: ClearingRule,
                       commitDeadline: u64, revealDeadline: u64, pubkeyLen: nat): Result<(State, u64), Error>
  {
    if operator == SELF then Err(Trap)
    else if revealRound == 0 then Err(InvalidSealRoundZero)
    else if pubkeyLen > MAX_AUDITOR_PUBKEY then Err(PayloadTooLarge)
    else
      var opening := Drand.CheckedTimeOfRound(s.config, revealRound);
      if opening.None? then Err(InvalidSealRoundZero)
      else if commitDeadline >= opening.value then Err(CommitDeadlineAfterReveal)
      else if revealDeadline <= opening.value then Err(CommitDeadlineAfterReveal)
      else if commitDeadline <= s.now then Err(DeadlineInPast)
      else if s.counter + 1 >= TWO_64 then Err(Trap)
      else
        var rid := s.counter + 1;
        var round := Round(operator, revealRound, rule, commitDeadline, revealDeadline, Open, [], None, 0);
        Ok((s.(counter := rid, cells := s.cells[rid := Cell(round, map[], None)]), rid))
  }

  /** The token half of a commit: hand back the previous escrow, then take the new one. */
  function SwapEscrow(p: Purse, rid: nat, bidder: Address, escrow: i128): Result<Purse, Error> {
    var back :- if bidder in p.bids && p.bids[bidder].escrow > 0
      then SendRefund(p, rid, bidder, p.bids[bidder].escrow)
      else Ok(p);
    var taken :- Send(back, rid, bidder, SELF, escrow);
    var ledger :- Deposit(taken.ledger, escrow);
    Ok(taken.(ledger := ledger))
  }

  /** The part of `commit` past its checks: move the escrow, index the bidder, store the bid. */
  function AcceptBid(s: State, rid: nat, c: Cell, bidder: Address, commitment: Bytes32, escrow: i128)
    : Result<State, Error>
  {
    var ledger :- EnsureLedger(c);
    var p :- SwapEscrow(Purse(c.bids, ledger, s.balances, s.log), rid, bidder, escrow);
    var round := if bidder in c.bids then c.round else c.round.(bidders := c.round.bidders + [bidder]);
    var state := BidState(commitment, escrow, None, None, false, false);
    Ok(Put(s, rid, round, p.(bids := p.bids[bidder := state])))
  }

  function Commit(s: State, rid: nat, bidder: Address, commitment: Bytes32, ciphertextLen: nat,
                  escrow: i128, blobLen: nat, sealRound: u64): Result<State, Error>
  {
    if bidder == SELF then Err(Trap)
    else if rid !in s.cells then Err(RoundNotFound)
    else
      var c := s.cells[rid];
      if c.round.status == Voided then Err(RoundVoided)
      else if c.round.status == Settled then Err(AlreadySettled)
      else if c.round.status != Open then Err(WrongStatus)
      else if s.now > c.round.commitDeadline then Err(CommitClosed)
      else if escrow <= 0 then Err(InvalidAmount)
      else if ciphertextLen > MAX_CIPHERTEXT || blobLen > MAX_AUDITOR_BLOB then Err(PayloadTooLarge)
      else
        var _ :- Drand.ValidateSealRound(c.round, sealRound);
        if bidder !in c.bids && |c.round.bidders| >= MAX_BIDDERS then Err(RoundFull)
        else AcceptBid(s, rid, c, bidder, commitment, escrow)
  }

  /** `beaconValid` is the verdict of the on-chain BLS check of the supplied signature. */
  function OpenReveal(s: State, rid: nat, beaconValid: bool): Result<State, Error> {
    if rid !in s.cells then Err(RoundNotFound)
    else
      var c := s.cells[rid];
      if c.round.status == Settled then Err(AlreadySettled)
      else if c.round.status == Voided then Err(RoundVoided)
      else if c.round.status == Cleared then Err(AlreadyCleared)
      else if c.round.status != Open then Err(RevealAlreadyOpen)
      else if s.now <= c.round.commitDeadline then Err(CommitNotClosed)
      else if !beaconValid then Err(InvalidDrandSignature)
      else Ok(s.(cells := s.cells[rid := c.(round := c.round.(status := Revealing))]))
  }

  function Reveal(s: State, rid: nat, bidder: Address, value: i128, nonce: Bytes32): Result<State, Error> {
    if rid !in s.cells then Err(RoundNotFound)
    else
      var c := s.cells[rid];
      if c.round.status == Settled then Err(AlreadySettled)
      else if c.round.status == Voided then Err(RoundVoided)
      else if c.round.status != Revealing then Err(RevealNotOpen)
      else if s.now > c.round.revealDeadline then Err(RevealWindowClosed)
      else if bidder !in c.bids then Err(BidNotFound)
      else if c.bids[bidder].revealedValue.Some? then Err(AlreadyRevealed)
      else
        var ledger :- EnsureLedger(c);
        var _ :- ProveConserved(c, ledger);
        var state := c.bids[bidder];
        if s.sha(Commitment.BidPreimage(value, nonce)) != state.commitment then Err(HashMismatch)
        else if value > state.escrow then Err(BidExceedsEscrow)
        else
          var revealed := state.(revealedValue := Some(value), revealedNonce := Some(nonce), valid := value > 0);
          Ok(s.(cells := s.cells[rid := Cell(c.round, c.bids[bidder := revealed], Some(ledger))]))
  }

  predicate Better(rule: ClearingRule, value: i128, best: i128) {
    match rule
    case HighestBid => value > best
    case LowestBid => value < best
  }

  /** One turn of `clear`'s loop. */
  function ClearStep(best: Option<(Address, i128)>, bids: map<Address, BidState>, rule: ClearingRule, bidder: Address)
    : Option<(Address, i128)>
  {
    if bidder !in bids || !bids[bidder].valid || bids[bidder].revealedValue.None? then best
    else
      var value := bids[bidder].revealedValue.value;
      if best.None? || Better(rule, value, best.value.1) then Some((bidder, value)) else best
  }

  function BestBid(best: Option<(Address, i128)>, bids: map<Address, BidState>, rule: ClearingRule,
          bidders: seq<Address>)
    : Option<(Address, i128)>
    decreases |bidders|
  {
    if bidders == [] then best
    else BestBid(ClearStep(best, bids, rule, bidders[0]), bids, rule, bidders[1..])
  }

  function Clear(s: State, rid: nat): Result<(State, Option<Address>), Error> {
    if rid !in s.cells then Err(RoundNotFound)
    else
      var c := s.cells[rid];
      if c.round.status == Cleared then Err(AlreadyCleared)
      else if c.round.status == Settled then Err(AlreadySettled)
      else if c.round.status == Voided then Err(RoundVoided)
      else if c.round.status != Revealing then Err(RevealNotOpen)
      else if s.now <= c.round.revealDeadline then Err(RevealStillOpen)
      else
        var best := BestBid(None, c.bids, c.round.rule, c.round.bidders);
        if best.None? then
          var refunded :- RefundAll(s, rid, c.(round := c.round.(status := Voided)));
          Ok((refunded, None))
        else
          var round := c.round.(winner := Some(best.value.0), winningBid := best.value.1, status := Cleared);
          Ok((s.(cells := s.cells[rid := c.(round := round)]), Some(best.value.0)))
  }

  function Settle(s: State, rid: nat): Result<State, Error> {
    if rid !in s.cells then Err(RoundNotFound)
    else
      var c := s.cells[rid];
      if c.round.status == Settled then Err(AlreadySettled)
      else if c.round.status == Voided then Err(RoundVoided)
      else if c.round.status != Cleared then Err(NotCleared)
      else if c.round.winner.None? then Err(NoValidBids)
      else SettleCleared(s, rid, c, c.round.winner.value)
  }

  /** The scan and plan checks of `settle`: they pass exactly when this is `Ok`. */
  function SettleChecks(c: Cell, winner: Address): Result<EscrowLedger, Error> {
    var ledger :- EnsureLedger(c);
    var index :- ProveConserved(c, ledger);
    var refunds :- Plan(0, c.bids, winner, c.round.winningBid, c.round.bidders);
    var planned :- Add(c.round.winningBid, refunds);
    if planned != index.locked || index.settled != 0 then Err(EscrowNotConserved) else Ok(ledger)
  }

  function SettleCleared(s: State, rid: nat, c: Cell, winner: Address): Result<State, Error> {
    var ledger :- SettleChecks(c, winner);
    var p :- SettleAll(Purse(c.bids, ledger, s.balances, s.log), rid, c.round.operator, winner,
                       c.round.winningBid, c.round.bidders);
    var _ :- Drained(p.ledger);
    Ok(Put(s, rid, c.round.(status := Settled), p))
  }

  function Void(s: State, rid: nat): Result<State, Error> {
    if rid !in s.cells then Err(RoundNotFound)
    else
      var c := s.cells[rid];
      if c.round.status == Voided then Err(RoundVoided)
      else if c.round.status == Settled then Err(AlreadySettled)
      else if c.round.status != Open then Err(NotVoidable)
      else if c.round.revealDeadline + VOID_GRACE >= TWO_64 then Err(Trap)
      else if s.now <= c.round.revealDeadline + VOID_GRACE then Err(NotVoidable)
      else RefundAll(s, rid, c.(round := c.round.(status := Voided)))
  }
}
