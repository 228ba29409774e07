/** Exactly when each entry point of the contract accepts a call, and what it then does. */
module Acceptance {
  import opened Prelude
  import opened RoundTypes
  import Spec = RoundSpec
  import opened RoundInvariant
  import opened Runs
  import opened Settlement
  import Commitment
  import Lifecycle

  // ---- create_round ----------------------------------------------------------------------------

  /** When the beacon of a Drand round is published. */
  ghost function PublishedAt(config: Config, revealRound: u64): int {
    config.genesis + config.period * revealRound
  }

  /** The commit window opens now and closes before the beacon is published; the reveal window outlasts it. */
  ghost predicate Creatable(s: State, operator: Address, revealRound: u64, commitDeadline: u64, revealDeadline: u64,
                            pubkeyLen: nat)
  {
    && operator != SELF && revealRound > 0 && pubkeyLen <= 1024 && s.counter < TWO_64 - 1
    && s.now < commitDeadline < PublishedAt(s.config, revealRound) < revealDeadline
  }

  lemma PublicationFits(config: Config, revealRound: u64)
    requires PublishedAt(config, revealRound) < TWO_64
    ensures config.period * revealRound < TWO_64
  {
  }

  lemma CreateRoundAcceptsIff(s: State, operator: Address, revealRound: u64, rule: ClearingRule, commitDeadline: u64,
          revealDeadline: u64, pubkeyLen: nat)
    ensures var r := Spec.CreateRound(s, operator, revealRound, rule, commitDeadline, revealDeadline, pubkeyLen);
            && (r.Ok? <==> Creatable(s, operator, revealRound, commitDeadline, revealDeadline, pubkeyLen))
            && (r.Ok? ==>
                  var round := Round(operator, revealRound, rule, commitDeadline, revealDeadline, Open, [], None, 0);
                  && r.value.1 == s.counter + 1
                  && r.value.0 == s.(counter := s.counter + 1,
                                     cells := s.cells[s.counter + 1 := Cell(round, map[], None)]))
  {
    if PublishedAt(s.config, revealRound) < TWO_64 {
      PublicationFits(s.config, revealRound);
    }
  }

  // ---- commit ------------------------------------------------------------------------------------

  /** The bid is in time, well formed, sealed for this round's beacon, and there is room for it in the index. */
  ghost predicate Admissible(s: State, rid: nat, bidder: Address, len: nat, escrow: i128, blob: nat, seal: u64) {
    && rid in s.cells && s.cells[rid].round.status == Open && s.now <= s.cells[rid].round.commitDeadline
    && bidder != SELF && escrow > 0 && len <= 4096 && blob <= 2048 && seal == s.cells[rid].round.revealRound
    && (bidder in s.cells[rid].round.bidders || |s.cells[rid].round.bidders| < 500)
  }

  /** The bidder can pay the escrow once the one it overwrites is back, and the round's total fits an i128. */
  ghost predicate Payable(s: State, rid: nat, bidder: Address, escrow: i128)
    requires rid in s.cells && LedgerOk(s.cells[rid])
  {
    var c := s.cells[rid];
    && Spec.Balance(s.balances, bidder) + PrevEscrow(c.bids, bidder) >= escrow
    && LiveLedger(c).committed + escrow < TWO_127
  }

  lemma SwapAcceptsIff(p: Spec.Purse, rid: nat, bidder: Address, escrow: i128)
    requires bidder != SELF && escrow > 0 && PrevEscrow(p.bids, bidder) >= 0
    requires Spec.Balance(p.balances, SELF) >= PrevEscrow(p.bids, bidder)
    requires 0 <= p.ledger.payout && 0 <= p.ledger.refunds && PrevEscrow(p.bids, bidder) <= p.ledger.locked
    requires p.ledger.committed == p.ledger.payout + p.ledger.refunds + p.ledger.locked
    ensures Spec.SwapEscrow(p, rid, bidder, escrow).Ok? <==>
            && Spec.Balance(p.balances, bidder) + PrevEscrow(p.bids, bidder) >= escrow
            && p.ledger.committed + escrow < TWO_127
    ensures var r := Spec.SwapEscrow(p, rid, bidder, escrow); r.Ok? ==>
              && r.value.balances == p.balances[SELF := Spec.Balance(r.value.balances, SELF)]
                                              [bidder := Spec.Balance(p.balances, bidder)
                                                         + PrevEscrow(p.bids, bidder) - escrow]
  {
  }

  lemma PrevIsHeld(s: State, rid: nat, bidder: Address)
    requires Inv(s) && rid in s.cells && NoneSettled(s.cells[rid])
    ensures var c := s.cells[rid]; 0 <= PrevEscrow(c.bids, bidder) <= CellHeld(c)
  {
    var c := s.cells[rid];
    assert IndexMatches(c) && forall a :: a in c.bids ==> BidOk(s.sha, c.bids[a]);
    if bidder in c.bids {
      HeldUpdate(c.bids, c.round.bidders, bidder, c.bids[bidder].(settled := true));
      HeldBounds(c.bids[bidder := c.bids[bidder].(settled := true)], c.round.bidders);
    } else {
      HeldBounds(c.bids, c.round.bidders);
    }
  }

  lemma AcceptBidIff(s: State, rid: nat, bidder: Address, commitment: Bytes32, escrow: i128)
    requires Inv(s) && rid in s.cells && s.cells[rid].round.status == Open && bidder != SELF && escrow > 0
    ensures Spec.AcceptBid(s, rid, s.cells[rid], bidder, commitment, escrow).Ok? <==> Payable(s, rid, bidder, escrow)
    ensures var r := Spec.AcceptBid(s, rid, s.cells[rid], bidder, commitment, escrow); r.Ok? ==>
              Spec.Balance(r.value.balances, bidder)
              == Spec.Balance(s.balances, bidder) + PrevEscrow(s.cells[rid].bids, bidder) - escrow
  {
    var c := s.cells[rid];
    PrevIsHeld(s, rid, bidder);
    BalanceCoversRound(s, rid);
    GuardPasses(s, c);
    hide Inv, RoundInv, Spec.EnsureLedger, Spec.SwapEscrow, Spec.ProveConserved, CellHeld;
    var l := LiveLedger(c);
    SwapAcceptsIff(Spec.Purse(c.bids, l, s.balances, s.log), rid, bidder, escrow);
  }

  /** The ledger once the overwritten escrow is refunded and the new one taken. */
  ghost predicate Rebooked(before: EscrowLedger, after: EscrowLedger, prev: int, escrow: int) {
    && after.committed == before.committed + escrow && after.payout == before.payout
    && after.refunds == before.refunds + prev && after.locked == before.locked - prev + escrow
  }

  /**
   * `commit` on a sound state: accepted exactly when the bid is admissible and can be paid, overwriting included,
   * and what it then does to the round, the ledger and the bidder's tokens.
   */
  lemma CommitAcceptsIff(s: State, rid: nat, bidder: Address, commitment: Bytes32, len: nat, escrow: i128, blob: nat,
          seal: u64)
    requires Inv(s)
    ensures rid in s.cells ==> LedgerOk(s.cells[rid])
    ensures var r := Spec.Commit(s, rid, bidder, commitment, len, escrow, blob, seal);
            && (r.Ok? <==> Admissible(s, rid, bidder, len, escrow, blob, seal) && Payable(s, rid, bidder, escrow))
            && (r.Ok? ==>
                  var c := s.cells[rid]; var prev := PrevEscrow(c.bids, bidder);
                  && rid in r.value.cells && r.value.cells[rid].ledger.Some?
                  && Rebooked(LiveLedger(c), r.value.cells[rid].ledger.value, prev, escrow)
                  && r.value.cells == s.cells[rid := CommittedCell(c, bidder, commitment, escrow,
                                                                   r.value.cells[rid].ledger.value)]
                  && Spec.Balance(r.value.balances, bidder) == Spec.Balance(s.balances, bidder) + prev - escrow)
  {
    CommitChecks(s, rid, bidder, commitment, len, escrow, blob, seal);
    if Admissible(s, rid, bidder, len, escrow, blob, seal) {
      AcceptBidIff(s, rid, bidder, commitment, escrow);
      if Payable(s, rid, bidder, escrow) {
        AcceptedLedger(s, rid, bidder, commitment, escrow);
        CommitEffect(s, rid, bidder, commitment, len, escrow, blob, seal);
      }
    }
    hide Inv, RoundInv, Spec.Commit, Spec.AcceptBid, LiveLedger;
  }

  lemma CommitChecks(s: State, rid: nat, bidder: Address, commitment: Bytes32, len: nat, escrow: i128, blob: nat,
          seal: u64)
    requires Inv(s)
    ensures rid in s.cells ==> LedgerOk(s.cells[rid])
    ensures var r := Spec.Commit(s, rid, bidder, commitment, len, escrow, blob, seal);
            if Admissible(s, rid, bidder, len, escrow, blob, seal)
            then r == Spec.AcceptBid(s, rid, s.cells[rid], bidder, commitment, escrow)
            else r.Err?
  {
    if rid in s.cells {
      assert RoundInv(s, s.cells[rid]) && IndexMatches(s.cells[rid]);
    }
    hide Inv, RoundInv, Spec.AcceptBid, LedgerOk;
  }

  lemma AcceptedLedger(s: State, rid: nat, bidder: Address, commitment: Bytes32, escrow: i128)
    requires Inv(s) && rid in s.cells && s.cells[rid].round.status == Open && bidder != SELF && escrow > 0
    requires Spec.AcceptBid(s, rid, s.cells[rid], bidder, commitment, escrow).Ok?
    ensures var t := Spec.AcceptBid(s, rid, s.cells[rid], bidder, commitment, escrow).value; var c := s.cells[rid];
            && rid in t.cells && t.cells[rid].ledger.Some?
            && Rebooked(LiveLedger(c), t.cells[rid].ledger.value, PrevEscrow(c.bids, bidder), escrow)
  {
    var c := s.cells[rid];
    PrevIsHeld(s, rid, bidder);
    GuardPasses(s, c);
    SwapEscrowMoves(Spec.Purse(c.bids, LiveLedger(c), s.balances, s.log), rid, bidder, escrow);
    hide Inv, RoundInv, Spec.EnsureLedger, Spec.SwapEscrow, Spec.ProveConserved, CellHeld, LiveLedger;
  }

  // ---- open_reveal, reveal -------------------------------------------------------------------------

  lemma OpenRevealAcceptsIff(s: State, rid: nat, beaconValid: bool)
    ensures var r := Spec.OpenReveal(s, rid, beaconValid);
            && (r.Ok? <==>
                  && rid in s.cells && s.cells[rid].round.status == Open
                  && s.now > s.cells[rid].round.commitDeadline && beaconValid)
            && (r.Ok? ==>
                  var c := s.cells[rid];
                  r.value == s.(cells := s.cells[rid := c.(round := c.round.(status := Revealing))]))
  {
  }

  /** The window is open and the value and nonce are the ones sealed, within the escrow; none was shown before. */
  ghost predicate Showable(s: State, rid: nat, bidder: Address, value: i128, nonce: Bytes32) {
    && rid in s.cells && s.cells[rid].round.status == Revealing && s.now <= s.cells[rid].round.revealDeadline
    && bidder in s.cells[rid].bids
    && var b := s.cells[rid].bids[bidder];
       && b.revealedValue == None && b.commitment == s.sha(Commitment.BidPreimage(value, nonce)) && value <= b.escrow
  }

  lemma RevealAcceptsIff(s: State, rid: nat, bidder: Address, value: i128, nonce: Bytes32)
    requires Inv(s)
    ensures rid in s.cells ==> LedgerOk(s.cells[rid])
    ensures var r := Spec.Reveal(s, rid, bidder, value, nonce);
            && (r.Ok? <==> Showable(s, rid, bidder, value, nonce))
            && (r.Ok? ==>
                  var c := s.cells[rid]; var b := c.bids[bidder];
                  var shown := b.(revealedValue := Some(value), revealedNonce := Some(nonce), valid := value > 0);
                  r.value == s.(cells := s.cells[rid := Cell(c.round, c.bids[bidder := shown], Some(LiveLedger(c)))]))
  {
    RevealChecks(s, rid, bidder, value, nonce);
    hide Spec.Reveal, Showable;
    if Spec.Reveal(s, rid, bidder, value, nonce).Ok? {
      RevealEffect(s, rid, bidder, value, nonce);
    }
    hide Inv, RoundInv, LiveLedger;
  }

  lemma GuardAccepts(s: State, rid: nat)
    requires Inv(s) && rid in s.cells
    ensures var c := s.cells[rid];
            && LedgerOk(c)
            && (c.round.status == Revealing ==>
                  Spec.EnsureLedger(c).Ok? && Spec.ProveConserved(c, Spec.EnsureLedger(c).value).Ok?)
  {
    if s.cells[rid].round.status == Revealing {
      GuardPasses(s, s.cells[rid]);
    }
    hide Spec.EnsureLedger, Spec.ProveConserved, CellHeld, LiveLedger;
  }

  lemma RevealChecks(s: State, rid: nat, bidder: Address, value: i128, nonce: Bytes32)
    requires Inv(s)
    ensures rid in s.cells ==> LedgerOk(s.cells[rid])
    ensures Spec.Reveal(s, rid, bidder, value, nonce).Ok? <==> Showable(s, rid, bidder, value, nonce)
  {
    hide Inv, RoundInv, LedgerOk, Spec.EnsureLedger, Spec.ProveConserved, Commitment.BidPreimage;
    if rid in s.cells {
      GuardAccepts(s, rid);
    }
  }

  // ---- clear, settle, void --------------------------------------------------------------------------

  /** Past the reveal deadline `clear` is always accepted; with a winner it only marks the round. */
  lemma ClearAcceptsIff(s: State, rid: nat)
    requires Inv(s)
    ensures var r := Spec.Clear(s, rid);
            && (r.Ok? <==>
                  && rid in s.cells && s.cells[rid].round.status == Revealing
                  && s.now > s.cells[rid].round.revealDeadline)
            && (r.Ok? ==>
                  var c := s.cells[rid]; var best := Spec.BestBid(None, c.bids, c.round.rule, c.round.bidders);
                  if best.None? then r.value.1 == None && Lifecycle.Drained(r.value.0, rid)
                  else
                    var won := c.round.(winner := Some(best.value.0), winningBid := best.value.1, status := Cleared);
                    r.value == (s.(cells := s.cells[rid := c.(round := won)]), Some(best.value.0)))
  {
    hide Inv, Spec.RefundAll, Spec.BestBid, Lifecycle.Drained;
    if rid in s.cells && s.cells[rid].round.status == Revealing && s.now > s.cells[rid].round.revealDeadline {
      Lifecycle.ClearCannotFail(s, rid);
    }
  }

  lemma SettleAcceptsIff(s: State, rid: nat)
    requires Inv(s)
    ensures Spec.Settle(s, rid).Ok? <==> rid in s.cells && s.cells[rid].round.status == Cleared
  {
    if rid in s.cells && s.cells[rid].round.status == Cleared {
      Lifecycle.SettleDrains(s, rid);
    }
    hide Inv, Spec.SettleCleared, Lifecycle.Drained;
  }

  lemma VoidAcceptsIff(s: State, rid: nat)
    requires Inv(s)
    ensures var r := Spec.Void(s, rid);
            && (r.Ok? <==>
                  && rid in s.cells && s.cells[rid].round.status == Open
                  && s.now > s.cells[rid].round.revealDeadline + 3600)
            && (r.Ok? ==> Lifecycle.Drained(r.value, rid))
  {
    if rid in s.cells && s.cells[rid].round.status == Open && s.now > s.cells[rid].round.revealDeadline + 3600 {
      Lifecycle.VoidDrains(s, rid);
    }
    hide Inv, Spec.RefundAll, Lifecycle.Drained;
  }

  // ---- What a refusal says -----------------------------------------------------------------------------

  ghost predicate CreateRoundSays(s: State, operator: Address, revealRound: u64, commitDeadline: u64,
                                  revealDeadline: u64, pubkeyLen: nat, e: Error)
  {
    var opening := PublishedAt(s.config, revealRound);
    match e
    case InvalidSealRoundZero => revealRound == 0 || opening >= TWO_64
    case PayloadTooLarge => pubkeyLen > 1024
    case CommitDeadlineAfterReveal => commitDeadline >= opening || revealDeadline <= opening
    case DeadlineInPast => commitDeadline <= s.now
    case Trap => operator == SELF || s.counter == TWO_64 - 1
    case _ => false
  }

  ghost predicate CommitSays(s: State, rid: nat, bidder: Address, len: nat, escrow: i128, blob: nat, seal: u64,
                             e: Error)
  {
    if rid !in s.cells then e == RoundNotFound || (e == Trap && bidder == SELF)
    else
      var r := s.cells[rid].round;
      match e
      case RoundVoided => r.status == Voided
      case AlreadySettled => r.status == Settled
      case WrongStatus => r.status in {Revealing, Cleared}
      case CommitClosed => s.now > r.commitDeadline
      case InvalidAmount => escrow <= 0
      case PayloadTooLarge => len > 4096 || blob > 2048
      case InvalidSealRoundZero => seal == 0
      case SealRoundTooEarly => seal < r.revealRound
      case SealRoundTooLate => seal > r.revealRound
      case RoundFull => bidder !in r.bidders && |r.bidders| >= 500
      case Trap => bidder == SELF || (LedgerOk(s.cells[rid]) && !Payable(s, rid, bidder, escrow))
      case _ => false
  }

  ghost predicate OpenRevealSays(s: State, rid: nat, beaconValid: bool, e: Error) {
    if rid !in s.cells then e == RoundNotFound
    else
      var r := s.cells[rid].round;
      match e
      case RoundVoided => r.status == Voided
      case AlreadySettled => r.status == Settled
      case AlreadyCleared => r.status == Cleared
      case RevealAlreadyOpen => r.status == Revealing
      case CommitNotClosed => r.status == Open && s.now <= r.commitDeadline
      case InvalidDrandSignature => r.status == Open && !beaconValid
      case _ => false
  }

  ghost predicate RevealSays(s: State, rid: nat, bidder: Address, value: i128, nonce: Bytes32, e: Error) {
    if rid !in s.cells then e == RoundNotFound
    else
      var r, bids := s.cells[rid].round, s.cells[rid].bids;
      match e
      case RoundVoided => r.status == Voided
      case AlreadySettled => r.status == Settled
      case RevealNotOpen => r.status in {Open, Cleared}
      case RevealWindowClosed => r.status == Revealing && s.now > r.revealDeadline
      case BidNotFound => bidder !in bids
      case AlreadyRevealed => bidder in bids && bids[bidder].revealedValue.Some?
      case HashMismatch => bidder in bids && bids[bidder].commitment != s.sha(Commitment.BidPreimage(value, nonce))
      case BidExceedsEscrow => bidder in bids && value > bids[bidder].escrow
      case _ => false
  }

  ghost predicate ClearSays(s: State, rid: nat, e: Error) {
    if rid !in s.cells then e == RoundNotFound
    else
      var r := s.cells[rid].round;
      match e
      case RoundVoided => r.status == Voided
      case AlreadySettled => r.status == Settled
      case AlreadyCleared => r.status == Cleared
      case RevealNotOpen => r.status == Open
      case RevealStillOpen => r.status == Revealing && s.now <= r.revealDeadline
      case _ => false
  }

  ghost predicate SettleSays(s: State, rid: nat, e: Error) {
    if rid !in s.cells then e == RoundNotFound
    else
      match e
      case RoundVoided => s.cells[rid].round.status == Voided
      case AlreadySettled => s.cells[rid].round.status == Settled
      case NotCleared => s.cells[rid].round.status in {Open, Revealing}
      case _ => false
  }

  ghost predicate VoidSays(s: State, rid: nat, e: Error) {
    if rid !in s.cells then e == RoundNotFound
    else
      var r := s.cells[rid].round;
      match e
      case RoundVoided => r.status == Voided
      case AlreadySettled => r.status == Settled
      case NotVoidable => r.status in {Revealing, Cleared} || (r.status == Open && s.now <= r.revealDeadline + 3600)
      case Trap => r.status == Open && r.revealDeadline + 3600 >= TWO_64
      case _ => false
  }

  /** The error a call is refused with is true of the state it met, and of the call. */
  ghost predicate ErrorTrue(s: State, c: Call, e: Error) {
    match c
    case CreateRound(o, r, _, cd, rd, len) => CreateRoundSays(s, o, r, cd, rd, len, e)
    case Commit(rid, b, _, len, escrow, blob, seal) => CommitSays(s, rid, b, len, escrow, blob, seal, e)
    case OpenReveal(rid, ok) => OpenRevealSays(s, rid, ok, e)
    case Reveal(rid, b, v, n) => RevealSays(s, rid, b, v, n, e)
    case Clear(rid) => ClearSays(s, rid, e)
    case Settle(rid) => SettleSays(s, rid, e)
    case Void(rid) => VoidSays(s, rid, e)
    case Tick(to) => e == Trap && to < s.now
    case TokenTraffic(after) => e == Trap && Spec.Balance(after, SELF) < Spec.Balance(s.balances, SELF)
  }

  lemma CreateRoundRefused(s: State, operator: Address, revealRound: u64, rule: ClearingRule, commitDeadline: u64,
          revealDeadline: u64, pubkeyLen: nat)
    ensures var r := Spec.CreateRound(s, operator, revealRound, rule, commitDeadline, revealDeadline, pubkeyLen);
            r.Err? ==> CreateRoundSays(s, operator, revealRound, commitDeadline, revealDeadline, pubkeyLen, r.error)
  {
    var product := s.config.period * revealRound;
    assert product >= 0;
  }

  /** On a sound Open round, moving the escrow fails only with a trap. */
  lemma AcceptTraps(s: State, rid: nat, bidder: Address, commitment: Bytes32, escrow: i128)
    requires Inv(s) && rid in s.cells && s.cells[rid].round.status == Open && bidder != SELF && escrow > 0
    ensures var r := Spec.AcceptBid(s, rid, s.cells[rid], bidder, commitment, escrow); r.Err? ==> r.error == Trap
  {
    GuardPasses(s, s.cells[rid]);
    var c := s.cells[rid];
    hide Inv, RoundInv, Spec.EnsureLedger, Spec.ProveConserved, Spec.SwapEscrow, CellHeld;
    SwapTraps(Spec.Purse(c.bids, LiveLedger(c), s.balances, s.log), rid, bidder, escrow);
  }

  lemma SwapTraps(p: Spec.Purse, rid: nat, bidder: Address, escrow: i128)
    ensures var r := Spec.SwapEscrow(p, rid, bidder, escrow); r.Err? ==> r.error == Trap
  {
  }

  lemma CommitRefused(s: State, rid: nat, bidder: Address, commitment: Bytes32, len: nat, escrow: i128, blob: nat,
          seal: u64)
    requires Inv(s)
    ensures var r := Spec.Commit(s, rid, bidder, commitment, len, escrow, blob, seal);
            r.Err? ==> CommitSays(s, rid, bidder, len, escrow, blob, seal, r.error)
  {
    hide Inv, LedgerOk, Payable, Spec.Commit, Spec.AcceptBid, CommitSays;
    CommitChecks(s, rid, bidder, commitment, len, escrow, blob, seal);
    if rid in s.cells {
      SameIndexing(s, rid);
    }
    if Admissible(s, rid, bidder, len, escrow, blob, seal) {
      AcceptBidIff(s, rid, bidder, commitment, escrow);
      AcceptTraps(s, rid, bidder, commitment, escrow);
      if !Payable(s, rid, bidder, escrow) {
        UnpayableSays(s, rid, bidder, len, escrow, blob, seal);
      }
    } else {
      InadmissibleSays(s, rid, bidder, commitment, len, escrow, blob, seal);
    }
  }

  lemma UnpayableSays(s: State, rid: nat, bidder: Address, len: nat, escrow: i128, blob: nat, seal: u64)
    requires rid in s.cells && LedgerOk(s.cells[rid]) && !Payable(s, rid, bidder, escrow)
    ensures CommitSays(s, rid, bidder, len, escrow, blob, seal, Trap)
  {
    hide LedgerOk, Payable;
  }

  lemma InadmissibleSays(s: State, rid: nat, bidder: Address, commitment: Bytes32, len: nat, escrow: i128, blob: nat,
          seal: u64)
    requires rid in s.cells ==> forall a :: a in s.cells[rid].bids <==> a in s.cells[rid].round.bidders
    requires !Admissible(s, rid, bidder, len, escrow, blob, seal)
    ensures var r := Spec.Commit(s, rid, bidder, commitment, len, escrow, blob, seal);
            r.Err? ==> CommitSays(s, rid, bidder, len, escrow, blob, seal, r.error)
  {
    hide LedgerOk, Payable, Spec.AcceptBid;
  }

  lemma SameIndexing(s: State, rid: nat)
    requires Inv(s) && rid in s.cells
    ensures LedgerOk(s.cells[rid]) && forall a :: a in s.cells[rid].bids <==> a in s.cells[rid].round.bidders
  {
    assert RoundInv(s, s.cells[rid]) && IndexMatches(s.cells[rid]);
  }

  lemma OpenRevealRefused(s: State, rid: nat, beaconValid: bool)
    ensures var r := Spec.OpenReveal(s, rid, beaconValid); r.Err? ==> OpenRevealSays(s, rid, beaconValid, r.error)
  {
  }

  lemma RevealRefused(s: State, rid: nat, bidder: Address, value: i128, nonce: Bytes32)
    requires Inv(s)
    ensures var r := Spec.Reveal(s, rid, bidder, value, nonce);
              r.Err? ==> RevealSays(s, rid, bidder, value, nonce, r.error)
  {
    hide Inv, LedgerOk, Spec.EnsureLedger, Spec.ProveConserved, Commitment.BidPreimage;
    if rid in s.cells {
      GuardAccepts(s, rid);
    }
  }

  lemma ClearRefused(s: State, rid: nat)
    requires Inv(s)
    ensures var r := Spec.Clear(s, rid); r.Err? ==> ClearSays(s, rid, r.error)
  {
    hide Inv, Spec.RefundAll, Spec.BestBid, Lifecycle.Drained;
    if rid in s.cells && s.cells[rid].round.status == Revealing && s.now > s.cells[rid].round.revealDeadline {
      Lifecycle.ClearCannotFail(s, rid);
    }
  }

  lemma SettleRefused(s: State, rid: nat)
    requires Inv(s)
    ensures var r := Spec.Settle(s, rid); r.Err? ==> SettleSays(s, rid, r.error)
  {
    hide Inv, Spec.SettleCleared, Lifecycle.Drained;
    if rid in s.cells && s.cells[rid].round.status == Cleared {
      Lifecycle.SettleDrains(s, rid);
    }
  }

  lemma VoidRefused(s: State, rid: nat)
    requires Inv(s)
    ensures var r := Spec.Void(s, rid); r.Err? ==> VoidSays(s, rid, r.error)
  {
    hide Inv, Spec.RefundAll, Lifecycle.Drained;
    if rid in s.cells && s.cells[rid].round.status == Open && s.now > s.cells[rid].round.revealDeadline + 3600 {
      Lifecycle.VoidDrains(s, rid);
    }
  }

  /** No refusal lies: whatever the call, on a sound state its error is true. */
  lemma RefusalsAreTrue(s: State, c: Call)
    requires Inv(s) && Attempt(s, c).Err?
    ensures ErrorTrue(s, c, Attempt(s, c).error)
  {
    hide Inv, Spec.CreateRound, Spec.Commit, Spec.OpenReveal, Spec.Reveal, Spec.Clear, Spec.Settle, Spec.Void;
    hide CreateRoundSays, CommitSays, OpenRevealSays, RevealSays, ClearSays, SettleSays, VoidSays;
    match c {
      case CreateRound(o, r, rule, cd, rd, len) => CreateRoundRefused(s, o, r, rule, cd, rd, len);
      case Commit(rid, b, h, len, e, blob, seal) => CommitRefused(s, rid, b, h, len, e, blob, seal);
      case OpenReveal(rid, ok) => OpenRevealRefused(s, rid, ok);
      case Reveal(rid, b, v, n) => RevealRefused(s, rid, b, v, n);
      case Clear(rid) => ClearRefused(s, rid);
      case Settle(rid) => SettleRefused(s, rid);
      case Void(rid) => VoidRefused(s, rid);
      case Tick(_) =>
      case TokenTraffic(_) =>
    }
  }
}
