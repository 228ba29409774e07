/** The invariant of a round, and of a contract holding many rounds on one token balance. */
module RoundInvariant {
  import opened Prelude
  import opened RoundTypes
  import opened RoundSpec
  import Commitment
  import Drand

  /** Escrow of the indexed bids that are not settled yet. */
  ghost function Held(bids: map<Address, BidState>, bidders: seq<Address>): int
    decreases |bidders|
  {
    if bidders == [] then 0
    else HeldBy(bids, bidders[0]) + Held(bids, bidders[1..])
  }

  ghost function HeldBy(bids: map<Address, BidState>, bidder: Address): int {
    if bidder in bids && !bids[bidder].settled then bids[bidder].escrow else 0
  }

  ghost function CellHeld(c: Cell): int {
    Held(c.bids, c.round.bidders)
  }

  /** Index and stored bid states name the same bidders, each once; the contract is not among them. */
  ghost predicate IndexMatches(c: Cell) {
    && NoDup(c.round.bidders)
    && |c.round.bidders| <= MAX_BIDDERS
    && (forall a :: a in c.bids <==> a in c.round.bidders)
    && SELF !in c.bids
    && c.round.operator != SELF
  }

  ghost predicate BidOk(sha: seq<byte> -> Bytes32, b: BidState) {
    && b.escrow > 0
    && (b.revealedValue.Some? <==> b.revealedNonce.Some?)
    && (b.valid <==> b.revealedValue.Some? && b.revealedValue.value > 0)
    && (b.revealedValue.Some? ==>
          && b.revealedValue.value <= b.escrow
          && b.commitment == sha(Commitment.BidPreimage(b.revealedValue.value, b.revealedNonce.value)))
  }

  /** committed == payout + refunds + locked, and locked is what the unsettled indexed bids hold. */
  ghost predicate LedgerOk(c: Cell) {
    && 0 <= CellHeld(c) < TWO_127
    && (c.ledger.Some? ==>
          var l := c.ledger.value;
          && l.payout >= 0 && l.refunds >= 0
          && l.committed == l.payout + l.refunds + l.locked
          && l.locked == CellHeld(c))
  }

  /** The ledger in force: the stored one, or the one `ensure_ledger` would seed. */
  ghost function LiveLedger(c: Cell): (l: EscrowLedger)
    requires LedgerOk(c)
    ensures l.payout >= 0 && l.refunds >= 0 && l.locked == CellHeld(c)
    ensures l.committed == l.payout + l.refunds + l.locked
    ensures l.payout == PaidOut(c)
  {
    if c.ledger.Some? then c.ledger.value else EscrowLedger(CellHeld(c), 0, 0, CellHeld(c))
  }

  ghost predicate ScheduleOk(config: Config, r: Round) {
    && r.revealRound > 0
    && Drand.CheckedTimeOfRound(config, r.revealRound).Some?
    && r.commitDeadline < Drand.CheckedTimeOfRound(config, r.revealRound).value < r.revealDeadline
  }

  ghost predicate NoneSettled(c: Cell) {
    forall a :: a in c.bids ==> !c.bids[a].settled
  }

  ghost predicate AllSettled(c: Cell) {
    forall a :: a in c.bids ==> c.bids[a].settled
  }

  ghost function PaidOut(c: Cell): int {
    if c.ledger.Some? then c.ledger.value.payout else 0
  }

  ghost predicate NobodyWon(r: Round) {
    r.winner == None && r.winningBid == 0
  }

  ghost predicate WinnerIsBest(c: Cell) {
    c.round.winner.Some?
    && BestBid(None, c.bids, c.round.rule, c.round.bidders) == Some((c.round.winner.value, c.round.winningBid))
  }

  ghost predicate StatusOk(c: Cell, now: u64) {
    match c.round.status
    case Open =>
      && NoneSettled(c) && PaidOut(c) == 0 && NobodyWon(c.round)
      && (forall a :: a in c.bids ==> c.bids[a].revealedValue == None)
    case Revealing =>
      NoneSettled(c) && PaidOut(c) == 0 && NobodyWon(c.round) && now > c.round.commitDeadline
    case Cleared =>
      NoneSettled(c) && PaidOut(c) == 0 && WinnerIsBest(c) && now > c.round.revealDeadline
    case Settled =>
      AllSettled(c) && WinnerIsBest(c) && (c.ledger.Some? ==> PaidOut(c) == c.round.winningBid)
    case Voided =>
      AllSettled(c) && NobodyWon(c.round) && PaidOut(c) == 0
  }

  ghost predicate RoundInv(s: State, c: Cell) {
    && IndexMatches(c)
    && (forall a :: a in c.bids ==> BidOk(s.sha, c.bids[a]))
    && LedgerOk(c)
    && ScheduleOk(s.config, c.round)
    && StatusOk(c, s.now)
  }

  /** Escrow held for rounds 1..n together. */
  ghost function TotalHeld(cells: map<nat, Cell>, n: nat): int {
    if n == 0 then 0
    else TotalHeld(cells, n - 1) + (if n in cells then CellHeld(cells[n]) else 0)
  }

  /** Every round is sound, and the contract's balance is what the rounds hold plus donations. */
  ghost predicate Inv(s: State) {
    && (forall rid :: rid in s.cells <==> 1 <= rid <= s.counter)
    && (forall rid :: rid in s.cells ==> RoundInv(s, s.cells[rid]))
    && Balance(s.balances, SELF) == TotalHeld(s.cells, s.counter) + s.donated
  }

  /** A freshly deployed contract, whatever tokens were sent to its address beforehand. */
  ghost predicate Genesis(s: State) {
    s.counter == 0 && s.cells == map[] && s.log == [] && s.donated == Balance(s.balances, SELF)
  }

  // ---- Facts about held escrow ----------------------------------------------------

  lemma {:induction false} HeldBounds(bids: map<Address, BidState>, bidders: seq<Address>)
    requires forall b :: b in bidders && b in bids ==> bids[b].escrow >= 0
    ensures Held(bids, bidders) >= 0
    decreases |bidders|
  {
    if bidders != [] {
      HeldBounds(bids, bidders[1..]);
    }
  }

  lemma {:induction false} HeldFrame(bids: map<Address, BidState>, other: map<Address, BidState>, bidders: seq<Address>)
    requires forall b :: b in bidders ==> HeldBy(bids, b) == HeldBy(other, b)
    ensures Held(bids, bidders) == Held(other, bidders)
    decreases |bidders|
  {
    if bidders != [] {
      assert bidders[0] in bidders;
      HeldFrame(bids, other, bidders[1..]);
    }
  }

  lemma {:induction false} HeldSplit(bids: map<Address, BidState>, x: seq<Address>, b: Address, y: seq<Address>)
    ensures Held(bids, x + [b] + y) == HeldBy(bids, b) + Held(bids, x + y)
    decreases |x|
  {
    if x == [] {
      assert x + [b] + y == [b] + y && x + y == y;
      assert ([b] + y)[1..] == y;
    } else {
      assert (x + [b] + y)[1..] == x[1..] + [b] + y && (x + y)[1..] == x[1..] + y;
      HeldSplit(bids, x[1..], b, y);
    }
  }

  lemma WithoutOne(s: seq<Address>, i: nat)
    requires NoDup(s) && i < |s|
    ensures NoDup(s[..i] + s[i + 1..]) && ToSet(s[..i] + s[i + 1..]) == ToSet(s) - {s[i]}
  {
    var rest := s[..i] + s[i + 1..];
    forall a
      ensures a in rest <==> a in s && a != s[i]
    {
      if a in s && a != s[i] {
        var j :| 0 <= j < |s| && s[j] == a;
        assert a == if j < i then rest[j] else rest[j - 1];
      }
    }
  }

  lemma {:induction false} HeldUpdate(bids: map<Address, BidState>, bidders: seq<Address>, b: Address, state: BidState)
    requires NoDup(bidders) && b in bidders
    ensures Held(bids[b := state], bidders)
            == Held(bids, bidders) - HeldBy(bids, b) + (if state.settled then 0 else state.escrow)
    decreases |bidders|
  {
    if bidders[0] == b {
      HeldFrame(bids, bids[b := state], bidders[1..]);
    } else {
      HeldUpdate(bids, bidders[1..], b, state);
    }
  }

  lemma {:induction false} HeldAppend(bids: map<Address, BidState>, bidders: seq<Address>, b: Address)
    ensures Held(bids, bidders + [b]) == Held(bids, bidders) + HeldBy(bids, b)
    decreases |bidders|
  {
    if bidders == [] {
      assert bidders + [b] == [b];
      assert Held(bids, [b][1..]) == 0;
    } else {
      assert (bidders + [b])[1..] == bidders[1..] + [b];
      HeldAppend(bids, bidders[1..], b);
    }
  }

  lemma {:induction false} NoneHeld(bids: map<Address, BidState>, bidders: seq<Address>)
    requires forall b :: b in bidders ==> HeldBy(bids, b) == 0
    ensures Held(bids, bidders) == 0
    decreases |bidders|
  {
    if bidders != [] {
      assert bidders[0] in bidders;
      NoneHeld(bids, bidders[1..]);
    }
  }

  lemma {:induction false} TotalHeldUpdate(cells: map<nat, Cell>, n: nat, rid: nat, c: Cell)
    ensures TotalHeld(cells[rid := c], n) ==
            TotalHeld(cells, n)
                + (if 1 <= rid <= n then CellHeld(c) - (if rid in cells then CellHeld(cells[rid]) else 0) else 0)
  {
    if n > 0 {
      TotalHeldUpdate(cells, n - 1, rid, c);
    }
  }

  /** One round's share never exceeds the total. */
  lemma {:induction false} HeldWithinTotal(s: State, n: nat, rid: nat)
    requires forall r :: r in s.cells ==> RoundInv(s, s.cells[r])
    ensures TotalHeld(s.cells, n) >= 0
    ensures 1 <= rid <= n && rid in s.cells ==> CellHeld(s.cells[rid]) <= TotalHeld(s.cells, n)
  {
    if n > 0 {
      HeldWithinTotal(s, n - 1, rid);
    }
  }

  /** Enough tokens are there for everything one round may still pay. */
  lemma BalanceCoversRound(s: State, rid: nat)
    requires Inv(s) && rid in s.cells
    ensures Balance(s.balances, SELF) >= CellHeld(s.cells[rid])
  {
    HeldWithinTotal(s, s.counter, rid);
  }

  // ---- The scan agrees with the held escrow -------------------------------------------

  lemma {:induction false} ScanIsHeld(acc: EscrowIndex, bids: map<Address, BidState>, bidders: seq<Address>)
    requires forall b :: b in bidders ==> b in bids && bids[b].escrow >= 0 && !bids[b].settled
    requires 0 <= acc.locked <= acc.locked + Held(bids, bidders) < TWO_127
    ensures Scan(acc, bids, bidders) == Ok(EscrowIndex(acc.locked + Held(bids, bidders), acc.settled))
    decreases |bidders|
  {
    if bidders != [] {
      HeldBounds(bids, bidders[1..]);
      assert bidders[0] in bidders;
      ScanIsHeld(acc.(locked := acc.locked + bids[bidders[0]].escrow), bids, bidders[1..]);
    }
  }

  /** On a live round the guard of every escrow-moving path passes, with the exact locked amount. */
  lemma GuardPasses(s: State, c: Cell)
    requires RoundInv(s, c) && NoneSettled(c)
    ensures ScanBidderIndex(c) == Ok(EscrowIndex(CellHeld(c), 0))
    ensures EnsureLedger(c) == Ok(LiveLedger(c))
    ensures ProveConserved(c, LiveLedger(c)) == Ok(EscrowIndex(CellHeld(c), 0))
  {
    ScanIsHeld(EscrowIndex(0, 0), c.bids, c.round.bidders);
  }
}
